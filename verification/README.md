# sfsql-proxy: a verified model

sfsql-proxy is a MySQL proxy that replicates statements over several backends and can clone
running database servers. This project models the parts of it where correctness is hardest and
proves what they guarantee, in Dafny 4.11. `dafny verify dfyconfig.toml` checks everything.

## What is modelled

**Replicated commit and cloning** (`VoteMask`, `Counting`, `CommitProtocol`, `CommitInvariant`,
`CommitTheorems`, `CommitHistory`, `CloneGate`, `CommitAgreement`, `RecordWait`, `RecordHistory`,
`CommitProgress`, `CloneCommands`, `Races`). A state machine with one program counter per thread: any number of concurrent replicated queries, each with a dispatching
client thread, one worker per backend, a coordinator record, the clones forked while the query ran
and one coordinator thread per clone message, and any number of PROXY CLONE commands, each in a
thread of its own. A run is any sequence of enabled steps. One inductive invariant over all of this
carries the theorems about every interleaving: agreement, life of the coordinator record, the commit
gate, and what the client is told. `CommitHistory` and `RecordHistory` state the decisions, the clone
generation and the walk over the clones in terms of the steps of the run alone: what each backend
answered, what each clone reported, how each command fared and which order was delivered.
`CommitProgress` shows which waits can hold a query up.

Expected properties that do not hold of the code as it is come with the exact condition under which
they do and with a run in `Races` in which they fail:

- Workers of one query can disagree, for three reasons.
  1. The commit gate tests `cloning` and increments `committing` in two steps, and a command does not
     see a worker between the two. It then makes its clone between the checks of two workers, and
     they disagree although they started in the same generation (`CloneWhileCommitting`).
  2. Two PROXY CLONE commands overlap: only `req_clones` keeps them apart, and it is tested after the
     wait for `committing`. The first clears `cloning` while the second is still about to change the
     generation, which opens the gate to the same effect (`OverlappingCommands`).
  3. One worker started before a clone and another after it (`MixedGenerations`).

  `CommitAgreement` shows that these are all. If a command passes its wait only while `cloning` is set
  and no worker stands between test and increment, and clears `cloning` only while no other command is
  between its wait and its last change of the generation, then every worker of a query checks against
  one and the same generation, workers that started in the same generation agree, and two workers
  disagree exactly in the third case, when the query succeeded everywhere and a clone failed.
  `GateHoldsIff` and `GateExcludesIff` show that the condition is exact for keeping commits out.
- `req_clones` keeps PROXY CLONE commands apart only if no two stand between its test and its assignment
  (`ClaimsExclude`); otherwise both clone (`BothClaim`).
- A command that the master refuses leaves `cloning` and `req_clones` set. If no other command is about to
  clear `cloning`, every later command is refused and no query is committed again (`JammedForever`,
  `MasterRefuses`).
- A clone that loses the acknowledgement of its vote rolls back alone although its vote counts.
- The thread that handles the last vote waits for all local workers with `result_mutex` in its hands.
  If one of them passed without reading the record, it waits forever, and no vote of any transaction is
  counted again (`RecordWait`). The third disagreement ends in such a state.
- The dispatching thread returns as soon as the replying worker is done, and `results` and the barrier
  are its variables. Another worker may have to read `results` after that (`ReturnsEarly`); it is never
  the replying one (`LateReaderIsNotReplier`).

What counts as one step is a modelling decision. These are one step each: the dispatch loop, because
it rewrites `commit->committing` in every iteration; the update of `clone_ids`, `num` and `success` by
a result message; the assignment of `num` and `success` by a decision message; leaving the record
search loop and the generation test behind it; the search for a record and its creation by a result
message; the broadcast with the locking around it; reading `num` and `success` after the wait;
counting `done` with the signal that may follow; setting `req_clones` and `new_clones`. Everything else
is one read or write of a shared variable, and memory is sequentially consistent. A `commitdata_t`, the
`results` and the barrier serve one query only and outlive it, the number of backends is fixed during a
query, two-phase commit is on, and `total` is a given number of clones, at least one. The source lets
the last vote wait for `proxy_backend_num() - total` local workers; with a fixed number of backends and
`total` new ones that is the number of workers of the query, which the model uses. Three choices allow
more runs than the code has: a dispatch does not wait until `cloning` is cleared, a clone may report at
any time after the dispatch, and a condition wait may wake up at any time. In the runs of `Races` a
query is dispatched only while `cloning` is clear, and the clones report after one was made.

**Counting votes** (`CloneVotes`, `CloneComplete`). The coordinator's records as objects updated in
place, for every sequence of messages over any set of transactions, and the delivery of decisions.

**The hash table** (`HashTable`). Linked entries in a bucket array that is rehashed in place,
against a list of values per key and, for unique keys, against a finite map.

**The lock pool** (`LockPool`). The availability array, its counter and its growth, against the map
of who holds what.

**libltdl** (`Text`, `Argz`, `ArgzBuffer`, `SearchPath`, `ModuleHandles`). Argument vectors as byte
buffers against lists of strings, canonical search paths against split, normalise and join, and the
list of module handles with the loop that closes all of them.

**Small text formats** (`Decimal` and `QueryTag` in QueryTag.dfy, `BackendFile`). The transaction
number appended to a query, and the file that lists the backends.

Integers of the source whose width matters are bounded explicitly: the 32-bit shifts of the vote
mask and of the pool size, the conversions of `strtol` results to `int` and `unsigned long`, and
the range of `long`. The hash function is an arbitrary function of the key, random numbers and
answers of the network are parameters, and memory allocation succeeds.

## Model

| member | source | states |
|---|---|---|
| `VoteMask.ShiftsFit` | src/proxy_backend.c:1162-1163 | for 1 to 30 backends no shift of the vote code leaves the range of a 32-bit int |
| `VoteMask.BitTestReadsVoters` | src/proxy_backend.c:1097-1098 | the per-backend test after a query reads back exactly the backends that voted |
| `VoteMask.FullIffAllVoted` | src/proxy_backend.c:1379 | OR-ing bits in any order and with repeats gives the full mask if and only if every backend voted |
| `CommitInvariant.StepKeepsInv` | src/proxy_backend.c:1403-1579 | every step of every thread keeps the invariant of the protocol, for any number of queries, backends and clones |
| `CommitInvariant.RunKeepsInv` | src/proxy_backend.c:1403-1579 | the invariant holds at the end of every interleaving |
| `CommitInvariant.WorkerKeepsInv` | src/proxy_backend.c:1297-1385 | every step of a worker keeps barrier count, ballots, lock ownership, record and decisions of its query consistent |
| `CommitInvariant.HandlerKeepsInv` | src/proxy_cmd.c:612-675 | every step of a coordinator thread that handles a vote keeps the record of the query consistent |
| `CommitInvariant.CloneKeepsInv` | src/proxy_backend.c:1204-1278 | every step of a clone keeps votes, orders and actions consistent |
| `CommitTheorems.RecordDecision` | src/proxy_cmd.c:637-648 | a record with all its votes says success if and only if every clone reported SUCCESS |
| `CommitTheorems.WorkerDecision` | src/proxy_backend.c:1157-1170 | a worker acts only after all threads of the query reached the barrier, and commits if and only if every backend succeeded and, where it consulted the record, every clone did |
| `CommitTheorems.WorkersDisagreeIff` | src/proxy_backend.c:1312-1380 | in every run, two workers of a query end differently if and only if exactly one read the record, all backends succeeded and some clone failed; `CommitAgreement` says which workers read it |
| `CommitTheorems.AgreementWithoutCloning` | src/proxy_backend.c:1517-1532 | if the generation stays the same from the dispatch on, all workers take the same action, COMMIT if and only if every backend succeeded, and the client is told the same |
| `CommitTheorems.ReadErrorGivesNoVote` | src/proxy_backend.c:1450-1457 | after a read error on one backend not every backend counts as successful |
| `CommitTheorems.ReadErrorRollsBack` | src/proxy_backend.c:1450-1457 | after a read error on one backend every other worker that acts rolls back |
| `CommitTheorems.AbortBlocksRound` | src/proxy_backend.c:1416-1422 | a worker without a connection never joins the barrier, so nobody acts and the client gets no reply |
| `CommitTheorems.ClientWaitsForReplier` | src/proxy_backend.c:1083-1102 | the dispatching thread passes its final lock only after the replying worker sent the reply and its own COMMIT or ROLLBACK, read errors aside, and then sets its error flag if and only if some backend failed |
| `CommitTheorems.LateReaderIsNotReplier` | src/proxy_backend.c:1089-1091 | when the dispatching thread has returned, a worker that has still to read `results` is not the replying one |
| `CommitTheorems.ReplyDecision` | src/proxy_backend.c:1517-1532 | the client is told OK if and only if every backend succeeded and, where the replying worker consulted the record, every clone did |
| `CommitTheorems.CloneDecision` | src/proxy_backend.c:1253-1265 | a clone commits only if all clones voted SUCCESS, and every clone that waits for the decision follows it |
| `CommitTheorems.ClonesDisagreeIff` | src/proxy_backend.c:1229-1239 | two clones end differently if and only if the decision is COMMIT and exactly one of them lost its connection to the coordinator |
| `CommitTheorems.OriginalCommitBindsClones` | src/proxy_backend.c:1348-1366 | if a backend commits after consulting the record, the decision sent to the clones is COMMIT and only a clone that lost its connection can roll back |
| `CommitTheorems.RecordLife` | src/proxy_cmd.c:642-673 | the decision fires once, with the last vote; the record is removed and freed only after every local worker has read it |
| `CommitTheorems.NoUseAfterFree` | src/proxy_cmd.c:654-672 | no step of a worker or coordinator thread touches a record that was removed or freed by another |
| `CommitTheorems.RecordExclusive` | src/proxy_cmd.c:654-669 | a thread that reads, counts in, waits on, signals or removes the record is alone with it, so no worker is between its test and its wait when the broadcast comes |
| `CommitHistory.DecisionByAnswers` | src/proxy_backend.c:1440-1532 | in every run a worker that acts commits if and only if the answer of every backend, as the run has it, was good and, where the worker read the record, the report of every clone was SUCCESS |
| `CommitHistory.ReplyByAnswers` | src/proxy_backend.c:1517-1532 | the client is told OK under exactly the same condition on the answers and reports in the run, for the replying worker |
| `CommitHistory.AgreementByAnswers` | src/proxy_backend.c:1312-1380 | if the generation stays the same from the dispatch on, every action and the reply are OK if and only if the answer of every backend in the run was good |
| `CommitHistory.CloneByVotes` | src/proxy_backend.c:1204-1278 | a clone that waited for the decision commits if and only if every clone reported SUCCESS in the run; one that lost its connection rolls back |
| `CommitHistory.GenerationCounts` | src/proxy_cmd.c:306-312 | in every run the clone generation is the number of commands whose master made the clones, less those that timed out without any |
| `CommitHistory.CommandOutcome` | src/proxy_clone.c:143-151 | a command that has ended raised the generation for good if and only if its clones came up |
| `CommitHistory.LoneCommand` | src/proxy_clone.c:143-151 | after a single command the generation is one if its clones came up and otherwise what it was |
| `RecordHistory.EveryCloneNotified` | src/proxy_cmd.c:647-648 | before the local workers are woken, every clone was sent the decision once, in the order of the votes; those it reached were told COMMIT if and only if every clone reported SUCCESS in the run |
| `RecordHistory.RecordFreedAtEnd` | src/proxy_cmd.c:654-672 | when all threads that handle votes of a query are through, its record has been freed |
| `RecordHistory.MutexOwned` | src/proxy_cmd.c:612-675 | `result_mutex` is held only by a thread that is inside the handling of a vote, in every run |
| `CloneGate.CommittingCounts` | src/proxy_backend.c:1488-1489 | in every reachable state `committing` is the number of workers inside the commit phase |
| `CloneGate.GateStep` | src/proxy_backend.c:1468-1490 | a worker at the gate whose sibling commits is never blocked, each of its steps brings it closer to the exit and no step of another thread, the cloner included, sets it back |
| `CloneGate.GateBound` | src/proxy_backend.c:1468-1490 | in every interleaving it leaves the gate within three of its own steps, whatever `cloning` is |
| `CloneGate.OpenGateBound` | src/proxy_backend.c:1473-1486 | whenever `cloning` is clear and nobody commits at its steps, a worker leaves the gate within three of them, with or without a sibling that commits |
| `CloneGate.GateExcludesIff` | src/proxy_cmd.c:294-296 | while nobody commits, no worker can enter the commit phase before `cloning` is cleared if and only if `cloning` is set and no worker is between its test of it and its increment of `committing` |
| `CommitAgreement.GateHoldsIff` | src/proxy_cmd.c:294-315 | when a command passes its wait or clears `cloning` and some command is between its wait and its last change of the generation, nobody can come to commit before the next clearing if and only if the condition for agreement held in that step |
| `CommitAgreement.GenerationChangesOutsidePhase` | src/proxy_cmd.c:294-315 | with any number of PROXY CLONE commands, in runs that keep the condition, the generation changes only while no worker of any query is in the commit phase |
| `CommitAgreement.OneGeneration` | src/proxy_backend.c:1312 | in such runs all workers of a query behind the barrier check against one generation, the current one as long as one of them is in the commit phase |
| `CommitAgreement.GuardedDecision` | src/proxy_backend.c:1312-1380 | a worker commits if and only if every backend succeeded and, when it started in another generation, every clone did |
| `CommitAgreement.GuardedDisagreeIff` | src/proxy_backend.c:1312-1380 | in such runs two workers of a query end differently if and only if exactly one started in that generation, all backends succeeded and some clone failed |
| `CommitAgreement.EqualStartsAgree` | src/proxy_backend.c:1412-1414 | in such runs workers that started in the same generation take the same action |
| `RecordWait.WaitEndsIff` | src/proxy_cmd.c:659-665 | the wait of the last vote ends, and the record is removed, if and only if every local worker has counted itself |
| `RecordWait.VotesStop` | src/proxy_cmd.c:612-663 | once the last vote is in and some worker judged without the record, hit a read error or had no connection, in every continuation the thread keeps waiting and holds `result_mutex`, and no vote of any transaction is counted again |
| `CommitProgress.QueryMoves` | src/proxy_backend.c:1297-1385 | no deadlock inside a query: as long as it is not complete one of its threads can take a step, unless a worker had no connection or waits for a record that is not in the table |
| `CommitProgress.VoteMoves` | src/proxy_cmd.c:612-675 | a vote that has arrived never waits for threads that are all blocked |
| `CloneCommands.ClaimsExclude` | src/proxy_clone.c:193-202 | in every run in which no command tests `req_clones` while another is between its test and its assignment, at most one command is past the test |
| `CloneCommands.OthersRefused` | src/proxy_cmd.c:299-300 | as long as that command has not cleared `req_clones`, any other is refused and changes nothing but its own state |
| `CloneCommands.MasterError` | src/proxy_cmd.c:304-308 | when the master fails a command that is alone, `req_clones` and `cloning` stay set for good if and only if no other command is about to clear `cloning` |
| `CloneCommands.JammedForever` | src/proxy_cmd.c:294-308 | after that, in every continuation, every command is refused, the generation stays, `cloning` is never cleared and no worker of any query commits or rolls back |
| `Races.MixedGenerations` | src/proxy_backend.c:1312-1380 | a state in which one worker of a query committed and its sibling rolled back, reached by a run that keeps the condition: they started in different generations; no vote is ever counted again |
| `Races.CloneWhileCommitting` | src/proxy_backend.c:1473-1489 | a reachable state in which two workers that started in the same generation ended differently, because the command did not see a worker at the gate; no run that keeps the condition leads to it |
| `Races.OverlappingCommands` | src/proxy_cmd.c:295-315 | another such state, because the first of two commands cleared `cloning` after the second had passed its wait; no worker was at the gate when either passed |
| `Races.BothClaim` | src/proxy_clone.c:193-202 | a reachable state in which two commands passed the test of `req_clones` and both made their clones |
| `Races.MasterRefuses` | src/proxy_cmd.c:294-308 | a reachable state in which the only command has ended and nothing will be committed again |
| `Races.LostAcknowledgement` | src/proxy_backend.c:1229-1239 | a reachable state in which one clone committed and another rolled back |
| `Races.ReturnsEarly` | src/proxy_backend.c:995-998 | a reachable state in which the dispatching thread has returned and the other worker has still to read `results`, a variable of that thread |
| `Races.GateContended` | src/proxy_backend.c:1468-1490 | a reachable state in which one worker is inside the commit phase, its sibling at the gate and `cloning` set, so the bound above is about something that happens |
| `CloneVotes.PendingBound` | src/proxy_cmd.c:637-643 | an open record has fewer votes than the generation of its first vote has clones |
| `CloneVotes.GroupShape` | src/proxy_cmd.c:642-648 | every decision rests on exactly as many votes as the generation of the first has clones, all for the same transaction |
| `CloneVotes.VotesConserved` | src/proxy_cmd.c:616-643 | the votes for a transaction are those of its decisions followed by the pending ones: none lost, repeated or reordered |
| `CloneVotes.OneDecisionPerTotal` | src/proxy_cmd.c:642-648 | as long as the number of clones stays the same, a transaction was decided exactly once for every `total` votes, and fewer than `total` are pending |
| `CloneVotes.Record.Add` | src/proxy_cmd.c:637-640 | recording a vote extends the list of reporters in place, leaves the free slots at -1 and makes `success` the conjunction of the votes |
| `CloneVotes.Coordinator.Open` | src/proxy_cmd.c:616-635 | the record found or created holds exactly the pending votes, with room for the clones of the generation of its first vote, and is shared with no other transaction |
| `CloneVotes.Coordinator.Count` | src/proxy_cmd.c:616-640 | counting a vote changes the record of its transaction only |
| `CloneVotes.Coordinator.Finish` | src/proxy_cmd.c:642-665 | a complete record is turned into one decision for its clones and leaves the table |
| `CloneVotes.Coordinator.Accept` | src/proxy_cmd.c:612-675 | for every sequence of messages there is one decision for each complete group of votes, for its transaction and its clones in their order, and COMMIT if and only if all votes of the group are SUCCESS |
| `CloneVotes.Coordinator.Report` | src/proxy_cmd.c:591-607 | a message is refused if and only if a number is missing or out of range, the clone number as an int is not positive or the transaction number as an unsigned long is zero, and then nothing changes; otherwise it is counted as a vote, and the decisions follow the votes as above |
| `CloneComplete.FirstAt` | src/proxy_backend.c:767-768 | the first backend at an address, or nothing if no backend is there |
| `CloneComplete.Complete` | src/proxy_backend.c:753-805 | every clone with a backend gets the order at the first backend with its address, and the result is an error if and only if some clone has none |
| `CloneComplete.OrdersOne` | src/proxy_backend.c:762-792 | a clone gets one order, the decision for the transaction at the first backend with its address, and none if there is no such backend |
| `CloneComplete.OrdersAppend` | src/proxy_backend.c:762-792 | the orders for a list of clones are those of its parts, in order, whichever clones have a backend |
| `CloneComplete.OrdersReachClones` | src/proxy_backend.c:762-792 | when each clone has a backend and an address of its own, each gets the decision exactly once and no other backend gets anything |
| `HashTable.Create` | src/hashtable/hashtable.c:90-110 | a new table is empty and has the least prime size above the one asked for; it is refused if and only if that is above 2^30 |
| `HashTable.LoadLimit` | src/hashtable/hashtable.c:26 | the limit is the least number of entries that is at least 65 percent of the size |
| `HashTable.PrimesDouble` | src/hashtable/hashtable.c:16-25 | each size of the table is between 1.8 and 2.1 times the one before |
| `HashTable.SpreadKeepsEntries` | src/hashtable/hashtable.c:131-138 | moving entries to other buckets keeps the multiset of entries |
| `HashTable.ExpandEntries` | src/hashtable/hashtable.c:113-141 | expansion keeps the multiset and the number of entries |
| `HashTable.ExpandReverses` | src/hashtable/hashtable.c:129-138 | expansion exactly reverses the order of the values of every key |
| `HashTable.ReverseAt` | src/hashtable/hashtable.c:129-138 | reversed means that the i-th value from the front was the i-th from the end |
| `HashTable.MoveAll` | src/hashtable/hashtable.c:131-138 | the in-place relinking moves every entry to the bucket of its hash and nothing else |
| `HashTable.Table.Expand` | src/hashtable/hashtable.c:113-169 | the table grows to the next prime unless it has the largest, with every entry in bucket hash mod length |
| `HashTable.Table.Insert` | src/hashtable/hashtable.c:179-202 | the new value comes first among those of its key, the older ones are reversed if and only if the insertion grew the table, which it does if and only if the table was 65 percent full and not of the largest size; afterwards it is not over that load but for one entry |
| `HashTable.Table.Search` | src/hashtable/hashtable.c:205-220 | a search gives the first value of the key, and nothing if and only if there is none |
| `HashTable.Table.Remove` | src/hashtable/hashtable.c:223-253 | removal takes out and returns the first value of the key and leaves all others |
| `HashTable.InsertThenSearch` | src/hashtable/hashtable.c:179-220 | a search straight after an insertion returns the value just inserted, even if the insertion grew the table |
| `HashTable.InsertedUnique` | src/hashtable/hashtable.c:179-202 | inserting a new key keeps the values those of a finite map, grown or not |
| `HashTable.Replay` | src/hashtable/hashtable.c:179-253 | every run of insertions, searches and removals with unique keys, with any number of expansions, answers as a finite map does, the count is the size of the map, and the table stays below its load limit or has the largest size |
| `LockPool.RoundUp` | src/proxy_pool.c:50-52 | the capacity is the least power of two not below the size, without overflow up to 2^30 |
| `LockPool.TurnVisitsAllOnce` | src/proxy_pool.c:167-170 | a scan from any starting point visits every index exactly once |
| `LockPool.TurnIs` | src/proxy_pool.c:164-170 | the scan looks at the index after the random one first and goes around |
| `LockPool.New` | src/proxy_pool.c:34-71 | a new pool has every item free; it is refused if and only if the size is not positive |
| `LockPool.Pool.TryLocks` | src/proxy_pool.c:162-182 | the first free item in cyclic order gets one holder, and the attempt fails if and only if nothing is free |
| `LockPool.Pool.GetLocked` | src/proxy_pool.c:241-255 | the first held item, or -1 if and only if nothing is held |
| `LockPool.Pool.Return` | src/proxy_pool.c:265-280 | a held item becomes free and the counter falls; for a free one only an error is logged |
| `LockPool.Pool.Grow` | src/proxy_pool.c:97-134 | growing keeps held items held, free items free and the counter, with the least power of two as capacity |
| `LockPool.Pool.Drain` | src/proxy_threading.c:113-115 | the shutdown loop ends with nothing held |
| `LockPool.Interleave` | src/proxy_pool.c:97-280 | in every interleaving of get, return and growth the pool is the map of its holders: a get takes the first free item in cyclic order, or nothing if and only if all are held, and an item is handed out again only after it was given back |
| `Argz.EncodeRoundTrip` | libltdl/argz.c:177-208 | a buffer determines its entries |
| `Argz.DecodeRoundTrip` | libltdl/argz.c:177-208 | the buffers that encode a list are exactly the empty one and those that end in a terminator |
| `Argz.WrittenEncodes` | libltdl/argz.c:97-114 | what the copy loop writes, with the last terminator, encodes the entries |
| `Argz.EntriesArePieces` | libltdl/argz.c:80-128 | the entries are exactly the non-empty pieces, in order, if and only if the text is not empty and does not end in a delimiter |
| `Argz.JoinEntriesFolds` | libltdl/argz.c:101-109 | joining the entries gives the text with leading delimiters dropped and each other run folded to one |
| `Argz.FoldIdentity` | libltdl/argz.c:101-109 | folding changes nothing if and only if no delimiter leads or is doubled |
| `Argz.StringifyJoins` | libltdl/argz.c:211-225 | stringifying a vector joins its entries if and only if the first is not empty |
| `Argz.StringifyFolds` | libltdl/argz.c:80-225 | stringify after create_sep folds the delimiters; the buffer is long enough for it if and only if the text has something besides delimiters |
| `Argz.InsertRefines` | libltdl/argz.c:142-171 | inserting at any place inside an entry puts the new entry before it in the list |
| `Argz.CompareOrder` | libltdl/ltdl.c:1716-1719 | comparison of entries is zero for equal ones only, and antisymmetric |
| `Argz.CompareIsLexical` | libltdl/ltdl.c:1716-1719 | an entry is below another if and only if it is a proper prefix or has the smaller character at the first difference |
| `Argz.CompareTransitive` | libltdl/ltdl.c:1716-1719 | comparison of entries is transitive |
| `Argz.InsertAscending` | libltdl/ltdl.c:1712-1720 | an entry put between smaller and greater ones is new and keeps the list strictly ascending |
| `ArgzBuffer.Vector.Append` | libltdl/argz.c:48-77 | the bytes are appended and the old ones kept |
| `ArgzBuffer.Vector.Insert` | libltdl/argz.c:131-174 | the entry and its terminator are inserted at the start of the entry that the place lies in, or at the end |
| `ArgzBuffer.Vector.Next` | libltdl/argz.c:177-208 | from any place inside an entry, the start of the next entry, and nothing after the last |
| `ArgzBuffer.Vector.Walk` | libltdl/argz.c:177-208 | the loop over argz_next visits exactly the entries, in order |
| `ArgzBuffer.Vector.Search` | libltdl/ltdl.c:1712-1720 | the loop stops at the first entry that is not below the new one, and finds it if and only if they are equal |
| `ArgzBuffer.Vector.InsertInOrder` | libltdl/ltdl.c:1704-1723 | sorted insertion refines set insertion: a strictly ascending vector becomes the strictly ascending vector of the old entries and the new one, unchanged if it was there |
| `ArgzBuffer.Vector.Stringify` | libltdl/argz.c:211-225 | every terminator but the first byte and the last becomes the separator |
| `ArgzBuffer.CreateSep` | libltdl/argz.c:80-128 | the vector holds the non-empty pieces of the text, and an empty entry if the text is empty or ends in a delimiter; the length is the bytes written and the terminator |
| `SearchPath.NormTidy` | libltdl/ltdl.c:597-617 | a normalised element has no doubled or trailing slash and no more characters than before, is empty if and only if it was all slashes, and unchanged if and only if it was tidy |
| `SearchPath.NormKeepsNames` | libltdl/ltdl.c:597-617 | normalising keeps the names between slashes, in order |
| `SearchPath.ScanCanonical` | libltdl/ltdl.c:582-618 | the scan with lookahead computes, for every path: split at colons, drop empty elements, normalise each, drop leading elements of slashes only, join |
| `SearchPath.NoLonger` | libltdl/ltdl.c:582-618 | the result is never longer than the path |
| `SearchPath.CanonicalPlain` | libltdl/ltdl.c:569-628 | without elements of slashes only, the result is the normalised non-empty elements joined again, without leading, trailing or doubled separator, and stable |
| `SearchPath.CanonicalIdempotentIff` | libltdl/ltdl.c:569-628 | a second pass changes nothing if and only if no element is all slashes after one that is not |
| `SearchPath.CanonicalCleanIff` | libltdl/ltdl.c:586-595 | no separator leads, trails or is doubled under exactly the same condition |
| `SearchPath.NotIdempotent` | libltdl/ltdl.c:569-628 | between any two tidy elements an element of slashes gives a path that a second pass changes again |
| `SearchPath.Canonicalize` | libltdl/ltdl.c:569-628 | the loop fills the destination with the canonical path and its terminator |
| `SearchPath.VisitedIff` | libltdl/ltdl.c:661-723 | a search visits the non-empty canonical elements in order, and an extra empty one if and only if the path does not end in a name |
| `SearchPath.VisitedFromPath` | libltdl/ltdl.c:661-723 | for a path that ends in a name, the directories are its elements between colons, normalised, without those that are empty or only slashes |
| `SearchPath.ForeachDir` | libltdl/ltdl.c:661-723 | the callback gets one name for each visited directory, in order, up to the first result that is not zero, which is returned; the names between slashes are those of the directory followed by those of the base name |
| `ModuleHandles.Ltdl.Close` | libltdl/ltdl.c:1902-1964 | one reference is dropped; the module is closed and unlinked if and only if that was the last one and it is not resident; the errors are those of closing it, or one for an unknown or resident handle |
| `ModuleHandles.Ltdl.CloseAt` | libltdl/ltdl.c:1925-1953 | closing a listed non-resident handle lowers the sum of outstanding references |
| `ModuleHandles.Ltdl.Pass` | libltdl/ltdl.c:280-316 | one pass over the list keeps the schedule by which a module with n references is closed in pass 2n - 1; it lowers the sum of references or leaves a handle whose count is above the level, and sees only residents if and only if only residents are left |
| `ModuleHandles.Ltdl.CloseAll` | libltdl/ltdl.c:269-316 | for every list and all counts the shutdown terminates with each non-resident module closed exactly once, those with fewer references first and equal ones in list order, and no resident one closed, and counts the modules whose closing failed |
| `ModuleHandles.VisitOnTime` | libltdl/ltdl.c:292-298 | in the pass of level l a module that began with n references loses one if and only if n is at most l, and is closed if and only if l is 2n - 1 |
| `ModuleHandles.BooksAfterClose` | libltdl/ltdl.c:280-316 | closing one handle keeps the account of listed and closed handles |
| `Decimal.NumberOfDigits` | src/proxy_backend.c:1018-1020 | a printed number reads back as itself |
| `Decimal.DigitsLength` | src/proxy_net.h:20-24 | a number has at most k digits if and only if it is below ten to the k |
| `Decimal.NumberPlaces` | src/proxy_backend.c:1188-1196 | a string of digits is the number with those digits at its decimal places, the last one lowest |
| `Decimal.StrtolReads` | src/proxy_backend.c:1188-1196 | of any spaces, sign, digits and further text the signed number is read, cut off at the range of a long, which is reported |
| `Decimal.StrtolOfDigits` | src/proxy_backend.c:1188-1196 | a printed number is read back if it fits a signed long and reported out of range if not |
| `QueryTag.TagRoundTrip` | src/proxy_backend.c:1179-1197 | whatever the query text holds, the number appended to it comes back if it fits a signed long, and zero comes back if not |
| `QueryTag.IdIsLastNumber` | src/proxy_backend.c:1179-1197 | for any query the result is the number behind the last dash, or zero if it does not fit a signed long or there is no dash |
| `QueryTag.TagFits` | src/proxy_net.h:26-30 | a tag never exceeds the size set aside for it, and takes all of it if and only if the number has twenty digits |
| `BackendFile.CountLines` | src/proxy_backend.c:495-507 | the first pass counts the newline-terminated lines that are not blank |
| `BackendFile.LinesAppend` | src/proxy_backend.c:495-507 | text behind the last newline is no line, and becomes the next line with its newline |
| `BackendFile.NextToken` | src/proxy_backend.c:518-533 | each call gives the next token of the file, and nothing after the last |
| `BackendFile.TokensByLine` | src/proxy_backend.c:518-533 | the tokens of the file are those of its lines, in order |
| `BackendFile.SlotTokens` | src/proxy_backend.c:495-533 | there is a token for every counted line, and with at most one token on each line, the i-th token is that of the i-th non-blank line |
| `BackendFile.ReadBackends` | src/proxy_backend.c:495-537 | there is one slot for every non-blank line, and slot k holds the host of token k of the text before the first terminator, or nothing if there is no such token; no line with text is an error |
| `BackendFile.AllFilledIff` | src/proxy_backend.c:495-533 | every slot is filled if and only if the lines before the first terminator hold as many tokens as the file has non-blank lines; without a terminator in the file they always do |
| `BackendFile.NulLeavesSlot` | src/proxy_backend.c:495-533 | a line that begins with a terminator is counted but leaves its slot empty |
| `BackendFile.HostRoundTrip` | src/proxy_backend.c:522-529 | a host and port written as a token are read back, and without a port it is 3306 |
| `BackendFile.HostAtColon` | src/proxy_backend.c:522-529 | the host ends at the first colon and the port is the number behind it |
| `BackendFile.VisibleIs` | src/proxy_backend.c:518-533 | the tokens are read from the text before the first terminator |

## Left out

- ArgzBuffer.Vector.Stringify: with a separator it requires at least two bytes, because on shorter buffers the length of the source wraps around; `StringifyFolds` says when that is met.
- SearchPath.ForeachDir: with a base name it requires a path that ends in a name, because for an empty directory the source reads the byte before the buffer.
- CloneComplete.Complete: requires that every clone number can be looked up, because the source uses the result of the lookup without a test; connection pool and errors of the sent statement are not modelled.
- ModuleHandles.Ltdl.Close: there are no dependent libraries, as in the build without dependency loading; what closing a module answers is a given function of the handle.
- LockPool.Pool.Grow: shrinking is left out; the source does not adjust the counter when it shrinks.
- LockPool.New: sizes above 2^30 are excluded, because the doubling of the source overflows an int there.
- CommitTheorems.RecordLife: the number of local workers stands for `proxy_backend_num() - total`, which is the same while the number of backends is fixed.
- Argz.StringifyJoins: excludes the vector of one empty entry, for the same reason as Stringify.
- HashTable.LoadLimit: the exact ceiling of 0.65 times the size, without the rounding of the single-precision product.
- HashTable.Table.Expand: the realloc path for failed allocations is left out; that the sizes are primes is not used.
- BackendFile.ReadBackends: opening and reading the file is left out.
- Fairness and liveness: no claim is made that a thread is scheduled, or that a wait for a pool item ends.
- `commitdata_t` is reused by the source as soon as the replying worker is done, and `results` and the barrier are gone then; the model gives each query its own for good.
- Worker steps for queries sent to a single backend, and result rows: no decision depends on them.
- Cloning itself, on the master and in the wait for new clones: steps that succeed or fail.
- A clone that reports on a transaction twice: in the protocol each clone reports once; `CloneVotes` allows any sequence of messages.
- Sockets, handshake, packets, logging, signals, option parsing, status counters and the query mapper: input and output, or easy.
- `proxy_pool_remove`, `lt_dlhandle_map`, `slist_sort` and `src/sql_string.c`: not on the main paths of the proxy.
- The hash function: any function of the key will do.
