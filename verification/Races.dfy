/** Runs that show where the protocol does not agree, and that the gate is contended.

    Each lemma takes a few steps and ends in a state that is written out.
 */
module Races {
  import opened Options
  import opened VoteMask
  import opened CommitProtocol
  import opened CommitTheorems
  import opened CloneGate
  import opened CommitAgreement
  import opened RecordWait
  import opened CloneCommands

  /** The run goes on to `e`, and the gate holds in it if it held before. */
  ghost predicate Leads(s: State, e: State) {
    Reachable(e) && (GuardedReachable(s) ==> GuardedReachable(e))
  }

  lemma Begin() returns (s: State)
    ensures Reachable(s) && GuardedReachable(s) && s == Initial()
  {
    assert Runs(Initial(), []) && Guarded(Initial(), []) && After(Initial(), []) == Initial();
    s := Initial();
  }

  lemma Take(s: State, l: Label) returns (e: State)
    requires Reachable(s) && Enabled(s, l)
    ensures e == Do(s, l) && Reachable(e) && (GateHolds(s, l) ==> Leads(s, e))
  {
    ReachStep(s, l);
    e := Do(s, l);
    if GuardedReachable(s) && GateHolds(s, l) { GuardedStep(s, l); }
  }

  /** A step of the first worker of the only query, which has two. */
  lemma First(s: State, w: Worker, v: Worker) returns (e: State)
    requires Reachable(s) && |s.txns| == 1 && s.txns[0].workers == [w, v] && WorkerCan(s.g, s.txns[0], 0, Good)
    ensures Leads(s, e)
    ensures var x := s.txns[0];
      e == State(s.g.(committing := NextCommitting(s.g, w)),
                 [x.(workers := [NextWorker(s.g, x, w, Good), v],
                     commit := NextCommit(x, 0, w), rec := NextRecord(x, 0, w))])
  {
    e := Take(s, Work(0, 0, Good));
    assert e.txns[0].workers == [NextWorker(s.g, s.txns[0], w, Good), v];
  }

  lemma Second(s: State, w: Worker, v: Worker) returns (e: State)
    requires Reachable(s) && |s.txns| == 1 && s.txns[0].workers == [w, v] && WorkerCan(s.g, s.txns[0], 1, Good)
    ensures Leads(s, e)
    ensures var x := s.txns[0];
      e == State(s.g.(committing := NextCommitting(s.g, v)),
                 [x.(workers := [w, NextWorker(s.g, x, v, Good)],
                     commit := NextCommit(x, 1, v), rec := NextRecord(x, 1, v))])
  {
    e := Take(s, Work(0, 1, Good));
    assert e.txns[0].workers == [w, NextWorker(s.g, s.txns[0], v, Good)];
  }

  // ----- the states on the way ---------------------------------------------------------------

  function New(): Worker { FreshWorker() }

  function Waits(gen: int): Worker { Worker(AwaitResult, false, true, false, gen, None) }

  /** A worker whose backend executed the query. */
  function At(pc: WorkerPc, gen: int): Worker { Worker(pc, true, true, false, gen, None) }

  function Query(total: nat, w: Worker, v: Worker): Txn {
    FreshTxn(2, 0, total).(workers := [w, v])
  }

  function Votes1(ballots: seq<nat>, arrived: nat): CommitData {
    CommitData(ballots, arrived, false, true, HeldByReplier, None)
  }

  /** The first worker voted and waits at the barrier. */
  function FirstIn(a: int, v: Worker, ballots: seq<nat>, arrived: nat): Txn {
    Query(1, At(AtBarrier, a), v).(commit := Votes1(ballots, arrived))
  }

  /** The barrier is open, the second worker is through it. */
  function Through(a: int, v: Worker): Txn {
    Query(1, At(AtBarrier, a), v).(
      commit := CommitData([0, 1], 3, true, true, HeldByReplier, None), dispatcher := DAtBarrier)
  }

  function Committed(b: int): Worker { At(ReleaseLock, b).(acted := Some(true)) }

  /** The second worker committed, then the only clone voted FAILURE. */
  function CloneFailed(w: Worker, b: int, h: HandlerPc, r: Record): Txn {
    Through(0, Committed(b)).(
      workers := [w, Committed(b)], clones := [Clone(CAwaitAck, false, None, None)], handlers := [h], rec := r)
  }

  function Failure(cv: CvHolder, done: nat): Record { Record(InTable, 1, false, done, [0], cv, 1) }

  /** Nobody clones; `commands` are the PROXY CLONE commands so far. */
  function Calm(generation: int, committing: int, commands: seq<ClonerPc>): Global {
    Global(false, committing, generation, false, commands, NoOne)
  }

  // ----- PROXY CLONE commands --------------------------------------------------------------

  /** A step of command `k` that is neither the end of its wait nor the clearing of `cloning`. */
  lemma Goes(s: State, k: nat) returns (e: State)
    requires Reachable(s) && ClonerCan(s.g, k) && s.g.cloners[k] != KWait && s.g.cloners[k] != KClear
    ensures Leads(s, e) && e == State(ClonerDo(s.g, k, true), s.txns)
  {
    e := Take(s, Cloning(k, true));
  }

  /** A new command announces itself. */
  lemma Announced(s: State) returns (e: State)
    requires Reachable(s)
    ensures Leads(s, e)
    ensures e == State(s.g.(cloning := true, cloners := s.g.cloners + [KWait]), s.txns)
  {
    e := Take(s, Command);
    e := Goes(e, |s.g.cloners|);
    assert e.g.cloners == s.g.cloners + [KWait];
  }

  /** Command `k` claims the right to clone and asks the master. */
  lemma Asked(s: State, k: nat) returns (e: State)
    requires Reachable(s) && k < |s.g.cloners| && s.g.cloners[k] == KPrepare && !s.g.requested
    ensures Leads(s, e)
    ensures e == State(s.g.(requested := true, cloners := s.g.cloners[k := KIncrement]), s.txns)
  {
    e := Goes(s, k);
    e := Goes(e, k);
    e := Goes(e, k);
    assert e.g.cloners == s.g.cloners[k := KIncrement];
  }

  /** Command `k` is past its wait and makes the clone. */
  lemma Made(s: State, k: nat) returns (e: State)
    requires Reachable(s) && k < |s.g.cloners| && s.g.cloners[k] == KPrepare && !s.g.requested
    ensures Leads(s, e)
    ensures e == State(s.g.(requested := true, generation := s.g.generation + 1,
                            cloners := s.g.cloners[k := KClones]), s.txns)
  {
    e := Asked(s, k);
    e := Goes(e, k);
    assert e.g.cloners == s.g.cloners[k := KClones];
  }

  /** The clones came up: command `k` is about to clear `cloning`. */
  lemma CameUp(s: State, k: nat) returns (e: State)
    requires Reachable(s) && k < |s.g.cloners| && s.g.cloners[k] == KClones
    ensures Leads(s, e)
    ensures e == State(s.g.(requested := false, cloners := s.g.cloners[k := KClear]), s.txns)
  {
    e := Goes(s, k);
    e := Goes(e, k);
    assert e.g.cloners == s.g.cloners[k := KClear];
  }

  lemma ClonedOnce(s: State, x: Txn) returns (e: State)
    requires Reachable(s) && s == State(Calm(0, 0, []), [x]) && NonePassing(s)
    ensures Leads(s, e) && e == State(Global(true, 0, 1, true, [KClones], NoOne), [x])
  {
    e := Announced(s);
    e := Take(e, Cloning(0, true));
    assert e.g.cloners == [KPrepare];
    e := Made(e, 0);
    assert e.g.cloners == [KClones];
  }

  /** One command from the beginning to the end. */
  lemma Cloned(s: State, x: Txn) returns (e: State)
    requires Reachable(s) && s == State(Calm(0, 0, []), [x]) && NonePassing(s)
    ensures Leads(s, e) && e == State(Calm(1, 0, [KDone]), [x])
  {
    e := ClonedOnce(s, x);
    e := CameUp(e, 0);
    assert e.g.cloners == [KClear];
    e := Take(e, Cloning(0, true));
    assert e.g.cloners == [KDone];
  }

  // ----- the start -------------------------------------------------------------------------

  lemma Dispatched(s: State, g: Global, total: nat) returns (e: State)
    requires Reachable(s) && s == State(g, []) && total >= 1
    ensures Leads(s, e) && e == State(g, [Query(total, Waits(g.generation), New())])
  {
    e := Take(s, Dispatch(2, 0, total));
    assert e.txns[0].workers == [New(), New()];
    e := First(e, New(), New());
  }

  /** Cloning completes after the first worker started and before the second does. */
  lemma StartApart(total: nat) returns (s: State)
    requires total >= 1
    ensures GuardedReachable(s) && Reachable(s)
    ensures s == State(Calm(1, 0, [KDone]), [Query(total, Waits(0), Waits(1))])
  {
    s := Begin();
    s := Dispatched(s, s.g, total);
    s := Cloned(s, Query(total, Waits(0), New()));
    s := Second(s, Waits(0), New());
  }

  /** The first worker passes the test of `cloning`, which is not set. */
  lemma FirstPasses(s: State, g: Global, a: int, v: Worker) returns (e: State)
    requires Reachable(s) && s == State(g, [Query(1, Waits(a), v)]) && !g.cloning
    ensures Leads(s, e) && e == State(g, [Query(1, At(Gate4, a), v)])
  {
    e := First(s, Waits(a), v);
    e := First(e, At(Gate0, a), v);
    e := First(e, At(Gate1, a), v);
  }

  // ----- the way to the barrier ----------------------------------------------------------------

  lemma FirstVotes(s: State, g: Global, a: int, v: Worker) returns (e: State)
    requires Reachable(s) && s == State(g, [Query(1, At(Gate5, a), v)])
    ensures Leads(s, e) && e == State(g, [Query(1, At(Vote, a), v).(commit := Votes1([], 0))])
  {
    e := First(s, At(Gate5, a), v);
    e := First(e, At(TakeLock, a), v);
  }

  lemma FirstArrives(s: State, g: Global, a: int, v: Worker) returns (e: State)
    requires Reachable(s) && s == State(g, [Query(1, At(Gate5, a), v)])
    ensures Leads(s, e) && e == State(g, [FirstIn(a, v, [0], 1)])
  {
    e := FirstVotes(s, g, a, v);
    e := First(e, At(Vote, a), v);
    assert e.txns[0].commit == Votes1([0], 0);
    e := First(e, At(Arrive, a), v);
  }

  lemma SecondEnters(s: State, g: Global, a: int, b: int) returns (e: State)
    requires Reachable(s) && s == State(g, [FirstIn(a, Waits(b), [0], 1)])
    ensures Leads(s, e) && e == State(g.(committing := g.committing + 1), [FirstIn(a, At(Gate5, b), [0], 1)])
  {
    var w := At(AtBarrier, a);
    e := Second(s, w, Waits(b));
    e := Second(e, w, At(Gate0, b));
    e := Second(e, w, At(Gate4, b));
  }

  lemma SecondVotes(s: State, g: Global, a: int, b: int) returns (e: State)
    requires Reachable(s) && s == State(g, [FirstIn(a, At(Gate5, b), [0], 1)])
    ensures Leads(s, e) && e == State(g, [FirstIn(a, At(Arrive, b), [0, 1], 1)])
  {
    var w := At(AtBarrier, a);
    e := Second(s, w, At(Gate5, b));
    e := Second(e, w, At(TakeLock, b));
    e := Second(e, w, At(Vote, b));
    assert e.txns[0].commit == Votes1([0, 1], 1);
  }

  lemma AllMeet(s: State, g: Global, a: int, b: int) returns (e: State)
    requires Reachable(s) && s == State(g, [FirstIn(a, At(Arrive, b), [0, 1], 1)])
    ensures Leads(s, e) && e == State(g, [FirstIn(a, At(AtBarrier, b), [0, 1], 3).(dispatcher := DAtBarrier)])
  {
    e := Second(s, At(AtBarrier, a), At(Arrive, b));
    e := Take(e, Client(0));
  }

  // ----- the second worker sees its own generation and commits ---------------------------------

  lemma SecondJudges(s: State, g: Global, a: int, b: int) returns (e: State)
    requires Reachable(s) && s == State(g, [FirstIn(a, At(AtBarrier, b), [0, 1], 3).(dispatcher := DAtBarrier)])
    requires g.generation == b
    ensures Leads(s, e) && e == State(g, [Through(a, At(Judge, b))])
  {
    var w := At(AtBarrier, a);
    e := Second(s, w, At(AtBarrier, b));
    e := Second(e, w, At(ClearBarrier, b));
    e := Second(e, w, At(CheckGeneration, b));
  }

  lemma TwoVotesAreFull()
    ensures CommitTest([0, 1], 2)
  {
    FullIffAllVoted([0, 1], 2);
  }

  lemma SecondDecides(s: State, g: Global, a: int, b: int) returns (e: State)
    requires Reachable(s) && s == State(g, [Through(a, At(Judge, b))])
    ensures Leads(s, e) && e == State(g, [Through(a, At(Reply, b))])
  {
    TwoVotesAreFull();
    e := Second(s, At(AtBarrier, a), At(Judge, b));
  }

  lemma SecondCommits(s: State, g: Global, a: int, b: int) returns (e: State)
    requires Reachable(s) && s == State(g, [Through(a, At(Reply, b))])
    ensures Leads(s, e) && e == State(g, [Through(a, Committed(b))])
  {
    e := Second(s, At(AtBarrier, a), At(Reply, b));
    e := Second(e, At(AtBarrier, a), At(Act, b));
  }

  /** From the first worker behind the gate to the commit of the second. */
  lemma SecondFinishes(s: State, g: Global, a: int, b: int) returns (e: State)
    requires Reachable(s) && s == State(g, [Query(1, At(Gate5, a), Waits(b))]) && g.generation == b
    ensures Leads(s, e) && e == State(g.(committing := g.committing + 1), [Through(a, Committed(b))])
  {
    var h := g.(committing := g.committing + 1);
    e := FirstArrives(s, g, a, Waits(b));
    e := SecondEnters(e, g, a, b);
    e := SecondVotes(e, h, a, b);
    e := AllMeet(e, h, a, b);
    e := SecondJudges(e, h, a, b);
    e := SecondDecides(e, h, a, b);
    e := SecondCommits(e, h, a, b);
  }

  // ----- the clone fails, and the first worker follows it --------------------------------------

  lemma CloneReports(s: State, g: Global, a: int, b: int) returns (e: State)
    requires Reachable(s) && s == State(g, [Through(a, Committed(b))]) && g.mutex == NoOne
    ensures Leads(s, e)
    ensures e == State(g.(mutex := HandlerOf(0, 0)),
                        [CloneFailed(At(AtBarrier, a), b, HSearch, Record(Absent, 0, true, 0, [], CvFree, 0))])
  {
    e := Take(s, CloneAct(0, 0, Good, false));
    assert e.txns[0].clones == [Clone(CAwaitAck, false, None, None)] && e.txns[0].handlers == [HQueued];
    e := Take(e, Handle(0, 0, true));
    assert e.txns[0].handlers == [HSearch];
  }

  lemma CloneFails(s: State, g: Global, a: int, b: int) returns (e: State)
    requires Reachable(s) && s == State(g, [Through(a, Committed(b))]) && g.mutex == NoOne
    ensures Leads(s, e)
    ensures e == State(g.(mutex := HandlerOf(0, 0)),
                        [CloneFailed(At(AtBarrier, a), b, HNotify(0), Failure(CvFree, 0))])
  {
    e := CloneReports(s, g, a, b);
    e := Take(e, Handle(0, 0, true));
    assert e.txns[0].handlers == [HUpdate];
    e := Take(e, Handle(0, 0, true));
    assert e.txns[0].handlers == [HNotify(0)] && e.txns[0].rec == Failure(CvFree, 0);
  }

  lemma FirstSearches(s: State, g: Global, a: int, b: int) returns (e: State)
    requires Reachable(s) && g.generation != a
    requires s == State(g, [CloneFailed(At(AtBarrier, a), b, HNotify(0), Failure(CvFree, 0))])
    ensures Leads(s, e)
    ensures e == State(g, [CloneFailed(At(SearchRecord, a), b, HNotify(0), Failure(CvFree, 0))])
  {
    e := First(s, At(AtBarrier, a), Committed(b));
    e := First(e, At(ClearBarrier, a), Committed(b));
    e := First(e, At(CheckGeneration, a), Committed(b));
  }

  function Reads(pc: WorkerPc, a: int): Worker { Worker(pc, true, false, true, a, None) }

  lemma FirstFinds(s: State, g: Global, a: int, b: int) returns (e: State)
    requires Reachable(s) && g.generation != a
    requires s == State(g, [CloneFailed(At(SearchRecord, a), b, HNotify(0), Failure(CvFree, 0))])
    ensures Leads(s, e) && e == State(g, [CloneFailed(At(LockRecord, a), b, HNotify(0), Failure(CvFree, 0))])
  {
    e := First(s, At(SearchRecord, a), Committed(b));
  }

  lemma FirstConsults(s: State, g: Global, a: int, b: int) returns (e: State)
    requires Reachable(s)
    requires s == State(g, [CloneFailed(At(LockRecord, a), b, HNotify(0), Failure(CvFree, 0))])
    ensures Leads(s, e) && e == State(g, [CloneFailed(Reads(CountDone, a), b, HNotify(0), Failure(CvWorker(0), 0))])
  {
    e := First(s, At(LockRecord, a), Committed(b));
    e := First(e, At(InRecord, a), Committed(b));
  }

  lemma FirstLeavesRecord(s: State, g: Global, a: int, b: int) returns (e: State)
    requires Reachable(s)
    requires s == State(g, [CloneFailed(Reads(CountDone, a), b, HNotify(0), Failure(CvWorker(0), 0))])
    ensures Leads(s, e) && e == State(g, [CloneFailed(Reads(Judge, a), b, HNotify(0), Failure(CvFree, 1))])
  {
    e := First(s, Reads(CountDone, a), Committed(b));
    e := First(e, Reads(UnlockRecord, a), Committed(b));
  }

  lemma FirstJudges(s: State, g: Global, a: int, b: int) returns (e: State)
    requires Reachable(s)
    requires s == State(g, [CloneFailed(Reads(Judge, a), b, HNotify(0), Failure(CvFree, 1))])
    ensures Leads(s, e) && e == State(g, [CloneFailed(Reads(Reply, a), b, HNotify(0), Failure(CvFree, 1))])
  {
    e := First(s, Reads(Judge, a), Committed(b));
  }

  lemma FirstRollsBack(s: State, g: Global, a: int, b: int) returns (e: State)
    requires Reachable(s)
    requires s == State(g, [CloneFailed(Reads(Reply, a), b, HNotify(0), Failure(CvFree, 1))])
    ensures Leads(s, e) && |e.txns| == 1 && e.txns[0].handlers == [HNotify(0)]
    ensures e.txns[0].workers == [Reads(ReleaseLock, a).(acted := Some(false)), Committed(b)]
  {
    e := First(s, Reads(Reply, a), Committed(b));
    e := First(e, Reads(Act, a), Committed(b));
  }

  lemma FirstFollows(s: State, g: Global, a: int, b: int) returns (e: State)
    requires Reachable(s) && s == State(g, [Through(a, Committed(b))]) && g.generation != a && g.mutex == NoOne
    ensures Leads(s, e) && |e.txns| == 1 && e.txns[0].handlers == [HNotify(0)]
    ensures e.txns[0].workers == [Reads(ReleaseLock, a).(acted := Some(false)), Committed(b)]
  {
    var h := g.(mutex := HandlerOf(0, 0));
    e := CloneFails(s, g, a, b);
    e := FirstSearches(e, h, a, b);
    e := FirstFinds(e, h, a, b);
    e := FirstConsults(e, h, a, b);
    e := FirstLeavesRecord(e, h, a, b);
    e := FirstJudges(e, h, a, b);
    e := FirstRollsBack(e, h, a, b);
  }

  // ----- the runs ------------------------------------------------------------------------------

  lemma FirstEnters() returns (s: State)
    ensures GuardedReachable(s) && Reachable(s)
    ensures s == State(Calm(1, 1, [KDone]), [Query(1, At(Gate5, 0), Waits(1))])
  {
    s := StartApart(1);
    s := FirstPasses(s, Calm(1, 0, [KDone]), 0, Waits(1));
    s := First(s, At(Gate4, 0), Waits(1));
  }

  /** One query, two backends, and the gate holds: the worker that started before the clone
      rolls back with the clones, the one that started after it commits. */
  lemma MixedGenerations() returns (s: State)
    ensures GuardedReachable(s) && Reachable(s) && |s.txns| == 1 && |s.txns[0].workers| == 2
    ensures s.txns[0].workers[0].acted == Some(false) && s.txns[0].workers[1].acted == Some(true)
    ensures s.txns[0].workers[0].startGeneration != s.txns[0].workers[1].startGeneration
    ensures Stuck(s, 0, 0, 1)
  {
    s := FirstEnters();
    s := SecondFinishes(s, Calm(1, 1, [KDone]), 0, 1);
    s := FirstFollows(s, Calm(1, 2, [KDone]), 0, 1);
  }

  /** Two workers that started in the same generation ended differently. */
  predicate Disagrees(s: State) {
    && |s.txns| == 1 && |s.txns[0].workers| == 2
    && s.txns[0].workers[0].acted == Some(false) && s.txns[0].workers[1].acted == Some(true)
    && s.txns[0].workers[0].startGeneration == s.txns[0].workers[1].startGeneration
  }

  lemma DisagreesUnguarded(s: State)
    requires Disagrees(s)
    ensures !GuardedReachable(s)
  {
    if GuardedReachable(s) { EqualStartsAgree(s, 0, 0, 1); }
  }

  /** The command sees nobody committing while the first worker is between its test of
      `cloning` and its increment of `committing`. */
  lemma PassesUnseen() returns (s: State)
    ensures Reachable(s)
    ensures s == State(Global(true, 1, 0, false, [KPrepare], NoOne), [Query(1, At(Gate5, 0), Waits(0))])
  {
    s := Begin();
    s := Dispatched(s, s.g, 1);
    s := Second(s, Waits(0), New());
    s := FirstPasses(s, Calm(0, 0, []), 0, Waits(0));
    s := Announced(s);
    s := Take(s, Cloning(0, true));
    assert s.g.cloners == [KPrepare];
    s := First(s, At(Gate4, 0), Waits(0));
  }

  /** Both workers started in the same generation; the clone is made between the checks
      that they make after the barrier. */
  lemma CloneWhileCommitting() returns (s: State)
    ensures Reachable(s) && Disagrees(s) && !GuardedReachable(s)
  {
    var g := Global(true, 1, 0, false, [KPrepare], NoOne);
    s := PassesUnseen();
    s := SecondFinishes(s, g, 0, 0);
    s := Made(s, 0);
    assert s.g.cloners == [KClones];
    s := FirstFollows(s, Global(true, 2, 1, true, [KClones], NoOne), 0, 0);
    DisagreesUnguarded(s);
  }

  lemma FirstCommandMakes() returns (s: State)
    ensures Reachable(s) && s == State(Global(true, 0, 1, true, [KClones], NoOne), [])
  {
    s := Begin();
    s := Announced(s);
    s := Take(s, Cloning(0, true));
    assert s.g.cloners == [KPrepare];
    s := Made(s, 0);
    assert s.g.cloners == [KClones];
  }

  /** A second command passes its wait before the first one clears `cloning`.  There is no
      query yet, so no worker is at the gate when either of them passes. */
  lemma CommandsOverlap() returns (s: State)
    ensures Reachable(s) && s == State(Calm(1, 0, [KDone, KPrepare]), [])
  {
    s := FirstCommandMakes();
    s := Announced(s);
    s := Take(s, Cloning(1, true));
    assert s.g.cloners == [KClones, KPrepare];
    s := CameUp(s, 0);
    s := Take(s, Cloning(0, true));
    assert s.g.cloners == [KDone, KPrepare];
  }

  /** The master refuses the only command: `cloning` and `req_clones` stay set, and from there
      on nothing is committed. */
  lemma MasterRefuses() returns (s: State)
    ensures Reachable(s) && Jammed(s.g) && s.g.cloning && s.g.committing == 0 && NonePassing(s)
    ensures s == State(Global(true, 0, 0, true, [KDone], NoOne), [])
  {
    s := Begin();
    s := Announced(s);
    s := Take(s, Cloning(0, true));
    assert s.g.cloners == [KPrepare];
    s := Goes(s, 0);
    assert s.g.cloners == [KClaim];
    s := Goes(s, 0);
    assert s.g.cloners == [KRequest];
    s := Take(s, Cloning(0, false));
    assert s.g.cloners == [KDone];
  }

  lemma BothPrepared() returns (s: State)
    ensures Reachable(s) && s == State(Global(true, 0, 0, false, [KPrepare, KPrepare], NoOne), [])
  {
    s := Begin();
    s := Announced(s);
    s := Take(s, Cloning(0, true));
    assert s.g.cloners == [KPrepare];
    s := Announced(s);
    s := Take(s, Cloning(1, true));
    assert s.g.cloners == [KPrepare, KPrepare];
  }

  lemma BothTested() returns (s: State)
    ensures Reachable(s) && s == State(Global(true, 0, 1, true, [KClaim, KClones], NoOne), [])
  {
    s := BothPrepared();
    s := Goes(s, 0);
    assert s.g.cloners == [KClaim, KPrepare];
    s := Made(s, 1);
    assert s.g.cloners == [KClaim, KClones];
  }

  /** Two commands test `req_clones` before either of them sets it: neither is refused. */
  lemma BothClaim() returns (s: State)
    ensures Reachable(s) && s == State(Global(true, 0, 2, true, [KClones, KClones], NoOne), [])
  {
    s := BothTested();
    s := Goes(s, 0);
    assert s.g.cloners == [KRequest, KClones];
    s := Goes(s, 0);
    assert s.g.cloners == [KIncrement, KClones];
    s := Goes(s, 0);
    assert s.g.cloners == [KClones, KClones];
  }

  lemma PassesOpenGate() returns (s: State)
    ensures Reachable(s) && s == State(Calm(1, 1, [KDone, KPrepare]), [Query(1, At(Gate5, 1), Waits(1))])
  {
    s := CommandsOverlap();
    s := Dispatched(s, s.g, 1);
    s := Second(s, Waits(1), New());
    s := FirstPasses(s, Calm(1, 0, [KDone, KPrepare]), 1, Waits(1));
    s := First(s, At(Gate4, 1), Waits(1));
  }

  /** The first of two commands opens the gate, and the second makes its clone between the
      checks of two workers that started in the same generation. */
  lemma OverlappingCommands() returns (s: State)
    ensures Reachable(s) && Disagrees(s) && !GuardedReachable(s)
  {
    s := PassesOpenGate();
    s := SecondFinishes(s, Calm(1, 1, [KDone, KPrepare]), 1, 1);
    s := Made(s, 1);
    assert s.g.cloners == [KDone, KClones];
    s := FirstFollows(s, Global(false, 2, 2, true, [KDone, KClones], NoOne), 1, 1);
    DisagreesUnguarded(s);
  }

  /** What the gate is for: one worker waits at the barrier inside the commit phase, its
      sibling stands at the gate, and the next cloning has been announced. */
  lemma GateContended() returns (s: State)
    ensures Reachable(s) && SiblingCommits(s, 0, 1) && s.g.cloning
  {
    s := FirstEnters();
    s := FirstArrives(s, Calm(1, 1, [KDone]), 0, Waits(1));
    s := Second(s, At(AtBarrier, 0), Waits(1));
    s := Announced(s);
  }

  // ----- the dispatcher returns early ----------------------------------------------------------

  function Met(): Txn { FirstIn(0, At(AtBarrier, 0), [0, 1], 3).(dispatcher := DAtBarrier) }

  lemma BothMeet() returns (s: State)
    ensures Reachable(s) && s == State(Calm(0, 2, []), [Met()])
  {
    s := Begin();
    s := Dispatched(s, s.g, 1);
    s := Second(s, Waits(0), New());
    s := FirstPasses(s, Calm(0, 0, []), 0, Waits(0));
    s := First(s, At(Gate4, 0), Waits(0));
    s := FirstArrives(s, Calm(0, 1, []), 0, Waits(0));
    s := SecondEnters(s, Calm(0, 1, []), 0, 0);
    s := SecondVotes(s, Calm(0, 2, []), 0, 0);
    s := AllMeet(s, Calm(0, 2, []), 0, 0);
  }

  function Replied(w: Worker, lock: SpinLock, reply: Option<bool>, d: DispatcherPc): Txn {
    Met().(workers := [w, At(AtBarrier, 0)],
           commit := CommitData([0, 1], 3, true, true, lock, reply), dispatcher := d)
  }

  lemma FirstThrough() returns (s: State)
    ensures Reachable(s) && s == State(Calm(0, 2, []), [Replied(At(Judge, 0), HeldByReplier, None, DAtBarrier)])
  {
    s := BothMeet();
    s := First(s, At(AtBarrier, 0), At(AtBarrier, 0));
    s := First(s, At(ClearBarrier, 0), At(AtBarrier, 0));
    s := First(s, At(CheckGeneration, 0), At(AtBarrier, 0));
  }

  lemma FirstDecides() returns (s: State)
    ensures Reachable(s) && s == State(Calm(0, 2, []), [Replied(At(Reply, 0), HeldByReplier, None, DAtBarrier)])
  {
    s := FirstThrough();
    TwoVotesAreFull();
    s := First(s, At(Judge, 0), At(AtBarrier, 0));
  }

  lemma FirstCommits() returns (s: State)
    ensures Reachable(s)
    ensures s == State(Calm(0, 2, []), [Replied(Committed(0), HeldByReplier, Some(true), DAtBarrier)])
  {
    s := FirstDecides();
    s := First(s, At(Reply, 0), At(AtBarrier, 0));
    s := First(s, At(Act, 0), At(AtBarrier, 0));
  }

  lemma FirstReleases() returns (s: State)
    ensures Reachable(s)
    ensures s == State(Calm(0, 2, []), [Replied(At(Leave, 0).(acted := Some(true)), Unlocked, Some(true), DAtBarrier)])
  {
    s := FirstCommits();
    s := First(s, Committed(0), At(AtBarrier, 0));
  }

  lemma DispatcherChecks() returns (s: State)
    ensures Reachable(s)
    ensures s == State(Calm(0, 2, []), [Replied(At(Leave, 0).(acted := Some(true)), Unlocked, Some(true), DCheck)])
  {
    s := FirstReleases();
    s := Take(s, Client(0));
    s := Take(s, Client(0));
    s := Take(s, Client(0));
  }

  /** The dispatcher has returned while the other worker has still to read `results`. */
  lemma ReturnsEarly() returns (s: State)
    ensures Reachable(s) && |s.txns| == 1 && s.txns[0].dispatcher == DDone
    ensures |s.txns[0].workers| == 2 && s.txns[0].workers[1].pc == AtBarrier
  {
    s := DispatcherChecks();
    s := Take(s, Client(0));
  }

  // ----- a clone that lost the acknowledgement of its vote -------------------------------------

  function Voted(first: Clone, second: Clone, h0: HandlerPc, h1: HandlerPc): Txn {
    Query(2, Waits(0), Waits(1)).(clones := [first, second], handlers := [h0, h1])
  }

  const RUNNING := Clone(CRunning, false, None, None)
  const WAITING := Clone(CWait, true, None, None)
  const LOST := Clone(CLost, true, None, Some(false))

  lemma FirstVoted() returns (s: State)
    ensures Reachable(s) && s == State(Calm(1, 0, [KDone]), [Voted(WAITING, RUNNING, HQueued, HNone)])
  {
    s := StartApart(2);
    s := Take(s, CloneAct(0, 0, Good, true));
    s := Take(s, CloneAct(0, 0, Good, true));
    s := Take(s, CloneAct(0, 0, Good, true));
    assert s.txns[0].clones == [WAITING, RUNNING] && s.txns[0].handlers == [HQueued, HNone];
  }

  lemma BothVoted() returns (s: State)
    ensures Reachable(s) && s == State(Calm(1, 0, [KDone]), [Voted(WAITING, LOST, HQueued, HQueued)])
  {
    s := FirstVoted();
    s := Take(s, CloneAct(0, 1, Good, true));
    s := Take(s, CloneAct(0, 1, Broken, true));
    assert s.txns[0].clones == [WAITING, LOST] && s.txns[0].handlers == [HQueued, HQueued];
  }

  lemma FirstCounts() returns (s: State)
    ensures Reachable(s)
    ensures s == State(Calm(1, 0, [KDone]).(mutex := HandlerOf(0, 0)),
                       [Voted(WAITING, LOST, HLeave, HQueued).(rec := Record(InTable, 1, true, 0, [0], CvFree, 0))])
  {
    s := BothVoted();
    s := Take(s, Handle(0, 0, true));
    s := Take(s, Handle(0, 0, true));
    s := Take(s, Handle(0, 0, true));
    assert s.txns[0].handlers == [HLeave, HQueued] && s.txns[0].rec.reporters == [0];
  }

  lemma SecondCounts() returns (s: State)
    ensures Reachable(s) && |s.txns| == 1 && s.g.mutex == HandlerOf(0, 1)
    ensures s.txns[0] == Voted(WAITING, LOST, HDone, HUpdate).(rec := Record(InTable, 1, true, 0, [0], CvFree, 0))
  {
    s := FirstCounts();
    s := Take(s, Handle(0, 0, true));
    s := Take(s, Handle(0, 1, true));
    s := Take(s, Handle(0, 1, true));
    assert s.txns[0].handlers == [HDone, HUpdate];
  }

  /** A clone whose acknowledgement got lost rolls back although its SUCCESS was
      counted and the other clone commits. */
  lemma LostAcknowledgement() returns (s: State)
    ensures Reachable(s) && |s.txns| == 1 && |s.txns[0].clones| == 2
    ensures s.txns[0].clones[0].acted == Some(true) && s.txns[0].clones[1].acted == Some(false)
  {
    s := SecondCounts();
    s := Take(s, Handle(0, 1, true));
    s := Take(s, Handle(0, 1, true));
    s := Take(s, CloneAct(0, 0, Good, true));
  }
}
