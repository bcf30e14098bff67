/** What every interleaving of the commit protocol guarantees. */
module CommitTheorems {
  import opened Options
  import opened Counting
  import opened CommitProtocol
  import opened CommitInvariant

  /** States at the end of some interleaving. */
  ghost predicate Reachable(s: State) {
    exists labels :: Runs(Initial(), labels) && After(Initial(), labels) == s
  }

  lemma ReachableInv(s: State)
    requires Reachable(s)
    ensures Inv(s)
  {
    var labels :| Runs(Initial(), labels) && After(Initial(), labels) == s;
    RunKeepsInv(Initial(), labels);
  }

  lemma TxnOf(s: State, t: nat)
    requires Reachable(s) && t < |s.txns|
    ensures TxnInv(s.txns[t])
  {
    ReachableInv(s);
  }

  lemma MutexOf(s: State, t: nat)
    requires Reachable(s) && t < |s.txns|
    ensures MutexInv(s.g, t, s.txns[t].handlers)
  {
    ReachableInv(s);
  }

  /** All clones of the transaction reported, and all reported SUCCESS. */
  predicate AllClonesSucceeded(x: Txn) {
    forall c | 0 <= c < |x.clones| == |x.handlers| :: HasUpdated(x.handlers[c]) && x.clones[c].vote
  }

  lemma RecordDecision(x: Txn)
    requires TxnInv(x) && x.rec.num == x.total
    ensures x.rec.success <==> AllClonesSucceeded(x)
    ensures forall c | 0 <= c < x.total :: c in x.rec.reporters
  {
    CountAll(x.handlers, HasUpdated);
  }

  // ----- decisions of the local workers ----------------------------------------------

  /** A worker that finished on its backend did so after all threads of the query
      had reached the barrier.  It ran COMMIT exactly if the query succeeded on
      every backend and, where it consulted the coordinator record, on every clone. */
  lemma WorkerDecision(s: State, t: nat, i: nat)
    requires Reachable(s) && t < |s.txns| && i < |s.txns[t].workers|
    requires s.txns[t].workers[i].acted.Some?
    ensures var x := s.txns[t];
      && (forall j | 0 <= j < |x.workers| :: HasArrived(x.workers[j]))
      && x.dispatcher != DArrive
      && (x.workers[i].acted.value <==> AllOk(x) && (x.workers[i].consulted ==> AllClonesSucceeded(x)))
  {
    TxnOf(s, t);
    var x := s.txns[t];
    assert WorkerInv(x, x.workers[i]);
    OpenMeansAllArrived(x);
    if x.workers[i].consulted { RecordDecision(x); }
  }

  /** Two workers of one query end differently exactly if one consulted the record
      and the other did not, the query succeeded on every backend and some clone failed. */
  lemma WorkersDisagreeIff(s: State, t: nat, i: nat, j: nat)
    requires Reachable(s) && t < |s.txns| && i < |s.txns[t].workers| && j < |s.txns[t].workers|
    requires s.txns[t].workers[i].acted.Some? && s.txns[t].workers[j].acted.Some?
    ensures var x := s.txns[t];
      x.workers[i].acted != x.workers[j].acted
      <==> x.workers[i].consulted != x.workers[j].consulted && AllOk(x) && !AllClonesSucceeded(x)
  {
    WorkerDecision(s, t, i);
    WorkerDecision(s, t, j);
  }

  predicate HitReadError(w: Worker) {
    w.pc == ErrArrive || w.pc == ErrAtBarrier || w.pc == Failed
  }

  lemma WorkerOf(s: State, t: nat, i: nat)
    requires Reachable(s) && t < |s.txns| && i < |s.txns[t].workers|
    ensures WorkerInv(s.txns[t], s.txns[t].workers[i])
  {
    TxnOf(s, t);
  }

  lemma NoVote(x: Txn, j: nat)
    requires j < |x.workers| && WorkerInv(x, x.workers[j]) && HitReadError(x.workers[j])
    ensures !AllOk(x)
  {
  }

  lemma ReadErrorGivesNoVote(s: State, t: nat, j: nat)
    requires Reachable(s) && t < |s.txns| && j < |s.txns[t].workers| && HitReadError(s.txns[t].workers[j])
    ensures !AllOk(s.txns[t])
  {
    WorkerOf(s, t, j);
    NoVote(s.txns[t], j);
  }

  /** A read error on one backend makes every other worker roll back. */
  lemma ReadErrorRollsBack(s: State, t: nat, i: nat, j: nat)
    requires Reachable(s) && t < |s.txns| && i < |s.txns[t].workers| && j < |s.txns[t].workers|
    requires HitReadError(s.txns[t].workers[j]) && s.txns[t].workers[i].acted.Some?
    ensures s.txns[t].workers[i].acted == Some(false)
  {
    ReadErrorGivesNoVote(s, t, j);
    WorkerDecision(s, t, i);
  }

  /** A worker that found no connection never reaches the barrier, so nobody decides. */
  lemma AbortBlocksRound(s: State, t: nat, i: nat, j: nat)
    requires Reachable(s) && t < |s.txns| && i < |s.txns[t].workers| && j < |s.txns[t].workers|
    requires s.txns[t].workers[j].pc == Aborted
    ensures s.txns[t].workers[i].acted == None && s.txns[t].commit.reply == None
  {
    TxnOf(s, t);
    var x := s.txns[t];
    assert WorkerInv(x, x.workers[i]);
    if x.Open() { OpenMeansAllArrived(x); }
  }

  // ----- the client thread --------------------------------------------------------------

  /** The dispatching thread gets past its final lock only after the replying worker
      has answered the client and finished on its backend, unless that worker hit a
      read error; its error flag then says whether some backend failed. */
  lemma ClientWaitsForReplier(s: State, t: nat)
    requires Reachable(s) && t < |s.txns|
    ensures var x := s.txns[t];
      x.dispatcher in {DHoldLock, DCheck, DDone} ==>
        && x.replier < |x.workers|
        && var w := x.workers[x.replier];
           || HitReadError(w)
           || (w.acted.Some? && x.commit.reply == w.acted)
    ensures s.txns[t].dispatcher == DDone ==> (s.txns[t].error <==> !AllOk(s.txns[t]))
  {
    TxnOf(s, t);
    var x := s.txns[t];
    assert WorkerInv(x, x.workers[x.replier]);
  }

  /** When the dispatching thread returns, and its variables with it, a worker that has still
      to judge and so to read `results` is never the replying one. */
  lemma LateReaderIsNotReplier(s: State, t: nat, i: nat)
    requires Reachable(s) && t < |s.txns| && i < |s.txns[t].workers|
    requires s.txns[t].dispatcher == DDone && Rank(s.txns[t].workers[i].pc) <= 19
    ensures i != s.txns[t].replier
  {
    TxnOf(s, t);
  }

  /** The client is told OK only if every backend executed the query. */
  lemma ReplyDecision(s: State, t: nat)
    requires Reachable(s) && t < |s.txns| && s.txns[t].commit.reply.Some?
    ensures var x := s.txns[t];
      && x.replier < |x.workers|
      && (x.commit.reply.value <==> AllOk(x) && (x.workers[x.replier].consulted ==> AllClonesSucceeded(x)))
  {
    TxnOf(s, t);
    var x := s.txns[t];
    assert WorkerInv(x, x.workers[x.replier]);
    if x.workers[x.replier].consulted { RecordDecision(x); }
  }

  // ----- queries that no cloning overlaps --------------------------------------------------

  /** The generation does not change during this part of a run. */
  predicate Quiet(s: State, labels: seq<Label>)
    requires Runs(s, labels)
    decreases |labels|
  {
    labels == [] ||
    (Do(s, labels[0]).g.generation == s.g.generation && Quiet(Do(s, labels[0]), labels[1..]))
  }

  predicate QuietWorker(g: Global, w: Worker) {
    && (1 <= Rank(w.pc) <= 24 ==> w.startGeneration == g.generation)
    && !(14 <= Rank(w.pc) <= 18)
    && !w.consulted
  }

  predicate QuietFrom(s: State, t: nat) {
    forall u, i | t <= u < |s.txns| && 0 <= i < |s.txns[u].workers| :: QuietWorker(s.g, s.txns[u].workers[i])
  }

  lemma QuietWorkerStep(g: Global, x: Txn, i: nat, o: Outcome)
    requires WorkerCan(g, x, i, o) && QuietWorker(g, x.workers[i])
    ensures QuietWorker(g, NextWorker(g, x, x.workers[i], o))
  {
  }

  lemma QuietStep(s: State, l: Label, t: nat)
    requires Enabled(s, l) && QuietFrom(s, t) && Do(s, l).g.generation == s.g.generation
    ensures QuietFrom(Do(s, l), t)
  {
    var s' := Do(s, l);
    forall u, i | t <= u < |s'.txns| && 0 <= i < |s'.txns[u].workers|
      ensures QuietWorker(s'.g, s'.txns[u].workers[i])
    {
      if u < |s.txns| {
        assert QuietWorker(s.g, s.txns[u].workers[i]);
        if l.Work? && l.t == u && l.i == i { QuietWorkerStep(s.g, s.txns[u], i, l.o); }
      }
    }
  }

  lemma {:induction false} QuietRun(s: State, labels: seq<Label>, t: nat)
    requires Runs(s, labels) && Quiet(s, labels) && QuietFrom(s, t)
    ensures QuietFrom(After(s, labels), t)
    decreases |labels|
  {
    if labels != [] {
      QuietStep(s, labels[0], t);
      QuietRun(Do(s, labels[0]), labels[1..], t);
    }
  }

  lemma {:induction false} RunsOn(s: State, first: seq<Label>, rest: seq<Label>)
    requires Runs(s, first) && Runs(After(s, first), rest)
    ensures Runs(s, first + rest) && After(s, first + rest) == After(After(s, first), rest)
    decreases |first|
  {
    if first == [] {
      assert first + rest == rest;
    } else {
      assert (first + rest)[0] == first[0] && (first + rest)[1..] == first[1..] + rest;
      RunsOn(Do(s, first[0]), first[1..], rest);
    }
  }

  /** If the generation stays the same from the dispatch of a query on, its workers
      all take the same action, COMMIT exactly if the query succeeded on every
      backend, and that is also what the client is told. */
  lemma AgreementWithoutCloning(s: State, labels: seq<Label>, t: nat)
    requires Reachable(s) && |s.txns| <= t
    requires Runs(s, labels) && Quiet(s, labels) && t < |After(s, labels).txns|
    ensures var x := After(s, labels).txns[t];
      && (forall i | 0 <= i < |x.workers| && x.workers[i].acted.Some? :: x.workers[i].acted.value <==> AllOk(x))
      && (x.commit.reply.Some? ==> (x.commit.reply.value <==> AllOk(x)))
  {
    QuietRun(s, labels, t);
    var e := After(s, labels);
    ReachOn(s, labels);
    var x := e.txns[t];
    forall i | 0 <= i < |x.workers| && x.workers[i].acted.Some? ensures x.workers[i].acted.value <==> AllOk(x) {
      WorkerDecision(e, t, i);
      assert QuietWorker(e.g, x.workers[i]);
    }
    if x.commit.reply.Some? {
      ReplyDecision(e, t);
      assert QuietWorker(e.g, x.workers[x.replier]);
    }
  }

  lemma ReachOn(s: State, labels: seq<Label>)
    requires Reachable(s) && Runs(s, labels)
    ensures Reachable(After(s, labels))
  {
    var first :| Runs(Initial(), first) && After(Initial(), first) == s;
    RunsOn(Initial(), first, labels);
  }

  lemma ReachStep(s: State, l: Label)
    requires Reachable(s) && Enabled(s, l)
    ensures Reachable(Do(s, l))
  {
    var rest := [l][1..];
    assert rest == [] && Runs(Do(s, l), rest) && After(Do(s, l), rest) == Do(s, l);
    assert Runs(s, [l]) && After(s, [l]) == Do(s, l);
    ReachOn(s, [l]);
  }

  // ----- the clones -------------------------------------------------------------------------

  /** A clone runs COMMIT only if every clone of the transaction reported SUCCESS. */
  lemma CloneDecision(s: State, t: nat, c: nat)
    requires Reachable(s) && t < |s.txns| && c < |s.txns[t].clones|
    ensures var x := s.txns[t];
      && (x.clones[c].acted == Some(true) ==> AllClonesSucceeded(x))
      && (x.clones[c].pc == CDone ==> x.clones[c].acted == Some(AllClonesSucceeded(x)))
  {
    TxnOf(s, t);
    var x := s.txns[t];
    assert CloneInv(x, x.clones[c], x.handlers[c]);
    if x.rec.num == x.total { RecordDecision(x); }
  }

  /** Two clones that are done differ exactly if the decision was COMMIT and one of
      them, after a lost connection to the coordinator, did not wait for it. */
  lemma ClonesDisagreeIff(s: State, t: nat, c: nat, d: nat)
    requires Reachable(s) && t < |s.txns| && c < |s.txns[t].clones| && d < |s.txns[t].clones|
    requires s.txns[t].clones[c].acted.Some? && s.txns[t].clones[d].acted.Some?
    ensures var x := s.txns[t];
      x.clones[c].acted != x.clones[d].acted
      <==> x.clones[c].pc != x.clones[d].pc && AllClonesSucceeded(x)
  {
    TxnOf(s, t);
    var x := s.txns[t];
    assert CloneInv(x, x.clones[c], x.handlers[c]);
    assert CloneInv(x, x.clones[d], x.handlers[d]);
    CloneDecision(s, t, c);
    CloneDecision(s, t, d);
  }

  /** If a backend commits after consulting the record, the clones' decision is
      COMMIT: no clone that waited for it rolls back. */
  lemma OriginalCommitBindsClones(s: State, t: nat, i: nat, c: nat)
    requires Reachable(s) && t < |s.txns| && i < |s.txns[t].workers| && c < |s.txns[t].clones|
    requires s.txns[t].workers[i].acted == Some(true) && s.txns[t].workers[i].consulted
    ensures var x := s.txns[t];
      && AllClonesSucceeded(x)
      && (x.clones[c].told.Some? ==> x.clones[c].told.value)
      && (x.clones[c].acted == Some(false) ==> x.clones[c].pc == CLost)
  {
    WorkerDecision(s, t, i);
    TxnOf(s, t);
    var x := s.txns[t];
    assert WorkerInv(x, x.workers[i]);
    assert CloneInv(x, x.clones[c], x.handlers[c]);
    RecordDecision(x);
  }

  // ----- life of the coordinator record -----------------------------------------------------

  /** The decision fires once, with the last vote; the record is removed and freed
      only when every local worker has read it and let go of it. */
  lemma RecordLife(s: State, t: nat)
    requires Reachable(s) && t < |s.txns|
    ensures var x := s.txns[t];
      && x.rec.fired <= 1
      && (x.rec.fired == 1 <==> x.rec.num == x.total)
      && (x.rec.fired == 1 ==> (x.rec.success <==> AllClonesSucceeded(x)))
      && (x.rec.state in {Removed, Freed} ==>
            forall i | 0 <= i < |x.workers| :: x.workers[i].consulted && !HoldsRecord(x.workers[i]))
  {
    TxnOf(s, t);
    var x := s.txns[t];
    if x.rec.num == x.total { RecordDecision(x); }
    if x.rec.state in {Removed, Freed} {
      assert forall i | 0 <= i < |x.workers| :: HasCounted(x.workers[i]) && Rank(x.workers[i].pc) >= 19;
    }
  }

  /** No enabled step of a worker or of a handler touches a record that is not there. */
  lemma NoUseAfterFree(s: State, l: Label)
    requires Reachable(s) && Enabled(s, l)
    ensures l.Work? && HoldsRecord(s.txns[l.t].workers[l.i]) ==> s.txns[l.t].rec.state == InTable
    ensures l.Handle? && 3 <= HRank(s.txns[l.t].handlers[l.c]) <= 8 ==> s.txns[l.t].rec.state == InTable
    ensures l.Handle? && 9 <= HRank(s.txns[l.t].handlers[l.c]) <= 10 ==> s.txns[l.t].rec.state == Removed
  {
    if l.Work? { TxnOf(s, l.t); }
    if l.Handle? { TxnOf(s, l.t); }
  }

  /** Between locking and unlocking the mutex of the record. */
  predicate WorkerInside(w: Worker) { 16 <= Rank(w.pc) <= 18 }
  predicate HandlerInside(h: HandlerPc) { 7 <= HRank(h) <= 9 }

  predicate AloneInRecord(x: Txn, i: int, c: int) {
    && (forall j | 0 <= j < |x.workers| && j != i :: !WorkerInside(x.workers[j]))
    && (forall d | 0 <= d < |x.handlers| && d != c :: !HandlerInside(x.handlers[d]))
  }

  lemma WorkerAlone(g: Global, x: Txn, i: nat, o: Outcome)
    requires Shape(x) && CvInv(x) && WorkerCan(g, x, i, o) && HoldsRecord(x.workers[i])
    ensures AloneInRecord(x, i, -1)
  {
    assert x.rec.cv == CvFree || x.rec.cv == CvWorker(i);
  }

  lemma HandlerAlone(g: Global, x: Txn, c: nat, delivered: bool)
    requires Shape(x) && CvInv(x) && HandlerCan(g, x, c, delivered) && 5 <= HRank(x.handlers[c]) <= 9
    ensures AloneInRecord(x, -1, c)
  {
    assert x.rec.cv == CvFree || x.rec.cv == CvHandler(c);
  }

  /** Whoever reads, counts in, waits on or signals the record is alone with it: no worker is
      between its test of `num` and its wait when the broadcast comes. */
  lemma RecordExclusive(s: State, l: Label)
    requires Reachable(s) && Enabled(s, l)
    ensures l.Work? && HoldsRecord(s.txns[l.t].workers[l.i]) ==> AloneInRecord(s.txns[l.t], l.i, -1)
    ensures l.Handle? && 5 <= HRank(s.txns[l.t].handlers[l.c]) <= 9 ==> AloneInRecord(s.txns[l.t], -1, l.c)
  {
    if l.Work? && HoldsRecord(s.txns[l.t].workers[l.i]) {
      TxnOf(s, l.t);
      WorkerAlone(s.g, s.txns[l.t], l.i, l.o);
    } else if l.Handle? && 5 <= HRank(s.txns[l.t].handlers[l.c]) <= 9 {
      TxnOf(s, l.t);
      HandlerAlone(s.g, s.txns[l.t], l.c, l.delivered);
    }
  }
}
