/** The wait of the last reporter for the local workers: when it ends, and that it never
    ends once a worker is past the point where it would read the record.
 */
module RecordWait {
  import opened Counting
  import opened CommitProtocol
  import opened CommitInvariant
  import opened CommitTheorems

  /** A worker that will not read the record any more and has not read it: it judged
      without it, hit a read error or had no connection. */
  predicate CannotConsult(w: Worker) {
    (19 <= Rank(w.pc) <= 24 && !w.consulted) || Rank(w.pc) >= 100
  }

  /** The handler of the last vote, before it removes the record. */
  predicate Deciding(h: HandlerPc) { 4 <= HRank(h) <= 7 }

  predicate Stuck(s: State, t: nat, c: nat, i: nat) {
    && t < |s.txns| && c < |s.txns[t].handlers| && i < |s.txns[t].workers|
    && Deciding(s.txns[t].handlers[c]) && CannotConsult(s.txns[t].workers[i])
  }

  lemma DoneCounts(x: Txn)
    requires TxnInv(x)
    ensures x.rec.done <= |x.workers|
    ensures x.rec.done == |x.workers| <==> forall i | 0 <= i < |x.workers| :: HasCounted(x.workers[i])
  {
    CountAll(x.workers, HasCounted);
  }

  /** The wait ends, and the record is removed, exactly when every worker has counted. */
  lemma WaitEndsIff(s: State, t: nat, c: nat, d: bool)
    requires Reachable(s) && Enabled(s, Handle(t, c, d)) && s.txns[t].handlers[c] == HWaitDone
    ensures Do(s, Handle(t, c, d)).txns[t].handlers[c] == HRemove
            <==> forall i | 0 <= i < |s.txns[t].workers| :: HasCounted(s.txns[t].workers[i])
  {
    TxnOf(s, t);
    DoneCounts(s.txns[t]);
  }

  /** The waiting handler keeps `result_mutex`. */
  lemma StuckHoldsMutex(s: State, t: nat, c: nat, i: nat)
    requires Reachable(s) && Stuck(s, t, c, i)
    ensures s.g.mutex == HandlerOf(t, c)
  {
    MutexOf(s, t);
  }

  /** Only the holder of the mutex can move. */
  lemma HolderMoves(g: Global, x: Txn, u: nat, e: nat, d: bool)
    requires HandlerCan(g, x, e, d) && MutexInv(g, u, x.handlers) && g.mutex != NoOne
    ensures g.mutex == HandlerOf(u, e)
  {
  }

  lemma OnlyStuckMoves(s: State, t: nat, c: nat, i: nat, u: nat, e: nat, d: bool)
    requires Reachable(s) && Stuck(s, t, c, i) && Enabled(s, Handle(u, e, d))
    ensures u == t && e == c
  {
    StuckHoldsMutex(s, t, c, i);
    MutexOf(s, u);
    HolderMoves(s.g, s.txns[u], u, e, d);
  }

  lemma WorkerCannot(g: Global, x: Txn, i: nat, o: Outcome)
    requires WorkerCan(g, x, i, o) && CannotConsult(x.workers[i])
    ensures CannotConsult(NextWorker(g, x, x.workers[i], o))
  {
    HasMoveEffect(g, x, i, o);
    HasOwnEffect(g, x, i, o);
  }

  lemma WaitGoesOn(t: nat, g: Global, x: Txn, c: nat, i: nat, d: bool)
    requires TxnInv(x) && HandlerCan(g, x, c, d) && Deciding(x.handlers[c])
    requires i < |x.workers| && CannotConsult(x.workers[i])
    ensures var y := HandlerDo(t, g, x, c, d).x;
      Deciding(y.handlers[c]) && y.rec.num == x.rec.num && y.workers == x.workers
  {
    DoneCounts(x);
    HandlerHasEffect(g, x, c, d);
  }

  /** The number of votes that a transaction has, or starts with. */
  function Votes(s: State, u: nat): nat {
    if u < |s.txns| then s.txns[u].rec.num else 0
  }

  lemma StuckWork(s: State, u: nat, j: nat, o: Outcome, t: nat, c: nat, i: nat)
    requires Stuck(s, t, c, i) && Enabled(s, Work(u, j, o))
    ensures Stuck(Do(s, Work(u, j, o)), t, c, i)
    ensures forall v: nat :: Votes(Do(s, Work(u, j, o)), v) == Votes(s, v)
  {
    HasRecordEffect(s.g, s.txns[u], j, o);
    if u == t && j == i { WorkerCannot(s.g, s.txns[t], i, o); }
  }

  lemma StuckWaits(s: State, t: nat, c: nat, i: nat, d: bool)
    requires Reachable(s) && Stuck(s, t, c, i) && Enabled(s, Handle(t, c, d))
    ensures var x, y := s.txns[t], HandlerDo(t, s.g, s.txns[t], c, d).x;
      Deciding(y.handlers[c]) && y.rec.num == x.rec.num && y.workers == x.workers
  {
    TxnOf(s, t);
    WaitGoesOn(t, s.g, s.txns[t], c, i, d);
  }

  lemma StuckHandle(s: State, u: nat, e: nat, d: bool, t: nat, c: nat, i: nat)
    requires Reachable(s) && Stuck(s, t, c, i) && Enabled(s, Handle(u, e, d))
    ensures Stuck(Do(s, Handle(u, e, d)), t, c, i)
    ensures forall v: nat :: Votes(Do(s, Handle(u, e, d)), v) == Votes(s, v)
  {
    OnlyStuckMoves(s, t, c, i, u, e, d);
    StuckWaits(s, t, c, i, d);
  }

  /** A clone that reports has a handler of its own. */
  lemma StuckClone(s: State, u: nat, e: nat, o: Outcome, vote: bool, t: nat, c: nat, i: nat)
    requires Stuck(s, t, c, i) && Enabled(s, CloneAct(u, e, o, vote))
    ensures Stuck(Do(s, CloneAct(u, e, o, vote)), t, c, i)
    ensures forall v: nat :: Votes(Do(s, CloneAct(u, e, o, vote)), v) == Votes(s, v)
  {
  }

  lemma StuckStep(s: State, l: Label, t: nat, c: nat, i: nat)
    requires Reachable(s) && Stuck(s, t, c, i) && Enabled(s, l)
    ensures Stuck(Do(s, l), t, c, i)
    ensures forall u: nat :: Votes(Do(s, l), u) == Votes(s, u)
  {
    match l
    case Work(u, j, o) => StuckWork(s, u, j, o, t, c, i);
    case Handle(u, e, d) => StuckHandle(s, u, e, d, t, c, i);
    case CloneAct(u, e, o, vote) => StuckClone(s, u, e, o, vote, t, c, i);
    case _ =>
  }

  /** Once the last vote is in and some worker cannot read the record any more, in every
      continuation the handler keeps waiting, holds `result_mutex`, and no vote of any
      transaction is counted again. */
  lemma {:induction false} VotesStop(s: State, labels: seq<Label>, t: nat, c: nat, i: nat)
    requires Reachable(s) && Stuck(s, t, c, i) && Runs(s, labels)
    ensures var e := After(s, labels);
      && Stuck(e, t, c, i) && e.g.mutex == HandlerOf(t, c)
      && forall u: nat :: Votes(e, u) == Votes(s, u)
    decreases |labels|
  {
    if labels == [] {
      StuckHoldsMutex(s, t, c, i);
    } else {
      StuckStep(s, labels[0], t, c, i);
      ReachStep(s, labels[0]);
      VotesStop(Do(s, labels[0]), labels[1..], t, c, i);
    }
  }
}
