/** No deadlock: which waits can hold a query up, and that nothing else does. */
module CommitProgress {
  import opened Counting
  import opened CommitProtocol
  import opened CommitInvariant
  import opened CommitTheorems
  import opened CommitHistory
  import opened RecordHistory

  /** A step of a thread of this query. */
  predicate OfQuery(l: Label, t: nat) {
    (l.Work? && l.t == t) || (l.Client? && l.t == t) || (l.Handle? && l.t == t)
  }

  predicate Through(w: Worker) { w.pc == Finished || w.pc == Failed }

  /** Every worker has finished or failed, and the dispatching thread has returned. */
  predicate Complete(x: Txn) {
    x.dispatcher == DDone && forall i | 0 <= i < |x.workers| :: Through(x.workers[i])
  }

  /** A worker waits for a record that is not there, in another generation. */
  predicate MissesRecord(g: Global, x: Txn, w: Worker) {
    w.pc == SearchRecord && g.generation != w.startGeneration && x.rec.state != InTable
  }

  /** A worker that waits for the mutex of the record waits for a thread that can move. */
  lemma RecordMoves(s: State, t: nat, i: nat) returns (l: Label)
    requires t < |s.txns| && Shape(s.txns[t]) && CvInv(s.txns[t])
    requires i < |s.txns[t].workers| && s.txns[t].workers[i].pc == LockRecord
    ensures Enabled(s, l) && OfQuery(l, t)
  {
    var x := s.txns[t];
    match x.rec.cv
    case CvFree => l := Work(t, i, Good);
    case CvWorker(j) => l := Work(t, j, Good);
    case CvHandler(c) => l := Handle(t, c, false);
  }

  /** So does a thread that waits for the lock of the reply. */
  lemma LockMoves(s: State, t: nat, i: nat) returns (l: Label)
    requires t < |s.txns| && Shape(s.txns[t]) && LockInv(s.txns[t])
    requires i < |s.txns[t].workers| && s.txns[t].workers[i].pc == TakeLock
    ensures Enabled(s, l) && OfQuery(l, t)
  {
    l := if s.txns[t].commit.lock == HeldByDispatcher then Client(t) else Work(t, i, Good);
  }

  /** At the barrier, over, or nothing at all. */
  predicate Rests(w: Worker) { w.pc == AtBarrier || w.pc == ErrAtBarrier || Through(w) }

  /** When everybody rests, the barrier is open. */
  lemma BarrierOpens(x: Txn)
    requires Shape(x) && BarrierInv(x) && x.dispatcher != DArrive
    requires forall i | 0 <= i < |x.workers| :: Rests(x.workers[i])
    ensures x.Open()
  {
    CountAll(x.workers, HasArrived);
  }

  lemma RestMoves(s: State, t: nat) returns (l: Label)
    requires t < |s.txns| && Shape(s.txns[t]) && BarrierInv(s.txns[t]) && LockInv(s.txns[t])
    requires !Complete(s.txns[t])
    requires forall i | 0 <= i < |s.txns[t].workers| :: Rests(s.txns[t].workers[i])
    ensures Enabled(s, l) && OfQuery(l, t)
  {
    var x := s.txns[t];
    if x.dispatcher == DArrive { return Client(t); }
    BarrierOpens(x);
    if i :| 0 <= i < |x.workers| && !Through(x.workers[i]) { return Work(t, i, Good); }
    return Client(t);
  }

  /** A worker that does not rest. */
  lemma WorkerMoves(s: State, t: nat, i: nat) returns (l: Label)
    requires t < |s.txns| && TxnInv(s.txns[t]) && i < |s.txns[t].workers|
    requires var w := s.txns[t].workers[i]; !Rests(w) && w.pc != Aborted && !MissesRecord(s.g, s.txns[t], w)
    ensures Enabled(s, l) && OfQuery(l, t)
  {
    var w := s.txns[t].workers[i];
    if w.pc == LockRecord {
      l := RecordMoves(s, t, i);
    } else if w.pc == TakeLock {
      l := LockMoves(s, t, i);
    } else {
      l := Work(t, i, Good);
    }
  }

  /** As long as a query is not complete, one of its threads can take a step, unless a worker
      found no connection or waits for a record that is not there. */
  lemma QueryMoves(s: State, t: nat) returns (l: Label)
    requires Reachable(s) && t < |s.txns| && !Complete(s.txns[t])
    requires forall i | 0 <= i < |s.txns[t].workers| ::
               s.txns[t].workers[i].pc != Aborted && !MissesRecord(s.g, s.txns[t], s.txns[t].workers[i])
    ensures Enabled(s, l) && OfQuery(l, t)
  {
    TxnOf(s, t);
    if i :| 0 <= i < |s.txns[t].workers| && !Rests(s.txns[t].workers[i]) {
      l := WorkerMoves(s, t, i);
    } else {
      l := RestMoves(s, t);
    }
  }

  /** A thread inside `net_trans_result` waits for nobody but a worker that can move. */
  lemma InsideMoves(s: State, t: nat, c: nat) returns (l: Label)
    requires Reachable(s) && HasClone(s, t, c) && IsInside(s.txns[t].handlers[c])
    ensures Enabled(s, l) && OfQuery(l, t) && !l.Client?
  {
    TxnOf(s, t);
    CvMoves(s.txns[t], c);
    var cv := s.txns[t].rec.cv;
    l := if cv.CvWorker? then Work(t, cv.i, Good) else Handle(t, c, false);
  }

  lemma CvMoves(x: Txn, c: nat)
    requires Shape(x) && RecordInv(x) && CvInv(x) && c < x.total && IsInside(x.handlers[c])
    ensures x.rec.cv.CvWorker? ==> x.rec.cv.i < |x.workers| && HoldsRecord(x.workers[x.rec.cv.i])
                                   && x.workers[x.rec.cv.i].pc != LockRecord
    ensures x.rec.cv.CvHandler? ==> x.rec.cv.c == c && 7 <= HRank(x.handlers[c]) <= 9
  {
    if x.rec.cv.CvHandler? { assert IsInside(x.handlers[x.rec.cv.c]); }
  }

  /** A vote that has arrived never waits for a thread that cannot move. */
  lemma VoteMoves(labels: seq<Label>, t: nat, c: nat) returns (l: Label)
    requires Runs(Initial(), labels) && HasClone(After(Initial(), labels), t, c)
    requires After(Initial(), labels).txns[t].handlers[c] == HQueued
    ensures Enabled(After(Initial(), labels), l) && (l.Handle? || l.Work?)
  {
    var s := After(Initial(), labels);
    RunReaches(labels);
    MutexOwned(labels);
    if s.g.mutex == NoOne { return Handle(t, c, false); }
    l := InsideMoves(s, s.g.mutex.t, s.g.mutex.c);
  }
}
