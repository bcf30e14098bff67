/** The invariant of the commit protocol, kept by every step of every thread. */
module CommitInvariant {
  import opened Options
  import opened VoteMask
  import opened Counting
  import opened CommitProtocol

  /** Position of a worker in its program; the error exits lie above 100. */
  function Rank(pc: WorkerPc): nat {
    match pc
    case Start => 0 case AwaitResult => 1
    case Gate0 => 2 case Gate1 => 3 case Gate2 => 4 case Gate3 => 5 case Gate4 => 6 case Gate5 => 7
    case TakeLock => 8 case Vote => 9 case Arrive => 10 case AtBarrier => 11
    case ClearBarrier => 12 case CheckGeneration => 13
    case SearchRecord => 14 case LockRecord => 15 case InRecord => 16
    case CountDone => 17 case UnlockRecord => 18
    case Judge => 19 case Reply => 20 case Act => 21 case ReleaseLock => 22
    case Leave => 23 case Finished => 24
    case Aborted => 100 case ErrArrive => 101 case ErrAtBarrier => 102 case Failed => 103
  }

  predicate HasArrived(w: Worker) { 11 <= Rank(w.pc) <= 24 || Rank(w.pc) >= 102 }
  predicate IsThrough(w: Worker) { 12 <= Rank(w.pc) <= 24 || Rank(w.pc) == 103 }
  predicate InPhase(w: Worker) { 7 <= Rank(w.pc) <= 23 }
  predicate HasFlagged(w: Worker) { 8 <= Rank(w.pc) <= 24 }
  predicate HasVoted(w: Worker) { 10 <= Rank(w.pc) <= 24 && w.ok }
  predicate HasCounted(w: Worker) { 18 <= Rank(w.pc) <= 24 && w.consulted }
  predicate HoldsRecord(w: Worker) { 15 <= Rank(w.pc) <= 18 }

  function HRank(pc: HandlerPc): nat {
    match pc
    case HNone => 0 case HQueued => 1 case HSearch => 2 case HUpdate => 3
    case HNotify(_) => 4 case HBroadcast => 5 case HLockCv => 6 case HWaitDone => 7
    case HRemove => 8 case HUnlockCv => 9 case HFree => 10
    case HLeave => 11 case HDone => 12
  }

  predicate HasUpdated(h: HandlerPc) { HRank(h) >= 4 }
  predicate IsInside(h: HandlerPc) { 2 <= HRank(h) <= 11 }

  predicate AllOk(x: Txn) {
    forall i | 0 <= i < |x.workers| :: x.workers[i].ok
  }

  predicate AllCounted(x: Txn) {
    forall i | 0 <= i < |x.workers| :: HasCounted(x.workers[i]) && Rank(x.workers[i].pc) >= 19
  }

  predicate Shape(x: Txn) {
    && 1 <= |x.workers| <= MAX_BACKENDS
    && x.replier < |x.workers|
    && x.total >= 1
    && |x.clones| == |x.handlers| == x.total
  }

  predicate BarrierInv(x: Txn) {
    && x.commit.arrived == CountIf(x.workers, HasArrived) + (if x.dispatcher == DArrive then 0 else 1)
    && (x.commit.barrierNull ==> x.Open())
    && (forall i | 0 <= i < |x.workers| :: IsThrough(x.workers[i]) ==> x.Open())
    && (x.dispatcher != DArrive && x.dispatcher != DAtBarrier ==> x.Open())
    && (forall i | 0 <= i < |x.workers| :: HasFlagged(x.workers[i]) ==> x.commit.committing)
    && (x.commit.committing ==> exists i :: 0 <= i < |x.workers| && HasFlagged(x.workers[i]))
  }

  predicate BallotInv(x: Txn) {
    && (forall b <- x.commit.ballots :: b < |x.workers|)
    && (forall i | 0 <= i < |x.workers| :: i in x.commit.ballots <==> HasVoted(x.workers[i]))
  }

  predicate LockInv(x: Txn)
    requires Shape(x)
  {
    var r := Rank(x.workers[x.replier].pc);
    && (x.commit.lock == HeldByReplier <==> 9 <= r <= 22)
    && (x.commit.lock == HeldByDispatcher <==> x.dispatcher == DHoldLock)
    && (x.dispatcher == DHoldLock || x.dispatcher == DCheck || x.dispatcher == DDone ==>
          r == 23 || r == 24 || r >= 102)
    && x.commit.reply == (if 21 <= r <= 24 then Some(x.workers[x.replier].success) else None)
    && (x.dispatcher == DDone ==> (x.error <==> !AllOk(x)))
  }

  predicate WorkerInv(x: Txn, w: Worker) {
    var r := Rank(w.pc);
    && (r <= 1 || r >= 100 ==> !w.ok)
    && (2 <= r <= 16 ==> w.success == w.ok)
    && (r <= 16 || r >= 100 ==> !w.consulted)
    && (r == 17 || r == 18 ==> w.consulted)
    && (w.consulted ==> x.rec.num == x.total)
    && (17 <= r <= 19 ==> w.success == if w.consulted then x.rec.success else w.ok)
    && (20 <= r <= 24 ==> (w.success <==> AllOk(x) && (w.consulted ==> x.rec.success)))
    && w.acted == (if 22 <= r <= 24 then Some(w.success) else None)
  }

  predicate VoteInv(x: Txn)
    requires Shape(x)
  {
    && x.rec.num == CountIf(x.handlers, HasUpdated)
    && (x.rec.success <==> forall c | 0 <= c < x.total :: HasUpdated(x.handlers[c]) ==> x.clones[c].vote)
    && x.rec.fired == (if x.rec.num == x.total then 1 else 0)
  }

  predicate ReporterInv(x: Txn)
    requires Shape(x)
  {
    var r := x.rec.reporters;
    && |r| == x.rec.num
    && (forall k | 0 <= k < |r| :: r[k] < x.total && HasUpdated(x.handlers[r[k]]))
    && (forall j, k | 0 <= j < k < |r| :: r[j] != r[k])
    && (forall c | 0 <= c < x.total :: HasUpdated(x.handlers[c]) ==> c in r)
  }

  predicate RecordInv(x: Txn)
    requires Shape(x)
  {
    && (forall c | 0 <= c < x.total ::
          var h := HRank(x.handlers[c]);
          && (4 <= h <= 10 ==> x.rec.num == x.total)
          && (3 <= h <= 8 ==> x.rec.state == InTable)
          && (h == 9 || h == 10 ==> x.rec.state == Removed)
          && (8 <= h <= 10 ==> AllCounted(x)))
    && (forall c, d | 0 <= c < x.total && 0 <= d < x.total ::
          IsInside(x.handlers[c]) && IsInside(x.handlers[d]) ==> c == d)
    && (x.rec.state == Absent ==> x.rec.num == 0 && x.rec.done == 0)
    && (x.rec.state == Removed || x.rec.state == Freed ==> x.rec.num == x.total && AllCounted(x))
    && (forall i | 0 <= i < |x.workers| :: HoldsRecord(x.workers[i]) ==> x.rec.state == InTable)
    && x.rec.done == CountIf(x.workers, HasCounted)
  }

  predicate CvInv(x: Txn)
    requires Shape(x)
  {
    && (forall i | 0 <= i < |x.workers| :: x.rec.cv == CvWorker(i) <==> 16 <= Rank(x.workers[i].pc) <= 18)
    && (forall c | 0 <= c < x.total :: x.rec.cv == CvHandler(c) <==> 7 <= HRank(x.handlers[c]) <= 9)
    && (x.rec.cv.CvWorker? ==> x.rec.cv.i < |x.workers|)
    && (x.rec.cv.CvHandler? ==> x.rec.cv.c < x.total)
  }

  predicate CloneInv(x: Txn, k: Clone, h: HandlerPc) {
    && (k.told.Some? ==> x.rec.num == x.total && k.told.value == x.rec.success && (k.pc == CWait || k.pc == CDone))
    && (k.pc == CRunning ==> h == HNone)
    && (h == HNone ==> k.pc == CRunning || k.pc == CLost)
    && (k.pc == CDone ==> k.told.Some?)
    && k.acted == (if k.pc == CDone then k.told else if k.pc == CLost then Some(false) else None)
  }

  predicate TxnInv(x: Txn) {
    && Shape(x)
    && BarrierInv(x)
    && BallotInv(x)
    && LockInv(x)
    && (forall i | 0 <= i < |x.workers| :: WorkerInv(x, x.workers[i]))
    && VoteInv(x)
    && ReporterInv(x)
    && RecordInv(x)
    && CvInv(x)
    && (forall c | 0 <= c < x.total :: CloneInv(x, x.clones[c], x.handlers[c]))
  }

  // ----- consequences -----------------------------------------------------------

  lemma OpenMeansAllArrived(x: Txn)
    requires Shape(x) && BarrierInv(x) && x.Open()
    ensures forall i | 0 <= i < |x.workers| :: HasArrived(x.workers[i])
    ensures x.dispatcher != DArrive
  {
    CountAll(x.workers, HasArrived);
  }

  lemma OpenFixesBallots(x: Txn)
    requires Shape(x) && BarrierInv(x) && BallotInv(x) && x.Open()
    requires forall i | 0 <= i < |x.workers| :: WorkerInv(x, x.workers[i])
    ensures CommitTest(x.commit.ballots, |x.workers|) <==> AllOk(x)
  {
    OpenMeansAllArrived(x);
    FullIffAllVoted(x.commit.ballots, |x.workers|);
    forall i | 0 <= i < |x.workers| ensures i in x.commit.ballots <==> x.workers[i].ok {
      assert WorkerInv(x, x.workers[i]);
    }
    if forall bi: nat :: bi < |x.workers| ==> bi in x.commit.ballots {
      assert AllOk(x);
    }
  }

  // ----- worker steps -----------------------------------------------------------

  /** The jumps of the worker program, by rank. */
  predicate Moves(r: nat, q: nat) {
    || (q == r + 1 && r <= 23)
    || (r == 0 && q == 100) || (r == 1 && q == 101) || (r == 101 && q == 102)
    || (q == 103 && (r == 101 || r == 102))
    || (q == 6 && (r == 2 || r == 3)) || (r == 4 && q == 3) || (r == 5 && q == 4)
    || (r == 10 && q == 13) || (q == 19 && (r == 13 || r == 14)) || (r == 16 && q == 15)
  }

  /** What a step changes in the worker, in `commitdata_t` and in the record. */
  predicate MoveEffect(x: Txn, r: nat, q: nat) {
    && Moves(r, q)
    && (r == 101 ==> q == if x.commit.barrierNull then 103 else 102)
    && (r == 10 ==> q == if x.commit.barrierNull then 13 else 11)
    && (r == 16 ==> q == if x.rec.num < x.total then 15 else 17)
    && (r == 11 || r == 102 ==> x.Open())
    && (r == 14 && q == 15 ==> x.rec.state == InTable)
    && (r == 15 ==> x.rec.cv == CvFree)
  }

  predicate OwnEffect(x: Txn, w: Worker, v: Worker) {
    var r := Rank(w.pc);
    && (if r == 1 && Rank(v.pc) == 2 then v.success == v.ok else v.ok == w.ok)
    && v.consulted == (w.consulted || (r == 16 && x.rec.num >= x.total))
    && (r != 1 && r != 19 ==> v.success == (if r == 16 && x.rec.num >= x.total then x.rec.success else w.success))
    && (r == 19 ==> v.success == (w.success && CommitTest(x.commit.ballots, |x.workers|)))
    && v.acted == (if r == 21 then Some(w.success) else w.acted)
  }

  predicate CommitEffect(x: Txn, i: nat, w: Worker, e: CommitData) {
    var r, d := Rank(w.pc), x.commit;
    && e.arrived == (if (r == 101 || r == 10) && !d.barrierNull then d.arrived + 1 else d.arrived)
    && e.barrierNull == (d.barrierNull || r == 12)
    && e.committing == (d.committing || r == 7)
    && e.ballots == (if r == 9 && w.success then d.ballots + [i] else d.ballots)
    && (r == 8 && i == x.replier ==> d.lock == Unlocked)
    && e.lock == (if i == x.replier && r == 8 then HeldByReplier
                  else if i == x.replier && r == 22 then Unlocked else d.lock)
    && e.reply == (if i == x.replier && r == 20 then Some(w.success) else d.reply)
  }

  predicate RecordEffect(x: Txn, i: nat, w: Worker, e: Record) {
    var r, d := Rank(w.pc), x.rec;
    && e.cv == (if r == 15 then CvWorker(i)
                else if (r == 16 && d.num < x.total) || r == 18 then CvFree else d.cv)
    && e.done == (if r == 17 then d.done + 1 else d.done)
    && e == d.(cv := e.cv, done := e.done)
  }

  predicate WorkerEffect(x: Txn, i: nat, y: Txn)
    requires i < |x.workers|
  {
    && |y.workers| == |x.workers|
    && y == x.(workers := x.workers[i := y.workers[i]], commit := y.commit, rec := y.rec)
    && MoveEffect(x, Rank(x.workers[i].pc), Rank(y.workers[i].pc))
    && OwnEffect(x, x.workers[i], y.workers[i])
    && CommitEffect(x, i, x.workers[i], y.commit)
    && RecordEffect(x, i, x.workers[i], y.rec)
  }

  lemma HasMoveEffect(g: Global, x: Txn, i: nat, o: Outcome)
    requires WorkerCan(g, x, i, o)
    ensures MoveEffect(x, Rank(x.workers[i].pc), Rank(NextPc(g, x, x.workers[i], o)))
  {
  }

  lemma HasOwnEffect(g: Global, x: Txn, i: nat, o: Outcome)
    requires WorkerCan(g, x, i, o)
    ensures OwnEffect(x, x.workers[i], NextWorker(g, x, x.workers[i], o))
    ensures NextWorker(g, x, x.workers[i], o).pc == NextPc(g, x, x.workers[i], o)
  {
  }

  lemma HasCommitEffect(g: Global, x: Txn, i: nat, o: Outcome)
    requires WorkerCan(g, x, i, o)
    ensures CommitEffect(x, i, x.workers[i], NextCommit(x, i, x.workers[i]))
  {
  }

  lemma HasRecordEffect(g: Global, x: Txn, i: nat, o: Outcome)
    requires WorkerCan(g, x, i, o)
    ensures RecordEffect(x, i, x.workers[i], NextRecord(x, i, x.workers[i]))
  {
  }

  lemma WorkerHasEffect(g: Global, x: Txn, i: nat, o: Outcome)
    requires WorkerCan(g, x, i, o)
    ensures WorkerEffect(x, i, WorkerDo(g, x, i, o).x)
  {
    HasMoveEffect(g, x, i, o);
    HasOwnEffect(g, x, i, o);
    HasCommitEffect(g, x, i, o);
    HasRecordEffect(g, x, i, o);
  }

  lemma WorkerKeepsBarrier(x: Txn, i: nat, y: Txn)
    requires Shape(x) && BarrierInv(x) && i < |x.workers| && WorkerEffect(x, i, y)
    ensures BarrierInv(y)
  {
    CountUpdate(x.workers, i, y.workers[i], HasArrived);
    if x.Open() { OpenMeansAllArrived(x); }
    if x.commit.committing {
      var j :| 0 <= j < |x.workers| && HasFlagged(x.workers[j]);
      assert HasFlagged(y.workers[j]);
    } else if y.commit.committing {
      assert HasFlagged(y.workers[i]);
    }
  }

  lemma WorkerKeepsBallots(x: Txn, i: nat, y: Txn)
    requires Shape(x) && BarrierInv(x) && BallotInv(x) && i < |x.workers| && WorkerEffect(x, i, y)
    requires WorkerInv(x, x.workers[i])
    ensures BallotInv(y)
  {
    if x.Open() { OpenMeansAllArrived(x); }
  }

  lemma WorkerKeepsLock(x: Txn, i: nat, y: Txn)
    requires Shape(x) && BarrierInv(x) && LockInv(x) && i < |x.workers| && WorkerEffect(x, i, y)
    requires WorkerInv(x, x.workers[i])
    ensures Shape(y) && LockInv(y)
  {
    if x.Open() { OpenMeansAllArrived(x); }
    if x.dispatcher == DDone {
      assert forall j | 0 <= j < |x.workers| :: y.workers[j].ok == x.workers[j].ok;
    }
  }

  lemma OthersKept(x: Txn, y: Txn, w: Worker)
    requires WorkerInv(x, w)
    requires y.total == x.total && y.rec.num == x.rec.num && y.rec.success == x.rec.success
    requires 20 <= Rank(w.pc) <= 24 ==> (AllOk(y) <==> AllOk(x))
    ensures WorkerInv(y, w)
  {
  }

  lemma MoverKept(x: Txn, i: nat, y: Txn)
    requires i < |x.workers| && WorkerEffect(x, i, y)
    requires WorkerInv(x, x.workers[i]) && x.rec.num <= x.total
    requires 19 <= Rank(x.workers[i].pc) <= 24 ==> (AllOk(y) <==> AllOk(x))
    requires Rank(x.workers[i].pc) == 19 ==> (CommitTest(x.commit.ballots, |x.workers|) <==> AllOk(x))
    requires Rank(x.workers[i].pc) == 19 && AllOk(x) ==> x.workers[i].ok
    ensures WorkerInv(y, y.workers[i])
  {
    var ok := CommitTest(x.commit.ballots, |x.workers|);
  }

  lemma WorkerKeepsWorkers(x: Txn, i: nat, y: Txn)
    requires Shape(x) && BarrierInv(x) && BallotInv(x) && VoteInv(x) && i < |x.workers| && WorkerEffect(x, i, y)
    requires forall j | 0 <= j < |x.workers| :: WorkerInv(x, x.workers[j])
    ensures forall j | 0 <= j < |y.workers| :: WorkerInv(y, y.workers[j])
  {
    if x.Open() {
      OpenMeansAllArrived(x);
      OpenFixesBallots(x);
      assert forall j | 0 <= j < |x.workers| :: y.workers[j].ok == x.workers[j].ok;
    }
    MoverKept(x, i, y);
    forall j | 0 <= j < |y.workers| && j != i ensures WorkerInv(y, y.workers[j]) {
      OthersKept(x, y, x.workers[j]);
    }
  }

  lemma WorkerKeepsRecord(x: Txn, i: nat, y: Txn)
    requires Shape(x) && RecordInv(x) && i < |x.workers| && WorkerEffect(x, i, y)
    requires WorkerInv(x, x.workers[i])
    ensures Shape(y) && RecordInv(y)
  {
    CountUpdate(x.workers, i, y.workers[i], HasCounted);
    if AllCounted(x) { assert AllCounted(y); }
  }

  lemma WorkerKeepsCv(x: Txn, i: nat, y: Txn)
    requires Shape(x) && CvInv(x) && i < |x.workers| && WorkerEffect(x, i, y)
    requires WorkerInv(x, x.workers[i])
    ensures Shape(y) && CvInv(y)
  {
  }

  lemma WorkerKeepsInv(g: Global, x: Txn, i: nat, o: Outcome)
    requires TxnInv(x) && WorkerCan(g, x, i, o)
    ensures TxnInv(WorkerDo(g, x, i, o).x)
  {
    var y := WorkerDo(g, x, i, o).x;
    WorkerHasEffect(g, x, i, o);
    WorkerKeepsBarrier(x, i, y);
    WorkerKeepsBallots(x, i, y);
    WorkerKeepsLock(x, i, y);
    WorkerKeepsWorkers(x, i, y);
    WorkerKeepsRecord(x, i, y);
    WorkerKeepsCv(x, i, y);
    forall c | 0 <= c < y.total ensures CloneInv(y, y.clones[c], y.handlers[c]) {
      assert CloneInv(x, x.clones[c], x.handlers[c]);
    }
  }

  // ----- client steps -----------------------------------------------------------

  lemma ClientErrorTest(x: Txn)
    requires Shape(x) && BarrierInv(x) && BallotInv(x) && x.Open()
    requires forall i | 0 <= i < |x.workers| :: WorkerInv(x, x.workers[i])
    ensures SomeBitMissing(x.commit.ballots, |x.workers|) <==> !AllOk(x)
  {
    OpenMeansAllArrived(x);
    forall i | 0 <= i < |x.workers|
      ensures And(Tally(x.commit.ballots), Bit(i)) != 0 <==> x.workers[i].ok
    {
      BitTestReadsVoters(x.commit.ballots, i);
      assert WorkerInv(x, x.workers[i]);
    }
  }

  predicate CoordinatorInv(x: Txn)
    requires Shape(x)
  {
    && VoteInv(x)
    && ReporterInv(x)
    && RecordInv(x)
    && CvInv(x)
    && (forall c | 0 <= c < x.total :: CloneInv(x, x.clones[c], x.handlers[c]))
  }

  predicate RoundInv(x: Txn)
    requires Shape(x)
  {
    && BarrierInv(x)
    && BallotInv(x)
    && LockInv(x)
    && (forall i | 0 <= i < |x.workers| :: WorkerInv(x, x.workers[i]))
  }

  lemma CoordinatorFrame(x: Txn, y: Txn)
    requires Shape(x) && CoordinatorInv(x)
    requires y == x.(commit := y.commit, dispatcher := y.dispatcher, error := y.error)
    ensures Shape(y) && CoordinatorInv(y)
  {
    assert AllCounted(y) <==> AllCounted(x);
    forall c | 0 <= c < y.total ensures CloneInv(y, y.clones[c], y.handlers[c]) {
      assert CloneInv(x, x.clones[c], x.handlers[c]);
    }
  }

  lemma RoundFrame(x: Txn, y: Txn)
    requires Shape(x) && RoundInv(x)
    requires y == x.(rec := y.rec, clones := y.clones, handlers := y.handlers) && Shape(y)
    requires (y.rec.num == x.rec.num && y.rec.success == x.rec.success) || x.rec.num != x.total
    ensures RoundInv(y)
  {
    assert AllOk(y) <==> AllOk(x);
    forall i | 0 <= i < |y.workers| ensures WorkerInv(y, y.workers[i]) {
      assert WorkerInv(x, x.workers[i]);
    }
  }

  lemma ClientKeepsInv(x: Txn)
    requires TxnInv(x) && ClientCan(x)
    ensures TxnInv(ClientDo(x))
  {
    var y := ClientDo(x);
    CoordinatorFrame(x, y);
    ClientKeepsRound(x);
  }

  lemma ClientKeepsBarrier(x: Txn)
    requires Shape(x) && BarrierInv(x) && ClientCan(x)
    ensures BarrierInv(ClientDo(x))
  {
    var y := ClientDo(x);
    if x.Open() { OpenMeansAllArrived(x); }
    if x.commit.committing {
      var j :| 0 <= j < |x.workers| && HasFlagged(x.workers[j]);
      assert HasFlagged(y.workers[j]);
    }
  }

  lemma ClientKeepsLock(x: Txn)
    requires Shape(x) && RoundInv(x) && ClientCan(x)
    ensures Shape(ClientDo(x)) && LockInv(ClientDo(x))
  {
    var y := ClientDo(x);
    if x.Open() { OpenMeansAllArrived(x); }
    assert AllOk(y) <==> AllOk(x);
    if x.dispatcher == DCheck { ClientErrorTest(x); }
  }

  lemma ClientKeepsRound(x: Txn)
    requires Shape(x) && RoundInv(x) && ClientCan(x)
    ensures Shape(ClientDo(x)) && RoundInv(ClientDo(x))
  {
    var y := ClientDo(x);
    ClientKeepsBarrier(x);
    ClientKeepsLock(x);
    assert BallotInv(y);
    assert AllOk(y) <==> AllOk(x);
    forall i | 0 <= i < |y.workers| ensures WorkerInv(y, y.workers[i]) {
      OthersKept(x, y, x.workers[i]);
    }
  }

  // ----- clone steps ------------------------------------------------------------

  lemma CloneKeepsInv(x: Txn, c: nat, o: Outcome, vote: bool)
    requires TxnInv(x) && CloneCan(x, c, o)
    ensures TxnInv(CloneDo(x, c, o, vote))
  {
    var y := CloneDo(x, c, o, vote);
    RoundFrame(x, y);
    CloneHasEffect(x, c, o, vote);
    CloneKeepsCoordinator(x, c, y);
  }

  /** Which fields of the transaction a clone's step can change, and how. */
  predicate CloneEffect(x: Txn, c: nat, y: Txn) {
    && c < |x.clones| == |x.handlers| == |y.clones| == |y.handlers|
    && y == x.(clones := x.clones[c := y.clones[c]], handlers := x.handlers[c := y.handlers[c]])
    && (y.handlers[c] == x.handlers[c] || (x.handlers[c] == HNone && y.handlers[c] == HQueued))
    && (x.clones[c].vote == y.clones[c].vote || x.clones[c].pc == CRunning)
    && CloneInv(y, y.clones[c], y.handlers[c])
  }

  lemma CloneHasEffect(x: Txn, c: nat, o: Outcome, vote: bool)
    requires CloneCan(x, c, o) && CloneInv(x, x.clones[c], x.handlers[c])
    ensures CloneEffect(x, c, CloneDo(x, c, o, vote))
  {
  }

  lemma CloneKeepsVotes(x: Txn, c: nat, y: Txn)
    requires Shape(x) && VoteInv(x) && ReporterInv(x) && CloneEffect(x, c, y)
    requires CloneInv(x, x.clones[c], x.handlers[c])
    ensures Shape(y) && VoteInv(y) && ReporterInv(y)
  {
    CountUpdate(x.handlers, c, y.handlers[c], HasUpdated);
    assert forall d | 0 <= d < x.total ::
        && (HasUpdated(y.handlers[d]) <==> HasUpdated(x.handlers[d]))
        && (HasUpdated(x.handlers[d]) ==> y.clones[d].vote == x.clones[d].vote);
  }

  lemma CloneKeepsRecord(x: Txn, c: nat, y: Txn)
    requires Shape(x) && RecordInv(x) && CvInv(x) && CloneEffect(x, c, y)
    ensures Shape(y) && RecordInv(y) && CvInv(y)
  {
    assert AllCounted(y) <==> AllCounted(x);
  }

  lemma CloneKeepsCoordinator(x: Txn, c: nat, y: Txn)
    requires Shape(x) && CoordinatorInv(x) && CloneEffect(x, c, y)
    ensures Shape(y) && CoordinatorInv(y)
  {
    CloneKeepsVotes(x, c, y);
    CloneKeepsRecord(x, c, y);
    forall d | 0 <= d < y.total ensures CloneInv(y, y.clones[d], y.handlers[d]) {
      assert CloneInv(x, x.clones[d], x.handlers[d]);
    }
  }

  // ----- handler steps ----------------------------------------------------------

  predicate HandlerMoves(h: nat, q: nat) {
    || (q == h + 1 && 1 <= h <= 11) || (h == 3 && q == 11) || (h == 4 && q == 4) || (h == 7 && q == 6)
  }

  /** What the handler of clone `c` changes in the record. */
  predicate HandlerEffect(x: Txn, c: nat, h: nat, q: nat, e: Record)
    requires c < |x.clones|
  {
    var d := x.rec;
    && HandlerMoves(h, q)
    && (h == 3 ==> q == if d.num + 1 == x.total then 4 else 11)
    && (h == 7 ==> q == if d.done < |x.workers| then 6 else 8)
    && (h == 6 ==> d.cv == CvFree)
    && e.state == (if h == 2 then InTable else if h == 8 then Removed else if h == 10 then Freed else d.state)
    && e.cv == (if h == 6 then CvHandler(c) else if (h == 7 && q == 6) || h == 9 then CvFree else d.cv)
    && (if h == 2 && d.state != InTable then e.num == 0 && e.done == 0 && e.success && e.reporters == []
        else if h == 3 then e.num == d.num + 1 && e.done == d.done && e.reporters == d.reporters + [c]
                            && e.success == (d.success && x.clones[c].vote)
        else e.num == d.num && e.done == d.done && e.success == d.success && e.reporters == d.reporters)
    && e.fired == (if h == 3 && q == 4 then d.fired + 1 else d.fired)
  }

  lemma HandlerHasEffect(g: Global, x: Txn, c: nat, delivered: bool)
    requires HandlerCan(g, x, c, delivered)
    ensures HandlerEffect(x, c, HRank(x.handlers[c]), HRank(NextHandler(x, c)), HandledRecord(x, c))
  {
  }

  /** The step of the handler of clone `c`, as the invariant sees it. */
  predicate HandlerStep(x: Txn, c: nat, y: Txn)
    requires Shape(x)
  {
    && c < x.total == |y.handlers| == |y.clones|
    && y == x.(handlers := x.handlers[c := y.handlers[c]], rec := y.rec, clones := y.clones)
    && HandlerEffect(x, c, HRank(x.handlers[c]), HRank(y.handlers[c]), y.rec)
    && (forall d | 0 <= d < x.total ::
          y.clones[d] == x.clones[d]
          || (HRank(x.handlers[c]) == 4 && x.clones[d].pc == CWait
              && y.clones[d] == x.clones[d].(told := Some(x.rec.success))))
  }

  lemma HandlerHasStep(t: nat, g: Global, x: Txn, c: nat, delivered: bool)
    requires Shape(x) && HandlerCan(g, x, c, delivered)
    ensures HandlerStep(x, c, HandlerDo(t, g, x, c, delivered).x)
  {
    HandlerHasEffect(g, x, c, delivered);
  }

  lemma EarlyHandlerFacts(x: Txn, c: nat)
    requires Shape(x) && VoteInv(x) && RecordInv(x) && c < x.total && HRank(x.handlers[c]) <= 3
    ensures x.rec.num < x.total
    ensures x.rec.state == InTable || x.rec.state == Absent
  {
    CountAll(x.handlers, HasUpdated);
  }

  lemma HandlerKeepsVotes(x: Txn, c: nat, y: Txn)
    requires Shape(x) && VoteInv(x) && RecordInv(x) && HandlerStep(x, c, y)
    ensures Shape(y) && VoteInv(y)
  {
    CountUpdate(x.handlers, c, y.handlers[c], HasUpdated);
    if HRank(x.handlers[c]) <= 3 { EarlyHandlerFacts(x, c); }
    if HRank(x.handlers[c]) == 2 { CountNone(x.handlers, HasUpdated); }
  }

  lemma HandlerKeepsReporters(x: Txn, c: nat, y: Txn)
    requires Shape(x) && VoteInv(x) && ReporterInv(x) && RecordInv(x) && HandlerStep(x, c, y)
    ensures Shape(y) && ReporterInv(y)
  {
    if HRank(x.handlers[c]) <= 3 { EarlyHandlerFacts(x, c); }
    if HRank(x.handlers[c]) == 2 { CountNone(x.handlers, HasUpdated); }
  }

  lemma HandlerKeepsRecord(x: Txn, c: nat, y: Txn)
    requires Shape(x) && VoteInv(x) && RecordInv(x) && CvInv(x) && HandlerStep(x, c, y)
    requires HRank(x.handlers[c]) == 1 ==> forall d | 0 <= d < x.total :: !IsInside(x.handlers[d])
    ensures Shape(y) && RecordInv(y)
  {
    if HRank(x.handlers[c]) <= 3 { EarlyHandlerFacts(x, c); }
    assert AllCounted(y) <==> AllCounted(x);
    if HRank(x.handlers[c]) == 7 && HRank(y.handlers[c]) == 8 {
      CountAll(x.workers, HasCounted);
      assert forall i | 0 <= i < |x.workers| :: x.rec.cv != CvWorker(i);
      assert AllCounted(x);
    }
  }

  lemma HandlerKeepsCv(x: Txn, c: nat, y: Txn)
    requires Shape(x) && CvInv(x) && HandlerStep(x, c, y)
    ensures Shape(y) && CvInv(y)
  {
  }

  lemma HandlerKeepsClones(x: Txn, c: nat, y: Txn)
    requires Shape(x) && VoteInv(x) && RecordInv(x) && HandlerStep(x, c, y)
    requires forall d | 0 <= d < x.total :: CloneInv(x, x.clones[d], x.handlers[d])
    ensures forall d | 0 <= d < y.total :: CloneInv(y, y.clones[d], y.handlers[d])
  {
    if HRank(x.handlers[c]) <= 3 { EarlyHandlerFacts(x, c); }
    forall d | 0 <= d < y.total ensures CloneInv(y, y.clones[d], y.handlers[d]) {
      assert CloneInv(x, x.clones[d], x.handlers[d]);
    }
  }

  lemma HandlerKeepsInv(t: nat, g: Global, x: Txn, c: nat, delivered: bool)
    requires TxnInv(x) && HandlerCan(g, x, c, delivered)
    requires MutexInv(g, t, x.handlers)
    ensures TxnInv(HandlerDo(t, g, x, c, delivered).x)
  {
    var y := HandlerDo(t, g, x, c, delivered).x;
    HandlerHasStep(t, g, x, c, delivered);
    HandlerKeepsVotes(x, c, y);
    HandlerKeepsReporters(x, c, y);
    HandlerKeepsRecord(x, c, y);
    HandlerKeepsCv(x, c, y);
    HandlerKeepsClones(x, c, y);
    if HRank(x.handlers[c]) <= 3 { EarlyHandlerFacts(x, c); }
    RoundFrame(x, y);
  }

  // ----- the whole state ----------------------------------------------------------

  /** Workers of all transactions that are inside the commit phase. */
  function PhaseSum(txns: seq<Txn>): nat {
    if txns == [] then 0 else CountIf(txns[0].workers, InPhase) + PhaseSum(txns[1..])
  }

  predicate Inv(s: State) {
    && All(s.txns, TxnInv)
    && s.g.committing == PhaseSum(s.txns)
    && AllMutexInv(s.g, s.txns)
  }

  /** Only the holder of `result_mutex` works on a record. */
  predicate MutexInv(g: Global, t: nat, handlers: seq<HandlerPc>) {
    forall c | 0 <= c < |handlers| :: IsInside(handlers[c]) ==> g.mutex == HandlerOf(t, c)
  }

  lemma {:induction false} PhaseSumUpdate(txns: seq<Txn>, t: nat, y: Txn)
    requires t < |txns|
    ensures PhaseSum(txns[t := y])
         == PhaseSum(txns) - CountIf(txns[t].workers, InPhase) + CountIf(y.workers, InPhase)
  {
    if t == 0 {
      assert txns[0 := y][1..] == txns[1..];
    } else {
      assert txns[t := y][1..] == txns[1..][t - 1 := y];
      PhaseSumUpdate(txns[1..], t - 1, y);
    }
  }

  lemma {:induction false} PhaseSumAppend(txns: seq<Txn>, y: Txn)
    ensures PhaseSum(txns + [y]) == PhaseSum(txns) + CountIf(y.workers, InPhase)
  {
    if txns == [] {
      assert txns + [y] == [y];
    } else {
      assert (txns + [y])[1..] == txns[1..] + [y];
      PhaseSumAppend(txns[1..], y);
    }
  }

  lemma WorkerPhase(g: Global, x: Txn, i: nat, o: Outcome)
    requires WorkerCan(g, x, i, o)
    ensures WorkerDo(g, x, i, o).g.committing - g.committing
         == CountIf(WorkerDo(g, x, i, o).x.workers, InPhase) - CountIf(x.workers, InPhase)
  {
    HasMoveEffect(g, x, i, o);
    CountUpdate(x.workers, i, NextWorker(g, x, x.workers[i], o), InPhase);
  }

  lemma FreshRound(n: nat, replier: nat, total: nat)
    requires 1 <= n <= MAX_BACKENDS && replier < n && total >= 1
    ensures Shape(FreshTxn(n, replier, total)) && RoundInv(FreshTxn(n, replier, total))
    ensures CountIf(FreshTxn(n, replier, total).workers, InPhase) == 0
  {
    var x := FreshTxn(n, replier, total);
    CountNone(x.workers, HasArrived);
    CountNone(x.workers, InPhase);
  }

  lemma FreshCoordinator(n: nat, replier: nat, total: nat)
    requires 1 <= n <= MAX_BACKENDS && replier < n && total >= 1
    ensures Shape(FreshTxn(n, replier, total)) && CoordinatorInv(FreshTxn(n, replier, total))
  {
    var x := FreshTxn(n, replier, total);
    CountNone(x.workers, HasCounted);
    CountNone(x.handlers, HasUpdated);
  }

  predicate AllMutexInv(g: Global, txns: seq<Txn>) {
    forall t | 0 <= t < |txns| :: MutexInv(g, t, txns[t].handlers)
  }

  lemma ReplaceKeepsMutex(g: Global, txns: seq<Txn>, t: nat, h: Global, y: Txn)
    requires AllMutexInv(g, txns) && t < |txns| && MutexInv(h, t, y.handlers)
    requires h.mutex == g.mutex || g.mutex == NoOne || g.mutex.t == t
    ensures AllMutexInv(h, txns[t := y])
  {
    forall u | 0 <= u < |txns| && u != t ensures MutexInv(h, u, txns[u].handlers) {
      assert MutexInv(g, u, txns[u].handlers);
    }
  }

  lemma ReplaceKeepsInv(s: State, t: nat, h: Global, y: Txn)
    requires Inv(s) && t < |s.txns| && TxnInv(y)
    requires h.committing - s.g.committing == CountIf(y.workers, InPhase) - CountIf(s.txns[t].workers, InPhase)
    requires h.mutex == s.g.mutex || s.g.mutex == NoOne || s.g.mutex.t == t
    requires MutexInv(h, t, y.handlers)
    ensures Inv(State(h, s.txns[t := y]))
  {
    PhaseSumUpdate(s.txns, t, y);
    AllUpdate(s.txns, t, y, TxnInv);
    ReplaceKeepsMutex(s.g, s.txns, t, h, y);
  }

  lemma AppendKeepsMutex(g: Global, txns: seq<Txn>, y: Txn)
    requires AllMutexInv(g, txns) && MutexInv(g, |txns|, y.handlers)
    ensures AllMutexInv(g, txns + [y])
  {
    var more := txns + [y];
    forall t | 0 <= t < |more| ensures MutexInv(g, t, more[t].handlers) {
      if t < |txns| { assert MutexInv(g, t, txns[t].handlers); }
    }
  }

  lemma AppendKeepsInv(s: State, y: Txn)
    requires Inv(s) && TxnInv(y) && CountIf(y.workers, InPhase) == 0 && MutexInv(s.g, |s.txns|, y.handlers)
    ensures Inv(State(s.g, s.txns + [y]))
  {
    PhaseSumAppend(s.txns, y);
    AllAppend(s.txns, y, TxnInv);
    AppendKeepsMutex(s.g, s.txns, y);
  }

  lemma HandlerKeepsMutex(t: nat, g: Global, x: Txn, c: nat, delivered: bool)
    requires HandlerCan(g, x, c, delivered) && MutexInv(g, t, x.handlers)
    ensures var r := HandlerDo(t, g, x, c, delivered);
      && MutexInv(r.g, t, r.x.handlers)
      && (r.g.mutex == g.mutex || g.mutex == NoOne || g.mutex == HandlerOf(t, c))
  {
    var r := HandlerDo(t, g, x, c, delivered);
    HandlerHasEffect(g, x, c, delivered);
    forall d | 0 <= d < |r.x.handlers| && IsInside(r.x.handlers[d]) ensures r.g.mutex == HandlerOf(t, d) {
      if d != c { assert IsInside(x.handlers[d]); }
    }
  }

  lemma CloneKeepsMutex(g: Global, t: nat, x: Txn, c: nat, o: Outcome, vote: bool)
    requires CloneCan(x, c, o) && MutexInv(g, t, x.handlers)
    ensures MutexInv(g, t, CloneDo(x, c, o, vote).handlers)
  {
  }

  lemma DispatchKeepsInv(s: State, n: nat, replier: nat, total: nat)
    requires Inv(s) && Enabled(s, Dispatch(n, replier, total))
    ensures Inv(Do(s, Dispatch(n, replier, total)))
  {
    FreshRound(n, replier, total);
    FreshCoordinator(n, replier, total);
    AppendKeepsInv(s, FreshTxn(n, replier, total));
  }

  lemma WorkKeepsInv(s: State, t: nat, i: nat, o: Outcome)
    requires Inv(s) && Enabled(s, Work(t, i, o))
    ensures Inv(Do(s, Work(t, i, o)))
  {
    WorkerKeepsInv(s.g, s.txns[t], i, o);
    WorkerPhase(s.g, s.txns[t], i, o);
    var r := WorkerDo(s.g, s.txns[t], i, o);
    ReplaceKeepsInv(s, t, r.g, r.x);
  }

  lemma HandleKeepsInv(s: State, t: nat, c: nat, d: bool)
    requires Inv(s) && Enabled(s, Handle(t, c, d))
    ensures Inv(Do(s, Handle(t, c, d)))
  {
    HandlerKeepsInv(t, s.g, s.txns[t], c, d);
    HandlerKeepsMutex(t, s.g, s.txns[t], c, d);
    var r := HandlerDo(t, s.g, s.txns[t], c, d);
    ReplaceKeepsInv(s, t, r.g, r.x);
  }

  lemma CloneKeepsTxn(g: Global, t: nat, x: Txn, c: nat, o: Outcome, vote: bool)
    requires TxnInv(x) && CloneCan(x, c, o) && MutexInv(g, t, x.handlers)
    ensures var y := CloneDo(x, c, o, vote);
      TxnInv(y) && MutexInv(g, t, y.handlers) && y.workers == x.workers
  {
    CloneKeepsInv(x, c, o, vote);
    CloneKeepsMutex(g, t, x, c, o, vote);
  }

  lemma CloneActKeepsInv(s: State, t: nat, c: nat, o: Outcome, vote: bool)
    requires Inv(s) && Enabled(s, CloneAct(t, c, o, vote))
    ensures Inv(Do(s, CloneAct(t, c, o, vote)))
  {
    CloneKeepsTxn(s.g, t, s.txns[t], c, o, vote);
    ReplaceKeepsInv(s, t, s.g, CloneDo(s.txns[t], c, o, vote));
  }

  lemma ClientStepKeepsInv(s: State, t: nat)
    requires Inv(s) && Enabled(s, Client(t))
    ensures Inv(Do(s, Client(t)))
  {
    ClientKeepsInv(s.txns[t]);
    ReplaceKeepsInv(s, t, s.g, ClientDo(s.txns[t]));
  }

  lemma GlobalKeepsMutex(g: Global, h: Global, txns: seq<Txn>)
    requires AllMutexInv(g, txns) && h.mutex == g.mutex
    ensures AllMutexInv(h, txns)
  {
    forall t | 0 <= t < |txns| ensures MutexInv(h, t, txns[t].handlers) {
      assert MutexInv(g, t, txns[t].handlers);
    }
  }

  /** PROXY CLONE commands touch neither `committing` nor `result_mutex`. */
  lemma CloningKeepsInv(s: State, h: Global)
    requires Inv(s) && h.committing == s.g.committing && h.mutex == s.g.mutex
    ensures Inv(State(h, s.txns))
  {
    GlobalKeepsMutex(s.g, h, s.txns);
  }

  /** Every step of every thread keeps the invariant. */
  lemma StepKeepsInv(s: State, l: Label)
    requires Inv(s) && Enabled(s, l)
    ensures Inv(Do(s, l))
  {
    match l
    case Dispatch(n, replier, total) => DispatchKeepsInv(s, n, replier, total);
    case Work(t, i, o) => WorkKeepsInv(s, t, i, o);
    case Client(t) => ClientStepKeepsInv(s, t);
    case CloneAct(t, c, o, vote) => CloneActKeepsInv(s, t, c, o, vote);
    case Handle(t, c, d) => HandleKeepsInv(s, t, c, d);
    case Command => CloningKeepsInv(s, Do(s, l).g);
    case Cloning(_, _) => CloningKeepsInv(s, Do(s, l).g);
  }

  /** The invariant holds at the end of every interleaving. */
  lemma {:induction false} RunKeepsInv(s: State, labels: seq<Label>)
    requires Inv(s) && Runs(s, labels)
    ensures Inv(After(s, labels))
    decreases |labels|
  {
    if labels != [] {
      StepKeepsInv(s, labels[0]);
      RunKeepsInv(Do(s, labels[0]), labels[1..]);
    }
  }
}
