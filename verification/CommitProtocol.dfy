/** Replicated commit and cloning, as a state machine over the steps of its threads.

    A state holds any number of replicated queries ("transactions").  Each has a
    dispatching client thread, one worker thread per backend, one coordinator
    record, the clones that were forked while the query ran and, per clone, the
    coordinator thread that handles its SUCCESS/FAILURE message.  Any number of
    threads run PROXY CLONE.  One label is one step of one thread, so a sequence of
    labels is one interleaving.

    What counts as one step:
      - the dispatch loop (it rewrites `commit->committing` in every iteration);
      - the update of `clone_ids`, `num` and `success` by a result message, and
        the assignment of `num` and `success` by a decision message;
      - leaving the record search loop and the test of the generation behind it;
      - the search for a record and its creation by a result message, the broadcast
        with the locking around it, reading `num` and `success` after the wait, and
        counting `done` with the signal that may follow;
      - setting `req_clones` and `new_clones`;
      - one read or one write of a shared variable otherwise, and memory is
        sequentially consistent.
    A `commitdata_t`, and the `results` and the barrier that it points to, serve one
    transaction only and outlive it; in the code the last two are variables of the
    dispatching thread (see `ReturnsEarly` in `Races`).  The number of backends of a
    transaction is fixed, two-phase commit is on, and `total` is the number of
    clones of the generation.  The last reporter waits for all workers of the
    query, which are the backends less the `total` new ones.  Three choices allow
    more runs than the code has: a dispatch does not wait for `cloning`, a clone may
    report at any time after the dispatch, and a condition wait, which releases its
    mutex, may wake up at any time.
 */
module CommitProtocol {
  import opened Options
  import opened VoteMask

  /** What the outside world answers to a step that asks it something. */
  datatype Outcome = Good | Bad | Broken

  // ----- worker of one backend ------------------------------------------------

  datatype WorkerPc =
    | Start | AwaitResult
    | Gate0 | Gate1 | Gate2 | Gate3 | Gate4 | Gate5
    | TakeLock | Vote | Arrive | AtBarrier | ClearBarrier | CheckGeneration
    | SearchRecord | LockRecord | InRecord | CountDone | UnlockRecord
    | Judge | Reply | Act | ReleaseLock | Leave | Finished
    | Aborted | ErrArrive | ErrAtBarrier | Failed

  /** `ok`: the backend executed the query; `success`: the worker's variable;
      `consulted`: the worker took `success` from the coordinator record. */
  datatype Worker = Worker(
    pc: WorkerPc, ok: bool, success: bool, consulted: bool,
    startGeneration: int, acted: Option<bool>)

  // ----- the dispatching client thread ----------------------------------------

  datatype DispatcherPc = DArrive | DAtBarrier | DTakeLock | DHoldLock | DCheck | DDone

  datatype SpinLock = Unlocked | HeldByReplier | HeldByDispatcher

  // ----- clones and the coordinator record -------------------------------------

  datatype ClonePc = CRunning | CAwaitAck | CInsert | CWait | CDone | CLost

  /** `told`: the decision received through PROXY COMMIT/ROLLBACK. */
  datatype Clone = Clone(pc: ClonePc, vote: bool, told: Option<bool>, acted: Option<bool>)

  datatype HandlerPc =
    | HNone | HQueued | HSearch | HUpdate
    | HNotify(k: nat) | HBroadcast | HLockCv | HWaitDone | HRemove | HUnlockCv | HFree
    | HLeave | HDone

  datatype RecordState = Absent | InTable | Removed | Freed

  datatype CvHolder = CvFree | CvWorker(i: nat) | CvHandler(c: nat)

  /** `proxy_trans_t` on the coordinator.  `reporters` lists the recorded clone
      ids in order; `fired` counts the decisions taken. */
  datatype Record = Record(
    state: RecordState, num: nat, success: bool, done: nat,
    reporters: seq<nat>, cv: CvHolder, fired: nat)

  // ----- one transaction -------------------------------------------------------

  /** `commitdata_t`.  The word `results` is the outcome of the atomic ORs listed
      in `ballots`, `Tally(ballots)`; `reply` is what the client was sent. */
  datatype CommitData = CommitData(
    ballots: seq<nat>, arrived: nat, barrierNull: bool,
    committing: bool, lock: SpinLock, reply: Option<bool>)

  datatype Txn = Txn(
    replier: nat, total: nat,
    workers: seq<Worker>, commit: CommitData,
    dispatcher: DispatcherPc, error: bool,
    rec: Record, clones: seq<Clone>, handlers: seq<HandlerPc>)
  {
    /** The barrier was initialised for the backends and the dispatcher. */
    predicate Open() { commit.arrived == |workers| + 1 }

    function Handler(c: nat, pc: HandlerPc): Txn
      requires c < |handlers|
    {
      this.(handlers := handlers[c := pc])
    }

    function PutClone(c: nat, k: Clone): Txn
      requires c < |clones|
    {
      this.(clones := clones[c := k])
    }
  }

  // ----- global variables ------------------------------------------------------

  /** A PROXY CLONE command: announce, wait, claim, ask the master, and wait for the clones. */
  datatype ClonerPc =
    | KAnnounce | KWait | KPrepare | KClaim | KRequest | KIncrement
    | KClones | KDecrement | KRelease | KClear | KDone

  datatype ResultMutex = NoOne | HandlerOf(t: nat, c: nat)

  /** `requested` says that `req_clones` is not zero. */
  datatype Global = Global(
    cloning: bool, committing: int, generation: int, requested: bool, cloners: seq<ClonerPc>, mutex: ResultMutex)

  datatype State = State(g: Global, txns: seq<Txn>)

  datatype Local = Local(g: Global, x: Txn)

  datatype Label =
    | Dispatch(n: nat, replier: nat, total: nat)
    | Work(t: nat, i: nat, o: Outcome)
    | Client(t: nat)
    | CloneAct(t: nat, c: nat, o: Outcome, vote: bool)
    | Handle(t: nat, c: nat, delivered: bool)
    | Command
    | Cloning(k: nat, ok: bool)

  // ----- steps of a worker -----------------------------------------------------

  predicate WorkerCan(g: Global, x: Txn, i: nat, o: Outcome) {
    && i < |x.workers|
    && match x.workers[i].pc
       case Start => o != Bad
       case AtBarrier => x.Open()
       case ErrAtBarrier => x.Open()
       case TakeLock => i == x.replier ==> x.commit.lock == Unlocked
       case SearchRecord => g.generation == x.workers[i].startGeneration || x.rec.state == InTable
       case LockRecord => x.rec.cv == CvFree
       case Finished => false
       case Aborted => false
       case Failed => false
       case _ => true
  }

  /** Control flow of `backend_query` and `backend_check_commit`. */
  function NextPc(g: Global, x: Txn, w: Worker, o: Outcome): WorkerPc {
    match w.pc
    case Start => if o == Broken then Aborted else AwaitResult
    case AwaitResult => if o == Broken then ErrArrive else Gate0
    // A read error joins the barrier without a vote.
    case ErrArrive => if x.commit.barrierNull then Failed else ErrAtBarrier
    case ErrAtBarrier => Failed
    // The commit gate.
    case Gate0 => if x.commit.committing then Gate4 else Gate1
    case Gate1 => if g.cloning then Gate2 else Gate4
    case Gate2 => if g.committing != 0 then Gate3 else Gate1
    case Gate3 => if x.commit.committing then Gate4 else Gate2
    case Gate4 => Gate5
    case Gate5 => TakeLock
    // Vote and meet the others.
    case TakeLock => Vote
    case Vote => Arrive
    case Arrive => if x.commit.barrierNull then CheckGeneration else AtBarrier
    case AtBarrier => ClearBarrier
    case ClearBarrier => CheckGeneration
    // Cloned while the query ran: wait for the clones' decision.
    case CheckGeneration => if g.generation != w.startGeneration then SearchRecord else Judge
    case SearchRecord => if g.generation == w.startGeneration then Judge else LockRecord
    case LockRecord => InRecord
    case InRecord => if x.rec.num < x.total then LockRecord else CountDone
    case CountDone => UnlockRecord
    case UnlockRecord => Judge
    // Decide, answer the client, finish on the backend.
    case Judge => Reply
    case Reply => Act
    case Act => ReleaseLock
    case ReleaseLock => Leave
    case Leave => Finished
    case Finished => Finished
    case Aborted => Aborted
    case Failed => Failed
  }

  /** The worker's own variables. */
  function NextWorker(g: Global, x: Txn, w: Worker, o: Outcome): Worker {
    var v := w.(pc := NextPc(g, x, w, o));
    match w.pc
    case Start => v.(startGeneration := g.generation)
    case AwaitResult => if o == Broken then v else v.(ok := o == Good, success := o == Good)
    case InRecord => if x.rec.num < x.total then v else v.(success := x.rec.success, consulted := true)
    case Judge => v.(success := w.success && CommitTest(x.commit.ballots, |x.workers|))
    case Act => v.(acted := Some(w.success))
    case _ => v
  }

  predicate CommitTest(ballots: seq<nat>, n: nat) {
    n >= 1 && Tally(ballots) == Full(n)
  }

  /** The variables in `commitdata_t`. */
  function NextCommit(x: Txn, i: nat, w: Worker): CommitData {
    var d := x.commit;
    match w.pc
    case ErrArrive => if d.barrierNull then d else d.(arrived := d.arrived + 1)
    case Gate5 => d.(committing := true)
    case TakeLock => if i == x.replier then d.(lock := HeldByReplier) else d
    case Vote => if w.success then d.(ballots := d.ballots + [i]) else d
    case Arrive => if d.barrierNull then d else d.(arrived := d.arrived + 1)
    case ClearBarrier => d.(barrierNull := true)
    case Reply => if i == x.replier then d.(reply := Some(w.success)) else d
    case ReleaseLock => if i == x.replier then d.(lock := Unlocked) else d
    case _ => d
  }

  /** The variables in the coordinator record. */
  function NextRecord(x: Txn, i: nat, w: Worker): Record {
    var r := x.rec;
    match w.pc
    case LockRecord => r.(cv := CvWorker(i))
    case InRecord => if r.num < x.total then r.(cv := CvFree) else r
    case CountDone => r.(done := r.done + 1)
    case UnlockRecord => r.(cv := CvFree)
    case _ => r
  }

  function NextCommitting(g: Global, w: Worker): int {
    match w.pc
    case Gate4 => g.committing + 1
    case Leave => g.committing - 1
    case _ => g.committing
  }

  function WorkerDo(g: Global, x: Txn, i: nat, o: Outcome): Local
    requires WorkerCan(g, x, i, o)
  {
    var w := x.workers[i];
    Local(g.(committing := NextCommitting(g, w)),
          x.(workers := x.workers[i := NextWorker(g, x, w, o)],
             commit := NextCommit(x, i, w),
             rec := NextRecord(x, i, w)))
  }

  // ----- steps of the dispatching client thread ---------------------------------

  predicate ClientCan(x: Txn) {
    match x.dispatcher
    case DAtBarrier => x.Open()
    case DTakeLock => x.commit.lock == Unlocked
    case DDone => false
    case _ => true
  }

  function ClientDo(x: Txn): Txn
    requires ClientCan(x)
  {
    match x.dispatcher
    case DArrive => x.(dispatcher := DAtBarrier, commit := x.commit.(arrived := x.commit.arrived + 1))
    case DAtBarrier => x.(dispatcher := DTakeLock)
    case DTakeLock => x.(dispatcher := DHoldLock, commit := x.commit.(lock := HeldByDispatcher))
    case DHoldLock => x.(dispatcher := DCheck, commit := x.commit.(lock := Unlocked))
    case DCheck => x.(dispatcher := DDone, error := SomeBitMissing(x.commit.ballots, |x.workers|))
  }

  predicate SomeBitMissing(ballots: seq<nat>, n: nat) {
    exists i :: 0 <= i < n && And(Tally(ballots), Bit(i)) == 0
  }

  // ----- steps of a clone -------------------------------------------------------

  predicate CloneCan(x: Txn, c: nat, o: Outcome) {
    && c < |x.clones| == |x.handlers|
    && match x.clones[c].pc
       case CRunning => o != Bad && x.handlers[c] == HNone
       case CAwaitAck => o != Bad
       case CInsert => true
       case CWait => x.clones[c].told.Some?
       case CDone => false
       case CLost => false
  }

  function CloneDo(x: Txn, c: nat, o: Outcome, vote: bool): Txn
    requires CloneCan(x, c, o)
  {
    var k := x.clones[c];
    match k.pc
    // Send SUCCESS or FAILURE; a communication error makes the clone roll back.
    case CRunning =>
      if o == Good then x.PutClone(c, k.(pc := CAwaitAck, vote := vote)).Handler(c, HQueued)
      else x.PutClone(c, k.(pc := CLost, vote := vote, acted := Some(false)))
    case CAwaitAck =>
      if o == Good then x.PutClone(c, k.(pc := CInsert))
      else x.PutClone(c, k.(pc := CLost, acted := Some(false)))
    // Put the own record into the clone's table and wait for the decision.
    case CInsert => x.PutClone(c, k.(pc := CWait))
    case CWait => x.PutClone(c, k.(pc := CDone, acted := k.told))
  }

  // ----- steps of the coordinator thread handling one result message -------------

  predicate HandlerCan(g: Global, x: Txn, c: nat, delivered: bool) {
    && c < |x.clones| == |x.handlers|
    && match x.handlers[c]
       case HNone => false
       case HQueued => g.mutex == NoOne
       case HNotify(k) =>
         delivered && k < |x.rec.reporters| ==>
           && x.rec.reporters[k] < |x.clones|
           && x.clones[x.rec.reporters[k]].pc == CWait
           && x.clones[x.rec.reporters[k]].told == None
       case HBroadcast => x.rec.cv == CvFree
       case HLockCv => x.rec.cv == CvFree
       case HDone => false
       case _ => true
  }

  /** Control flow of `net_trans_result`. */
  function NextHandler(x: Txn, c: nat): HandlerPc
    requires c < |x.handlers|
  {
    match x.handlers[c]
    case HQueued => HSearch
    case HSearch => HUpdate
    case HUpdate => if x.rec.num + 1 == x.total then HNotify(0) else HLeave
    case HNotify(k) => if k < |x.rec.reporters| then HNotify(k + 1) else HBroadcast
    case HBroadcast => HLockCv
    case HLockCv => HWaitDone
    case HWaitDone => if x.rec.done < |x.workers| then HLockCv else HRemove
    case HRemove => HUnlockCv
    case HUnlockCv => HFree
    case HFree => HLeave
    case HLeave => HDone
    case HDone => HDone
    case HNone => HNone
  }

  /** The record: created on demand, updated, and freed by the last reporter. */
  function HandledRecord(x: Txn, c: nat): Record
    requires c < |x.clones| == |x.handlers|
  {
    var r := x.rec;
    match x.handlers[c]
    case HSearch =>
      if r.state == InTable then r
      else r.(state := InTable, num := 0, done := 0, success := true, reporters := [])
    case HUpdate =>
      r.(reporters := r.reporters + [c], num := r.num + 1, success := r.success && x.clones[c].vote,
         fired := if r.num + 1 == x.total then r.fired + 1 else r.fired)
    case HLockCv => r.(cv := CvHandler(c))
    case HWaitDone => if r.done < |x.workers| then r.(cv := CvFree) else r
    case HRemove => r.(state := Removed)
    case HUnlockCv => r.(cv := CvFree)
    case HFree => r.(state := Freed)
    case _ => r
  }

  /** PROXY COMMIT/ROLLBACK to the recorded clones, one after the other. */
  function NotifiedClones(x: Txn, c: nat, delivered: bool): seq<Clone>
    requires c < |x.handlers|
  {
    match x.handlers[c]
    case HNotify(k) =>
      if delivered && k < |x.rec.reporters| && x.rec.reporters[k] < |x.clones| then
        var d := x.rec.reporters[k];
        x.clones[d := x.clones[d].(told := Some(x.rec.success))]
      else x.clones
    case _ => x.clones
  }

  function HandlerDo(t: nat, g: Global, x: Txn, c: nat, delivered: bool): Local
    requires HandlerCan(g, x, c, delivered)
  {
    var mutex := match x.handlers[c] case HQueued => HandlerOf(t, c) case HLeave => NoOne case _ => g.mutex;
    Local(g.(mutex := mutex),
          x.(handlers := x.handlers[c := NextHandler(x, c)],
             rec := HandledRecord(x, c),
             clones := NotifiedClones(x, c, delivered)))
  }

  // ----- steps of a PROXY CLONE command --------------------------------------------

  predicate ClonerCan(g: Global, k: nat) {
    && k < |g.cloners|
    && match g.cloners[k]
       case KWait => g.committing == 0
       case KDone => false
       case _ => true
  }

  /** Control flow of `net_clone` on the coordinator.  The exits after a refused claim and
      after an error of the master leave `cloning` set. */
  function NextCloner(g: Global, pc: ClonerPc, ok: bool): ClonerPc {
    match pc
    case KAnnounce => KWait
    case KWait => KPrepare
    case KPrepare => if g.requested then KDone else KClaim
    case KClaim => KRequest
    case KRequest => if ok then KIncrement else KDone
    case KIncrement => KClones
    // A timeout without any clone takes the generation back.
    case KClones => if ok then KRelease else KDecrement
    case KDecrement => KRelease
    case KRelease => KClear
    case KClear => KDone
    case KDone => KDone
  }

  function ClonerDo(g: Global, k: nat, ok: bool): Global
    requires ClonerCan(g, k)
  {
    var pc := g.cloners[k];
    g.(cloners := g.cloners[k := NextCloner(g, pc, ok)],
       cloning := (g.cloning || pc == KAnnounce) && pc != KClear,
       requested := (g.requested || pc == KClaim) && pc != KRelease,
       generation := if pc == KIncrement then g.generation + 1
                     else if pc == KDecrement then g.generation - 1 else g.generation)
  }

  // ----- the whole system ---------------------------------------------------------

  function FreshWorker(): Worker {
    Worker(Start, false, true, false, 0, None)
  }

  function FreshTxn(n: nat, replier: nat, total: nat): Txn {
    Txn(replier, total,
        seq(n, _ => FreshWorker()), CommitData([], 0, false, false, Unlocked, None),
        DArrive, false,
        Record(Absent, 0, true, 0, [], CvFree, 0),
        seq(total, _ => Clone(CRunning, false, None, None)), seq(total, _ => HNone))
  }

  function Initial(): State {
    State(Global(false, 0, 0, false, [], NoOne), [])
  }

  predicate Enabled(s: State, l: Label) {
    match l
    case Dispatch(n, replier, total) => 1 <= n <= MAX_BACKENDS && replier < n && total >= 1
    case Work(t, i, o) => t < |s.txns| && WorkerCan(s.g, s.txns[t], i, o)
    case Client(t) => t < |s.txns| && ClientCan(s.txns[t])
    case CloneAct(t, c, o, _) => t < |s.txns| && CloneCan(s.txns[t], c, o)
    case Handle(t, c, d) => t < |s.txns| && HandlerCan(s.g, s.txns[t], c, d)
    case Command => true
    case Cloning(k, _) => ClonerCan(s.g, k)
  }

  function Do(s: State, l: Label): State
    requires Enabled(s, l)
  {
    match l
    case Dispatch(n, replier, total) => s.(txns := s.txns + [FreshTxn(n, replier, total)])
    case Work(t, i, o) =>
      var r := WorkerDo(s.g, s.txns[t], i, o);
      State(r.g, s.txns[t := r.x])
    case Client(t) => s.(txns := s.txns[t := ClientDo(s.txns[t])])
    case CloneAct(t, c, o, vote) => s.(txns := s.txns[t := CloneDo(s.txns[t], c, o, vote)])
    case Handle(t, c, d) =>
      var r := HandlerDo(t, s.g, s.txns[t], c, d);
      State(r.g, s.txns[t := r.x])
    case Command => s.(g := s.g.(cloners := s.g.cloners + [KAnnounce]))
    case Cloning(k, ok) => s.(g := ClonerDo(s.g, k, ok))
  }

  /** `labels` is an interleaving that starts in `s` and never takes a blocked step. */
  predicate Runs(s: State, labels: seq<Label>)
    decreases |labels|
  {
    labels == [] || (Enabled(s, labels[0]) && Runs(Do(s, labels[0]), labels[1..]))
  }

  function After(s: State, labels: seq<Label>): State
    requires Runs(s, labels)
    decreases |labels|
  {
    if labels == [] then s else After(Do(s, labels[0]), labels[1..])
  }
}
