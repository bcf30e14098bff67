/** The gate between committing and cloning: it never holds back a worker whose
    siblings already commit, and exactly when it keeps commits out of a clone. */
module CloneGate {
  import opened Counting
  import opened CommitProtocol
  import opened CommitInvariant
  import opened CommitTheorems

  predicate AtGate(w: Worker) { 2 <= Rank(w.pc) <= 5 }

  /** Steps a worker at the gate needs once a sibling has announced its commit. */
  function StepsLeft(pc: WorkerPc): nat {
    match pc
    case Gate1 => 3
    case Gate2 => 2
    case Gate0 => 1
    case Gate3 => 1
    case _ => 0
  }

  /** Steps of worker `i` of transaction `t` in an interleaving. */
  function OwnSteps(labels: seq<Label>, t: nat, i: nat): nat {
    if labels == [] then 0
    else (if labels[0].Work? && labels[0].t == t && labels[0].i == i then 1 else 0) + OwnSteps(labels[1..], t, i)
  }

  predicate SiblingCommits(s: State, t: nat, i: nat) {
    t < |s.txns| && i < |s.txns[t].workers| && s.txns[t].commit.committing && AtGate(s.txns[t].workers[i])
  }

  lemma {:induction false} PhaseSumPositive(txns: seq<Txn>, t: nat, i: nat)
    requires t < |txns| && i < |txns[t].workers| && InPhase(txns[t].workers[i])
    ensures PhaseSum(txns) >= 1
  {
    if t == 0 {
      CountNone(txns[0].workers, InPhase);
    } else {
      assert txns[1..][t - 1] == txns[t];
      PhaseSumPositive(txns[1..], t - 1, i);
    }
  }

  /** `committing` counts the workers inside the commit phase, of all transactions. */
  lemma CommittingCounts(s: State)
    requires Reachable(s)
    ensures s.g.committing == PhaseSum(s.txns)
  {
    ReachableInv(s);
  }

  /** While a worker stands at the gate, a sibling that announced its commit stays in
      the commit phase, waiting for it. */
  lemma SiblingStaysInPhase(s: State, t: nat, i: nat)
    requires Reachable(s) && SiblingCommits(s, t, i)
    ensures s.g.committing >= 1
  {
    ReachableInv(s);
    var x := s.txns[t];
    assert TxnInv(x);
    if x.Open() { OpenMeansAllArrived(x); }
    var a :| 0 <= a < |x.workers| && HasFlagged(x.workers[a]);
    PhaseSumPositive(s.txns, t, a);
  }

  /** A step of another thread leaves a worker alone and never withdraws the announcement. */
  lemma OthersLeaveWorker(s: State, l: Label, t: nat, i: nat)
    requires Enabled(s, l) && t < |s.txns| && i < |s.txns[t].workers|
    requires !(l.Work? && l.t == t && l.i == i)
    ensures t < |Do(s, l).txns| && |Do(s, l).txns[t].workers| == |s.txns[t].workers|
    ensures Do(s, l).txns[t].workers[i] == s.txns[t].workers[i]
    ensures s.txns[t].commit.committing ==> Do(s, l).txns[t].commit.committing
  {
    if l.Work? && l.t == t { HasCommitEffect(s.g, s.txns[t], l.i, l.o); }
  }

  lemma OwnGateStep(g: Global, x: Txn, i: nat, o: Outcome)
    requires WorkerCan(g, x, i, o) && AtGate(x.workers[i]) && x.commit.committing && g.committing >= 1
    ensures var w, y := x.workers[i], WorkerDo(g, x, i, o).x;
      && |y.workers| == |x.workers|
      && StepsLeft(y.workers[i].pc) < StepsLeft(w.pc)
      && 2 <= Rank(y.workers[i].pc) <= 6
      && y.commit.committing
  {
  }

  /** Such a worker is never blocked, every step brings it closer to the exit, and no
      step of another thread, the cloner included, takes it further away. */
  lemma GateStep(s: State, l: Label, t: nat, i: nat)
    requires Reachable(s) && SiblingCommits(s, t, i) && Enabled(s, l)
    ensures Enabled(s, Work(t, i, Good))
    ensures t < |Do(s, l).txns| && |Do(s, l).txns[t].workers| == |s.txns[t].workers|
    ensures Do(s, l).txns[t].commit.committing
    ensures var w, v := s.txns[t].workers[i], Do(s, l).txns[t].workers[i];
      if l.Work? && l.t == t && l.i == i
      then StepsLeft(v.pc) < StepsLeft(w.pc) && 2 <= Rank(v.pc) <= 6
      else v == w
  {
    SiblingStaysInPhase(s, t, i);
    if l.Work? && l.t == t && l.i == i {
      OwnGateStep(s.g, s.txns[t], i, l.o);
    } else {
      OthersLeaveWorker(s, l, t, i);
    }
  }

  lemma GateNext(s: State, l: Label, t: nat, i: nat)
    requires Reachable(s) && SiblingCommits(s, t, i) && Enabled(s, l)
    ensures Reachable(Do(s, l))
    ensures t < |Do(s, l).txns| && i < |Do(s, l).txns[t].workers|
    ensures var v := Do(s, l).txns[t].workers[i];
      && OwnSteps([l], t, i) + StepsLeft(v.pc) <= StepsLeft(s.txns[t].workers[i].pc)
      && (SiblingCommits(Do(s, l), t, i) || Rank(v.pc) == 6)
  {
    GateStep(s, l, t, i);
    ReachStep(s, l);
    assert [l][1..] == [];
  }

  lemma OwnStepsSplit(labels: seq<Label>, t: nat, i: nat)
    requires labels != []
    ensures OwnSteps(labels, t, i) == OwnSteps([labels[0]], t, i) + OwnSteps(labels[1..], t, i)
  {
    assert [labels[0]][1..] == [];
  }

  /** In every interleaving, whatever `cloning` does, a worker at the gate leaves it
      within three of its own steps once a sibling has announced its commit. */
  lemma {:induction false} GateBound(s: State, labels: seq<Label>, t: nat, i: nat)
    requires Reachable(s) && SiblingCommits(s, t, i) && Runs(s, labels)
    ensures t < |After(s, labels).txns| && i < |After(s, labels).txns[t].workers|
    ensures AtGate(After(s, labels).txns[t].workers[i]) ==>
              OwnSteps(labels, t, i) < StepsLeft(s.txns[t].workers[i].pc) <= 3
    decreases |labels|
  {
    if labels != [] {
      var s' := Do(s, labels[0]);
      GateNext(s, labels[0], t, i);
      OwnStepsSplit(labels, t, i);
      if Rank(s'.txns[t].workers[i].pc) == 6 {
        PastGateStays(s', labels[1..], t, i);
      } else {
        GateBound(s', labels[1..], t, i);
      }
    }
  }

  // A gate that has opened again

  /** Steps a worker at the gate needs while the gate is open. */
  function OpenStepsLeft(pc: WorkerPc): nat {
    match pc
    case Gate3 => 3
    case Gate2 => 2
    case Gate0 => 2
    case Gate1 => 1
    case _ => 0
  }

  predicate GateOpen(g: Global) { !g.cloning && g.committing == 0 }

  /** The gate is open whenever the worker takes a step. */
  predicate OpenForWorker(s: State, labels: seq<Label>, t: nat, i: nat)
    requires Runs(s, labels)
    decreases |labels|
  {
    labels == [] ||
    ((labels[0].Work? && labels[0].t == t && labels[0].i == i ==> GateOpen(s.g))
     && OpenForWorker(Do(s, labels[0]), labels[1..], t, i))
  }

  lemma OpenGateStep(s: State, l: Label, t: nat, i: nat)
    requires Enabled(s, l) && t < |s.txns| && i < |s.txns[t].workers| && AtGate(s.txns[t].workers[i])
    requires l.Work? && l.t == t && l.i == i ==> GateOpen(s.g)
    ensures Enabled(s, Work(t, i, Good))
    ensures t < |Do(s, l).txns| && i < |Do(s, l).txns[t].workers|
    ensures var v := Do(s, l).txns[t].workers[i];
      && OwnSteps([l], t, i) + OpenStepsLeft(v.pc) <= OpenStepsLeft(s.txns[t].workers[i].pc)
      && (AtGate(v) || Rank(v.pc) == 6)
  {
    assert [l][1..] == [];
    if !(l.Work? && l.t == t && l.i == i) { OthersLeaveWorker(s, l, t, i); }
  }

  /** Once `cloning` is clear and nobody commits, a worker leaves the gate within three of
      its own steps, whether or not a sibling has announced its commit. */
  lemma {:induction false} OpenGateBound(s: State, labels: seq<Label>, t: nat, i: nat)
    requires Runs(s, labels) && OpenForWorker(s, labels, t, i)
    requires t < |s.txns| && i < |s.txns[t].workers| && AtGate(s.txns[t].workers[i])
    ensures t < |After(s, labels).txns| && i < |After(s, labels).txns[t].workers|
    ensures AtGate(After(s, labels).txns[t].workers[i]) ==>
              OwnSteps(labels, t, i) < OpenStepsLeft(s.txns[t].workers[i].pc) <= 3
    decreases |labels|
  {
    if labels != [] {
      var s' := Do(s, labels[0]);
      OpenGateStep(s, labels[0], t, i);
      OwnStepsSplit(labels, t, i);
      if Rank(s'.txns[t].workers[i].pc) == 6 {
        PastGateStays(s', labels[1..], t, i);
      } else {
        OpenGateBound(s', labels[1..], t, i);
      }
    }
  }

  lemma PastGateStep(s: State, l: Label, t: nat, i: nat)
    requires Enabled(s, l) && t < |s.txns| && i < |s.txns[t].workers| && Rank(s.txns[t].workers[i].pc) >= 6
    ensures t < |Do(s, l).txns| && i < |Do(s, l).txns[t].workers| && Rank(Do(s, l).txns[t].workers[i].pc) >= 6
  {
    if l.Work? && l.t == t && l.i == i {
      HasMoveEffect(s.g, s.txns[t], i, l.o);
    } else {
      OthersLeaveWorker(s, l, t, i);
    }
  }

  lemma {:induction false} PastGateStays(s: State, labels: seq<Label>, t: nat, i: nat)
    requires Runs(s, labels) && t < |s.txns| && i < |s.txns[t].workers| && Rank(s.txns[t].workers[i].pc) >= 6
    ensures t < |After(s, labels).txns| && i < |After(s, labels).txns[t].workers|
    ensures Rank(After(s, labels).txns[t].workers[i].pc) >= 6
    decreases |labels|
  {
    if labels != [] {
      PastGateStep(s, labels[0], t, i);
      PastGateStays(Do(s, labels[0]), labels[1..], t, i);
    }
  }

  // ----- does the gate keep commits out of a clone? -------------------------------------

  /** `cloning` stays set throughout this part of a run. */
  predicate KeepsCloning(s: State, labels: seq<Label>)
    requires Runs(s, labels)
    decreases |labels|
  {
    s.g.cloning && (labels == [] || KeepsCloning(Do(s, labels[0]), labels[1..]))
  }

  /** No worker has passed the test of `cloning` without having been counted yet. */
  predicate NonePassing(s: State) {
    forall t, i | 0 <= t < |s.txns| && 0 <= i < |s.txns[t].workers| :: s.txns[t].workers[i].pc != Gate4
  }

  predicate NoneInPhase(s: State) {
    forall t, i | 0 <= t < |s.txns| && 0 <= i < |s.txns[t].workers| :: !InPhase(s.txns[t].workers[i])
  }

  lemma NoneCommitting(s: State)
    requires Reachable(s) && s.g.committing == 0
    ensures NoneInPhase(s)
  {
    ReachableInv(s);
    forall t, i | 0 <= t < |s.txns| && 0 <= i < |s.txns[t].workers| ensures !InPhase(s.txns[t].workers[i]) {
      if InPhase(s.txns[t].workers[i]) { PhaseSumPositive(s.txns, t, i); }
    }
  }

  lemma ShutWorker(g: Global, x: Txn, i: nat, o: Outcome)
    requires WorkerCan(g, x, i, o) && g.cloning && g.committing == 0
    requires x.workers[i].pc != Gate4 && !InPhase(x.workers[i])
    requires AtGate(x.workers[i]) ==> !x.commit.committing
    ensures WorkerDo(g, x, i, o).g == g && WorkerDo(g, x, i, o).x.workers[i].pc != Gate4
  {
  }

  lemma ShutStep(s: State, l: Label)
    requires Reachable(s) && s.g.cloning && s.g.committing == 0 && NonePassing(s) && Enabled(s, l)
    ensures Do(s, l).g.committing == 0 && NonePassing(Do(s, l))
  {
    NoneCommitting(s);
    if l.Work? {
      if AtGate(s.txns[l.t].workers[l.i]) && s.txns[l.t].commit.committing {
        SiblingStaysInPhase(s, l.t, l.i);
      }
      ShutWorker(s.g, s.txns[l.t], l.i, l.o);
    }
    ShutOthers(s, l);
  }

  lemma ShutOthers(s: State, l: Label)
    requires NonePassing(s) && Enabled(s, l)
    requires l.Work? ==> Do(s, l).txns[l.t].workers[l.i].pc != Gate4
    ensures NonePassing(Do(s, l))
    ensures !l.Work? ==> Do(s, l).g.committing == s.g.committing
  {
    var s' := Do(s, l);
    forall t, i | 0 <= t < |s'.txns| && 0 <= i < |s'.txns[t].workers| ensures s'.txns[t].workers[i].pc != Gate4 {
      if t < |s.txns| && i < |s.txns[t].workers| && !(l.Work? && l.t == t && l.i == i) {
        OthersLeaveWorker(s, l, t, i);
      }
    }
  }

  lemma {:induction false} ShutRun(s: State, labels: seq<Label>)
    requires Reachable(s) && s.g.committing == 0 && NonePassing(s) && Runs(s, labels) && KeepsCloning(s, labels)
    ensures After(s, labels).g.committing == 0
    decreases |labels|
  {
    if labels != [] {
      ShutStep(s, labels[0]);
      ReachStep(s, labels[0]);
      ShutRun(Do(s, labels[0]), labels[1..]);
    }
  }

  /** A PROXY CLONE command clears `cloning` in this step. */
  predicate Clears(s: State, l: Label) {
    l.Cloning? && l.k < |s.g.cloners| && s.g.cloners[l.k] == KClear
  }

  predicate NoneClears(s: State, labels: seq<Label>)
    requires Runs(s, labels)
    decreases |labels|
  {
    labels == [] || (!Clears(s, labels[0]) && NoneClears(Do(s, labels[0]), labels[1..]))
  }

  lemma {:induction false} NoneClearsKeeps(s: State, labels: seq<Label>)
    requires s.g.cloning && Runs(s, labels) && NoneClears(s, labels)
    ensures KeepsCloning(s, labels)
    decreases |labels|
  {
    if labels != [] {
      OnlyClearing(s, labels[0]);
      NoneClearsKeeps(Do(s, labels[0]), labels[1..]);
    }
  }

  lemma OnlyClearing(s: State, l: Label)
    requires Enabled(s, l) && s.g.cloning && !Clears(s, l)
    ensures Do(s, l).g.cloning
  {
  }

  /** `e` can follow `s` without `cloning` being cleared. */
  ghost predicate Follows(s: State, e: State) {
    exists labels :: Runs(s, labels) && NoneClears(s, labels) && After(s, labels) == e
  }

  lemma FollowsItself(s: State)
    ensures Follows(s, s)
  {
    assert Runs(s, []) && NoneClears(s, []) && After(s, []) == s;
  }

  lemma {:induction false} OneMore(s: State, first: seq<Label>, l: Label)
    requires Runs(s, first) && NoneClears(s, first)
    requires Enabled(After(s, first), l) && !Clears(After(s, first), l)
    ensures Runs(s, first + [l]) && NoneClears(s, first + [l]) && After(s, first + [l]) == Do(After(s, first), l)
    decreases |first|
  {
    if first == [] {
      var rest := [l][1..];
      assert first + [l] == [l] && rest == [];
      assert Runs(Do(s, l), rest) && NoneClears(Do(s, l), rest) && After(Do(s, l), rest) == Do(s, l);
    } else {
      assert (first + [l])[0] == first[0] && (first + [l])[1..] == first[1..] + [l];
      OneMore(Do(s, first[0]), first[1..], l);
    }
  }

  lemma FollowsStep(s: State, e: State, l: Label)
    requires Follows(s, e) && Enabled(e, l) && !Clears(e, l)
    ensures Follows(s, Do(e, l))
  {
    var first :| Runs(s, first) && NoneClears(s, first) && After(s, first) == e;
    OneMore(s, first, l);
  }

  lemma PassingEnters(s: State, t: nat, i: nat)
    requires t < |s.txns| && i < |s.txns[t].workers| && s.txns[t].workers[i].pc == Gate4
    ensures exists e :: Follows(s, e) && e.g.committing == s.g.committing + 1
  {
    FollowsItself(s);
    FollowsStep(s, s, Work(t, i, Good));
    assert Do(s, Work(t, i, Good)).g.committing == s.g.committing + 1;
  }

  /** A step of the only worker of the last query. */
  lemma LastWorker(s: State, e: State, txns: seq<Txn>, x: Txn, w: Worker) returns (e': State, x': Txn)
    requires Follows(s, e) && e.txns == txns + [x] && x.workers == [w] && WorkerCan(e.g, x, 0, Good)
    ensures Follows(s, e') && x' == WorkerDo(e.g, x, 0, Good).x && x'.workers == [NextWorker(e.g, x, w, Good)]
    ensures e'.txns == txns + [x'] && e'.g == e.g.(committing := NextCommitting(e.g, w))
  {
    var l := Work(|txns|, 0, Good);
    assert e.txns[|txns|] == x;
    FollowsStep(s, e, l);
    e', x' := Do(e, l), WorkerDo(e.g, x, 0, Good).x;
    assert (txns + [x])[|txns| := x'] == txns + [x'];
  }

  lemma NewQuery(s: State) returns (e: State, x: Txn)
    ensures Follows(s, e) && e == State(s.g, s.txns + [x]) && x == FreshTxn(1, 0, 1) && x.workers == [FreshWorker()]
  {
    FollowsItself(s);
    FollowsStep(s, s, Dispatch(1, 0, 1));
    e, x := Do(s, Dispatch(1, 0, 1)), FreshTxn(1, 0, 1);
  }

  /** With `cloning` clear, a new query comes up to the increment of `committing`. */
  lemma NewQueryPasses(s: State) returns (e: State)
    requires !s.g.cloning
    ensures Follows(s, e) && e.g == s.g && |e.txns| == |s.txns| + 1
    ensures |e.txns[|s.txns|].workers| == 1 && e.txns[|s.txns|].workers[0].pc == Gate4
  {
    var x: Txn;
    e, x := NewQuery(s);
    e, x := LastWorker(s, e, s.txns, x, x.workers[0]);
    e, x := LastWorker(s, e, s.txns, x, x.workers[0]);
    e, x := LastWorker(s, e, s.txns, x, x.workers[0]);
    e, x := LastWorker(s, e, s.txns, x, x.workers[0]);
  }

  lemma OpenGateEnters(s: State)
    requires !s.g.cloning
    ensures exists e :: Follows(s, e) && e.g.committing == s.g.committing + 1
  {
    var e := NewQueryPasses(s);
    FollowsStep(s, e, Work(|s.txns|, 0, Good));
    assert Do(e, Work(|s.txns|, 0, Good)).g.committing == s.g.committing + 1;
  }

  /** While nobody commits, no worker can enter the commit phase before `cloning` is cleared
      if and only if `cloning` is set and no worker is between its test of `cloning` and its
      increment of `committing`. */
  lemma GateExcludesIff(s: State)
    requires Reachable(s) && s.g.committing == 0
    ensures s.g.cloning && NonePassing(s) <==> forall e | Follows(s, e) :: e.g.committing == 0
  {
    if s.g.cloning && NonePassing(s) {
      forall e | Follows(s, e) ensures e.g.committing == 0 {
        var labels :| Runs(s, labels) && NoneClears(s, labels) && After(s, labels) == e;
        NoneClearsKeeps(s, labels);
        ShutRun(s, labels);
      }
    } else if s.g.cloning {
      var t, i :| 0 <= t < |s.txns| && 0 <= i < |s.txns[t].workers| && s.txns[t].workers[i].pc == Gate4;
      PassingEnters(s, t, i);
    } else {
      OpenGateEnters(s);
    }
  }
}
