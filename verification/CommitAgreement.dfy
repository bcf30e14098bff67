/** What the gate is for: agreement of the workers of a query, in the runs in which the
    gate does keep commits out of a clone, with any number of PROXY CLONE commands at once.
 */
module CommitAgreement {
  import opened CommitProtocol
  import opened CommitInvariant
  import opened CommitTheorems
  import opened CloneGate

  // ----- runs in which the gate holds ------------------------------------------------------

  /** A PROXY CLONE command that passed its wait and may still change the generation. */
  predicate InWindow(pc: ClonerPc) {
    match pc
    case KPrepare => true case KClaim => true case KRequest => true
    case KIncrement => true case KClones => true case KDecrement => true
    case _ => false
  }

  predicate SomeInWindow(g: Global) {
    exists k :: 0 <= k < |g.cloners| && InWindow(g.cloners[k])
  }

  /** A command passes its wait only while `cloning` is set and no worker is between its test
      of `cloning` and its increment of `committing`, and clears `cloning` only while no
      other command is between its wait and its last change of the generation. */
  predicate GateHolds(s: State, l: Label) {
    l.Cloning? && l.k < |s.g.cloners| ==>
      match s.g.cloners[l.k]
      case KWait => s.g.cloning && NonePassing(s)
      case KClear => forall j | 0 <= j < |s.g.cloners| && j != l.k :: !InWindow(s.g.cloners[j])
      case _ => true
  }

  predicate Guarded(s: State, labels: seq<Label>)
    requires Runs(s, labels)
    decreases |labels|
  {
    labels == [] || (GateHolds(s, labels[0]) && Guarded(Do(s, labels[0]), labels[1..]))
  }

  /** From a command's wait to its last change of the generation, nobody commits. */
  predicate ClonerInv(s: State) {
    SomeInWindow(s.g) ==> s.g.cloning && s.g.committing == 0 && NonePassing(s)
  }

  lemma OthersKeepCloners(s: State, l: Label)
    requires Enabled(s, l) && !l.Cloning?
    ensures var g := Do(s, l).g;
      && g.cloning == s.g.cloning && g.generation == s.g.generation
      && (SomeInWindow(g) <==> SomeInWindow(s.g))
  {
    if l.Command? {
      var ks := s.g.cloners + [KAnnounce];
      if SomeInWindow(s.g) {
        var k :| 0 <= k < |s.g.cloners| && InWindow(s.g.cloners[k]);
        assert InWindow(ks[k]);
      }
    }
  }

  /** A command enters its window at the end of its wait only. */
  lemma WindowStep(g: Global, k: nat, ok: bool)
    requires ClonerCan(g, k) && SomeInWindow(ClonerDo(g, k, ok)) && g.cloners[k] != KWait
    ensures exists j :: 0 <= j < |g.cloners| && InWindow(g.cloners[j]) && (g.cloners[k] == KClear ==> j != k)
  {
    var h := ClonerDo(g, k, ok);
    var j :| 0 <= j < |h.cloners| && InWindow(h.cloners[j]);
    assert InWindow(g.cloners[j]);
  }

  lemma ClonerStep(s: State, l: Label)
    requires Reachable(s) && ClonerInv(s) && Enabled(s, l) && GateHolds(s, l)
    ensures ClonerInv(Do(s, l))
  {
    if !l.Cloning? {
      OthersKeepCloners(s, l);
      if SomeInWindow(s.g) { ShutStep(s, l); }
    } else if SomeInWindow(Do(s, l).g) && s.g.cloners[l.k] != KWait {
      WindowStep(s.g, l.k, l.ok);
    }
  }

  /** The generation changes only while no worker of any query is in the commit phase. */
  lemma GenerationChangesOutsidePhase(s: State, l: Label)
    requires Reachable(s) && ClonerInv(s) && Enabled(s, l) && Do(s, l).g.generation != s.g.generation
    ensures l.Cloning? && NoneInPhase(s)
  {
    if !l.Cloning? { OthersKeepCloners(s, l); }
    assert InWindow(s.g.cloners[l.k]);
    NoneCommitting(s);
  }

  /** The condition is exact: with a command in its window, nobody can come to commit before
      `cloning` is cleared if and only if the step that led here kept it. */
  lemma GateHoldsIff(s: State, l: Label)
    requires Reachable(s) && ClonerInv(s) && Enabled(s, l) && l.Cloning?
    requires s.g.cloners[l.k] == KWait || s.g.cloners[l.k] == KClear
    requires SomeInWindow(Do(s, l).g)
    ensures GateHolds(s, l) <==> forall e | Follows(Do(s, l), e) :: e.g.committing == 0
  {
    var d := Do(s, l);
    ReachStep(s, l);
    if s.g.cloners[l.k] == KClear {
      WindowStep(s.g, l.k, l.ok);
    }
    GateExcludesIff(d);
  }

  // ----- one generation for all workers of a query -------------------------------------------

  predicate SomeInPhase(ws: seq<Worker>) {
    exists i :: 0 <= i < |ws| && InPhase(ws[i])
  }

  /** This worker went, or goes, to the record exactly if it started in another generation. */
  predicate Checked(w: Worker, G: int) {
    && (14 <= Rank(w.pc) <= 18 ==> w.startGeneration != G)
    && (19 <= Rank(w.pc) <= 24 ==> (w.consulted <==> w.startGeneration != G))
  }

  /** All workers behind the barrier check against `G`, the current generation as long as one
      of them is in the commit phase. */
  predicate CheckedAgainst(generation: int, ws: seq<Worker>, G: int) {
    && (forall i | 0 <= i < |ws| :: Checked(ws[i], G))
    && (SomeInPhase(ws) ==> G == generation)
  }

  ghost predicate Uniform(generation: int, ws: seq<Worker>) {
    exists G :: CheckedAgainst(generation, ws, G)
  }

  ghost predicate AllUniform(s: State) {
    forall t | 0 <= t < |s.txns| :: Uniform(s.g.generation, s.txns[t].workers)
  }

  /** As long as somebody is on the way to the barrier, nobody is behind it. */
  lemma NoneBehindBarrier(x: Txn, i: nat)
    requires TxnInv(x) && i < |x.workers| && Rank(x.workers[i].pc) <= 10
    ensures forall j | 0 <= j < |x.workers| :: !(12 <= Rank(x.workers[j].pc) <= 24)
  {
    if x.Open() { OpenMeansAllArrived(x); }
  }

  lemma CheckStep(g: Global, x: Txn, i: nat, o: Outcome, G: int)
    requires WorkerCan(g, x, i, o) && WorkerInv(x, x.workers[i]) && Checked(x.workers[i], G)
    requires InPhase(x.workers[i]) ==> G == g.generation
    ensures Checked(NextWorker(g, x, x.workers[i], o), G)
  {
  }

  lemma EntersChecked(ws: seq<Worker>, i: nat, v: Worker, generation: int)
    requires i < |ws| && Rank(v.pc) == 7 && forall j | 0 <= j < |ws| :: !(12 <= Rank(ws[j].pc) <= 24)
    ensures CheckedAgainst(generation, ws[i := v], generation)
  {
  }

  lemma StaysChecked(ws: seq<Worker>, i: nat, v: Worker, generation: int, G: int)
    requires i < |ws| && CheckedAgainst(generation, ws, G) && Checked(v, G) && (InPhase(v) ==> InPhase(ws[i]))
    ensures CheckedAgainst(generation, ws[i := v], G)
  {
    var us := ws[i := v];
    if SomeInPhase(us) {
      var j :| 0 <= j < |us| && InPhase(us[j]);
      assert InPhase(ws[j]);
    }
  }

  lemma EnterUniform(g: Global, x: Txn, i: nat, o: Outcome)
    requires TxnInv(x) && WorkerCan(g, x, i, o) && Rank(x.workers[i].pc) == 6
    ensures Uniform(g.generation, WorkerDo(g, x, i, o).x.workers)
  {
    NoneBehindBarrier(x, i);
    EntersChecked(x.workers, i, NextWorker(g, x, x.workers[i], o), g.generation);
  }

  lemma MoveUniform(g: Global, x: Txn, i: nat, o: Outcome)
    requires WorkerCan(g, x, i, o) && WorkerInv(x, x.workers[i]) && Rank(x.workers[i].pc) != 6
    requires Uniform(g.generation, x.workers)
    ensures Uniform(g.generation, WorkerDo(g, x, i, o).x.workers)
  {
    var v := NextWorker(g, x, x.workers[i], o);
    var G :| CheckedAgainst(g.generation, x.workers, G);
    CheckStep(g, x, i, o, G);
    HasMoveEffect(g, x, i, o);
    StaysChecked(x.workers, i, v, g.generation, G);
  }

  lemma WorkerStaysUniform(g: Global, x: Txn, i: nat, o: Outcome)
    requires TxnInv(x) && WorkerCan(g, x, i, o) && Uniform(g.generation, x.workers)
    ensures Uniform(g.generation, WorkerDo(g, x, i, o).x.workers)
  {
    assert WorkerInv(x, x.workers[i]);
    if Rank(x.workers[i].pc) == 6 { EnterUniform(g, x, i, o); } else { MoveUniform(g, x, i, o); }
  }

  lemma FreshUniform(ws: seq<Worker>, generation: int)
    requires forall i | 0 <= i < |ws| :: Rank(ws[i].pc) == 0
    ensures Uniform(generation, ws)
  {
    assert CheckedAgainst(generation, ws, generation);
  }

  /** Outside the commit phase, a change of the generation changes nothing. */
  lemma OutsideUniform(generation: int, generation': int, ws: seq<Worker>)
    requires Uniform(generation, ws) && !SomeInPhase(ws)
    ensures Uniform(generation', ws)
  {
    var G :| CheckedAgainst(generation, ws, G);
    assert CheckedAgainst(generation', ws, G);
  }

  /** Only steps of workers change workers. */
  lemma OthersKeepWorkers(s: State, l: Label, t: nat)
    requires Enabled(s, l) && t < |s.txns| && !(l.Work? && l.t == t)
    ensures t < |Do(s, l).txns| && Do(s, l).txns[t].workers == s.txns[t].workers
  {
  }

  lemma NewWorkers(s: State, l: Label, t: nat)
    requires Enabled(s, l) && |s.txns| <= t < |Do(s, l).txns|
    ensures forall i | 0 <= i < |Do(s, l).txns[t].workers| :: Rank(Do(s, l).txns[t].workers[i].pc) == 0
  {
  }

  lemma UniformStep(s: State, l: Label, t: nat)
    requires Reachable(s) && ClonerInv(s) && Enabled(s, l) && t < |Do(s, l).txns|
    requires t < |s.txns| ==> Uniform(s.g.generation, s.txns[t].workers)
    ensures Uniform(Do(s, l).g.generation, Do(s, l).txns[t].workers)
  {
    if t >= |s.txns| {
      NewWorkers(s, l, t);
      FreshUniform(Do(s, l).txns[t].workers, Do(s, l).g.generation);
    } else if l.Work? && l.t == t {
      TxnOf(s, t);
      WorkerStaysUniform(s.g, s.txns[t], l.i, l.o);
    } else {
      OthersKeepWorkers(s, l, t);
      if Do(s, l).g.generation != s.g.generation {
        GenerationChangesOutsidePhase(s, l);
        OutsideUniform(s.g.generation, Do(s, l).g.generation, s.txns[t].workers);
      }
    }
  }

  lemma {:induction false} GuardedRun(s: State, labels: seq<Label>)
    requires Reachable(s) && ClonerInv(s) && AllUniform(s) && Runs(s, labels) && Guarded(s, labels)
    ensures Reachable(After(s, labels)) && AllUniform(After(s, labels))
    decreases |labels|
  {
    if labels != [] {
      var l := labels[0];
      ClonerStep(s, l);
      forall t | 0 <= t < |Do(s, l).txns| ensures Uniform(Do(s, l).g.generation, Do(s, l).txns[t].workers) {
        UniformStep(s, l, t);
      }
      ReachStep(s, l);
      GuardedRun(Do(s, l), labels[1..]);
    }
  }

  // ----- the decisions ---------------------------------------------------------------------

  /** States at the end of some run in which the gate holds. */
  ghost predicate GuardedReachable(s: State) {
    exists labels :: Runs(Initial(), labels) && Guarded(Initial(), labels) && After(Initial(), labels) == s
  }

  lemma {:induction false} GuardedOn(s: State, first: seq<Label>, l: Label)
    requires Runs(s, first) && Guarded(s, first)
    requires Enabled(After(s, first), l) && GateHolds(After(s, first), l)
    ensures Runs(s, first + [l]) && Guarded(s, first + [l]) && After(s, first + [l]) == Do(After(s, first), l)
    decreases |first|
  {
    if first == [] {
      var rest := [l][1..];
      assert first + [l] == [l] && rest == [];
      assert Runs(Do(s, l), rest) && Guarded(Do(s, l), rest) && After(Do(s, l), rest) == Do(s, l);
    } else {
      assert (first + [l])[0] == first[0] && (first + [l])[1..] == first[1..] + [l];
      GuardedOn(Do(s, first[0]), first[1..], l);
    }
  }

  lemma GuardedStep(s: State, l: Label)
    requires GuardedReachable(s) && Enabled(s, l) && GateHolds(s, l)
    ensures GuardedReachable(Do(s, l))
  {
    var first :| Runs(Initial(), first) && Guarded(Initial(), first) && After(Initial(), first) == s;
    GuardedOn(Initial(), first, l);
  }

  /** All workers of a query check against one generation. */
  lemma OneGeneration(s: State, t: nat) returns (G: int)
    requires GuardedReachable(s) && t < |s.txns|
    ensures Reachable(s) && CheckedAgainst(s.g.generation, s.txns[t].workers, G)
  {
    var labels :| Runs(Initial(), labels) && Guarded(Initial(), labels) && After(Initial(), labels) == s;
    assert Runs(Initial(), []) && After(Initial(), []) == Initial();
    GuardedRun(Initial(), labels);
    assert Uniform(s.g.generation, s.txns[t].workers);
    G :| CheckedAgainst(s.g.generation, s.txns[t].workers, G);
  }

  /** A worker commits exactly if the query succeeded on every backend and, when the worker
      started in another generation, on every clone. */
  lemma GuardedDecision(s: State, t: nat, i: nat, G: int)
    requires Reachable(s) && t < |s.txns| && CheckedAgainst(s.g.generation, s.txns[t].workers, G)
    requires i < |s.txns[t].workers| && s.txns[t].workers[i].acted.Some?
    ensures var x := s.txns[t];
      x.workers[i].acted.value <==> AllOk(x) && (x.workers[i].startGeneration != G ==> AllClonesSucceeded(x))
  {
    WorkerDecision(s, t, i);
    WorkerOf(s, t, i);
    assert Checked(s.txns[t].workers[i], G);
  }

  /** Two workers of a query end differently exactly if one of them and not the other
      started in the generation they check against, the query succeeded on every backend
      and some clone failed. */
  lemma GuardedDisagreeIff(s: State, t: nat) returns (G: int)
    requires GuardedReachable(s) && t < |s.txns|
    ensures var x := s.txns[t];
      && CheckedAgainst(s.g.generation, x.workers, G)
      && forall i, j | 0 <= i < |x.workers| && 0 <= j < |x.workers|
                       && x.workers[i].acted.Some? && x.workers[j].acted.Some? ::
           x.workers[i].acted != x.workers[j].acted
           <==> && (x.workers[i].startGeneration == G) != (x.workers[j].startGeneration == G)
                && AllOk(x) && !AllClonesSucceeded(x)
  {
    G := OneGeneration(s, t);
    var ws := s.txns[t].workers;
    forall i | 0 <= i < |ws| && ws[i].acted.Some?
      ensures ws[i].acted.value <==>
              AllOk(s.txns[t]) && (ws[i].startGeneration != G ==> AllClonesSucceeded(s.txns[t]))
    {
      GuardedDecision(s, t, i, G);
    }
  }

  /** Workers that started in the same generation take the same action. */
  lemma EqualStartsAgree(s: State, t: nat, i: nat, j: nat)
    requires GuardedReachable(s) && t < |s.txns| && i < |s.txns[t].workers| && j < |s.txns[t].workers|
    requires s.txns[t].workers[i].acted.Some? && s.txns[t].workers[j].acted.Some?
    requires s.txns[t].workers[i].startGeneration == s.txns[t].workers[j].startGeneration
    ensures s.txns[t].workers[i].acted == s.txns[t].workers[j].acted
  {
    var G := OneGeneration(s, t);
    GuardedDecision(s, t, i, G);
    GuardedDecision(s, t, j, G);
  }
}
