/** PROXY CLONE commands among themselves: `req_clones` keeps them apart, except between its
    test and its assignment, and a command that ends with it set stops everything.
 */
module CloneCommands {
  import opened CommitProtocol
  import opened CommitTheorems
  import opened CloneGate
  import opened CommitHistory

  /** A command that passed the test of `req_clones` and has not cleared it again. */
  predicate Claims(pc: ClonerPc) {
    pc == KClaim || Holds(pc)
  }

  /** A command that has set `req_clones` and will clear it. */
  predicate Holds(pc: ClonerPc) {
    match pc
    case KRequest => true case KIncrement => true case KClones => true
    case KDecrement => true case KRelease => true
    case _ => false
  }

  /** Nobody is between test and assignment when another command tests. */
  predicate TestsAlone(s: State, l: Label) {
    l.Cloning? && l.k < |s.g.cloners| && s.g.cloners[l.k] == KPrepare ==>
      forall j | 0 <= j < |s.g.cloners| :: s.g.cloners[j] != KClaim
  }

  predicate AllTestAlone(s: State, labels: seq<Label>)
    requires Runs(s, labels)
    decreases |labels|
  {
    labels == [] || (TestsAlone(s, labels[0]) && AllTestAlone(Do(s, labels[0]), labels[1..]))
  }

  predicate Exclusive(g: Global) {
    && (forall j, k | 0 <= j < k < |g.cloners| :: !(Claims(g.cloners[j]) && Claims(g.cloners[k])))
    && (forall k | 0 <= k < |g.cloners| && Holds(g.cloners[k]) :: g.requested)
  }

  lemma ExclusiveStep(s: State, l: Label)
    requires Enabled(s, l) && Exclusive(s.g) && TestsAlone(s, l)
    ensures Exclusive(Do(s, l).g)
  {
    if l.Cloning? {
      OneCommandStep(s.g, l.k, l.ok);
    } else if l.Command? {
      assert Do(s, l).g.cloners == s.g.cloners + [KAnnounce];
    } else {
      OthersKeepGeneration(s, l);
      OthersKeepRequest(s, l);
    }
  }

  lemma OthersKeepRequest(s: State, l: Label)
    requires Enabled(s, l) && !l.Cloning?
    ensures Do(s, l).g.requested == s.g.requested
  {
  }

  lemma OneCommandStep(g: Global, k: nat, ok: bool)
    requires ClonerCan(g, k) && Exclusive(g)
    requires g.cloners[k] == KPrepare ==> forall j | 0 <= j < |g.cloners| :: g.cloners[j] != KClaim
    ensures Exclusive(ClonerDo(g, k, ok))
  {
  }

  /** If no two commands are between test and assignment at once, at most one is past the
      test, and as long as it has not cleared `req_clones` every other one is refused. */
  lemma {:induction false} ClaimsExclude(s: State, labels: seq<Label>)
    requires Runs(s, labels) && AllTestAlone(s, labels) && Exclusive(s.g)
    ensures Exclusive(After(s, labels).g)
    decreases |labels|
  {
    if labels != [] {
      ExclusiveStep(s, labels[0]);
      ClaimsExclude(Do(s, labels[0]), labels[1..]);
    }
  }

  lemma OthersRefused(s: State, j: nat, k: nat, ok: bool)
    requires Exclusive(s.g) && j < |s.g.cloners| && Holds(s.g.cloners[j])
    requires k < |s.g.cloners| && s.g.cloners[k] == KPrepare
    ensures Enabled(s, Cloning(k, ok)) && Do(s, Cloning(k, ok)).g == s.g.(cloners := s.g.cloners[k := KDone])
  {
  }

  /** A command that is alone from its test on is not refused, and clears what it set. */
  lemma NoneHoldsNotRefused(s: State, k: nat, ok: bool)
    requires !s.g.requested && k < |s.g.cloners| && s.g.cloners[k] == KPrepare
    ensures Enabled(s, Cloning(k, ok)) && Claims(Do(s, Cloning(k, ok)).g.cloners[k])
  {
  }

  // A command that the master refused

  /** A command that has not passed the test of `req_clones`, or is over. */
  predicate Unclaimed(pc: ClonerPc) {
    pc == KAnnounce || pc == KWait || pc == KPrepare || pc == KDone
  }

  /** `req_clones` is set and nobody will clear it, or `cloning`. */
  predicate Jammed(g: Global) {
    g.requested && forall k | 0 <= k < |g.cloners| :: Unclaimed(g.cloners[k])
  }

  /** An error of the master ends the command with `req_clones` set.  If it was alone, that is
      for good exactly if no other command is about to clear `cloning`. */
  lemma MasterError(s: State, k: nat)
    requires Exclusive(s.g) && k < |s.g.cloners| && s.g.cloners[k] == KRequest
    ensures Enabled(s, Cloning(k, false))
    ensures Jammed(Do(s, Cloning(k, false)).g) <==> forall j | 0 <= j < |s.g.cloners| :: s.g.cloners[j] != KClear
  {
    var g, g' := s.g, Do(s, Cloning(k, false)).g;
    forall j | 0 <= j < |g.cloners| ensures Unclaimed(g'.cloners[j]) <==> g.cloners[j] != KClear {
      assert j != k ==> !Claims(g.cloners[j]);
    }
  }

  lemma JammedStep(s: State, l: Label)
    requires Enabled(s, l) && Jammed(s.g)
    ensures Jammed(Do(s, l).g) && Do(s, l).g.generation == s.g.generation && !Clears(s, l)
    ensures s.g.cloning ==> Do(s, l).g.cloning
  {
    if l.Command? {
      assert Do(s, l).g.cloners == s.g.cloners + [KAnnounce];
    } else if !l.Cloning? {
      OthersKeepGeneration(s, l);
      OthersKeepRequest(s, l);
    }
  }

  /** What the workers of the queries in `e` did, they had done in `s`. */
  predicate NoneActed(s: State, e: State) {
    forall t, i | 0 <= t < |e.txns| && 0 <= i < |e.txns[t].workers| && e.txns[t].workers[i].acted.Some? ::
      t < |s.txns| && i < |s.txns[t].workers| && s.txns[t].workers[i].acted == e.txns[t].workers[i].acted
  }

  lemma OutsideNoneActs(s: State, l: Label)
    requires Enabled(s, l) && NoneInPhase(s)
    ensures NoneActed(s, Do(s, l))
  {
    var e := Do(s, l);
    forall t, i | 0 <= t < |e.txns| && 0 <= i < |e.txns[t].workers| && e.txns[t].workers[i].acted.Some?
      ensures t < |s.txns| && i < |s.txns[t].workers| && s.txns[t].workers[i].acted == e.txns[t].workers[i].acted
    {
      if t < |s.txns| && i < |s.txns[t].workers| && !(l.Work? && l.t == t && l.i == i) {
        OthersLeaveWorker(s, l, t, i);
      }
    }
  }

  /** From then on every command is refused, the generation stays as it is, `cloning` is never
      cleared, and when nobody was at it, no query is ever committed or rolled back again. */
  lemma {:induction false} JammedForever(s: State, labels: seq<Label>)
    requires Reachable(s) && Runs(s, labels) && Jammed(s.g)
    requires s.g.cloning && s.g.committing == 0 && NonePassing(s)
    ensures var e := After(s, labels);
      Jammed(e.g) && e.g.generation == s.g.generation && e.g.cloning && e.g.committing == 0 && NoneActed(s, e)
    decreases |labels|
  {
    if labels != [] {
      var s' := Do(s, labels[0]);
      JammedStep(s, labels[0]);
      ShutStep(s, labels[0]);
      NoneCommitting(s);
      OutsideNoneActs(s, labels[0]);
      ReachStep(s, labels[0]);
      JammedForever(s', labels[1..]);
    }
  }
}
