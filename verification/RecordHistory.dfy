/** What the thread that handles the last vote has done when it is through: it told every
    clone, freed the record and let go of `result_mutex`.
 */
module RecordHistory {
  import opened Options
  import opened Counting
  import opened CommitProtocol
  import opened CommitInvariant
  import opened CommitTheorems
  import opened CommitHistory

  /** While one handler is inside, no other handler moves. */
  lemma OnlyInsideMoves(s: State, t: nat, c: nat, u: nat, e: nat, d: bool)
    requires Reachable(s) && HasClone(s, t, c) && IsInside(s.txns[t].handlers[c]) && Enabled(s, Handle(u, e, d))
    ensures u == t && e == c
  {
    MutexOf(s, t);
    MutexOf(s, u);
  }

  // ----- deliveries --------------------------------------------------------------------------

  predicate Told(x: Txn, c: nat) {
    c < |x.clones| && x.clones[c].told.Some?
  }

  /** The handler of the last vote tells the reporters one after the other. */
  predicate Deliveries(x: Txn, h: HandlerPc, hs: seq<bool>) {
    var r := x.rec.reporters;
    && (h.HNotify? ==>
          && |hs| == 3 + h.k && h.k <= |r|
          && forall j | 0 <= j < |r| :: Told(x, r[j]) <==> j < h.k && hs[3 + j])
    && (5 <= HRank(h) <= 10 ==>
          && |hs| >= 4 + |r|
          && forall j | 0 <= j < |r| :: Told(x, r[j]) <==> hs[3 + j])
  }

  lemma FirstDelivery(t: nat, g: Global, x: Txn, c: nat, d: bool, hs: seq<bool>)
    requires TxnInv(x) && HandlerCan(g, x, c, d) && x.handlers[c] == HUpdate && |hs| == 2
    ensures var y := HandlerDo(t, g, x, c, d).x; Deliveries(y, y.handlers[c], hs + [d])
  {
    EarlyHandlerFacts(x, c);
    forall e | 0 <= e < x.total ensures x.clones[e].told.None? {
      assert CloneInv(x, x.clones[e], x.handlers[e]);
    }
  }

  lemma NextDelivery(t: nat, g: Global, x: Txn, c: nat, d: bool, hs: seq<bool>)
    requires Shape(x) && ReporterInv(x) && HandlerCan(g, x, c, d) && x.handlers[c].HNotify?
    requires Deliveries(x, x.handlers[c], hs)
    ensures var y := HandlerDo(t, g, x, c, d).x; Deliveries(y, y.handlers[c], hs + [d])
  {
    var y, k, r := HandlerDo(t, g, x, c, d).x, x.handlers[c].k, x.rec.reporters;
    assert y.rec == x.rec;
    forall j | 0 <= j < |r| ensures Told(y, r[j]) <==> Told(x, r[j]) || (j == k && d) {
      assert r[j] < x.total;
    }
  }

  lemma LaterStep(t: nat, g: Global, x: Txn, c: nat, d: bool, hs: seq<bool>)
    requires HandlerCan(g, x, c, d) && x.handlers[c] != HUpdate && !x.handlers[c].HNotify?
    requires Deliveries(x, x.handlers[c], hs)
    ensures var y := HandlerDo(t, g, x, c, d).x; Deliveries(y, y.handlers[c], hs + [d])
  {
    HandlerHasEffect(g, x, c, d);
  }

  lemma DeliveryStep(t: nat, g: Global, x: Txn, c: nat, d: bool, hs: seq<bool>)
    requires TxnInv(x) && HandlerCan(g, x, c, d) && Deliveries(x, x.handlers[c], hs)
    requires x.handlers[c] == HUpdate ==> |hs| == 2
    ensures var y := HandlerDo(t, g, x, c, d).x; Deliveries(y, y.handlers[c], hs + [d])
  {
    if x.handlers[c] == HUpdate {
      FirstDelivery(t, g, x, c, d, hs);
    } else if x.handlers[c].HNotify? {
      NextDelivery(t, g, x, c, d, hs);
    } else {
      LaterStep(t, g, x, c, d, hs);
    }
  }

  lemma OwnDelivery(s: State, t: nat, c: nat, d: bool, hs: seq<bool>)
    requires Reachable(s) && Enabled(s, Handle(t, c, d)) && Deliveries(s.txns[t], s.txns[t].handlers[c], hs)
    requires s.txns[t].handlers[c] == HUpdate ==> |hs| == 2
    ensures var y := HandlerDo(t, s.g, s.txns[t], c, d).x; Deliveries(y, y.handlers[c], hs + [d])
  {
    TxnOf(s, t);
    DeliveryStep(t, s.g, s.txns[t], c, d, hs);
  }

  /** Steps that are not the handler's own leave its deliveries alone. */
  lemma OthersKeepDeliveries(s: State, l: Label, t: nat, c: nat, hs: seq<bool>)
    requires Reachable(s) && Enabled(s, l) && HasClone(s, t, c) && !(l.Handle? && l.t == t && l.c == c)
    requires Deliveries(s.txns[t], s.txns[t].handlers[c], hs)
    ensures HasClone(Do(s, l), t, c) && Deliveries(Do(s, l).txns[t], Do(s, l).txns[t].handlers[c], hs)
  {
    OtherHandlerStep(s, l, t, c);
    if 4 <= HRank(s.txns[t].handlers[c]) <= 10 {
      if l.Handle? { OnlyInsideMoves(s, t, c, l.t, l.c, l.delivered); }
      SameTold(s, l, t);
    }
  }

  lemma OtherHandlerStep(s: State, l: Label, t: nat, c: nat)
    requires Reachable(s) && Enabled(s, l) && HasClone(s, t, c) && !(l.Handle? && l.t == t && l.c == c)
    ensures HasClone(Do(s, l), t, c)
    ensures var h, q := s.txns[t].handlers[c], Do(s, l).txns[t].handlers[c];
      q == h || (h == HNone && q == HQueued)
  {
  }

  lemma SameTold(s: State, l: Label, t: nat)
    requires Enabled(s, l) && t < |s.txns| && !l.Handle?
    ensures t < |Do(s, l).txns|
    ensures var x, y := s.txns[t], Do(s, l).txns[t];
      y.rec.reporters == x.rec.reporters && forall e: nat :: Told(y, e) <==> Told(x, e)
  {
    if l.Work? && l.t == t { HasRecordEffect(s.g, s.txns[t], l.i, l.o); }
  }

  lemma NewHandler(s: State, l: Label, t: nat, c: nat)
    requires Enabled(s, l) && !HasClone(s, t, c) && HasClone(Do(s, l), t, c)
    ensures Do(s, l).txns[t].handlers[c] == HNone
  {
  }

  lemma {:induction false} DeliveryHistory(labels: seq<Label>, t: nat, c: nat)
    requires Runs(Initial(), labels) && HasClone(After(Initial(), labels), t, c)
    ensures var x := After(Initial(), labels).txns[t];
      Deliveries(x, x.handlers[c], HandlerSteps(labels, t, c))
  {
    if labels != [] {
      var init, l := labels[..|labels| - 1], labels[|labels| - 1];
      LastStep(Initial(), labels);
      RunReaches(init);
      var s := After(Initial(), init);
      if HasClone(s, t, c) {
        DeliveryHistory(init, t, c);
        DeliveryGoesOn(init, l, t, c);
      } else {
        NewHandler(s, l, t, c);
      }
    }
  }

  lemma DeliveryGoesOn(init: seq<Label>, l: Label, t: nat, c: nat)
    requires Runs(Initial(), init) && HasClone(After(Initial(), init), t, c) && Enabled(After(Initial(), init), l)
    requires var x := After(Initial(), init).txns[t]; Deliveries(x, x.handlers[c], HandlerSteps(init, t, c))
    ensures var e := Do(After(Initial(), init), l);
      HasClone(e, t, c) && Deliveries(e.txns[t], e.txns[t].handlers[c], HandlerSteps(init + [l], t, c))
  {
    var s, hs := After(Initial(), init), HandlerSteps(init, t, c);
    assert (init + [l])[..|init|] == init;
    RunReaches(init);
    if l.Handle? && l.t == t && l.c == c {
      CloneHistory(init, t, c);
      OwnDelivery(s, t, c, l.delivered, hs);
    } else {
      OthersKeepDeliveries(s, l, t, c, hs);
    }
  }

  /** When the handler of the last vote comes to wake the local workers, it has tried to tell
      every clone, in the order of their votes; those it reached were told to commit exactly
      if every clone reported SUCCESS. */
  lemma EveryCloneNotified(labels: seq<Label>, t: nat, c: nat)
    requires Runs(Initial(), labels) && HasClone(After(Initial(), labels), t, c)
    requires 5 <= HRank(After(Initial(), labels).txns[t].handlers[c]) <= 10
    ensures var x, hs := After(Initial(), labels).txns[t], HandlerSteps(labels, t, c);
      && |x.rec.reporters| == x.total && |hs| >= 4 + x.total
      && (forall e | 0 <= e < x.total :: e in x.rec.reporters)
      && forall j | 0 <= j < x.total ::
           && x.rec.reporters[j] < x.total == |x.clones|
           && x.clones[x.rec.reporters[j]].told ==
              if hs[3 + j] then Some(ClonesSaidSuccess(labels, t, x.total)) else None
  {
    var s := After(Initial(), labels);
    var x := s.txns[t];
    RunReaches(labels);
    TxnOf(s, t);
    DeliveryHistory(labels, t, c);
    VotesAreSuccess(labels, t);
    RecordDecision(x);
    forall j | 0 <= j < x.total
      ensures x.rec.reporters[j] < x.total
      ensures Told(x, x.rec.reporters[j]) ==> x.clones[x.rec.reporters[j]].told.value == x.rec.success
    {
      assert CloneInv(x, x.clones[x.rec.reporters[j]], x.handlers[x.rec.reporters[j]]);
    }
  }

  // ----- the end of a record -----------------------------------------------------------------

  /** The handler of the last vote is inside, or the record is freed. */
  predicate LastFrees(x: Txn) {
    var r := x.rec.reporters;
    |r| == x.total >= 1 ==>
      && r[|r| - 1] < |x.handlers|
      && 4 <= HRank(x.handlers[r[|r| - 1]])
      && (HRank(x.handlers[r[|r| - 1]]) >= 11 ==> x.rec.state == Freed)
  }

  /** The last vote makes its handler the last reporter. */
  lemma UpdateFrees(t: nat, g: Global, x: Txn, c: nat, d: bool)
    requires Shape(x) && VoteInv(x) && ReporterInv(x) && RecordInv(x)
    requires HandlerCan(g, x, c, d) && x.handlers[c] == HUpdate
    ensures LastFrees(HandlerDo(t, g, x, c, d).x)
  {
    EarlyHandlerFacts(x, c);
  }

  lemma EarlyFrees(t: nat, g: Global, x: Txn, c: nat, d: bool)
    requires Shape(x) && VoteInv(x) && ReporterInv(x) && RecordInv(x)
    requires HandlerCan(g, x, c, d) && HRank(x.handlers[c]) <= 2
    ensures LastFrees(HandlerDo(t, g, x, c, d).x)
  {
    EarlyHandlerFacts(x, c);
    HandlerHasEffect(g, x, c, d);
  }

  lemma LateFrees(t: nat, g: Global, x: Txn, c: nat, d: bool)
    requires Shape(x) && RecordInv(x) && HandlerCan(g, x, c, d) && HRank(x.handlers[c]) >= 4 && LastFrees(x)
    requires forall e | 0 <= e < x.total && e != c :: !IsInside(x.handlers[e])
    ensures LastFrees(HandlerDo(t, g, x, c, d).x)
  {
    HandlerHasEffect(g, x, c, d);
  }

  lemma HandlerFrees(t: nat, g: Global, x: Txn, c: nat, d: bool)
    requires TxnInv(x) && HandlerCan(g, x, c, d) && LastFrees(x)
    requires forall e | 0 <= e < x.total && e != c :: !IsInside(x.handlers[e])
    ensures LastFrees(HandlerDo(t, g, x, c, d).x)
  {
    if x.handlers[c] == HUpdate {
      UpdateFrees(t, g, x, c, d);
    } else if HRank(x.handlers[c]) <= 2 {
      EarlyFrees(t, g, x, c, d);
    } else {
      LateFrees(t, g, x, c, d);
    }
  }

  lemma MovesAlone(s: State, t: nat, c: nat, d: bool)
    requires Reachable(s) && Enabled(s, Handle(t, c, d))
    ensures forall e | 0 <= e < |s.txns[t].handlers| && e != c :: !IsInside(s.txns[t].handlers[e])
  {
    MutexOf(s, t);
  }

  lemma OthersKeepLast(s: State, l: Label, t: nat)
    requires Enabled(s, l) && t < |s.txns| && !(l.Handle? && l.t == t) && LastFrees(s.txns[t])
    ensures t < |Do(s, l).txns| && LastFrees(Do(s, l).txns[t])
  {
    if l.Work? && l.t == t { HasRecordEffect(s.g, s.txns[t], l.i, l.o); }
  }

  lemma FreshFrees(s: State, l: Label, t: nat)
    requires Enabled(s, l) && |s.txns| <= t < |Do(s, l).txns|
    ensures LastFrees(Do(s, l).txns[t])
  {
  }

  lemma {:induction false} FreeHistory(labels: seq<Label>, t: nat)
    requires Runs(Initial(), labels) && t < |After(Initial(), labels).txns|
    ensures LastFrees(After(Initial(), labels).txns[t])
  {
    if labels != [] {
      var init, l := labels[..|labels| - 1], labels[|labels| - 1];
      LastStep(Initial(), labels);
      RunReaches(init);
      var s := After(Initial(), init);
      if t >= |s.txns| {
        FreshFrees(s, l, t);
      } else {
        FreeHistory(init, t);
        if l.Handle? && l.t == t {
          MovesAlone(s, t, l.c, l.delivered);
          TxnOf(s, t);
          HandlerFrees(t, s.g, s.txns[t], l.c, l.delivered);
        } else {
          OthersKeepLast(s, l, t);
        }
      }
    }
  }

  lemma FreedWhenDone(x: Txn)
    requires TxnInv(x) && LastFrees(x) && forall c | 0 <= c < |x.handlers| :: x.handlers[c] == HDone
    ensures x.rec.state == Freed
  {
    CountAll(x.handlers, HasUpdated);
  }

  /** Once all handlers of a query are through, its record is freed. */
  lemma RecordFreedAtEnd(labels: seq<Label>, t: nat)
    requires Runs(Initial(), labels) && t < |After(Initial(), labels).txns|
    requires var hs := After(Initial(), labels).txns[t].handlers; forall c | 0 <= c < |hs| :: hs[c] == HDone
    ensures After(Initial(), labels).txns[t].rec.state == Freed
  {
    var s := After(Initial(), labels);
    RunReaches(labels);
    TxnOf(s, t);
    FreeHistory(labels, t);
    FreedWhenDone(s.txns[t]);
  }

  // ----- the mutex -----------------------------------------------------------------------------

  /** `result_mutex` belongs to nobody but a thread inside `net_trans_result`. */
  predicate Owned(s: State) {
    s.g.mutex == NoOne || (HasClone(s, s.g.mutex.t, s.g.mutex.c) && IsInside(s.txns[s.g.mutex.t].handlers[s.g.mutex.c]))
  }

  lemma OwnedStep(s: State, l: Label)
    requires Reachable(s) && Enabled(s, l) && Owned(s)
    ensures Owned(Do(s, l))
  {
    if l.Handle? {
      HandlerOwns(s, l.t, l.c, l.delivered);
    } else if s.g.mutex != NoOne {
      OtherHandlerStep(s, l, s.g.mutex.t, s.g.mutex.c);
      OthersKeepMutex(s, l);
    } else {
      OthersKeepMutex(s, l);
    }
  }

  lemma OthersKeepMutex(s: State, l: Label)
    requires Enabled(s, l) && !l.Handle?
    ensures Do(s, l).g.mutex == s.g.mutex
  {
  }

  lemma HandlerOwns(s: State, t: nat, c: nat, d: bool)
    requires Reachable(s) && Enabled(s, Handle(t, c, d)) && Owned(s)
    ensures Owned(Do(s, Handle(t, c, d)))
  {
    if s.g.mutex != NoOne { OnlyInsideMoves(s, s.g.mutex.t, s.g.mutex.c, t, c, d); }
    MutexOf(s, t);
    HandlerHasEffect(s.g, s.txns[t], c, d);
  }

  lemma {:induction false} MutexOwned(labels: seq<Label>)
    requires Runs(Initial(), labels)
    ensures Owned(After(Initial(), labels))
  {
    if labels != [] {
      var init := labels[..|labels| - 1];
      LastStep(Initial(), labels);
      RunReaches(init);
      MutexOwned(init);
      OwnedStep(After(Initial(), init), labels[|labels| - 1]);
    }
  }
}
