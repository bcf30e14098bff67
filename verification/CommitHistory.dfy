/** What happened, read off the labels of a run: the answers of the backends, the votes of
    the clones and the outcomes of the PROXY CLONE commands decide what everybody does.
 */
module CommitHistory {
  import opened Options
  import opened Counting
  import opened CommitProtocol
  import opened CommitInvariant
  import opened CommitTheorems

  // ----- labels of one thread --------------------------------------------------------------

  /** The outcomes of the steps of worker `i` of transaction `t`, in order.  The first tells
      whether it found a connection, the second is the answer of its backend. */
  function WorkerSteps(labels: seq<Label>, t: nat, i: nat): seq<Outcome> {
    if labels == [] then []
    else
      var rest, l := WorkerSteps(labels[..|labels| - 1], t, i), labels[|labels| - 1];
      if l.Work? && l.t == t && l.i == i then rest + [l.o] else rest
  }

  /** The steps of clone `c`; the first sends its vote. */
  function CloneSteps(labels: seq<Label>, t: nat, c: nat): seq<(Outcome, bool)> {
    if labels == [] then []
    else
      var rest, l := CloneSteps(labels[..|labels| - 1], t, c), labels[|labels| - 1];
      if l.CloneAct? && l.t == t && l.c == c then rest + [(l.o, l.vote)] else rest
  }

  /** The steps of the coordinator thread for clone `c`: lock, search and count the vote; the
      last reporter's go on with one delivery for each reporter. */
  function HandlerSteps(labels: seq<Label>, t: nat, c: nat): seq<bool> {
    if labels == [] then []
    else
      var rest, l := HandlerSteps(labels[..|labels| - 1], t, c), labels[|labels| - 1];
      if l.Handle? && l.t == t && l.c == c then rest + [l.delivered] else rest
  }

  /** The steps of PROXY CLONE command `k`. */
  function CommandSteps(labels: seq<Label>, k: nat): seq<bool> {
    if labels == [] then []
    else
      var rest, l := CommandSteps(labels[..|labels| - 1], k), labels[|labels| - 1];
      if l.Cloning? && l.k == k then rest + [l.ok] else rest
  }

  /** The backend of worker `i` executed the query. */
  predicate BackendSaidOk(labels: seq<Label>, t: nat, i: nat) {
    var os := WorkerSteps(labels, t, i);
    |os| >= 2 && os[1] == Good
  }

  /** The clone sent SUCCESS, and the vote was counted. */
  predicate CloneSaidSuccess(labels: seq<Label>, t: nat, c: nat) {
    var cs := CloneSteps(labels, t, c);
    && |cs| >= 1 && cs[0] == (Good, true)
    && |HandlerSteps(labels, t, c)| >= 3
  }

  // ----- runs, from the end ------------------------------------------------------------------

  lemma {:induction false} LastStep(s: State, labels: seq<Label>)
    requires Runs(s, labels) && labels != []
    ensures var init, l := labels[..|labels| - 1], labels[|labels| - 1];
      Runs(s, init) && Enabled(After(s, init), l) && After(s, labels) == Do(After(s, init), l)
    decreases |labels|
  {
    if |labels| > 1 {
      var rest, init := labels[1..], labels[..|labels| - 1];
      LastStep(Do(s, labels[0]), rest);
      assert rest[..|rest| - 1] == init[1..] && init[0] == labels[0];
    } else {
      assert labels[..0] == [] && labels[1..] == [];
    }
  }

  lemma RunReaches(labels: seq<Label>)
    requires Runs(Initial(), labels)
    ensures Reachable(After(Initial(), labels))
  {
  }

  // ----- workers -------------------------------------------------------------------------------

  /** How far a worker is, and what it knows, after these steps. */
  predicate WorkerKnows(os: seq<Outcome>, w: Worker) {
    if os == [] then w.pc == Start && !w.ok
    else if |os| == 1 then w.pc == (if os[0] == Broken then Aborted else AwaitResult) && !w.ok
    else
      && w.pc != Start && w.pc != AwaitResult && w.pc != Aborted
      && (HitReadError(w) <==> os[1] == Broken)
      && (w.ok <==> os[1] == Good)
  }

  lemma WorkerStarts(g: Global, x: Txn, i: nat, o: Outcome, os: seq<Outcome>)
    requires WorkerCan(g, x, i, o) && WorkerKnows(os, x.workers[i]) && |os| <= 1
    ensures WorkerKnows(os + [o], NextWorker(g, x, x.workers[i], o))
  {
  }

  lemma WorkerGoesOn(g: Global, x: Txn, i: nat, o: Outcome, os: seq<Outcome>)
    requires WorkerCan(g, x, i, o) && WorkerKnows(os, x.workers[i]) && |os| >= 2
    ensures WorkerKnows(os + [o], NextWorker(g, x, x.workers[i], o))
  {
    HasMoveEffect(g, x, i, o);
    HasOwnEffect(g, x, i, o);
  }

  lemma WorkerLearns(g: Global, x: Txn, i: nat, o: Outcome, os: seq<Outcome>)
    requires WorkerCan(g, x, i, o) && WorkerKnows(os, x.workers[i])
    ensures WorkerKnows(os + [o], NextWorker(g, x, x.workers[i], o))
  {
    if |os| <= 1 { WorkerStarts(g, x, i, o, os); } else { WorkerGoesOn(g, x, i, o, os); }
  }

  predicate HasWorker(s: State, t: nat, i: nat) {
    t < |s.txns| && i < |s.txns[t].workers|
  }

  /** A step of another thread, or one that brings the worker into being. */
  lemma OtherStep(s: State, l: Label, t: nat, i: nat)
    requires Enabled(s, l) && !(l.Work? && l.t == t && l.i == i)
    ensures HasWorker(s, t, i) ==> HasWorker(Do(s, l), t, i) && Do(s, l).txns[t].workers[i] == s.txns[t].workers[i]
    ensures !HasWorker(s, t, i) && HasWorker(Do(s, l), t, i) ==> Do(s, l).txns[t].workers[i] == FreshWorker()
  {
  }

  lemma {:induction false} WorkerHistory(labels: seq<Label>, t: nat, i: nat)
    requires Runs(Initial(), labels)
    ensures var s, os := After(Initial(), labels), WorkerSteps(labels, t, i);
      if HasWorker(s, t, i) then WorkerKnows(os, s.txns[t].workers[i]) else os == []
  {
    if labels != [] {
      var init, l := labels[..|labels| - 1], labels[|labels| - 1];
      LastStep(Initial(), labels);
      WorkerHistory(init, t, i);
      var s := After(Initial(), init);
      if l.Work? && l.t == t && l.i == i {
        WorkerLearns(s.g, s.txns[t], i, l.o, WorkerSteps(init, t, i));
      } else {
        OtherStep(s, l, t, i);
      }
    }
  }

  // ----- clones and their handlers -------------------------------------------------------------

  /** How far a clone and its handler are after these steps. */
  predicate CloneKnows(cs: seq<(Outcome, bool)>, hs: seq<bool>, k: Clone, h: HandlerPc) {
    && (if cs == [] then k.pc == CRunning && h == HNone
        else k.pc != CRunning && k.vote == cs[0].1 && (h == HNone <==> cs[0].0 != Good))
    && (if h == HNone || h == HQueued then hs == []
        else if h == HSearch then |hs| == 1
        else if h == HUpdate then |hs| == 2
        else |hs| >= 3)
  }

  predicate HasClone(s: State, t: nat, c: nat) {
    t < |s.txns| && c < |s.txns[t].clones| == |s.txns[t].handlers|
  }

  lemma CloneLearns(x: Txn, c: nat, o: Outcome, vote: bool, cs: seq<(Outcome, bool)>, hs: seq<bool>)
    requires CloneCan(x, c, o) && CloneKnows(cs, hs, x.clones[c], x.handlers[c])
    ensures var y := CloneDo(x, c, o, vote);
      CloneKnows(cs + [(o, vote)], hs, y.clones[c], y.handlers[c])
  {
  }

  /** A handler only tells clones; it does not move them. */
  lemma HandlerLearns(t: nat, g: Global, x: Txn, c: nat, d: bool, cs: seq<(Outcome, bool)>, hs: seq<bool>)
    requires HandlerCan(g, x, c, d) && CloneKnows(cs, hs, x.clones[c], x.handlers[c])
    ensures var y := HandlerDo(t, g, x, c, d).x;
      CloneKnows(cs, hs + [d], y.clones[c], y.handlers[c])
  {
  }

  /** Every other step leaves clone and handler alone, but for what the clone was told. */
  lemma OtherCloneStep(s: State, l: Label, t: nat, c: nat)
    requires Enabled(s, l) && !(l.CloneAct? && l.t == t && l.c == c) && !(l.Handle? && l.t == t && l.c == c)
    ensures HasClone(s, t, c) ==>
      && HasClone(Do(s, l), t, c) && Do(s, l).txns[t].handlers[c] == s.txns[t].handlers[c]
      && Do(s, l).txns[t].clones[c].pc == s.txns[t].clones[c].pc
      && Do(s, l).txns[t].clones[c].vote == s.txns[t].clones[c].vote
    ensures !HasClone(s, t, c) && HasClone(Do(s, l), t, c) ==>
      Do(s, l).txns[t].clones[c].pc == CRunning && Do(s, l).txns[t].handlers[c] == HNone
  {
  }

  lemma {:induction false} CloneHistory(labels: seq<Label>, t: nat, c: nat)
    requires Runs(Initial(), labels)
    ensures var s, cs, hs := After(Initial(), labels), CloneSteps(labels, t, c), HandlerSteps(labels, t, c);
      if HasClone(s, t, c) then CloneKnows(cs, hs, s.txns[t].clones[c], s.txns[t].handlers[c])
      else cs == [] && hs == []
  {
    if labels != [] {
      var init, l := labels[..|labels| - 1], labels[|labels| - 1];
      LastStep(Initial(), labels);
      CloneHistory(init, t, c);
      var s, cs, hs := After(Initial(), init), CloneSteps(init, t, c), HandlerSteps(init, t, c);
      if l.CloneAct? && l.t == t && l.c == c {
        CloneLearns(s.txns[t], c, l.o, l.vote, cs, hs);
      } else if l.Handle? && l.t == t && l.c == c {
        HandlerLearns(t, s.g, s.txns[t], c, l.delivered, cs, hs);
      } else {
        OtherCloneStep(s, l, t, c);
      }
    }
  }

  // ----- decisions, by the answers ---------------------------------------------------------------

  /** Every backend of the query executed it. */
  predicate BackendsSaidOk(labels: seq<Label>, t: nat, n: nat) {
    forall i | 0 <= i < n :: BackendSaidOk(labels, t, i)
  }

  /** Every clone of the query voted SUCCESS. */
  predicate ClonesSaidSuccess(labels: seq<Label>, t: nat, total: nat) {
    forall c | 0 <= c < total :: CloneSaidSuccess(labels, t, c)
  }

  lemma AnswersAreOk(labels: seq<Label>, t: nat)
    requires Runs(Initial(), labels) && t < |After(Initial(), labels).txns|
    ensures var x := After(Initial(), labels).txns[t];
      AllOk(x) <==> BackendsSaidOk(labels, t, |x.workers|)
  {
    var s := After(Initial(), labels);
    RunReaches(labels);
    forall i | 0 <= i < |s.txns[t].workers| ensures s.txns[t].workers[i].ok <==> BackendSaidOk(labels, t, i) {
      WorkerHistory(labels, t, i);
      WorkerOf(s, t, i);
    }
  }

  lemma VotesAreSuccess(labels: seq<Label>, t: nat)
    requires Runs(Initial(), labels) && t < |After(Initial(), labels).txns|
    ensures var x := After(Initial(), labels).txns[t];
      AllClonesSucceeded(x) <==> ClonesSaidSuccess(labels, t, x.total)
  {
    var s := After(Initial(), labels);
    RunReaches(labels);
    TxnOf(s, t);
    forall c | 0 <= c < s.txns[t].total
      ensures HasUpdated(s.txns[t].handlers[c]) && s.txns[t].clones[c].vote <==> CloneSaidSuccess(labels, t, c)
    {
      CloneHistory(labels, t, c);
    }
  }

  /** A worker runs COMMIT exactly if every backend answered that it executed the query and,
      where the worker read the record, every clone reported SUCCESS. */
  lemma DecisionByAnswers(labels: seq<Label>, t: nat, i: nat)
    requires Runs(Initial(), labels) && HasWorker(After(Initial(), labels), t, i)
    requires After(Initial(), labels).txns[t].workers[i].acted.Some?
    ensures var x := After(Initial(), labels).txns[t];
      x.workers[i].acted.value <==>
        && BackendsSaidOk(labels, t, |x.workers|)
        && (x.workers[i].consulted ==> ClonesSaidSuccess(labels, t, x.total))
  {
    RunReaches(labels);
    WorkerDecision(After(Initial(), labels), t, i);
    AnswersAreOk(labels, t);
    VotesAreSuccess(labels, t);
  }

  /** The same for what the client is told. */
  lemma ReplyByAnswers(labels: seq<Label>, t: nat)
    requires Runs(Initial(), labels) && t < |After(Initial(), labels).txns|
    requires After(Initial(), labels).txns[t].commit.reply.Some?
    ensures var x := After(Initial(), labels).txns[t];
      && x.replier < |x.workers|
      && (x.commit.reply.value <==>
            && BackendsSaidOk(labels, t, |x.workers|)
            && (x.workers[x.replier].consulted ==> ClonesSaidSuccess(labels, t, x.total)))
  {
    RunReaches(labels);
    ReplyDecision(After(Initial(), labels), t);
    AnswersAreOk(labels, t);
    VotesAreSuccess(labels, t);
  }

  /** If the generation stays the same from the dispatch of a query on, all its workers and
      the reply to the client follow the answers of the backends alone. */
  lemma AgreementByAnswers(first: seq<Label>, labels: seq<Label>, t: nat)
    requires Runs(Initial(), first) && |After(Initial(), first).txns| <= t
    requires var s := After(Initial(), first);
      Runs(s, labels) && Quiet(s, labels) && t < |After(s, labels).txns|
    ensures var x := After(After(Initial(), first), labels).txns[t];
      && (forall i | 0 <= i < |x.workers| && x.workers[i].acted.Some? ::
            x.workers[i].acted.value <==> BackendsSaidOk(first + labels, t, |x.workers|))
      && (x.commit.reply.Some? ==> (x.commit.reply.value <==> BackendsSaidOk(first + labels, t, |x.workers|)))
  {
    RunsOn(Initial(), first, labels);
    RunReaches(first);
    AgreementWithoutCloning(After(Initial(), first), labels, t);
    AnswersAreOk(first + labels, t);
  }

  /** A clone that waits for the decision commits exactly if every clone reported SUCCESS. */
  lemma CloneByVotes(labels: seq<Label>, t: nat, c: nat)
    requires Runs(Initial(), labels) && HasClone(After(Initial(), labels), t, c)
    ensures var x := After(Initial(), labels).txns[t];
      && (x.clones[c].acted == Some(true) ==> ClonesSaidSuccess(labels, t, x.total))
      && (x.clones[c].pc == CDone ==> x.clones[c].acted == Some(ClonesSaidSuccess(labels, t, x.total)))
  {
    RunReaches(labels);
    CloneDecision(After(Initial(), labels), t, c);
    VotesAreSuccess(labels, t);
  }

  // ----- the generation ----------------------------------------------------------------------------

  /** This command has raised the generation and not taken it back: the master made the
      clones, and the wait for them has not ended without any. */
  predicate Raises(os: seq<bool>) {
    |os| >= 6 && !(|os| >= 8 && !os[6])
  }

  /** How far a command is after these steps. */
  predicate CommandKnows(os: seq<bool>, pc: ClonerPc) {
    match |os|
    case 0 => pc == KAnnounce
    case 1 => pc == KWait
    case 2 => pc == KPrepare
    case 3 => pc == KClaim || pc == KDone
    case 4 => pc == KRequest
    case 5 => pc == if os[4] then KIncrement else KDone
    case 6 => pc == KClones
    case 7 => pc == if os[6] then KRelease else KDecrement
    case 8 => pc == if os[6] then KClear else KRelease
    case 9 => pc == if os[6] then KDone else KClear
    case _ => |os| == 10 && !os[6] && pc == KDone
  }

  lemma CommandLearns(g: Global, k: nat, ok: bool, os: seq<bool>)
    requires ClonerCan(g, k) && CommandKnows(os, g.cloners[k])
    ensures CommandKnows(os + [ok], ClonerDo(g, k, ok).cloners[k])
    ensures ClonerDo(g, k, ok).generation - g.generation
            == (if Raises(os + [ok]) then 1 else 0) - (if Raises(os) then 1 else 0)
  {
  }

  function AllCommands(labels: seq<Label>, n: nat): (r: seq<seq<bool>>)
    ensures |r| == n && forall k | 0 <= k < n :: r[k] == CommandSteps(labels, k)
  {
    seq(n, k requires 0 <= k < n => CommandSteps(labels, k))
  }

  lemma {:induction false} CommandHistory(labels: seq<Label>, k: nat)
    requires Runs(Initial(), labels)
    ensures var g, os := After(Initial(), labels).g, CommandSteps(labels, k);
      if k < |g.cloners| then CommandKnows(os, g.cloners[k]) else os == []
  {
    if labels != [] {
      var init, l := labels[..|labels| - 1], labels[|labels| - 1];
      LastStep(Initial(), labels);
      CommandHistory(init, k);
      if l.Cloning? && l.k == k { CommandLearns(After(Initial(), init).g, k, l.ok, CommandSteps(init, k)); }
    }
  }

  lemma NewCommand(init: seq<Label>, labels: seq<Label>, n: nat)
    requires labels == init + [Command] && CommandSteps(init, n) == []
    ensures AllCommands(labels, n + 1) == AllCommands(init, n) + [[]]
  {
    assert labels[..|init|] == init;
  }

  lemma CommandGoesOn(init: seq<Label>, labels: seq<Label>, n: nat, k: nat, ok: bool)
    requires labels == init + [Cloning(k, ok)] && k < n
    ensures AllCommands(labels, n) == AllCommands(init, n)[k := CommandSteps(init, k) + [ok]]
  {
    assert labels[..|init|] == init;
  }

  lemma CommandsRest(init: seq<Label>, labels: seq<Label>, l: Label, n: nat)
    requires labels == init + [l] && !l.Cloning?
    ensures AllCommands(labels, n) == AllCommands(init, n)
  {
    assert labels[..|init|] == init;
  }

  lemma OthersKeepGeneration(s: State, l: Label)
    requires Enabled(s, l) && !l.Cloning? && !l.Command?
    ensures Do(s, l).g.generation == s.g.generation && Do(s, l).g.cloners == s.g.cloners
  {
  }

  /** In every run the generation is the number of commands whose clones came up or are
      still waited for. */
  lemma {:induction false} GenerationCounts(labels: seq<Label>)
    requires Runs(Initial(), labels)
    ensures var g := After(Initial(), labels).g;
      g.generation == CountIf(AllCommands(labels, |g.cloners|), Raises)
  {
    if labels != [] {
      var init, l := labels[..|labels| - 1], labels[|labels| - 1];
      assert labels == init + [l];
      LastStep(Initial(), labels);
      GenerationCounts(init);
      GenerationStep(init, labels, l);
    }
  }

  lemma GenerationStep(init: seq<Label>, labels: seq<Label>, l: Label)
    requires Runs(Initial(), init) && Enabled(After(Initial(), init), l) && labels == init + [l]
    requires var g := After(Initial(), init).g; g.generation == CountIf(AllCommands(init, |g.cloners|), Raises)
    ensures var g := Do(After(Initial(), init), l).g;
      g.generation == CountIf(AllCommands(labels, |g.cloners|), Raises)
  {
    var s := After(Initial(), init);
    var n := |s.g.cloners|;
    if l.Command? {
      CommandHistory(init, n);
      NewCommand(init, labels, n);
      CountSnoc(AllCommands(init, n), [], Raises);
    } else if l.Cloning? {
      CommandHistory(init, l.k);
      CommandGoesOn(init, labels, n, l.k, l.ok);
      CommandLearns(s.g, l.k, l.ok, CommandSteps(init, l.k));
      CountUpdate(AllCommands(init, n), l.k, CommandSteps(init, l.k) + [l.ok], Raises);
    } else {
      OthersKeepGeneration(s, l);
      CommandsRest(init, labels, l, n);
    }
  }

  /** A command that has ended raised the generation for good exactly if its clones came up. */
  lemma CommandOutcome(labels: seq<Label>, k: nat)
    requires Runs(Initial(), labels) && k < |After(Initial(), labels).g.cloners|
    requires After(Initial(), labels).g.cloners[k] == KDone
    ensures var os := CommandSteps(labels, k); Raises(os) <==> |os| == 9 && os[6]
  {
    CommandHistory(labels, k);
  }

  /** If the only command has ended without any clone, the generation is what it was. */
  lemma LoneCommand(labels: seq<Label>)
    requires Runs(Initial(), labels) && After(Initial(), labels).g.cloners == [KDone]
    ensures var os := CommandSteps(labels, 0);
      After(Initial(), labels).g.generation == if |os| == 9 && os[6] then 1 else 0
  {
    GenerationCounts(labels);
    CommandOutcome(labels, 0);
    assert AllCommands(labels, 1)[1..] == [];
  }
}
