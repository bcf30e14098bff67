/** The coordinator's handling of SUCCESS and FAILURE messages from clones.

    Messages are handled one at a time under `result_mutex`.  The waiting for local
    worker threads before a record is freed is part of `CommitProtocol`.
 */
module CloneVotes {
  import opened Options
  import opened Decimal

  /** `total` is the number of clones of the generation in which the message is handled. */
  datatype Message = Message(trans: nat, clone: int, success: bool, total: nat)

  /** A call of `proxy_backend_clone_complete`. */
  datatype Decision = Decision(trans: nat, clones: seq<int>, commit: bool)

  // ----- what a history of messages means ------------------------------------------------

  function VotesFor(history: seq<Message>, t: nat): seq<Message> {
    if history == [] then []
    else
      var rest, last := VotesFor(history[..|history| - 1], t), history[|history| - 1];
      if last.trans == t then rest + [last] else rest
  }

  /** The first vote creates the record, with room for the clones of its generation. */
  predicate Complete(votes: seq<Message>) {
    votes != [] && |votes| == votes[0].total
  }

  /** Votes for `t` that no decision has used yet. */
  function Pending(history: seq<Message>, t: nat): seq<Message> {
    if history == [] then []
    else
      var rest, last := Pending(history[..|history| - 1], t), history[|history| - 1];
      if last.trans != t then rest
      else if Complete(rest + [last]) then [] else rest + [last]
  }

  function Clones(votes: seq<Message>): seq<int> {
    seq(|votes|, k requires 0 <= k < |votes| => votes[k].clone)
  }

  predicate Unanimous(votes: seq<Message>) {
    forall k | 0 <= k < |votes| :: votes[k].success
  }

  /** The groups of votes that have been decided on, in order. */
  function Groups(history: seq<Message>): seq<seq<Message>> {
    if history == [] then []
    else
      var init, last := history[..|history| - 1], history[|history| - 1];
      var votes := Pending(init, last.trans) + [last];
      if Complete(votes) then Groups(init) + [votes] else Groups(init)
  }

  /** Votes for `t` inside the given groups. */
  function VotesIn(groups: seq<seq<Message>>, t: nat): seq<Message> {
    if groups == [] then []
    else
      var rest, g := VotesIn(groups[..|groups| - 1], t), groups[|groups| - 1];
      if g != [] && g[0].trans == t then rest + g else rest
  }

  function Decide(votes: seq<Message>): Decision
    requires votes != []
  {
    Decision(votes[0].trans, Clones(votes), Unanimous(votes))
  }

  /** Every generation that votes has a clone. */
  predicate AllPositive(history: seq<Message>) {
    forall k | 0 <= k < |history| :: history[k].total >= 1
  }

  lemma {:induction false} PendingBound(history: seq<Message>, t: nat)
    requires AllPositive(history)
    ensures var votes := Pending(history, t); votes != [] ==> |votes| < votes[0].total
    ensures forall k | 0 <= k < |Pending(history, t)| :: Pending(history, t)[k].trans == t
  {
    if history != [] { PendingBound(history[..|history| - 1], t); }
  }

  lemma {:induction false} GroupShape(history: seq<Message>, k: nat)
    requires AllPositive(history) && k < |Groups(history)|
    ensures var g := Groups(history)[k];
      Complete(g) && forall j | 0 <= j < |g| :: g[j].trans == g[0].trans
  {
    var init, last := history[..|history| - 1], history[|history| - 1];
    PendingBound(init, last.trans);
    if k < |Groups(init)| { GroupShape(init, k); }
  }

  lemma VotesInSnoc(groups: seq<seq<Message>>, g: seq<Message>, t: nat)
    ensures VotesIn(groups + [g], t) == VotesIn(groups, t) + if g != [] && g[0].trans == t then g else []
  {
    assert (groups + [g])[..|groups|] == groups;
  }

  lemma Regroup(a: seq<Message>, b: seq<Message>, m: Message)
    ensures a + b + [m] == a + (b + [m])
  {
  }

  /** Every vote is used exactly once and in order: the votes for a transaction are
      those of its decided groups, followed by the pending ones. */
  lemma {:induction false} VotesConserved(history: seq<Message>, t: nat)
    requires AllPositive(history)
    ensures VotesFor(history, t) == VotesIn(Groups(history), t) + Pending(history, t)
  {
    if history != [] {
      var init, last := history[..|history| - 1], history[|history| - 1];
      var pending := Pending(init, last.trans);
      VotesConserved(init, t);
      PendingBound(init, last.trans);
      VotesInSnoc(Groups(init), pending + [last], t);
      assert (pending + [last])[0].trans == last.trans;
      Regroup(VotesIn(Groups(init), t), pending, last);
    }
  }

  /** Number of decisions on `t`. */
  function DecisionsOn(groups: seq<seq<Message>>, t: nat): nat {
    if groups == [] then 0
    else
      var g := groups[|groups| - 1];
      DecisionsOn(groups[..|groups| - 1], t) + if g != [] && g[0].trans == t then 1 else 0
  }

  lemma {:induction false} VotesInLength(groups: seq<seq<Message>>, t: nat, total: nat)
    requires total >= 1 && forall k | 0 <= k < |groups| :: |groups[k]| == total
    ensures |VotesIn(groups, t)| == DecisionsOn(groups, t) * total
  {
    if groups != [] {
      var init := groups[..|groups| - 1];
      VotesInLength(init, t, total);
      assert (DecisionsOn(init, t) + 1) * total == DecisionsOn(init, t) * total + total;
    }
  }

  /** Every decision is for the transaction and the clones of its votes, in their order, and
      says COMMIT exactly if all of them are SUCCESS. */
  ghost predicate FollowVotes(sent: seq<Decision>, groups: seq<seq<Message>>) {
    && |sent| == |groups|
    && forall k | 0 <= k < |sent| ::
         && |groups[k]| >= 1 && sent[k].trans == groups[k][0].trans
         && (sent[k].commit <==> forall j | 0 <= j < |groups[k]| :: groups[k][j].success)
         && |sent[k].clones| == |groups[k]|
         && forall j | 0 <= j < |groups[k]| :: sent[k].clones[j] == groups[k][j].clone
  }

  lemma {:induction false} PendingFrom(history: seq<Message>, t: nat)
    ensures forall m | m in Pending(history, t) :: m in history
  {
    if history != [] { PendingFrom(history[..|history| - 1], t); }
  }

  lemma {:induction false} GroupFrom(history: seq<Message>, k: nat)
    requires k < |Groups(history)|
    ensures forall m | m in Groups(history)[k] :: m in history
  {
    var init, last := history[..|history| - 1], history[|history| - 1];
    PendingFrom(init, last.trans);
    if k < |Groups(init)| { GroupFrom(init, k); }
  }

  predicate SameTotal(votes: seq<Message>, total: nat) {
    forall k | 0 <= k < |votes| :: votes[k].total == total
  }

  lemma GroupSize(history: seq<Message>, k: nat, total: nat)
    requires total >= 1 && SameTotal(history, total) && k < |Groups(history)|
    ensures |Groups(history)[k]| == total
  {
    GroupShape(history, k);
    GroupFrom(history, k);
    assert Groups(history)[k][0] in Groups(history)[k];
  }

  lemma PendingSize(history: seq<Message>, t: nat, total: nat)
    requires total >= 1 && SameTotal(history, total)
    ensures |Pending(history, t)| < total
  {
    PendingBound(history, t);
    PendingFrom(history, t);
    if Pending(history, t) != [] { assert Pending(history, t)[0] in Pending(history, t); }
  }

  /** While the generation stays the same, a transaction is decided once for every `total`
      votes, no sooner and no later. */
  lemma OneDecisionPerTotal(history: seq<Message>, t: nat, total: nat)
    requires total >= 1 && SameTotal(history, total)
    ensures |VotesFor(history, t)| == DecisionsOn(Groups(history), t) * total + |Pending(history, t)|
    ensures |Pending(history, t)| < total
  {
    VotesConserved(history, t);
    PendingSize(history, t, total);
    forall k | 0 <= k < |Groups(history)| ensures |Groups(history)[k]| == total { GroupSize(history, k, total); }
    VotesInLength(Groups(history), t, total);
  }

  lemma DecisionFiresOnLastVote(history: seq<Message>, m: Message)
    ensures var votes := Pending(history, m.trans) + [m];
      Groups(history + [m]) == Groups(history) + if Complete(votes) then [votes] else []
  {
    assert (history + [m])[..|history|] == history;
  }

  // ----- the records ------------------------------------------------------------------

  /** `proxy_trans_t`, as far as result messages use it. */
  class Record {
    var num: nat
    var success: bool
    const cloneIds: array<int>

    constructor (total: nat)
      ensures num == 0 && success && fresh(cloneIds) && cloneIds.Length == total
      ensures forall i | 0 <= i < total :: cloneIds[i] == -1
    {
      num, success := 0, true;
      var ids := new int[total](_ => -1);
      cloneIds := ids;
    }

    /** The record holds exactly these votes, with room for `total`. */
    ghost predicate Holds(votes: seq<Message>, total: nat)
      reads this, cloneIds
    {
      && num == |votes|
      && cloneIds.Length == total
      && |votes| <= total
      && cloneIds[..num] == Clones(votes)
      && (forall i | num <= i < total :: cloneIds[i] == -1)
      && (success <==> Unanimous(votes))
    }

    method Add(m: Message, ghost votes: seq<Message>, ghost total: nat)
      requires Holds(votes, total) && |votes| < total
      modifies this, cloneIds
      ensures Holds(votes + [m], total)
    {
      cloneIds[num] := m.clone;
      num := num + 1;
      success := success && m.success;
      ghost var more := votes + [m];
      assert cloneIds[..num] == Clones(votes) + [m.clone] == Clones(more);
      assert Unanimous(more) <==> Unanimous(votes) && m.success by {
        assert more[|votes|] == m && forall k | 0 <= k < |votes| :: more[k] == votes[k];
      }
    }
  }

  /** The room that the record of these votes has, or gets with the vote `m`. */
  function Room(votes: seq<Message>, m: Message): nat { (votes + [m])[0].total }

  class Coordinator {
    var table: map<nat, Record>
    var sent: seq<Decision>
    ghost var history: seq<Message>

    /** Different transactions have different records. */
    ghost predicate Separate()
      reads this`table
    {
      forall t, u | t in table && u in table && t != u ::
        table[t] != table[u] && table[t].cloneIds != table[u].cloneIds
    }

    /** The decisions sent are those of the complete groups. */
    ghost predicate SentFor(h: seq<Message>)
      reads this`sent
    {
      && |sent| == |Groups(h)|
      && (forall k | 0 <= k < |sent| :: Groups(h)[k] != [] && sent[k] == Decide(Groups(h)[k]))
    }

    /** A record is in the table exactly for the transactions with pending votes. */
    ghost predicate TableFor(h: seq<Message>)
      reads this`table, table.Values, set r | r in table.Values :: r.cloneIds
    {
      && (forall t: nat :: t in table <==> Pending(h, t) != [])
      && (forall t | t in table :: table[t].Holds(Pending(h, t), Pending(h, t)[0].total))
      && Separate()
    }

    ghost predicate Valid()
      reads this, table.Values, set r | r in table.Values :: r.cloneIds
    {
      AllPositive(history) && TableFor(history) && SentFor(history)
    }

    lemma SentFollowsVotes(h: seq<Message>)
      requires SentFor(h)
      ensures FollowVotes(sent, Groups(h))
    {
    }

    constructor ()
      ensures Valid() && history == []
    {
      table, sent, history := map[], [], [];
    }

    /** The record of a transaction, created if it is not there yet. */
    method Open(m: Message) returns (trans: Record)
      requires Valid()
      modifies this`table
      ensures m.trans in table && table[m.trans] == trans
      ensures trans.Holds(Pending(history, m.trans), Room(Pending(history, m.trans), m))
      ensures table.Keys == old(table.Keys) + {m.trans}
      ensures forall u | u in old(table) :: table[u] == old(table)[u]
      ensures m.trans !in old(table) ==> fresh(trans) && fresh(trans.cloneIds)
      ensures forall u | u in table && u != m.trans :: table[u] != trans && table[u].cloneIds != trans.cloneIds
    {
      if m.trans in table {
        trans := table[m.trans];
      } else {
        trans := new Record(m.total);
        table := table[m.trans := trans];
      }
    }

    /** The table is up to date for `h` but for the vote `m`, which its record already holds. */
    ghost predicate TableWith(h: seq<Message>, m: Message)
      reads this`table, table.Values, set r | r in table.Values :: r.cloneIds
    {
      && (forall t: nat :: t in table <==> t == m.trans || Pending(h, t) != [])
      && (forall t | t in table && t != m.trans :: table[t].Holds(Pending(h, t), Pending(h, t)[0].total))
      && table[m.trans].Holds(Pending(h, m.trans) + [m], Room(Pending(h, m.trans), m))
      && Separate()
    }

    ghost predicate Counted(m: Message)
      reads this, table.Values, set r | r in table.Values :: r.cloneIds
    {
      AllPositive(history) && m.total >= 1 && TableWith(history, m) && SentFor(history)
    }

    /** Record a vote; the record stays in the table. */
    method Count(m: Message) returns (trans: Record)
      requires Valid() && m.total >= 1
      modifies this`table, table.Values, set r | r in table.Values :: r.cloneIds
      ensures Counted(m) && table[m.trans] == trans
    {
      PendingBound(history, m.trans);
      trans := Open(m);
      label Opened:
      trans.Add(m, Pending(history, m.trans), Room(Pending(history, m.trans), m));
      forall t | t in table && t != m.trans ensures table[t].Holds(Pending(history, t), Pending(history, t)[0].total) {
        assert unchanged@Opened(table[t]) && unchanged@Opened(table[t].cloneIds);
      }
    }

    lemma KeptTable(h: seq<Message>, m: Message)
      requires TableWith(h, m) && !Complete(Pending(h, m.trans) + [m])
      ensures TableFor(h + [m])
    {
      forall t: nat ensures t in table <==> Pending(h + [m], t) != [] { NextPending(h, m, t); }
      forall t | t in table ensures table[t].Holds(Pending(h + [m], t), Pending(h + [m], t)[0].total) {
        NextPending(h, m, t);
      }
    }

    lemma KeptSent(h: seq<Message>, m: Message)
      requires SentFor(h) && !Complete(Pending(h, m.trans) + [m])
      ensures SentFor(h + [m])
    {
      DecisionFiresOnLastVote(h, m);
    }

    /** More votes to come. */
    ghost method Keep(m: Message)
      requires Counted(m) && !Complete(Pending(history, m.trans) + [m])
      modifies this`history
      ensures Valid() && history == old(history) + [m]
    {
      KeptTable(history, m);
      KeptSent(history, m);
      history := history + [m];
    }

    method Notify(ghost h: seq<Message>, m: Message, d: Decision)
      requires SentFor(h) && Complete(Pending(h, m.trans) + [m]) && d == Decide(Pending(h, m.trans) + [m])
      modifies this`sent
      ensures SentFor(h + [m]) && sent == old(sent) + [d]
    {
      DecisionFiresOnLastVote(h, m);
      sent := sent + [d];
    }

    method Drop(ghost h: seq<Message>, m: Message)
      requires TableWith(h, m) && Complete(Pending(h, m.trans) + [m])
      modifies this`table
      ensures TableFor(h + [m])
    {
      table := table - {m.trans};
      forall t: nat ensures t in table <==> Pending(h + [m], t) != [] { NextPending(h, m, t); }
      forall t | t in table ensures table[t].Holds(Pending(h + [m], t), Pending(h + [m], t)[0].total) {
        NextPending(h, m, t);
      }
    }

    /** Notify the recorded clones and drop the record. */
    method Finish(m: Message, d: Decision)
      requires Counted(m) && Complete(Pending(history, m.trans) + [m])
      requires d == Decide(Pending(history, m.trans) + [m])
      modifies this
      ensures Valid() && history == old(history) + [m] && sent == old(sent) + [d]
    {
      ghost var h := history;
      Notify(h, m, d);
      Drop(h, m);
      history := h + [m];
    }

    /** A well-formed message: record the vote; the last one decides. */
    method Accept(m: Message)
      requires Valid() && m.total >= 1
      modifies this, table.Values, set r | r in table.Values :: r.cloneIds
      ensures Valid() && FollowVotes(sent, Groups(history))
      ensures history == old(history) + [m] && old(sent) <= sent
    {
      PendingBound(history, m.trans);
      var trans := Count(m);
      if trans.num == trans.cloneIds.Length {
        assert trans.cloneIds[..] == trans.cloneIds[..trans.num];
        assert (Pending(history, m.trans) + [m])[0].trans == m.trans;
        Finish(m, Decision(m.trans, trans.cloneIds[..], trans.success));
      } else {
        Keep(m);
      }
      SentFollowsVotes(history);
    }

    /** PROXY SUCCESS or FAILURE.  The tokens are what `strtol` made of them, `None`
        if one is missing or out of range. */
    method Report(cloneTok: Option<int>, transTok: Option<int>, success: bool, total: nat) returns (error: bool)
      requires Valid() && total >= 1
      modifies this, table.Values, set r | r in table.Values :: r.cloneIds
      ensures Valid() && FollowVotes(sent, Groups(history))
      ensures error <==> cloneTok.None? || ToInt(cloneTok.value) <= 0 || transTok.None? || ToULong(transTok.value) == 0
      ensures history == old(history) + if error then []
                                        else [Message(ToULong(transTok.value), ToInt(cloneTok.value), success, total)]
      ensures old(sent) <= sent && (error ==> sent == old(sent) && table == old(table))
    {
      if cloneTok.None? || ToInt(cloneTok.value) <= 0 || transTok.None? || ToULong(transTok.value) == 0 {
        error := true;
        SentFollowsVotes(history);
        return;
      }
      error := false;
      Accept(Message(ToULong(transTok.value), ToInt(cloneTok.value), success, total));
    }
  }

  lemma NextPending(history: seq<Message>, m: Message, t: nat)
    ensures Pending(history + [m], t)
              == if t != m.trans then Pending(history, t)
                 else if Complete(Pending(history, t) + [m]) then []
                 else Pending(history, t) + [m]
  {
    assert (history + [m])[..|history|] == history;
  }
}
