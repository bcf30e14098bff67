/** Closing modules: reference counts, `lt_dlclose`, and the loop of `lt_dlexit` that
    closes everything, in the build that does not load dependent libraries.
 */
module ModuleHandles {

  class Handle {
    const resident: bool
    var refCount: int
    var next: Handle?

    constructor (resident: bool, refCount: int, next: Handle?)
      ensures this.resident == resident && this.refCount == refCount && this.next == next
    {
      this.resident, this.refCount, this.next := resident, refCount, next;
    }
  }

  function At(s: seq<Handle>, i: nat): Handle? {
    if i < |s| then s[i] else null
  }

  predicate NoDup(s: seq<Handle>) {
    forall i, j | 0 <= i < j < |s| :: s[i] != s[j]
  }

  ghost predicate Linked(head: Handle?, s: seq<Handle>)
    reads s
  {
    head == At(s, 0) && forall i {:trigger s[i].next} | 0 <= i < |s| :: s[i].next == At(s, i + 1)
  }

  function Sum(s: seq<nat>): nat {
    if s == [] then 0 else s[0] + Sum(s[1..])
  }

  lemma {:induction false} SumSplit(a: seq<nat>, b: seq<nat>)
    ensures Sum(a + b) == Sum(a) + Sum(b)
  {
    if a == [] {
      assert a + b == b;
    } else {
      assert (a + b)[1..] == a[1..] + b;
      SumSplit(a[1..], b);
    }
  }

  lemma {:induction false} SumOver(s: seq<nat>, i: nat)
    requires i < |s|
    ensures Sum(s) >= s[i]
  {
    if i > 0 { SumOver(s[1..], i - 1); }
  }

  /** Closings that a handle still needs. */
  ghost function Load(h: Handle): nat
    reads h`refCount
  {
    if h.resident then 0 else if h.refCount > 0 then h.refCount else 1
  }

  ghost function Loads(s: seq<Handle>): (r: seq<nat>)
    reads s
    ensures |r| == |s| && forall i | 0 <= i < |s| :: r[i] == Load(s[i])
  {
    if s == [] then [] else [Load(s[0])] + Loads(s[1..])
  }

  ghost function Weight(s: seq<Handle>): nat
    reads s
  {
    Sum(Loads(s))
  }

  ghost predicate AllResident(s: seq<Handle>) {
    forall i | 0 <= i < |s| :: s[i].resident
  }

  lemma OneLoad(tmp: Handle)
    ensures Sum(Loads([tmp])) == Load(tmp)
  {
    assert Loads([tmp])[1..] == [];
  }

  lemma Neighbours(done: seq<Handle>, tmp: Handle, todo: seq<Handle>)
    requires NoDup(done + [tmp] + todo)
    ensures forall k | 0 <= k < |done| :: done[k] != tmp && done[k] in done + [tmp] + todo
    ensures forall k | 0 <= k < |todo| :: todo[k] != tmp && todo[k] in done + [tmp] + todo
  {
    var s, i := done + [tmp] + todo, |done|;
    assert s[i] == tmp;
    forall k | 0 <= k < |done| ensures done[k] != tmp && done[k] in s { assert s[k] == done[k]; }
    forall k | 0 <= k < |todo| ensures todo[k] != tmp && todo[k] in s { assert s[i + 1 + k] == todo[k]; }
  }

  /** Modules whose closing failed. */
  function Failures(closed: seq<Handle>, moduleClose: Handle -> int): nat {
    if closed == [] then 0
    else
      var n := |closed| - 1;
      Failures(closed[..n], moduleClose) + if moduleClose(closed[n]) != 0 then 1 else 0
  }

  lemma FailuresSnoc(closed: seq<Handle>, h: Handle, moduleClose: Handle -> int)
    ensures Failures(closed + [h], moduleClose)
            == Failures(closed, moduleClose) + if moduleClose(h) != 0 then 1 else 0
  {
    assert (closed + [h])[..|closed|] == closed;
  }

  lemma Regroup(done: seq<Handle>, tmp: Handle, todo: seq<Handle>)
    ensures done + ([tmp] + todo) == done + [tmp] + todo
  {
  }

  lemma HeadAndRest(todo: seq<Handle>)
    requires todo != []
    ensures todo == [todo[0]] + todo[1..]
    ensures AllResident(todo) <==> todo[0].resident && AllResident(todo[1..])
  {
    var rest := todo[1..];
    if todo[0].resident && AllResident(rest) {
      forall i | 0 <= i < |todo| ensures todo[i].resident { if i > 0 { assert rest[i - 1].resident; } }
    }
  }

  lemma LoadsSplit(a: seq<Handle>, b: seq<Handle>)
    ensures Loads(a + b) == Loads(a) + Loads(b)
  {
  }

  lemma WeightSplit(a: seq<Handle>, b: seq<Handle>)
    ensures Weight(a + b) == Weight(a) + Weight(b)
  {
    LoadsSplit(a, b);
    SumSplit(Loads(a), Loads(b));
  }

  /** The weight of a list around one handle. */
  lemma WeightAround(done: seq<Handle>, tmp: Handle, todo: seq<Handle>)
    ensures Weight(done + [tmp] + todo) == Weight(done) + Load(tmp) + Weight(todo)
    ensures Weight(done + todo) == Weight(done) + Weight(todo)
  {
    WeightSplit(done + [tmp], todo);
    WeightSplit(done, [tmp]);
    OneLoad(tmp);
    WeightSplit(done, todo);
  }

  // The order of closing

  /** The closings that a handle needs when the shutdown begins, and its place in the list. */
  datatype Turn = Turn(load: nat, place: nat)

  type Plan = map<Handle, Turn>

  predicate Earlier(a: Turn, b: Turn) {
    a.load < b.load || (a.load == b.load && a.place < b.place)
  }

  /** The count of a handle before its visit in the pass of this level: passes below its load
      leave it alone, each later one drops a reference, and the last is number 2 * load - 1. */
  ghost predicate Due(h: Handle, load: nat, level: int)
    reads h`refCount
  {
    level <= 2 * load - 1 && if level <= load then Load(h) == load else h.refCount == 2 * load - level
  }

  ghost predicate Waiting(s: seq<Handle>, plan: Plan, level: int)
    reads s
  {
    forall i | 0 <= i < |s| :: s[i] in plan && (!s[i].resident ==> Due(s[i], plan[s[i]].load, level))
  }

  predicate Placed(s: seq<Handle>, plan: Plan) {
    && (forall i | 0 <= i < |s| :: s[i] in plan)
    && (forall i, j | 0 <= i < j < |s| :: plan[s[i]].place < plan[s[j]].place)
  }

  /** What was closed up to this pass is in order, and what this pass closed was listed
      before everything that is still ahead of it. */
  predicate Ordered(closed: seq<Handle>, todo: seq<Handle>, plan: Plan, level: int) {
    && (forall i | 0 <= i < |closed| :: closed[i] in plan && 2 * plan[closed[i]].load - 1 <= level)
    && (forall i, j | 0 <= i < j < |closed| :: Earlier(plan[closed[i]], plan[closed[j]]))
    && (forall i, j | 0 <= i < |closed| && 0 <= j < |todo| && 2 * plan[closed[i]].load - 1 == level ::
          todo[j] in plan && plan[closed[i]].place < plan[todo[j]].place)
  }

  ghost predicate Scheduled(closed: seq<Handle>, done: seq<Handle>, todo: seq<Handle>, plan: Plan, level: int)
    reads done, todo
  {
    && 1 <= level && Placed(done + todo, plan) && Waiting(done, plan, level + 1) && Waiting(todo, plan, level)
    && Ordered(closed, todo, plan, level)
  }

  /** The visit of a handle: it is closed exactly in the pass that it is due. */
  lemma VisitOnTime(h: Handle, load: nat, level: int)
    requires 1 <= level && !h.resident && Due(h, load, level)
    ensures h.refCount <= level <==> load <= level
    ensures load <= level ==> (h.refCount <= 1 <==> level == 2 * load - 1)
    ensures load <= level && h.refCount > 1 ==> h.refCount - 1 == 2 * load - (level + 1)
  {
  }

  lemma PlacedWithout(done: seq<Handle>, tmp: Handle, todo: seq<Handle>, plan: Plan)
    requires Placed(done + ([tmp] + todo), plan)
    ensures Placed(done + todo, plan) && Placed(done + [tmp] + todo, plan)
    ensures tmp in plan && forall j | 0 <= j < |todo| :: todo[j] in plan && plan[tmp].place < plan[todo[j]].place
  {
    var s, t, n := done + ([tmp] + todo), done + todo, |done|;
    assert done + [tmp] + todo == s && s[n] == tmp;
    assert forall i | 0 <= i < |t| :: t[i] == s[if i < n then i else i + 1];
    assert forall j | 0 <= j < |todo| :: todo[j] == s[n + 1 + j];
  }

  lemma OrderedClose(closed: seq<Handle>, tmp: Handle, todo: seq<Handle>, plan: Plan, level: int)
    requires Ordered(closed, [tmp] + todo, plan, level) && tmp in plan && 2 * plan[tmp].load - 1 == level
    requires forall j | 0 <= j < |todo| :: todo[j] in plan && plan[tmp].place < plan[todo[j]].place
    ensures Ordered(closed + [tmp], todo, plan, level)
  {
    assert ([tmp] + todo)[0] == tmp && forall j | 0 <= j < |todo| :: todo[j] == ([tmp] + todo)[j + 1];
  }

  lemma OrderedKeep(closed: seq<Handle>, tmp: Handle, todo: seq<Handle>, plan: Plan, level: int)
    requires Ordered(closed, [tmp] + todo, plan, level)
    ensures Ordered(closed, todo, plan, level)
  {
    assert forall j | 0 <= j < |todo| :: todo[j] == ([tmp] + todo)[j + 1];
  }

  /** What the schedule says about all but the handle being visited. */
  ghost predicate Around(closed: seq<Handle>, done: seq<Handle>, tmp: Handle, todo: seq<Handle>, plan: Plan, level: int)
    reads done, todo
  {
    && 1 <= level && Placed(done + ([tmp] + todo), plan) && Ordered(closed, [tmp] + todo, plan, level)
    && Waiting(done, plan, level + 1) && Waiting(todo, plan, level)
  }

  lemma VisitBegins(closed: seq<Handle>, done: seq<Handle>, tmp: Handle, todo: seq<Handle>, plan: Plan, level: int)
    requires Scheduled(closed, done, [tmp] + todo, plan, level)
    ensures Around(closed, done, tmp, todo, plan, level)
    ensures tmp in plan && (!tmp.resident ==> Due(tmp, plan[tmp].load, level))
  {
    var s := [tmp] + todo;
    assert s[0] == tmp && forall j | 0 <= j < |todo| :: todo[j] == s[j + 1];
  }

  lemma VisitCloses(closed: seq<Handle>, done: seq<Handle>, tmp: Handle, todo: seq<Handle>, plan: Plan, level: int)
    requires Around(closed, done, tmp, todo, plan, level) && tmp in plan && 2 * plan[tmp].load - 1 == level
    ensures Scheduled(closed + [tmp], done, todo, plan, level)
  {
    PlacedWithout(done, tmp, todo, plan);
    OrderedClose(closed, tmp, todo, plan, level);
  }

  lemma VisitKeeps(closed: seq<Handle>, done: seq<Handle>, tmp: Handle, todo: seq<Handle>, plan: Plan, level: int)
    requires Around(closed, done, tmp, todo, plan, level)
    requires tmp in plan && (!tmp.resident ==> Due(tmp, plan[tmp].load, level + 1))
    ensures Scheduled(closed, done + [tmp], todo, plan, level)
  {
    PlacedWithout(done, tmp, todo, plan);
    OrderedKeep(closed, tmp, todo, plan, level);
  }

  lemma VisitPasses(closed: seq<Handle>, done: seq<Handle>, tmp: Handle, todo: seq<Handle>, plan: Plan, level: int)
    requires Scheduled(closed, done, [tmp] + todo, plan, level) && (tmp.resident || tmp.refCount > level)
    ensures Scheduled(closed, done + [tmp], todo, plan, level)
  {
    VisitBegins(closed, done, tmp, todo, plan, level);
    if !tmp.resident { VisitOnTime(tmp, plan[tmp].load, level); }
    VisitKeeps(closed, done, tmp, todo, plan, level);
  }

  lemma NextPass(closed: seq<Handle>, done: seq<Handle>, plan: Plan, level: int)
    requires Scheduled(closed, done, [], plan, level)
    ensures Scheduled(closed, [], done, plan, level + 1)
  {
    assert done + [] == done && [] + done == done;
  }

  /** Handles are closed by the number of their references, and those with as many by their
      place in the list. */
  predicate ByReferences(closed: seq<Handle>, s: seq<Handle>, loads: seq<nat>)
    requires |loads| == |s|
  {
    forall i, j, p, q | 0 <= i < j < |closed| && 0 <= p < |s| && 0 <= q < |s| ::
      s[p] == closed[i] && s[q] == closed[j] ==> loads[p] < loads[q] || (loads[p] == loads[q] && p < q)
  }

  predicate IsPlan(plan: Plan, s: seq<Handle>, loads: seq<nat>) {
    |loads| == |s| && forall i | 0 <= i < |s| :: s[i] in plan && plan[s[i]] == Turn(loads[i], i)
  }

  ghost function PlanFor(s: seq<Handle>, loads: seq<nat>): (plan: Plan)
    requires NoDup(s) && |loads| == |s|
    ensures IsPlan(plan, s, loads)
  {
    map i | 0 <= i < |s| :: s[i] := Turn(loads[i], i)
  }

  /** The order of the plan is the order by references. */
  lemma PlanOrder(closed: seq<Handle>, s: seq<Handle>, loads: seq<nat>, plan: Plan)
    requires IsPlan(plan, s, loads) && forall i | 0 <= i < |closed| :: closed[i] in plan
    requires forall i, j | 0 <= i < j < |closed| :: Earlier(plan[closed[i]], plan[closed[j]])
    ensures ByReferences(closed, s, loads)
  {
  }

  lemma Start(s: seq<Handle>, k: nat, loads: seq<nat>, plan: Plan)
    requires IsPlan(plan, s, loads) && (forall i | 0 <= i < |s| :: loads[i] == Load(s[i])) && k <= |s|
    ensures Scheduled([], [], s[k..], plan, 1)
  {
    var t := s[k..];
    forall i | 0 <= i < |t| ensures t[i] in plan && plan[t[i]] == Turn(Load(t[i]), k + i) {
      assert t[i] == s[k + i];
    }
    assert Waiting(t, plan, 1);
    assert Placed(t, plan) && [] + t == t;
  }

  class Ltdl {
    var handles: Handle?
    /** Modules that were closed, in order. */
    var closed: seq<Handle>
    /** What closing a module answers: the number of errors. */
    const moduleClose: Handle -> int
    ghost var list: seq<Handle>

    ghost predicate Valid()
      reads this, list
    {
      Linked(handles, list) && NoDup(list)
    }

    /** `lt_dlclose`: drops one reference, and closes and unlinks the module with the
        last one unless it is resident.  `i` is the position of the handle. */
    method Close(handle: Handle) returns (errors: int, ghost i: nat)
      requires Valid()
      modifies this, list
      ensures Valid()
      ensures forall h | h in old(list) && h != handle :: h.refCount == old(h.refCount)
      ensures handle !in old(list) ==> errors == 1 && list == old(list) && closed == old(closed)
      ensures handle in old(list) ==>
        && i < |old(list)| && old(list)[i] == handle
        && handle.refCount == old(handle.refCount) - 1
        && errors == (if handle.resident then 1 else if handle.refCount <= 0 then moduleClose(handle) else 0)
        && if handle.refCount <= 0 && !handle.resident
           then list == old(list)[..i] + old(list)[i + 1..] && closed == old(closed) + [handle]
           else list == old(list) && closed == old(closed)
    {
      i := 0;
      var last, cur := handles, handles;
      while cur != null && handle != cur
        invariant i <= |list| && cur == At(list, i)
        invariant i > 0 ==> last == list[i - 1]
        invariant handle !in list[..i]
        decreases |list| - i
      {
        last := cur;
        cur := cur.next;
        i := i + 1;
      }
      if cur == null {
        errors := 1;
        return;
      }
      assert list[i] == handle;
      handle.refCount := handle.refCount - 1;
      if handle.refCount <= 0 && !handle.resident {
        Unlink(handle, last, i);
        errors := moduleClose(handle);
        return;
      }
      errors := if handle.resident then 1 else 0;
    }

    method Unlink(handle: Handle, last: Handle?, ghost i: nat)
      requires Valid() && i < |list| && handle == list[i] && (i > 0 ==> last == list[i - 1])
      modifies this, if i > 0 then {list[i - 1]} else {}
      ensures Valid() && list == old(list)[..i] + old(list)[i + 1..] && closed == old(closed) + [handle]
      ensures forall h | h in old(list) :: h.refCount == old(h.refCount)
    {
      ghost var s := list[..i] + list[i + 1..];
      ghost var was := list;
      if handle != handles {
        last.next := handle.next;
      } else {
        handles := handle.next;
      }
      list := s;
      closed := closed + [handle];
      forall k | 0 <= k < |s| ensures s[k].next == At(s, k + 1) {
        assert s[k] == was[if k < i then k else k + 1];
      }
    }

    method IsListed(h: Handle) returns (found: bool)
      requires Valid()
      ensures found <==> h in list
    {
      var tmp := handles;
      ghost var i: nat := 0;
      while tmp != null && tmp != h
        invariant i <= |list| && tmp == At(list, i) && h !in list[..i]
        decreases |list| - i
      {
        tmp := tmp.next;
        i := i + 1;
      }
      assert tmp != null ==> list[i] == h;
      found := tmp != null;
    }

    /** `lt_dlclose` on the handle between `done` and `todo`. */
    method CloseAt(tmp: Handle, ghost done: seq<Handle>, ghost todo: seq<Handle>) returns (errors: int)
      requires Valid() && list == done + [tmp] + todo && !tmp.resident
      modifies this, list
      ensures Valid() && Weight(list) < old(Weight(list))
      ensures errors == if closed == old(closed) then 0 else moduleClose(tmp)
      ensures tmp.refCount == old(tmp.refCount) - 1
      ensures forall k | 0 <= k < |done| :: done[k].refCount == old(done[k].refCount)
      ensures forall k | 0 <= k < |todo| :: todo[k].refCount == old(todo[k].refCount)
      ensures if old(tmp.refCount) <= 1 then list == done + todo && closed == old(closed) + [tmp]
              else list == old(list) && closed == old(closed)
    {
      ghost var i := |done|;
      assert list[i] == tmp && list[..i] == done && list[i + 1..] == todo;
      Neighbours(done, tmp, todo);
      WeightAround(done, tmp, todo);
      ghost var j;
      errors, j := Close(tmp);
      assert j == i;
      assert Loads(done) == old(Loads(done));
      assert Loads(todo) == old(Loads(todo));
      WeightAround(done, tmp, todo);
    }

    /** Closes one handle and tells whether that failed. */
    method CloseBooked(tmp: Handle, ghost done: seq<Handle>, ghost todo: seq<Handle>, ghost all: seq<Handle>)
      returns (failed: bool)
      requires Valid() && list == done + [tmp] + todo && !tmp.resident && Books(closed, list, all)
      modifies this, all
      ensures Valid() && Books(closed, list, all) && Weight(list) < old(Weight(list))
      ensures tmp.refCount == old(tmp.refCount) - 1
      ensures forall k | 0 <= k < |done| :: done[k].refCount == old(done[k].refCount)
      ensures forall k | 0 <= k < |todo| :: todo[k].refCount == old(todo[k].refCount)
      ensures if old(tmp.refCount) <= 1 then list == done + todo && closed == old(closed) + [tmp]
              else list == old(list) && closed == old(closed)
      ensures Failures(closed, moduleClose) == old(Failures(closed, moduleClose)) + if failed then 1 else 0
    {
      BooksAfterClose(closed, done, tmp, todo, all);
      FailuresSnoc(closed, tmp, moduleClose);
      assert forall k | 0 <= k < |list| :: list[k] in all;
      var errors := CloseAt(tmp, done, todo);
      failed := errors != 0;
    }

    /** Starts over if the next handle is not listed any more. */
    method Recheck(next: Handle?, ghost done: seq<Handle>, ghost todo: seq<Handle>) returns (cur: Handle?)
      requires Valid() && list == done + todo && next == At(todo, 0)
      ensures cur == next
    {
      cur := next;
      if cur != null {
        assert list[|done|] == cur;
        var found := IsListed(cur);
        if !found { cur := handles; }
      }
    }

    /** Closes one handle, then makes sure that the next one is still listed. */
    method CloseDue(tmp: Handle, next: Handle?, level: int, ghost done: seq<Handle>, ghost todo: seq<Handle>,
                    ghost all: seq<Handle>, ghost plan: Plan)
      returns (cur: Handle?, failed: bool, ghost done': seq<Handle>)
      requires Valid() && list == done + [tmp] + todo && next == At(todo, 0) && Books(closed, list, all)
      requires !tmp.resident && tmp.refCount <= level && Scheduled(closed, done, [tmp] + todo, plan, level)
      modifies this, all
      ensures Valid() && Books(closed, list, all) && Weight(list) < old(Weight(list))
      ensures cur == next && list == done' + todo && Scheduled(closed, done', todo, plan, level)
      ensures Failures(closed, moduleClose) == old(Failures(closed, moduleClose)) + if failed then 1 else 0
    {
      ghost var before := closed;
      VisitBegins(closed, done, tmp, todo, plan, level);
      VisitOnTime(tmp, plan[tmp].load, level);
      failed := CloseBooked(tmp, done, todo, all);
      assert Around(before, done, tmp, todo, plan, level);
      if tmp.refCount <= 0 {
        VisitCloses(before, done, tmp, todo, plan, level);
        done' := done;
      } else {
        VisitKeeps(before, done, tmp, todo, plan, level);
        done' := done + [tmp];
      }
      cur := Recheck(next, done', todo);
    }

    /** Where a pass stands: `done` is behind it, `todo` ahead.  If the weight has not
        changed yet, some handle behind it has a count above `level`. */
    ghost predicate Progress(done: seq<Handle>, todo: seq<Handle>, w: nat, level: int, saw: bool)
      reads this, list, done
    {
      Valid() && list == done + todo && Weight(list) <= w && Behind(done, level, Weight(list) == w, saw)
    }

    /** The visit of one handle: close it if its count is not above `level`. */
    method Advance(tmp: Handle, level: int, saw: bool, errors: nat, ghost done: seq<Handle>, ghost todo: seq<Handle>,
                   ghost w: nat, ghost all: seq<Handle>, ghost plan: Plan)
      returns (cur: Handle?, errors': nat, ghost done': seq<Handle>)
      requires Progress(done, [tmp] + todo, w, level, saw) && Books(closed, list, all)
      requires Scheduled(closed, done, [tmp] + todo, plan, level) && errors == Failures(closed, moduleClose)
      modifies this, all
      ensures Progress(done', todo, w, level, saw || !tmp.resident) && Books(closed, list, all)
      ensures Scheduled(closed, done', todo, plan, level) && errors' == Failures(closed, moduleClose)
      ensures cur == At(todo, 0) && (tmp.resident ==> list == old(list))
    {
      Regroup(done, tmp, todo);
      assert list[|done|] == tmp && tmp.next == At(list, |done| + 1) == At(todo, 0);
      cur, errors', done' := tmp.next, errors, done + [tmp];
      if !tmp.resident && tmp.refCount <= level {
        var failed;
        cur, failed, done' := CloseDue(tmp, cur, level, done, todo, all, plan);
        if failed { errors' := errors' + 1; }
      } else {
        VisitPasses(closed, done, tmp, todo, plan, level);
        BehindKept(done, tmp, level, Weight(list) == w, saw);
      }
    }

    /** The visits of one pass. */
    method VisitAll(level: int, errors: nat, ghost w: nat, ghost all: seq<Handle>, ghost plan: Plan)
      returns (saw: bool, errors': nat)
      requires Valid() && Books(closed, list, all) && errors == Failures(closed, moduleClose) && w == Weight(list)
      requires Scheduled(closed, [], list, plan, level)
      modifies this, all
      ensures Progress(list, [], w, level, saw) && Books(closed, list, all)
      ensures Scheduled(closed, list, [], plan, level) && errors' == Failures(closed, moduleClose)
      ensures saw <==> !AllResident(old(list))
      ensures !saw ==> list == old(list)
    {
      saw, errors' := false, errors;
      var cur := handles;
      ghost var orig, done, todo := list, [], list;
      while cur != null
        invariant Progress(done, todo, w, level, saw) && Books(closed, list, all) && cur == At(todo, 0)
        invariant saw || !AllResident(todo) <==> !AllResident(orig)
        invariant !saw ==> list == orig
        invariant Scheduled(closed, done, todo, plan, level)
        invariant errors' == Failures(closed, moduleClose)
        decreases |todo|
      {
        var tmp := cur;
        ghost var rest := todo[1..];
        HeadAndRest(todo);
        cur, errors', done := Advance(tmp, level, saw, errors', done, rest, w, all, plan);
        if !tmp.resident { saw := true; }
        todo := rest;
      }
      assert list == done;
    }

    /** One pass over the list.  If it closes nothing, some handle needs a higher level. */
    method Pass(level: int, errors: nat, ghost all: seq<Handle>, ghost plan: Plan)
      returns (saw: bool, errors': nat)
      requires Valid() && Books(closed, list, all) && errors == Failures(closed, moduleClose)
      requires Scheduled(closed, [], list, plan, level)
      modifies this, all
      ensures Valid() && Books(closed, list, all) && errors' == Failures(closed, moduleClose)
      ensures Scheduled(closed, [], list, plan, level + 1)
      ensures saw <==> !AllResident(old(list))
      ensures !saw ==> list == old(list)
      ensures Weight(list) <= old(Weight(list))
      ensures saw && Weight(list) == old(Weight(list)) ==> level < Weight(list)
    {
      saw, errors' := VisitAll(level, errors, Weight(list), all, plan);
      NextPass(closed, list, plan, level);
      if Above(list, level) { AboveWeight(list, level); }
    }

    /** Drops the resident handles at the head of the list. */
    method SkipResidents(ghost all: seq<Handle>) returns (ghost n: nat)
      requires Valid() && Books(closed, list, all)
      modifies this
      ensures Valid() && Books(closed, list, all) && closed == old(closed)
      ensures n <= |old(list)| && list == old(list)[n..]
      ensures list != [] ==> !list[0].resident
    {
      n := 0;
      while handles != null && handles.resident
        invariant Valid() && Books(closed, list, all) && closed == old(closed)
        invariant n <= |old(list)| && list == old(list)[n..]
        decreases |list|
      {
        ghost var rest := list[1..];
        assert forall k | 0 <= k < |rest| :: rest[k] == list[k + 1];
        assert list == [list[0]] + rest;
        handles := handles.next;
        list := rest;
        n := n + 1;
      }
    }

    method Begin(ghost all: seq<Handle>, ghost plan: Plan)
      requires Valid() && list == all && Books(closed, list, all) && IsPlan(plan, all, Loads(all))
      modifies this
      ensures Valid() && Books(closed, list, all) && closed == old(closed)
      ensures Scheduled([], [], list, plan, 1) && (all == [] ==> list == [])
    {
      ghost var n := SkipResidents(all);
      Start(all, n, Loads(all), plan);
    }

    /** The passes, at rising levels. */
    method CloseRest(any: bool, ghost all: seq<Handle>, ghost loads: seq<nat>, ghost plan: Plan)
      returns (errors: nat)
      requires Valid() && Books(closed, list, all) && (any || AllResident(list))
      requires closed == [] && Scheduled(closed, [], list, plan, 1) && IsPlan(plan, all, loads)
      modifies this, all
      ensures Valid() && Books(closed, list, all) && AllResident(list) && errors == Failures(closed, moduleClose)
      ensures ByReferences(closed, all, loads)
    {
      errors := 0;
      var level := 1;
      var more := any;
      while more
        invariant Valid() && Books(closed, list, all)
        invariant !more ==> AllResident(list)
        invariant errors == Failures(closed, moduleClose) && Scheduled(closed, [], list, plan, level)
        decreases more, Weight(list), Weight(list) - level
      {
        more, errors := Pass(level, errors, all, plan);
        level := level + 1;
      }
      PlanOrder(closed, all, loads, plan);
    }

    /** The shutdown of `lt_dlexit`: it terminates for every list and all counts, and closes
        each non-resident module exactly once and no resident one, those with fewer references
        first.  It counts the modules whose closing failed. */
    method CloseAll() returns (errors: nat)
      requires Valid() && closed == []
      modifies this, list
      ensures Valid() && AllResident(list)
      ensures NoDup(closed) && errors == Failures(closed, moduleClose)
      ensures ByReferences(closed, old(list), old(Loads(list)))
      ensures forall h | h in closed || h in old(list) :: h in closed <==> h in old(list) && !h.resident
    {
      ghost var all, loads := list, Loads(list);
      ghost var plan := PlanFor(all, loads);
      var handle := handles;
      Begin(all, plan);
      errors := CloseRest(handle != null, all, loads, plan);
    }
  }

  /** Every non-resident handle of `all` is either still listed or was closed, once;
      no resident one was closed. */
  predicate Books(closed: seq<Handle>, list: seq<Handle>, all: seq<Handle>) {
    && NoDup(closed)
    && (forall h | h in list :: h in all)
    && (forall h | h in closed :: h in all && !h.resident)
    && (forall h | h in all && !h.resident :: h in closed <==> h !in list)
  }

  lemma BooksAfterClose(closed: seq<Handle>, done: seq<Handle>, tmp: Handle, todo: seq<Handle>, all: seq<Handle>)
    requires Books(closed, done + [tmp] + todo, all) && NoDup(done + [tmp] + todo) && !tmp.resident
    ensures Books(closed + [tmp], done + todo, all)
  {
    var s := done + [tmp] + todo;
    assert s[|done|] == tmp && tmp in s;
    forall h ensures h in s <==> h in done + todo || h == tmp {
    }
    assert tmp !in done + todo by {
      assert forall k | 0 <= k < |done| :: s[k] == done[k];
      assert forall k | 0 <= k < |todo| :: s[|done| + 1 + k] == todo[k];
    }
  }

  ghost predicate Above(s: seq<Handle>, level: int)
    reads s
  {
    exists k :: 0 <= k < |s| && !s[k].resident && s[k].refCount > level
  }

  lemma AboveWeight(s: seq<Handle>, level: int)
    requires Above(s, level)
    ensures level < Weight(s)
  {
    var k :| 0 <= k < |s| && !s[k].resident && s[k].refCount > level;
    SumOver(Loads(s), k);
  }

  /** What a pass knows about the handles behind it; `same` says that the weight of the
      list has not changed. */
  ghost predicate Behind(done: seq<Handle>, level: int, same: bool, saw: bool)
    reads done
  {
    if saw then same ==> Above(done, level) else AllResident(done)
  }

  lemma BehindKept(done: seq<Handle>, tmp: Handle, level: int, same: bool, saw: bool)
    requires Behind(done, level, same, saw) && (tmp.resident || tmp.refCount > level)
    ensures Behind(done + [tmp], level, same, saw || !tmp.resident)
  {
    var s := done + [tmp];
    if !tmp.resident {
      assert s[|done|] == tmp;
    } else if saw && same {
      var k :| 0 <= k < |done| && !done[k].resident && done[k].refCount > level;
      assert s[k] == done[k];
    }
  }
}
