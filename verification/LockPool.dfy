/** The pool of locks that hands out connections and threads.

    Every operation runs under the pool's mutex, so operations are atomic and an
    interleaving of threads is a sequence of calls.
 */
module LockPool {
  import opened Division
  import opened Powers

  /** Larger sizes would overflow the doubling of a 32-bit int. */
  const MAX_SIZE: int := 0x4000_0000

  /** `alloc` is the least power of two that is at least `size`. */
  ghost predicate LeastPower(alloc: int, size: int) {
    exists e: nat :: alloc == Pow2(e) && size <= alloc && (e > 0 ==> Pow2(e - 1) < size)
  }

  lemma DoublingFits(e: nat)
    requires Pow2(e) < MAX_SIZE
    ensures 2 * Pow2(e) <= MAX_SIZE
  {
    assert Pow2(10) == 1024 && Pow2(20) == 0x10_0000 && Pow2(30) == MAX_SIZE;
    if e >= 30 { Pow2Grows(30, e); } else { Pow2Grows(e + 1, 30); }
  }

  method RoundUp(size: int) returns (alloc: int)
    requires size <= MAX_SIZE
    ensures 1 <= alloc <= MAX_SIZE && size <= alloc && LeastPower(alloc, size)
  {
    alloc := 1;
    ghost var e: nat := 0;
    while alloc < size
      invariant alloc == Pow2(e) && 1 <= alloc <= MAX_SIZE && (e > 0 ==> Pow2(e - 1) < size)
      decreases size - alloc
    {
      DoublingFits(e);
      alloc := 2 * alloc;
      e := e + 1;
    }
  }

  /** The index that a scan beginning behind `first` looks at in round `d`. */
  function Turn(first: nat, d: nat, size: nat): (i: nat)
    requires first < size && d < size
    ensures i < size
  {
    if first + 1 + d < size then first + 1 + d else first + 1 + d - size
  }

  /** The scan begins one behind the random index, and goes around. */
  lemma TurnIs(random: nat, d: nat, size: nat)
    requires d < size
    ensures Turn(random % size, d, size) == (random + 1 + d) % size
  {
    var q, first := random / size, random % size;
    assert random == q * size + first;
    var over := if first + 1 + d < size then 0 else 1;
    assert random + 1 + d == (q + over) * size + Turn(first, d, size);
    Divided(random + 1 + d, q + over, Turn(first, d, size), size);
  }

  /** The scan looks at every index, and at none twice. */
  lemma TurnVisitsAllOnce(first: nat, size: nat, i: nat)
    requires first < size && i < size
    ensures exists d: nat | d < size :: Turn(first, d, size) == i
    ensures forall c: nat, d: nat | c < d < size :: Turn(first, c, size) != Turn(first, d, size)
  {
    var d := if i > first then i - first - 1 else i + size - first - 1;
    assert Turn(first, d, size) == i;
  }

  lemma Next(x: nat, size: nat)
    requires x < size
    ensures (x + 1) % size == if x + 1 < size then x + 1 else 0
  {
  }

  class Pool<Client> {
    var size: nat
    var locked: int
    var avail: array<bool>
    /** Who holds an item. */
    ghost var holder: map<nat, Client>

    ghost function Held(): set<nat>
      reads this, avail
    {
      set i: nat | i < size <= avail.Length && !avail[i]
    }

    ghost predicate Valid()
      reads this, avail
    {
      && 1 <= size <= avail.Length && LeastPower(avail.Length, size)
      && (forall i | size <= i < avail.Length :: avail[i])
      && holder.Keys == Held()
      && locked == |Held()|
    }

    constructor Sized(size: int)
      requires 0 < size <= MAX_SIZE
      ensures Valid() && this.size == size && holder == map[] && fresh(avail)
    {
      var alloc := RoundUp(size);
      var all := new bool[alloc](_ => true);
      this.size, locked, avail, holder := size, 0, all, map[];
    }

    /** Tries to take an item, starting behind a random one.  It takes the first free
        item in cyclic order and fails exactly if nothing is free. */
    method TryLocks(random: nat, ghost client: Client) returns (pi: int)
      requires Valid()
      modifies this`locked, this`holder, avail
      ensures Valid() && size == old(size)
      ensures pi == -1 <==> forall i: nat | i < size :: i in old(holder)
      ensures pi == -1 ==> holder == old(holder) && locked == old(locked)
      ensures pi != -1 ==>
        && 0 <= pi < size && pi !in old(holder) && holder == old(holder)[pi := client]
        && exists d: nat | d < size :: Turn(random % size, d, size) == pi
             && forall c: nat | c < d :: Turn(random % size, c, size) in old(holder)
    {
      pi := random % size;
      ghost var first: nat := pi;
      for i := 0 to size
        invariant pi == if i == 0 then first else Turn(first, i - 1, size)
        invariant forall c: nat | c < i :: Turn(first, c, size) in holder
        invariant Valid() && holder == old(holder) && locked == old(locked)
      {
        Next(pi, size);
        pi := (pi + 1) % size;
        assert pi == Turn(first, i, size);
        if avail[pi] {
          Take(pi, client);
          return;
        }
        assert pi in Held();
      }
      forall i: nat | i < size ensures i in holder {
        TurnVisitsAllOnce(first, size, i);
      }
      return -1;
    }

    method Take(pi: nat, ghost client: Client)
      requires Valid() && pi < size && avail[pi]
      modifies this`locked, this`holder, avail
      ensures Valid() && pi !in old(holder) && holder == old(holder)[pi := client]
    {
      ghost var before := Held();
      avail[pi] := false;
      locked := locked + 1;
      assert Held() == before + {pi};
      holder := holder[pi := client];
    }

    /** The first held item, or -1. */
    method GetLocked() returns (i: int)
      requires Valid()
      ensures i == -1 <==> holder == map[]
      ensures i != -1 ==> 0 <= i < size && i in holder && forall j: nat | j < i :: j !in holder
    {
      for k := 0 to size
        invariant forall j: nat | j < k :: avail[j]
      {
        if !avail[k] {
          assert k in Held();
          return k;
        }
      }
      assert Held() == {};
      return -1;
    }

    /** Gives an item back; returning a free item only logs an error. */
    method Return(idx: nat) returns (logged: bool)
      requires Valid() && idx < avail.Length
      modifies this`locked, this`holder, avail
      ensures Valid() && size == old(size) && logged == (idx !in old(holder))
      ensures holder == old(holder) - {idx} && locked == old(locked) - if logged then 0 else 1
    {
      logged := avail[idx];
      if logged {
        assert idx !in Held();
        assert holder - {idx} == holder;
      } else {
        ghost var before := Held();
        assert idx in before;
        locked := locked - 1;
        avail[idx] := true;
        assert Held() == before - {idx};
        holder := holder - {idx};
      }
    }

    method Enlarged(alloc: int) returns (more: array<bool>)
      requires Valid() && size <= alloc
      ensures fresh(more) && more.Length == alloc
      ensures forall i | 0 <= i < alloc :: more[i] == (i >= size || avail[i])
    {
      more := new bool[alloc];
      for i := 0 to size
        invariant forall j | 0 <= j < i :: more[j] == avail[j]
      {
        more[i] := avail[i];
      }
      for i := size to alloc
        invariant forall j | 0 <= j < i :: more[j] == (j >= size || avail[j])
      {
        more[i] := true;
      }
    }

    /** Growing keeps every held item held and every free item free. */
    method Grow(newSize: int)
      requires Valid() && size <= newSize <= MAX_SIZE
      modifies this`size, this`avail
      ensures Valid() && size == newSize && holder == old(holder) && locked == old(locked)
      ensures avail == old(avail) || fresh(avail)
    {
      if newSize == size {
        return;
      }
      var alloc := RoundUp(newSize);
      ghost var before := Held();
      if alloc != avail.Length {
        avail := Enlarged(alloc);
      }
      size := newSize;
      assert Held() == before;
    }

    /** The drain loop of `proxy_threading_cancel`: afterwards nothing is held. */
    method Drain()
      requires Valid()
      modifies this`locked, this`holder, avail
      ensures Valid() && holder == map[] && locked == 0 && size == old(size)
    {
      var i := GetLocked();
      while i >= 0
        invariant Valid() && size == old(size) && -1 <= i < size
        invariant i >= 0 ==> i in holder
        invariant i == -1 ==> holder == map[]
        decreases locked, i
      {
        var _ := Return(i);
        i := GetLocked();
      }
      assert Held() == {};
    }
  }

  /** `proxy_pool_new` rejects sizes that are not positive. */
  method New<Client>(size: int) returns (p: Pool?<Client>)
    requires size <= MAX_SIZE
    ensures p == null <==> size <= 0
    ensures p != null ==> fresh(p) && p.Valid() && p.size == size && p.holder == map[]
  {
    if size <= 0 {
      return null;
    }
    p := new Pool.Sized(size);
  }

  // ----- interleavings ---------------------------------------------------------------------

  datatype Op<Client> = Get(client: Client, random: nat) | Give(idx: nat) | Enlarge(newSize: int)

  /** Items given back exist, and the pool only grows. */
  predicate Allowed<Client>(ops: seq<Op<Client>>, size: nat)
    decreases |ops|
  {
    ops == [] ||
    match ops[0]
    case Get(_, _) => Allowed(ops[1..], size)
    case Give(idx) => idx < size && Allowed(ops[1..], size)
    case Enlarge(n) => size <= n <= MAX_SIZE && Allowed(ops[1..], n)
  }

  predicate GivenBack<Client>(ops: seq<Op<Client>>, from: nat, to: nat, idx: int) {
    exists k :: from < k < to <= |ops| && ops[k].Give? && ops[k].idx == idx
  }

  /** What a pool amounts to: how many items there are, and who holds which. */
  datatype Holding<Client> = Holding(size: nat, holder: map<nat, Client>)

  function After<Client>(h: Holding<Client>, op: Op<Client>, got: int): Holding<Client> {
    match op
    case Get(client, _) => if got >= 0 then h.(holder := h.holder[got := client]) else h
    case Give(idx) => h.(holder := h.holder - {idx})
    case Enlarge(n) => if n >= 0 then h.(size := n) else h
  }

  function AfterAll<Client>(h: Holding<Client>, ops: seq<Op<Client>>, got: seq<int>): Holding<Client>
    requires |got| == |ops|
  {
    if ops == [] then h
    else
      var n := |ops| - 1;
      After(AfterAll(h, ops[..n], got[..n]), ops[n], got[n])
  }

  /** What a call may answer: nothing if every item is held, otherwise the first free one in
      cyclic order. */
  ghost predicate Answer<Client>(h: Holding<Client>, op: Op<Client>, got: int) {
    if op.Get? then
      && h.size > 0 && (got == -1 <==> forall i: nat | i < h.size :: i in h.holder)
      && (got != -1 ==>
            && 0 <= got < h.size && got !in h.holder
            && exists d: nat | d < h.size :: Turn(op.random % h.size, d, h.size) == got
                 && forall c: nat | c < d :: Turn(op.random % h.size, c, h.size) in h.holder)
    else got == -1
  }

  /** Every call answers as the holders at that time demand. */
  ghost predicate AnswersFit<Client>(h: Holding<Client>, ops: seq<Op<Client>>, got: seq<int>) {
    |got| <= |ops| && forall i | 0 <= i < |got| :: Answer(AfterAll(h, ops[..i], got[..i]), ops[i], got[i])
  }

  method Perform<Client>(p: Pool<Client>, op: Op<Client>) returns (got: int)
    requires p.Valid() && Allowed([op], p.size)
    modifies p, p.avail
    ensures p.Valid() && (p.avail == old(p.avail) || fresh(p.avail))
    ensures Answer(Holding(old(p.size), old(p.holder)), op, got)
    ensures Holding(p.size, p.holder) == After(Holding(old(p.size), old(p.holder)), op, got)
  {
    got := -1;
    match op
    case Get(client, random) =>
      got := p.TryLocks(random, client);
    case Give(idx) =>
      var _ := p.Return(idx);
    case Enlarge(n) =>
      p.Grow(n);
  }

  lemma FitSnoc<Client>(h: Holding<Client>, ops: seq<Op<Client>>, got: seq<int>, g: int)
    requires AnswersFit(h, ops, got) && |got| < |ops|
    requires Answer(AfterAll(h, ops[..|got|], got), ops[|got|], g)
    ensures AnswersFit(h, ops, got + [g])
    ensures AfterAll(h, ops[..|got| + 1], got + [g]) == After(AfterAll(h, ops[..|got|], got), ops[|got|], g)
  {
    var n := |got|;
    forall i | 0 <= i < n + 1
      ensures Answer(AfterAll(h, ops[..i], (got + [g])[..i]), ops[i], (got + [g])[i])
    {
      assert (got + [g])[..i] == got[..i];
      if i == n { assert got[..n] == got; }
    }
    assert ops[..n + 1][..n] == ops[..n] && (got + [g])[..n] == got;
  }

  /** What the holders do in one call. */
  ghost predicate Moves<Client>(op: Op<Client>, got: int, was: map<nat, Client>, now: map<nat, Client>) {
    if got == -1 then now == if op.Give? then was - {op.idx} else was
    else op.Get? && got >= 0 && got !in was && now == was[got := op.client]
  }

  /** Whatever was handed out in the first `n` calls is still held or was given back, and
      nothing was handed out twice without being given back in between. */
  ghost predicate Accounted<Client>(holder: map<nat, Client>, ops: seq<Op<Client>>, got: seq<int>, n: nat) {
    && |got| == n <= |ops|
    && (forall i | 0 <= i < n && got[i] != -1 :: got[i] in holder || GivenBack(ops, i, n, got[i]))
    && (forall i, j | 0 <= i < j < n && got[i] == got[j] != -1 :: GivenBack(ops, i, j, got[i]))
  }

  lemma AccountStep<Client>(was: map<nat, Client>, now: map<nat, Client>, ops: seq<Op<Client>>, got: seq<int>,
                            n: nat, g: int)
    requires Accounted(was, ops, got, n) && n < |ops| && Moves(ops[n], g, was, now)
    ensures Accounted(now, ops, got + [g], n + 1)
  {
    forall i | 0 <= i < n && got[i] != -1 && got[i] !in now ensures GivenBack(ops, i, n + 1, got[i]) {
      if got[i] in was {
        assert ops[n].Give? && ops[n].idx == got[i];
      } else {
        var k :| i < k < n && ops[k].Give? && ops[k].idx == got[i];
      }
    }
  }

  /** In every interleaving the pool is the map of its holders: each call gets the first free
      item in cyclic order, and nothing only if all are held.  An item that was handed out is
      handed out again only after it was given back. */
  method Interleave<Client>(p: Pool<Client>, ops: seq<Op<Client>>) returns (got: seq<int>)
    requires p.Valid() && Allowed(ops, p.size)
    modifies p, p.avail
    ensures p.Valid() && |got| == |ops|
    ensures var h := Holding(old(p.size), old(p.holder));
            AnswersFit(h, ops, got) && Holding(p.size, p.holder) == AfterAll(h, ops, got)
    ensures forall i, j | 0 <= i < j < |ops| && got[i] == got[j] != -1 :: GivenBack(ops, i, j, got[i])
  {
    got := [];
    assert ops[0..] == ops;
    ghost var h := Holding(p.size, p.holder);
    for n := 0 to |ops|
      invariant p.Valid() && Allowed(ops[n..], p.size) && Accounted(p.holder, ops, got, n)
      invariant AnswersFit(h, ops, got) && Holding(p.size, p.holder) == AfterAll(h, ops[..n], got)
      invariant p.avail == old(p.avail) || fresh(p.avail)
    {
      assert ops[n..][0] == ops[n] && ops[n..][1..] == ops[n + 1..];
      ghost var was := p.holder;
      var g := Perform(p, ops[n]);
      AccountStep(was, p.holder, ops, got, n, g);
      FitSnoc(h, ops, got, g);
      got := got + [g];
    }
    assert ops[..|ops|] == ops;
  }
}
