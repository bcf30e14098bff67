/** The chained hash table that holds transactions and clones.

    Buckets are linked lists of entries; growing moves every entry to the front of
    its new bucket.  Keys may repeat: a new entry shadows older ones.
 */
module HashTable {
  import opened Options

  class Entry<V> {
    const k: nat
    const v: V
    const h: nat
    var next: Entry?<V>

    constructor (k: nat, v: V, h: nat, next: Entry?<V>)
      ensures this.k == k && this.v == v && this.h == h && this.next == next
    {
      this.k, this.v, this.h, this.next := k, v, h, next;
    }
  }

  // ----- buckets as sequences ---------------------------------------------------------

  type Chain<V> = seq<Entry<V>>

  function Reverse<T>(s: seq<T>): seq<T> {
    if s == [] then [] else Reverse(s[1..]) + [s[0]]
  }

  /** Values stored under `k` in a chain, newest first. */
  function ValuesIn<V>(c: Chain<V>, k: nat): seq<V> {
    if c == [] then []
    else if c[0].k == k then [c[0].v] + ValuesIn(c[1..], k) else ValuesIn(c[1..], k)
  }

  function Flat<V>(cs: seq<Chain<V>>): Chain<V> {
    if cs == [] then [] else cs[0] + Flat(cs[1..])
  }

  function Size<V>(cs: seq<Chain<V>>): nat {
    if cs == [] then 0 else |cs[0]| + Size(cs[1..])
  }

  ghost function Bag<V>(cs: seq<Chain<V>>): multiset<Entry<V>> {
    if cs == [] then multiset{} else multiset(cs[0]) + Bag(cs[1..])
  }

  ghost function Push<V>(cs: seq<Chain<V>>, e: Entry<V>): seq<Chain<V>>
    requires |cs| > 0
  {
    cs[e.h % |cs| := [e] + cs[e.h % |cs|]]
  }

  /** The new buckets after moving the entries of `c` one by one. */
  ghost function Spread<V>(c: Chain<V>, cs: seq<Chain<V>>): (r: seq<Chain<V>>)
    requires |cs| > 0
    ensures |r| == |cs|
    decreases |c|
  {
    if c == [] then cs else Spread(c[1..], Push(cs, c[0]))
  }

  ghost predicate Distinct<V>(c: Chain<V>) {
    forall i, j | 0 <= i < j < |c| :: c[i] != c[j]
  }

  ghost predicate Apart<V>(c: Chain<V>, cs: seq<Chain<V>>) {
    forall k, i, j | 0 <= k < |c| && 0 <= i < |cs| && 0 <= j < |cs[i]| :: c[k] != cs[i][j]
  }

  lemma ApartPush<V>(c: Chain<V>, cs: seq<Chain<V>>)
    requires |cs| > 0 && c != [] && Distinct(c) && Apart(c, cs)
    ensures Apart(c[1..], Push(cs, c[0]))
  {
  }

  /** Each entry is in the bucket that its hash selects. */
  ghost predicate Placed<V>(cs: seq<Chain<V>>, hash: nat -> nat) {
    && |cs| > 0
    && (forall i, j | 0 <= i < |cs| && 0 <= j < |cs[i]| :: cs[i][j].h == hash(cs[i][j].k) && cs[i][j].h % |cs| == i)
    && (forall i | 0 <= i < |cs| :: Distinct(cs[i]))
  }

  lemma {:induction false} ReverseAt<T>(s: seq<T>, i: nat)
    requires i < |s|
    ensures |Reverse(s)| == |s| && Reverse(s)[i] == s[|s| - 1 - i]
  {
    if |s| > 1 { ReverseAt(s[1..], if i < |s| - 1 then i else 0); }
  }

  lemma {:induction false} ReverseSmall<T>(s: seq<T>)
    requires |s| <= 1
    ensures Reverse(s) == s
  {
    if s != [] { assert s[1..] == []; }
  }

  lemma {:induction false} ReverseCons<T>(x: T, s: seq<T>)
    ensures Reverse([x] + s) == Reverse(s) + [x]
  {
    assert ([x] + s)[1..] == s;
  }

  lemma {:induction false} SizeUpdate<V>(cs: seq<Chain<V>>, i: nat, c: Chain<V>)
    requires i < |cs|
    ensures Size(cs[i := c]) == Size(cs) - |cs[i]| + |c|
  {
    if i == 0 {
      assert cs[0 := c][1..] == cs[1..];
    } else {
      assert cs[i := c][1..] == cs[1..][i - 1 := c];
      SizeUpdate(cs[1..], i - 1, c);
    }
  }

  lemma {:induction false} BagPrepend<V>(cs: seq<Chain<V>>, i: nat, e: Entry<V>)
    requires i < |cs|
    ensures Bag(cs[i := [e] + cs[i]]) == multiset{e} + Bag(cs)
  {
    if i == 0 {
      assert cs[0 := [e] + cs[0]][1..] == cs[1..];
      assert multiset([e] + cs[0]) == multiset{e} + multiset(cs[0]);
    } else {
      assert cs[i := [e] + cs[i]][1..] == cs[1..][i - 1 := [e] + cs[1..][i - 1]];
      BagPrepend(cs[1..], i - 1, e);
    }
  }

  lemma {:induction false} ValuesConcat<V>(a: Chain<V>, b: Chain<V>, k: nat)
    ensures ValuesIn(a + b, k) == ValuesIn(a, k) + ValuesIn(b, k)
  {
    if a == [] {
      assert a + b == b;
    } else {
      assert (a + b)[1..] == a[1..] + b;
      ValuesConcat(a[1..], b, k);
    }
  }

  lemma {:induction false} NoValues<V>(c: Chain<V>, k: nat)
    requires forall j | 0 <= j < |c| :: c[j].k != k
    ensures ValuesIn(c, k) == []
  {
    if c != [] { NoValues(c[1..], k); }
  }

  /** All entries of a key are in the bucket of its hash. */
  lemma {:induction false} ValuesInBucket<V>(cs: seq<Chain<V>>, k: nat, b: nat)
    requires b < |cs| && forall i, j | 0 <= i < |cs| && 0 <= j < |cs[i]| :: cs[i][j].k == k ==> i == b
    ensures ValuesIn(Flat(cs), k) == ValuesIn(cs[b], k)
  {
    ValuesConcat(cs[0], Flat(cs[1..]), k);
    if b == 0 {
      NoneElsewhere(cs[1..], k);
    } else {
      NoValues(cs[0], k);
      forall i, j | 0 <= i < |cs[1..]| && 0 <= j < |cs[1..][i]| && cs[1..][i][j].k == k ensures i == b - 1 {
        assert cs[i + 1][j].k == k;
      }
      ValuesInBucket(cs[1..], k, b - 1);
    }
  }

  lemma {:induction false} NoneElsewhere<V>(cs: seq<Chain<V>>, k: nat)
    requires forall i, j | 0 <= i < |cs| && 0 <= j < |cs[i]| :: cs[i][j].k != k
    ensures ValuesIn(Flat(cs), k) == []
  {
    if cs != [] {
      NoValues(cs[0], k);
      NoneElsewhere(cs[1..], k);
      ValuesConcat(cs[0], Flat(cs[1..]), k);
    }
  }

  /** Moving entries one by one reverses the order of every key's values. */
  lemma {:induction false} SpreadReverses<V>(c: Chain<V>, cs: seq<Chain<V>>, hash: nat -> nat, k: nat)
    requires |cs| > 0 && forall j | 0 <= j < |c| :: c[j].h == hash(c[j].k)
    ensures var b := hash(k) % |cs|;
      ValuesIn(Spread(c, cs)[b], k) == Reverse(ValuesIn(c, k)) + ValuesIn(cs[b], k)
    decreases |c|
  {
    if c != [] {
      var b, e := hash(k) % |cs|, c[0];
      var ds := Push(cs, e);
      SpreadReverses(c[1..], ds, hash, k);
      if e.h % |cs| == b {
        assert ds[b][1..] == cs[b];
      }
      if e.k == k {
        ReverseCons(e.v, ValuesIn(c[1..], k));
      }
    }
  }

  /** Moving entries neither loses nor duplicates any. */
  lemma {:induction false} SpreadKeepsEntries<V>(c: Chain<V>, cs: seq<Chain<V>>)
    requires |cs| > 0
    ensures Bag(Spread(c, cs)) == multiset(c) + Bag(cs)
    ensures Size(Spread(c, cs)) == |c| + Size(cs)
    decreases |c|
  {
    if c != [] {
      var b := c[0].h % |cs|;
      BagPrepend(cs, b, c[0]);
      SizeUpdate(cs, b, [c[0]] + cs[b]);
      SpreadKeepsEntries(c[1..], Push(cs, c[0]));
      assert c == [c[0]] + c[1..] && multiset(c) == multiset{c[0]} + multiset(c[1..]);
    }
  }

  lemma {:induction false} FlatKeepsEntries<V>(cs: seq<Chain<V>>)
    ensures multiset(Flat(cs)) == Bag(cs) && |Flat(cs)| == Size(cs)
  {
    if cs != [] { FlatKeepsEntries(cs[1..]); }
  }

  lemma {:induction false} SpreadConcat<V>(a: Chain<V>, b: Chain<V>, cs: seq<Chain<V>>)
    requires |cs| > 0
    ensures Spread(a + b, cs) == Spread(b, Spread(a, cs))
    decreases |a|
  {
    if a == [] {
      assert a + b == b;
    } else {
      assert (a + b)[1..] == a[1..] + b;
      SpreadConcat(a[1..], b, Push(cs, a[0]));
    }
  }

  lemma {:induction false} EntriesInBag<V>(cs: seq<Chain<V>>, e: Entry<V>)
    ensures e in EntriesOf(cs) <==> e in Bag(cs)
  {
    if cs != [] {
      EntriesInBag(cs[1..], e);
      if e in EntriesOf(cs) {
        var i, j :| 0 <= i < |cs| && 0 <= j < |cs[i]| && cs[i][j] == e;
        if i > 0 { assert cs[1..][i - 1][j] == e; }
      }
      if e in EntriesOf(cs[1..]) {
        var i, j :| 0 <= i < |cs[1..]| && 0 <= j < |cs[1..][i]| && cs[1..][i][j] == e;
        assert cs[i + 1][j] == e;
      }
      if e in cs[0] {
        var j :| 0 <= j < |cs[0]| && cs[0][j] == e;
        assert cs[0][j] in EntriesOf(cs);
      }
    }
  }

  lemma SameEntries<V>(cs: seq<Chain<V>>, ds: seq<Chain<V>>)
    requires Bag(cs) == Bag(ds)
    ensures EntriesOf(cs) == EntriesOf(ds)
  {
    forall e ensures e in EntriesOf(cs) <==> e in EntriesOf(ds) {
      EntriesInBag(cs, e);
      EntriesInBag(ds, e);
    }
  }

  lemma {:induction false} FlatSnoc<V>(cs: seq<Chain<V>>, i: nat)
    requires i < |cs|
    ensures Flat(cs[..i + 1]) == Flat(cs[..i]) + cs[i]
  {
    if i == 0 {
      assert cs[..1] == [cs[0]] && cs[..1][1..] == [];
    } else {
      assert cs[..i + 1][1..] == cs[1..][..i] && cs[..i][1..] == cs[1..][..i - 1];
      FlatSnoc(cs[1..], i - 1);
    }
  }

  // ----- linked lists in the heap ---------------------------------------------------------

  /** The entry at position `j`, null at the end of the chain. */
  function At<V>(c: Chain<V>, j: nat): Entry?<V> {
    if j < |c| then c[j] else null
  }

  ghost predicate Linked<V>(head: Entry?<V>, c: Chain<V>)
    reads c
  {
    head == At(c, 0) && forall j {:trigger c[j].next} | 0 <= j < |c| :: c[j].next == At(c, j + 1)
  }

  ghost function EntriesOf<V>(cs: seq<Chain<V>>): set<Entry<V>> {
    set i, j | 0 <= i < |cs| && 0 <= j < |cs[i]| :: cs[i][j]
  }

  /** Every bucket of the array is the linked list of its chain. */
  ghost predicate Buckets<V>(a: array<Entry?<V>>, cs: seq<Chain<V>>)
    reads a, set i, j | 0 <= i < |cs| && 0 <= j < |cs[i]| :: cs[i][j]
  {
    a.Length == |cs| && forall i | 0 <= i < |cs| :: Linked(a[i], cs[i])
  }

  /** Put a new entry in front of its bucket of `a`. */
  method Link<V>(a: array<Entry?<V>>, k: nat, v: V, h: nat, ghost cs: seq<Chain<V>>) returns (e: Entry<V>)
    requires a.Length > 0 && Buckets(a, cs)
    modifies a
    ensures fresh(e) && e.k == k && e.v == v && e.h == h
    ensures Buckets(a, Push(cs, e)) && Apart([e], cs)
  {
    var index := h % a.Length;
    e := new Entry(k, v, h, a[index]);
    ghost var d := [e] + cs[index];
    forall j | 0 <= j < |d| ensures d[j].next == At(d, j + 1) {
      if j > 0 { assert d[j] == cs[index][j - 1] && d[j].next == At(cs[index], j); }
    }
    a[index] := e;
    assert forall j | 0 <= j < |cs| && j != index :: Linked(a[j], cs[j]);
  }

  /** Chain `c` without its entry `j`. */
  function Cut<V>(c: Chain<V>, j: nat): Chain<V>
    requires j < |c|
  {
    c[..j] + c[j + 1..]
  }

  /** Take entry `j` out of bucket `index`; `prev` is the entry before it. */
  method Unlink<V>(a: array<Entry?<V>>, index: nat, prev: Entry?<V>, e: Entry<V>, ghost cs: seq<Chain<V>>, ghost j: nat)
    requires Buckets(a, cs) && index < a.Length && j < |cs[index]| && e == cs[index][j] && Distinct(cs[index])
    requires prev == if j == 0 then null else cs[index][j - 1]
    requires forall i, q | 0 <= i < |cs| && i != index && 0 <= q < |cs[i]| :: cs[i][q] != prev
    modifies a, if prev == null then {} else {prev}
    ensures Buckets(a, cs[index := Cut(cs[index], j)])
  {
    ghost var c, d := cs[index], Cut(cs[index], j);
    if prev == null {
      a[index] := e.next;
    } else {
      prev.next := e.next;
    }
    forall i | 0 <= i < |d| ensures d[i].next == At(d, i + 1) {
      assert d[i] == c[if i < j then i else i + 1];
    }
  }

  /** Move the first entry of bucket `i` of `a` to its bucket of `b`. */
  method MoveHead<V>(a: array<Entry?<V>>, i: nat, b: array<Entry?<V>>, ghost c: Chain<V>, ghost cs: seq<Chain<V>>)
    requires a != b && i < a.Length && b.Length > 0
    requires c != [] && Linked(a[i], c) && Distinct(c)
    requires Buckets(b, cs) && Apart(c, cs)
    modifies a, b, c[0]
    ensures Linked(a[i], c[1..]) && forall j | 0 <= j < a.Length && j != i :: a[j] == old(a[j])
    ensures Buckets(b, Push(cs, c[0]))
  {
    var e := a[i];
    assert e == c[0] && e.next == At(c, 1);
    ghost var rest := c[1..];
    assert forall j | 0 <= j < |rest| :: rest[j] == c[j + 1] && rest[j] != e && rest[j].next == At(rest, j + 1);
    a[i] := e.next;
    var index := e.h % b.Length;
    e.next := b[index];
    b[index] := e;
    assert Linked(a[i], rest);
    ghost var d := [e] + cs[index];
    forall j | 0 <= j < |d| ensures d[j].next == At(d, j + 1) {
      if j > 0 { assert d[j] == cs[index][j - 1] != c[0]; }
    }
    assert forall j | 0 <= j < |cs| && j != index :: Linked(b[j], cs[j]);
  }

  /** Empty bucket `i` of `a` into `b`. */
  method Drain<V>(a: array<Entry?<V>>, i: nat, b: array<Entry?<V>>, ghost c: Chain<V>, ghost cs: seq<Chain<V>>)
    requires a != b && i < a.Length && b.Length > 0
    requires Linked(a[i], c) && Distinct(c)
    requires Buckets(b, cs) && Apart(c, cs)
    modifies a, b, c
    ensures a[i] == null && forall j | 0 <= j < a.Length && j != i :: a[j] == old(a[j])
    ensures Buckets(b, Spread(c, cs))
  {
    ghost var rest, ds := c, cs;
    while a[i] != null
      invariant |ds| == |cs| && Linked(a[i], rest) && Buckets(b, ds)
      invariant Distinct(rest) && Apart(rest, ds)
      invariant forall k | 0 <= k < |rest| :: rest[k] in c
      invariant forall j | 0 <= j < a.Length && j != i :: a[j] == old(a[j])
      invariant Spread(rest, ds) == Spread(c, cs)
      decreases |rest|
    {
      ApartPush(rest, ds);
      MoveHead(a, i, b, rest, ds);
      rest, ds := rest[1..], Push(ds, rest[0]);
    }
  }

  lemma {:induction false} SpreadPlaced<V>(c: Chain<V>, cs: seq<Chain<V>>, hash: nat -> nat)
    requires Placed(cs, hash) && Distinct(c) && Apart(c, cs)
    requires forall j | 0 <= j < |c| :: c[j].h == hash(c[j].k)
    ensures Placed(Spread(c, cs), hash)
    decreases |c|
  {
    if c != [] {
      ApartPush(c, cs);
      SpreadPlaced(c[1..], Push(cs, c[0]), hash);
    }
  }

  lemma PushPlaced<V>(e: Entry<V>, cs: seq<Chain<V>>, hash: nat -> nat)
    requires Placed(cs, hash) && Apart([e], cs) && e.h == hash(e.k)
    ensures Placed(Push(cs, e), hash)
  {
    assert Spread([e], cs) == Push(cs, e) by { assert [e][1..] == []; }
    SpreadPlaced([e], cs, hash);
  }

  lemma PushEntries<V>(e: Entry<V>, cs: seq<Chain<V>>)
    requires |cs| > 0
    ensures EntriesOf(Push(cs, e)) == EntriesOf(cs) + {e}
  {
    var ds, b := Push(cs, e), e.h % |cs|;
    BagPrepend(cs, b, e);
    forall x ensures x in EntriesOf(ds) <==> x in EntriesOf(cs) + {e} {
      EntriesInBag(ds, x);
      EntriesInBag(cs, x);
    }
  }

  lemma PushValues<V>(e: Entry<V>, cs: seq<Chain<V>>, hash: nat -> nat, l: nat)
    requires |cs| > 0 && e.h == hash(e.k)
    ensures var b := hash(l) % |cs|;
      ValuesIn(Push(cs, e)[b], l) == (if l == e.k then [e.v] else []) + ValuesIn(cs[b], l)
  {
    var b := hash(l) % |cs|;
    if e.h % |cs| == b { assert Push(cs, e)[b][1..] == cs[b]; }
  }

  /** All entries were in buckets below `i` when there were `n` buckets. */
  ghost predicate FromBelow<V>(cs: seq<Chain<V>>, n: nat, i: nat)
    requires n > 0
  {
    forall p, q | 0 <= p < |cs| && 0 <= q < |cs[p]| :: cs[p][q].h % n < i
  }

  lemma {:induction false} SpreadFromBelow<V>(c: Chain<V>, cs: seq<Chain<V>>, n: nat, i: nat)
    requires n > 0 && |cs| > 0 && FromBelow(cs, n, i) && forall j | 0 <= j < |c| :: c[j].h % n < i
    ensures FromBelow(Spread(c, cs), n, i)
    decreases |c|
  {
    if c != [] { SpreadFromBelow(c[1..], Push(cs, c[0]), n, i); }
  }

  ghost function Empty<V>(n: nat): seq<Chain<V>> {
    seq(n, _ => [])
  }

  /** Move all entries of `a` to `b`, bucket by bucket. */
  method MoveAll<V>(a: array<Entry?<V>>, b: array<Entry?<V>>, ghost cs: seq<Chain<V>>, ghost hash: nat -> nat)
    requires a != b && b.Length > 0 && forall j | 0 <= j < b.Length :: b[j] == null
    requires Buckets(a, cs) && Placed(cs, hash)
    modifies a, b, EntriesOf(cs)
    ensures Buckets(b, Spread(Flat(cs), Empty(b.Length))) && Placed(Spread(Flat(cs), Empty(b.Length)), hash)
  {
    ghost var n, none := a.Length, Empty<V>(b.Length);
    ghost var ds := none;
    assert cs[..0] == [];
    for i := 0 to a.Length
      invariant ds == Spread(Flat(cs[..i]), none)
      invariant Buckets(b, ds) && Placed(ds, hash) && FromBelow(ds, n, i)
      invariant forall j | i <= j < n :: Linked(a[j], cs[j])
    {
      ghost var c := cs[i];
      assert Distinct(c) && forall k | 0 <= k < |c| :: c[k].h == hash(c[k].k) && c[k].h % n == i;
      SpreadPlaced(c, ds, hash);
      SpreadFromBelow(c, ds, n, i + 1);
      label Before:
      Drain(a, i, b, c, ds);
      forall j | i + 1 <= j < n ensures Linked(a[j], cs[j]) {
        assert forall k | 0 <= k < |cs[j]| :: cs[j][k].h % n == j && cs[j][k] !in c;
      }
      FlatSnoc(cs, i);
      SpreadConcat(Flat(cs[..i]), c, none);
      ds := Spread(c, ds);
    }
    assert cs[..n] == cs;
  }

  // ----- lookups in one chain --------------------------------------------------------------

  lemma {:induction false} SkipOthers<V>(c: Chain<V>, j: nat, k: nat)
    requires j <= |c| && forall i | 0 <= i < j :: c[i].k != k
    ensures ValuesIn(c, k) == ValuesIn(c[j..], k)
  {
    if j > 0 {
      assert c[1..][j - 1..] == c[j..];
      SkipOthers(c[1..], j - 1, k);
    } else {
      assert c[0..] == c;
    }
  }

  /** Taking out the first entry of a key takes out its first value and no other. */
  lemma WithoutFirst<V>(c: Chain<V>, j: nat, k: nat, l: nat)
    requires j < |c| && c[j].k == k && forall i | 0 <= i < j :: c[i].k != k
    ensures ValuesIn(c, k) == [c[j].v] + ValuesIn(Cut(c, j), k)
    ensures l != k ==> ValuesIn(Cut(c, j), l) == ValuesIn(c, l)
  {
    SkipOthers(c, j, k);
    NoValues(c[..j], k);
    ValuesConcat(c[..j], c[j + 1..], k);
    ValuesConcat(c[..j], c[j + 1..], l);
    assert c == c[..j] + c[j..] && c[j..][1..] == c[j + 1..];
    ValuesConcat(c[..j], c[j..], l);
  }

  // ----- the table ------------------------------------------------------------------------

  const PRIMES: seq<nat> := [
    53, 97, 193, 389, 769, 1543, 3079, 6151, 12289, 24593, 49157, 98317, 196613, 393241, 786433,
    1572869, 3145739, 6291469, 12582917, 25165843, 50331653, 100663319, 201326611, 402653189,
    805306457, 1610612741]

  const PRIME_COUNT: nat := 26

  function Prime(i: nat): (p: nat)
    requires i < PRIME_COUNT
    ensures p > 0
  {
    PRIMES[i]
  }

  /** `ceil(size * 0.65)` */
  function LoadLimit(size: nat): (limit: nat)
    ensures 100 * (limit - 1) < 65 * size <= 100 * limit
  {
    (size * 65 + 99) / 100
  }

  /** Each size of the table is about twice the one before it. */
  lemma PrimesDouble(i: nat)
    requires i + 1 < PRIME_COUNT
    ensures 18 * Prime(i) <= 10 * Prime(i + 1) <= 21 * Prime(i)
  {
  }

  function ValuesAt<V>(cs: seq<Chain<V>>, hash: nat -> nat, k: nat): seq<V> {
    if |cs| > 0 then ValuesIn(cs[hash(k) % |cs|], k) else []
  }

  /** Without its last entry the table is less than 65 percent full, or it cannot grow. */
  predicate HasRoom(count: nat, size: nat, index: nat) {
    100 * (count - 1) < 65 * size || index == PRIME_COUNT - 1
  }

  lemma FewerHaveRoom(count: nat, fewer: nat, size: nat, index: nat)
    requires HasRoom(count, size, index) && fewer <= count
    ensures HasRoom(fewer, size, index)
  {
  }

  class Table<V> {
    const hash: nat -> nat
    var table: array<Entry?<V>>
    var entrycount: nat
    var loadlimit: nat
    var primeindex: nat
    ghost var chains: seq<Chain<V>>

    ghost predicate Shape()
      reads this, table, EntriesOf(chains)
    {
      Buckets(table, chains) && Placed(chains, hash) && loadlimit == LoadLimit(|chains|)
    }

    /** The length of the table is the prime at `primeindex`. */
    ghost predicate OnPrime()
      reads this
    {
      primeindex < PRIME_COUNT && |chains| == Prime(primeindex)
    }

    ghost predicate Valid()
      reads this, table, EntriesOf(chains)
    {
      Shape() && OnPrime() && entrycount == Size(chains)
    }

    /** All values stored under `k`, the one a search returns first. */
    ghost function Values(k: nat): seq<V>
      reads this
    {
      ValuesAt(chains, hash, k)
    }

    constructor Sized(hash: nat -> nat, pindex: nat)
      requires pindex < PRIME_COUNT
      ensures Valid() && fresh(table) && entrycount == 0 && primeindex == pindex && this.hash == hash
      ensures forall k :: Values(k) == []
    {
      var size := Prime(pindex);
      this.hash := hash;
      var t := new Entry?<V>[size](_ => null);
      table, entrycount, loadlimit, primeindex := t, 0, LoadLimit(size), pindex;
      chains := Empty(size);
      new;
      SizeEmpty<V>(size);
    }

    /** Replace the bucket array by one of another size. */
    method Rehash(newsize: nat)
      requires Shape() && newsize > 0
      modifies this`table, this`loadlimit, this`chains, table, EntriesOf(chains)
      ensures Shape() && fresh(table) && |chains| == newsize
      ensures Bag(chains) == old(Bag(chains)) && Size(chains) == old(Size(chains))
      ensures forall k :: Values(k) == Reverse(old(Values(k)))
    {
      ghost var after := Expanded(chains, newsize, hash);
      var newtable := new Entry?<V>[newsize](_ => null);
      MoveAll(table, newtable, chains, hash);
      Install(newtable, after);
    }

    method Install(newtable: array<Entry?<V>>, ghost after: seq<Chain<V>>)
      requires Buckets(newtable, after) && Placed(after, hash) && newtable.Length == |after|
      modifies this`table, this`loadlimit, this`chains
      ensures Shape() && table == newtable && chains == after
    {
      table, chains, loadlimit := newtable, after, LoadLimit(newtable.Length);
    }

    /** Go to the next prime, unless the table already has the largest size. */
    method Expand() returns (done: bool)
      requires Shape() && OnPrime()
      modifies this`table, this`loadlimit, this`primeindex, this`chains, table, EntriesOf(chains)
      ensures Shape() && OnPrime() && done == (old(primeindex) + 1 < PRIME_COUNT)
      ensures if done then fresh(table) && primeindex == old(primeindex) + 1
              else table == old(table) && chains == old(chains) && primeindex == old(primeindex)
      ensures Bag(chains) == old(Bag(chains)) && Size(chains) == old(Size(chains))
      ensures forall k :: Values(k) == if done then Reverse(old(Values(k))) else old(Values(k))
    {
      if primeindex == PRIME_COUNT - 1 {
        return false;
      }
      var newsize := NextPrime();
      Rehash(newsize);
      done := true;
    }

    method NextPrime() returns (newsize: nat)
      requires primeindex + 1 < PRIME_COUNT
      modifies this`primeindex
      ensures primeindex == old(primeindex) + 1 && newsize == Prime(primeindex)
    {
      primeindex := primeindex + 1;
      newsize := Prime(primeindex);
    }

    /** Put a new entry in front of its bucket. */
    method Prepend(k: nat, v: V)
      requires Shape()
      modifies this`chains, table
      ensures Shape() && |chains| == old(|chains|) && Size(chains) == old(Size(chains)) + 1
      ensures forall l :: Values(l) == (if l == k then [v] else []) + old(Values(l))
      ensures forall e | e in EntriesOf(chains) :: e in old(EntriesOf(chains)) || fresh(e)
    {
      var e := Link(table, k, v, hash(k), chains);
      SizeUpdate(chains, e.h % |chains|, [e] + chains[e.h % |chains|]);
      forall l ensures ValuesIn(Push(chains, e)[hash(l) % |chains|], l) == (if l == k then [v] else []) + Values(l) {
        PushValues(e, chains, hash, l);
      }
      PushPlaced(e, chains, hash);
      PushEntries(e, chains);
      chains := Push(chains, e);
    }

    /** The next insertion grows the table: it is full to 65 percent and not at its last size. */
    ghost predicate MustGrow()
      reads this
    {
      100 * entrycount >= 65 * |chains| && primeindex + 1 < PRIME_COUNT
    }

    ghost predicate Roomy()
      reads this
    {
      HasRoom(entrycount, |chains|, primeindex)
    }

    method Reserve()
      requires Valid()
      modifies this, table, EntriesOf(chains)
      ensures Shape() && OnPrime() && entrycount == old(entrycount) + 1 == Size(chains) + 1
      ensures if old(MustGrow()) then fresh(table) else table == old(table)
      ensures primeindex == old(primeindex) + if old(MustGrow()) then 1 else 0
      ensures forall l :: Values(l) == if old(MustGrow()) then Reverse(old(Values(l))) else old(Values(l))
      ensures EntriesOf(chains) == old(EntriesOf(chains))
    {
      CountUp();
      if entrycount > loadlimit {
        ghost var before := chains;
        var done := Expand();
        SameEntries(chains, before);
      }
    }

    method CountUp()
      requires Shape()
      modifies this`entrycount
      ensures Shape() && entrycount == old(entrycount) + 1
    {
      entrycount := entrycount + 1;
    }

    /** Keys may repeat: the new value shadows the older ones.  An insertion that
        overfills the table first moves all entries to a larger one. */
    method Insert(k: nat, v: V)
      requires Valid()
      modifies this, table, EntriesOf(chains)
      ensures Valid() && entrycount == old(entrycount) + 1
      ensures primeindex == old(primeindex) + if old(MustGrow()) then 1 else 0
      ensures old(Roomy()) ==> Roomy()
      ensures forall l :: Values(l) == (if l == k then [v] else [])
                                       + if old(MustGrow()) then Reverse(old(Values(l))) else old(Values(l))
      ensures table == old(table) || fresh(table)
      ensures forall e | e in EntriesOf(chains) :: e in old(EntriesOf(chains)) || fresh(e)
    {
      if primeindex + 1 < PRIME_COUNT { PrimesDouble(primeindex); }
      Reserve();
      Prepend(k, v);
    }

    method Search(k: nat) returns (r: Option<V>)
      requires Valid()
      ensures r == if Values(k) == [] then None else Some(Values(k)[0])
    {
      var h := hash(k);
      var index := h % table.Length;
      var e := table[index];
      ghost var c, j := chains[index], 0;
      while e != null
        invariant 0 <= j <= |c| && e == At(c, j)
        invariant forall i | 0 <= i < j :: c[i].k != k
        decreases |c| - j
      {
        if h == e.h && k == e.k {
          SkipOthers(c, j, k);
          return Some(e.v);
        }
        e := e.next;
        j := j + 1;
      }
      NoValues(c, k);
      return None;
    }

    /** Takes out the newest entry of `k`, if there is one. */
    method Remove(k: nat) returns (r: Option<V>)
      requires Valid()
      modifies this`entrycount, this`chains, table, EntriesOf(chains)
      ensures Valid() && r == if old(Values(k)) == [] then None else Some(old(Values(k))[0])
      ensures entrycount == old(entrycount) - (if r == None then 0 else 1) && |chains| == old(|chains|)
      ensures forall l :: Values(l) == if l == k && r != None then old(Values(l))[1..] else old(Values(l))
      ensures EntriesOf(chains) <= old(EntriesOf(chains))
    {
      var h := hash(k);
      var index := h % table.Length;
      var prev: Entry?<V> := null;
      var e := table[index];
      ghost var c, j := chains[index], 0;
      while e != null
        invariant 0 <= j <= |c| && e == At(c, j) && prev == if j == 0 then null else c[j - 1]
        invariant forall i | 0 <= i < j :: c[i].k != k
        decreases |c| - j
      {
        if h == e.h && k == e.k {
          TakeOut(k, index, prev, e, j);
          return Some(e.v);
        }
        prev := e;
        e := e.next;
        j := j + 1;
      }
      NoValues(c, k);
      return None;
    }

    method Detach(index: nat, prev: Entry?<V>, e: Entry<V>, ghost j: nat)
      requires Shape() && index < |chains| && j < |chains[index]| && e == chains[index][j]
      requires prev == if j == 0 then null else chains[index][j - 1]
      modifies table, EntriesOf(chains)
      ensures Buckets(table, chains[index := Cut(chains[index], j)])
    {
      if prev != null { assert prev in EntriesOf(chains) && prev.h % |chains| == index; }
      Unlink(table, index, prev, e, chains, j);
    }

    method TakeOut(k: nat, index: nat, prev: Entry?<V>, e: Entry<V>, ghost j: nat)
      requires Valid() && index == hash(k) % |chains|
      requires j < |chains[index]| && e == chains[index][j] && e.k == k
      requires prev == if j == 0 then null else chains[index][j - 1]
      requires forall i | 0 <= i < j :: chains[index][i].k != k
      modifies this`entrycount, this`chains, table, EntriesOf(chains)
      ensures Valid() && entrycount == old(entrycount) - 1
      ensures old(Values(k)) == [e.v] + Values(k) && forall l | l != k :: Values(l) == old(Values(l))
      ensures EntriesOf(chains) <= old(EntriesOf(chains))
    {
      ghost var cs := chains;
      CutFacts(cs, index, j, hash);
      CutValues(cs, index, j, hash, k);
      Detach(index, prev, e, j);
      chains, entrycount := cs[index := Cut(cs[index], j)], entrycount - 1;
    }
  }

  lemma CutValues<V>(cs: seq<Chain<V>>, b: nat, j: nat, hash: nat -> nat, k: nat)
    requires |cs| > 0 && b == hash(k) % |cs| && j < |cs[b]| && cs[b][j].k == k
    requires forall i | 0 <= i < j :: cs[b][i].k != k
    ensures var ds := cs[b := Cut(cs[b], j)];
      && ValuesAt(cs, hash, k) == [cs[b][j].v] + ValuesAt(ds, hash, k)
      && forall l | l != k :: ValuesAt(ds, hash, l) == ValuesAt(cs, hash, l)
  {
    WithoutFirst(cs[b], j, k, k);
    forall l | l != k ensures ValuesIn(Cut(cs[b], j), l) == ValuesIn(cs[b], l) {
      WithoutFirst(cs[b], j, k, l);
    }
  }

  lemma CutFacts<V>(cs: seq<Chain<V>>, b: nat, j: nat, hash: nat -> nat)
    requires Placed(cs, hash) && b < |cs| && j < |cs[b]|
    ensures var ds := cs[b := Cut(cs[b], j)];
      Placed(ds, hash) && EntriesOf(ds) <= EntriesOf(cs) && Size(ds) == Size(cs) - 1
    ensures Size(cs) >= 1
  {
    var d := Cut(cs[b], j);
    assert forall i | 0 <= i < |d| :: d[i] == cs[b][if i < j then i else i + 1];
    SizeUpdate(cs, b, d);
  }

  lemma {:induction false} SizeEmpty<V>(n: nat)
    ensures Size(Empty<V>(n)) == 0 && Bag(Empty<V>(n)) == multiset{}
  {
    if n > 0 {
      assert Empty<V>(n)[1..] == Empty<V>(n - 1);
      SizeEmpty<V>(n - 1);
    }
  }

  lemma ExpandEntries<V>(cs: seq<Chain<V>>, n: nat)
    requires n > 0
    ensures Bag(Spread(Flat(cs), Empty(n))) == Bag(cs) && Size(Spread(Flat(cs), Empty(n))) == Size(cs)
  {
    SpreadKeepsEntries(Flat(cs), Empty(n));
    FlatKeepsEntries(cs);
    SizeEmpty<V>(n);
  }

  lemma {:induction false} FlatHashed<V>(cs: seq<Chain<V>>, hash: nat -> nat)
    requires forall i, j | 0 <= i < |cs| && 0 <= j < |cs[i]| :: cs[i][j].h == hash(cs[i][j].k)
    ensures forall j | 0 <= j < |Flat(cs)| :: Flat(cs)[j].h == hash(Flat(cs)[j].k)
  {
    if cs != [] { FlatHashed(cs[1..], hash); }
  }

  /** Growing the table reverses the order of the values of every key. */
  lemma ExpandReverses<V>(cs: seq<Chain<V>>, n: nat, hash: nat -> nat, k: nat)
    requires n > 0 && Placed(cs, hash)
    ensures ValuesIn(Spread(Flat(cs), Empty(n))[hash(k) % n], k) == Reverse(ValuesIn(cs[hash(k) % |cs|], k))
  {
    FlatHashed(cs, hash);
    SpreadReverses(Flat(cs), Empty(n), hash, k);
    ValuesInBucket(cs, k, hash(k) % |cs|);
  }

  lemma Expanded<V>(cs: seq<Chain<V>>, n: nat, hash: nat -> nat) returns (ds: seq<Chain<V>>)
    requires n > 0 && Placed(cs, hash)
    ensures ds == Spread(Flat(cs), Empty(n)) && |ds| == n && Bag(ds) == Bag(cs) && Size(ds) == Size(cs)
    ensures forall k :: ValuesAt(ds, hash, k) == Reverse(ValuesAt(cs, hash, k))
  {
    ds := Spread(Flat(cs), Empty(n));
    ExpandEntries(cs, n);
    forall k ensures ValuesAt(ds, hash, k) == Reverse(ValuesAt(cs, hash, k)) {
      ExpandReverses(cs, n, hash, k);
    }
  }

  /** The table of the least prime size above `minsize`, null if that is too large. */
  method Create<V>(hash: nat -> nat, minsize: nat) returns (h: Table?<V>)
    ensures h == null <==> minsize > 0x4000_0000
    ensures h != null ==>
      && fresh(h) && fresh(h.table) && h.Valid() && h.hash == hash && h.entrycount == 0 && h.Roomy()
      && (forall k :: h.Values(k) == [])
      && minsize < |h.chains| && forall i | 0 <= i < h.primeindex :: PRIMES[i] <= minsize
  {
    if minsize > 0x4000_0000 {
      return null;
    }
    var pindex := 0;
    while pindex < PRIME_COUNT && Prime(pindex) <= minsize
      invariant pindex <= PRIME_COUNT
      invariant forall i | 0 <= i < pindex :: PRIMES[i] <= minsize
    {
      pindex := pindex + 1;
    }
    assert PRIMES[25] > minsize;
    h := new Table.Sized(hash, pindex);
  }

  /** A search straight after an insertion finds the value just inserted, even if the
      insertion grew the table and turned the order of the older values around. */
  method InsertThenSearch<V>(h: Table<V>, k: nat, v: V) returns (r: Option<V>)
    requires h.Valid()
    modifies h, h.table, EntriesOf(h.chains)
    ensures h.Valid() && r == Some(v)
  {
    h.Insert(k, v);
    r := h.Search(k);
  }

  // ----- runs with unique keys: the table is a finite map -------------------------------------

  datatype Op<V> = InsertOp(k: nat, v: V) | SearchOp(k: nat) | RemoveOp(k: nat)

  function MapAfter<V>(m: map<nat, V>, op: Op<V>): map<nat, V> {
    match op
    case InsertOp(k, v) => m[k := v]
    case SearchOp(_) => m
    case RemoveOp(k) => m - {k}
  }

  function Answer<V>(m: map<nat, V>, op: Op<V>): Option<V> {
    if op.InsertOp? || op.k !in m then None else Some(m[op.k])
  }

  function MapAfterAll<V>(m: map<nat, V>, ops: seq<Op<V>>): map<nat, V>
    decreases |ops|
  {
    if ops == [] then m else MapAfterAll(MapAfter(m, ops[0]), ops[1..])
  }

  function Answers<V>(m: map<nat, V>, ops: seq<Op<V>>): seq<Option<V>>
    decreases |ops|
  {
    if ops == [] then [] else [Answer(m, ops[0])] + Answers(MapAfter(m, ops[0]), ops[1..])
  }

  /** No operation inserts a key that is present. */
  predicate UniqueKeys<V>(m: map<nat, V>, ops: seq<Op<V>>)
    decreases |ops|
  {
    ops == [] || ((ops[0].InsertOp? ==> ops[0].k !in m) && UniqueKeys(MapAfter(m, ops[0]), ops[1..]))
  }

  ghost predicate Unique<V>(cs: seq<Chain<V>>, hash: nat -> nat, m: map<nat, V>) {
    forall k: nat :: ValuesAt(cs, hash, k) == if k in m then [m[k]] else []
  }

  ghost predicate Represents<V>(h: Table<V>, m: map<nat, V>)
    reads h
  {
    h.entrycount == |m| && Unique(h.chains, h.hash, m)
  }

  method InsertUnique<V>(h: Table<V>, k: nat, v: V, ghost m: map<nat, V>)
    requires h.Valid() && Represents(h, m) && k !in m
    modifies h, h.table, EntriesOf(h.chains)
    ensures h.Valid() && Represents(h, m[k := v]) && (old(h.Roomy()) ==> h.Roomy())
    ensures h.table == old(h.table) || fresh(h.table)
    ensures forall e | e in EntriesOf(h.chains) :: e in old(EntriesOf(h.chains)) || fresh(e)
  {
    ghost var before, grown := h.chains, h.MustGrow();
    h.Insert(k, v);
    assert forall l: nat :: h.Values(l) == ValuesAt(h.chains, h.hash, l);
    InsertedUnique(before, h.chains, h.hash, k, v, grown, m);
  }

  lemma InsertedUnique<V>(cs: seq<Chain<V>>, ds: seq<Chain<V>>, hash: nat -> nat, k: nat, v: V, grown: bool,
                          m: map<nat, V>)
    requires Unique(cs, hash, m) && k !in m
    requires forall l: nat :: ValuesAt(ds, hash, l)
               == (if l == k then [v] else [])
                  + if grown then Reverse(ValuesAt(cs, hash, l)) else ValuesAt(cs, hash, l)
    ensures Unique(ds, hash, m[k := v])
  {
    forall l: nat ensures ValuesAt(ds, hash, l) == if l in m[k := v] then [m[k := v][l]] else [] {
      ReverseSmall(ValuesAt(cs, hash, l));
    }
  }

  /** The newest value of `k` is gone, the others are as before. */
  ghost predicate Without<V>(cs: seq<Chain<V>>, ds: seq<Chain<V>>, hash: nat -> nat, k: nat) {
    forall l: nat :: ValuesAt(ds, hash, l)
      == if l == k && ValuesAt(cs, hash, k) != [] then ValuesAt(cs, hash, l)[1..] else ValuesAt(cs, hash, l)
  }

  lemma RemovedUnique<V>(cs: seq<Chain<V>>, ds: seq<Chain<V>>, hash: nat -> nat, k: nat, m: map<nat, V>)
    requires Unique(cs, hash, m) && Without(cs, ds, hash, k)
    ensures Unique(ds, hash, m - {k})
  {
  }

  method RemoveUnique<V>(h: Table<V>, k: nat, ghost m: map<nat, V>) returns (r: Option<V>)
    requires h.Valid() && Represents(h, m)
    modifies h, h.table, EntriesOf(h.chains)
    ensures h.Valid() && Represents(h, m - {k}) && r == if k in m then Some(m[k]) else None
    ensures h.table == old(h.table) && EntriesOf(h.chains) <= old(EntriesOf(h.chains))
    ensures |h.chains| == old(|h.chains|) && h.primeindex == old(h.primeindex) && h.entrycount <= old(h.entrycount)
  {
    ghost var before := h.chains;
    assert h.Values(k) == if k in m then [m[k]] else [];
    r := h.Remove(k);
    assert Without(before, h.chains, h.hash, k) by {
      assert forall l: nat :: h.Values(l) == ValuesAt(h.chains, h.hash, l);
    }
    RemovedUnique(before, h.chains, h.hash, k, m);
    RemovedSize(m, k);
  }

  lemma RemovedSize<V>(m: map<nat, V>, k: nat)
    ensures |m - {k}| == |m| - if k in m then 1 else 0
  {
    assert (m - {k}).Keys == m.Keys - {k};
    if k !in m { assert m - {k} == m; }
  }

  method Perform<V>(h: Table<V>, op: Op<V>, ghost m: map<nat, V>) returns (r: Option<V>)
    requires h.Valid() && Represents(h, m) && (op.InsertOp? ==> op.k !in m)
    modifies h, h.table, EntriesOf(h.chains)
    ensures h.Valid() && Represents(h, MapAfter(m, op)) && r == Answer(m, op)
    ensures old(h.Roomy()) ==> h.Roomy()
    ensures h.table == old(h.table) || fresh(h.table)
    ensures forall e | e in EntriesOf(h.chains) :: e in old(EntriesOf(h.chains)) || fresh(e)
  {
    match op
    case InsertOp(k, v) =>
      InsertUnique(h, k, v, m);
      r := None;
    case SearchOp(k) =>
      r := h.Search(k);
    case RemoveOp(k) =>
      ghost var count := h.entrycount;
      r := RemoveUnique(h, k, m);
      if HasRoom(count, |h.chains|, h.primeindex) {
        FewerHaveRoom(count, h.entrycount, |h.chains|, h.primeindex);
      }
  }

  /** For every run of insertions, searches and removals that keeps keys unique, with
      any number of expansions, the table answers as a finite map does; it stays roomy. */
  method Replay<V>(h: Table<V>, ops: seq<Op<V>>, ghost m: map<nat, V>) returns (answers: seq<Option<V>>)
    requires h.Valid() && Represents(h, m) && UniqueKeys(m, ops)
    modifies h, h.table, EntriesOf(h.chains)
    ensures h.Valid() && Represents(h, MapAfterAll(m, ops)) && answers == Answers(m, ops)
    ensures old(h.Roomy()) ==> h.Roomy()
    decreases |ops|
  {
    if ops == [] {
      return [];
    }
    var first := Perform(h, ops[0], m);
    var rest := Replay(h, ops[1..], MapAfter(m, ops[0]));
    answers := [first] + rest;
  }
}
