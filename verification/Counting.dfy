/** Elements of a sequence that satisfy a predicate: how many, and whether all do. */
module Counting {

  function CountIf<T>(s: seq<T>, p: T -> bool): (n: nat)
    ensures n <= |s|
  {
    if s == [] then 0 else (if p(s[0]) then 1 else 0) + CountIf(s[1..], p)
  }

  lemma {:induction false} CountUpdate<T>(s: seq<T>, i: nat, v: T, p: T -> bool)
    requires i < |s|
    ensures CountIf(s[i := v], p) == CountIf(s, p) - (if p(s[i]) then 1 else 0) + (if p(v) then 1 else 0)
  {
    if i == 0 {
      assert s[0 := v][1..] == s[1..];
    } else {
      assert s[i := v][1..] == s[1..][i - 1 := v];
      CountUpdate(s[1..], i - 1, v, p);
    }
  }

  lemma {:induction false} CountSnoc<T>(s: seq<T>, v: T, p: T -> bool)
    ensures CountIf(s + [v], p) == CountIf(s, p) + if p(v) then 1 else 0
  {
    if s != [] {
      assert (s + [v])[1..] == s[1..] + [v];
      CountSnoc(s[1..], v, p);
    }
  }

  lemma {:induction false} CountAll<T>(s: seq<T>, p: T -> bool)
    ensures CountIf(s, p) == |s| <==> forall i | 0 <= i < |s| :: p(s[i])
  {
    if s != [] {
      CountAll(s[1..], p);
      assert forall i | 0 <= i < |s| - 1 :: s[1..][i] == s[i + 1];
      if forall i | 0 <= i < |s| :: p(s[i]) {
        assert forall i | 0 <= i < |s[1..]| :: p(s[1..][i]);
      } else if p(s[0]) {
        var j :| 0 <= j < |s| && !p(s[j]);
        assert !p(s[1..][j - 1]);
      }
    }
  }

  lemma {:induction false} CountNone<T>(s: seq<T>, p: T -> bool)
    ensures CountIf(s, p) == 0 <==> forall i | 0 <= i < |s| :: !p(s[i])
  {
    if s != [] {
      CountNone(s[1..], p);
      assert forall i | 0 <= i < |s| - 1 :: s[1..][i] == s[i + 1];
      if !(forall i | 0 <= i < |s| :: !p(s[i])) && !p(s[0]) {
        var j :| 0 <= j < |s| && p(s[j]);
        assert p(s[1..][j - 1]);
      }
    }
  }

  predicate All<T>(s: seq<T>, p: T -> bool) {
    forall i | 0 <= i < |s| :: p(s[i])
  }

  lemma AllUpdate<T>(s: seq<T>, i: nat, v: T, p: T -> bool)
    requires All(s, p) && i < |s| && p(v)
    ensures All(s[i := v], p)
  {
  }

  lemma AllAppend<T>(s: seq<T>, v: T, p: T -> bool)
    requires All(s, p) && p(v)
    ensures All(s + [v], p)
  {
  }
}
