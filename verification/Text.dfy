/** Strings cut at separators and put together again: the vocabulary for argument vectors,
    search paths and the backend file.
 */
module Text {

  const EOS := '\0'

  /** A string as C sees it: no terminator inside. */
  predicate NulFree(s: string) { EOS !in s }

  predicate Free(s: string, seps: set<char>) {
    forall i | 0 <= i < |s| :: s[i] !in seps
  }

  lemma FreeSnoc(s: string, i: nat, j: nat, seps: set<char>)
    requires i <= j < |s| && Free(s[i..j], seps) && s[j] !in seps
    ensures Free(s[i..j + 1], seps)
  {
    assert s[i..j + 1] == s[i..j] + [s[j]];
  }

  /** The length of the longest prefix without a separator. */
  function Span(s: string, seps: set<char>): (n: nat)
    ensures n <= |s| && Free(s[..n], seps) && (n < |s| ==> s[n] in seps)
  {
    if s == "" || s[0] in seps then 0
    else
      var n := 1 + Span(s[1..], seps);
      assert forall i | 1 <= i < n :: s[i] == s[1..][i - 1];
      n
  }

  /** All pieces between separators, the empty ones included. */
  function Split(s: string, seps: set<char>): (r: seq<string>)
    ensures |r| > 0
    decreases |s|
  {
    var n := Span(s, seps);
    if n == |s| then [s] else [s[..n]] + Split(s[n + 1..], seps)
  }

  function NonEmpty(es: seq<string>): (r: seq<string>)
    ensures "" !in r
  {
    if es == [] then [] else (if es[0] == "" then [] else [es[0]]) + NonEmpty(es[1..])
  }

  /** Every element with `sep` in front of it. */
  function Tail(es: seq<string>, sep: char): string {
    if es == [] then "" else [sep] + es[0] + Tail(es[1..], sep)
  }

  /** The elements with `sep` between them. */
  function Join(es: seq<string>, sep: char): string {
    if es == [] then "" else es[0] + Tail(es[1..], sep)
  }

  lemma {:induction false} SpanIs(a: string, t: string, seps: set<char>)
    requires Free(a, seps) && (t == "" || t[0] in seps)
    ensures Span(a + t, seps) == |a|
  {
    if a != "" {
      assert (a + t)[1..] == a[1..] + t;
      SpanIs(a[1..], t, seps);
    }
  }

  lemma SplitHead(a: string, t: string, seps: set<char>)
    requires Free(a, seps) && (t == "" || t[0] in seps)
    ensures Split(a + t, seps) == if t == "" then [a] else [a] + Split(t[1..], seps)
  {
    SpanIs(a, t, seps);
    assert (a + t)[..|a|] == a;
    if t == "" { assert a + t == a; } else { assert (a + t)[|a| + 1..] == t[1..]; }
  }

  lemma {:induction false} SplitPieces(s: string, seps: set<char>)
    ensures forall i | 0 <= i < |Split(s, seps)| :: Free(Split(s, seps)[i], seps)
    decreases |s|
  {
    var n := Span(s, seps);
    if n < |s| { SplitPieces(s[n + 1..], seps); } else { assert s[..n] == s; }
  }

  lemma SplitFree(s: string, c: char, seps: set<char>)
    requires Free(s, seps)
    ensures Split(s, seps) == [s]
    ensures Split(s + [c], seps) == if c in seps then [s, ""] else [s + [c]]
  {
    SplitHead(s, "", seps);
    assert s + "" == s;
    if c in seps {
      SplitHead(s, [c], seps);
    } else {
      SplitHead(s + [c], "", seps);
      assert s + [c] + "" == s + [c];
    }
  }

  /** What one character in front does to the pieces. */
  function Prefixed(c: char, r: seq<string>, seps: set<char>): seq<string>
    requires r != []
  {
    if c in seps then [""] + r else [[c] + r[0]] + r[1..]
  }

  lemma SplitCons(c: char, t: string, seps: set<char>)
    ensures Split([c] + t, seps) == Prefixed(c, Split(t, seps), seps)
  {
    var s := [c] + t;
    assert s[1..] == t;
    var n := Span(t, seps);
    if c in seps {
      assert s[..0] == "";
    } else {
      assert Span(s, seps) == n + 1 && s[..n + 1] == [c] + t[..n];
      if n == |t| { assert t[..n] == t; } else { assert s[n + 2..] == t[n + 1..]; }
    }
  }

  lemma PrefixedAppend(c: char, r: seq<string>, u: seq<string>, seps: set<char>)
    requires r != []
    ensures Prefixed(c, r + u, seps) == Prefixed(c, r, seps) + u
  {
  }

  lemma ConsAround(x: char, t: string, c: char, b: string)
    ensures [x] + t + [c] + b == [x] + (t + [c] + b)
  {
  }

  /** A separator in the middle splits into the pieces before it and those after it. */
  lemma {:induction false} SplitAround(a: string, c: char, b: string, seps: set<char>)
    requires c in seps
    ensures Split(a + [c] + b, seps) == Split(a, seps) + Split(b, seps)
  {
    if a == "" {
      assert a + [c] + b == [c] + b;
      SplitCons(c, b, seps);
    } else {
      var x, t := a[0], a[1..];
      assert a == [x] + t;
      SplitAround(t, c, b, seps);
      ConsAround(x, t, c, b);
      SplitCons(x, t, seps);
      SplitCons(x, t + [c] + b, seps);
      PrefixedAppend(x, Split(t, seps), Split(b, seps), seps);
    }
  }

  lemma SplitMiddle(a: string, b: char, t: string, seps: set<char>)
    requires Free(a, seps) && b in seps
    ensures Split(a + [b] + t, seps) == [a] + Split(t, seps)
  {
    SplitAround(a, b, t, seps);
    SplitFree(a, b, seps);
  }

  /** What one more character does to the pieces. */
  function Longer(r: seq<string>, c: char, seps: set<char>): seq<string>
    requires |r| > 0
  {
    if c in seps then r + [""] else r[..|r| - 1] + [r[|r| - 1] + [c]]
  }

  lemma LongerCons(a: string, r: seq<string>, c: char, seps: set<char>)
    requires |r| > 0
    ensures Longer([a] + r, c, seps) == [a] + Longer(r, c, seps)
  {
  }

  lemma {:induction false} SpanSnoc(s: string, c: char, seps: set<char>)
    requires Span(s, seps) < |s|
    ensures Span(s + [c], seps) == Span(s, seps)
  {
    if s[0] !in seps {
      assert (s + [c])[1..] == s[1..] + [c];
      SpanSnoc(s[1..], c, seps);
    }
  }

  /** One more character extends the last piece, or starts an empty one. */
  lemma {:induction false} SplitSnoc(s: string, c: char, seps: set<char>)
    ensures Split(s + [c], seps) == Longer(Split(s, seps), c, seps)
    decreases |s|
  {
    var n := Span(s, seps);
    if n == |s| {
      assert s[..n] == s;
      SplitFree(s, c, seps);
    } else {
      SpanSnoc(s, c, seps);
      SplitSnoc(s[n + 1..], c, seps);
      assert (s + [c])[..n] == s[..n] && (s + [c])[n + 1..] == s[n + 1..] + [c];
      LongerCons(s[..n], Split(s[n + 1..], seps), c, seps);
    }
  }

  /** The last piece of a split is empty exactly at the start or after a separator. */
  lemma LastPiece(s: string, seps: set<char>)
    ensures var r := Split(s, seps); r[|r| - 1] == "" <==> s == "" || s[|s| - 1] in seps
  {
    if s != "" {
      SplitSnoc(s[..|s| - 1], s[|s| - 1], seps);
      InitLast(s);
    }
  }

  lemma JoinCons(es: seq<string>, sep: char)
    requires es != []
    ensures Join(es, sep) == if |es| == 1 then es[0] else es[0] + [sep] + Join(es[1..], sep)
  {
  }

  lemma {:induction false} JoinSplit(s: string, c: char)
    ensures Join(Split(s, {c}), c) == s
    decreases |s|
  {
    var n := Span(s, {c});
    if n < |s| {
      JoinSplit(s[n + 1..], c);
      JoinCons(Split(s, {c}), c);
    }
  }

  lemma {:induction false} SplitJoin(es: seq<string>, c: char)
    requires es != [] && forall i | 0 <= i < |es| :: c !in es[i]
    ensures Split(Join(es, c), {c}) == es
  {
    assert Free(es[0], {c});
    JoinCons(es, c);
    if |es| == 1 {
      SplitFree(es[0], c, {c});
    } else {
      SplitJoin(es[1..], c);
      SplitMiddle(es[0], c, Join(es[1..], c), {c});
    }
  }

  lemma Associative<T>(a: seq<T>, b: seq<T>, c: seq<T>)
    ensures a + (b + c) == (a + b) + c
  {
  }

  lemma {:induction false} NonEmptyAppend(a: seq<string>, b: seq<string>)
    ensures NonEmpty(a + b) == NonEmpty(a) + NonEmpty(b)
  {
    if a == [] {
      assert a + b == b;
    } else {
      assert (a + b)[1..] == a[1..] + b;
      NonEmptyAppend(a[1..], b);
      Associative(if a[0] == "" then [] else [a[0]], NonEmpty(a[1..]), NonEmpty(b));
    }
  }

  lemma InitLast<T>(s: seq<T>)
    requires s != []
    ensures s == s[..|s| - 1] + [s[|s| - 1]]
  {
  }

  lemma PrefixSnoc<T>(s: seq<T>, j: nat)
    requires j < |s|
    ensures s[..j] + [s[j]] == s[..j + 1]
  {
  }

  lemma CutJoin<T>(s: seq<T>, j: nat)
    requires j <= |s|
    ensures s == s[..j] + s[j..]
  {
  }

  lemma InsertEnd<T>(s: seq<T>, x: T)
    ensures s[..|s|] + [x] + s[|s|..] == s + [x]
  {
  }

  lemma NonEmptyOne(e: string)
    ensures NonEmpty([e]) == if e == "" then [] else [e]
  {
    assert [e][1..] == [];
  }

  lemma NonEmptyLast(es: seq<string>)
    requires es != []
    ensures NonEmpty(es) == NonEmpty(es[..|es| - 1]) + if es[|es| - 1] == "" then [] else [es[|es| - 1]]
  {
    InitLast(es);
    NonEmptyAppend(es[..|es| - 1], [es[|es| - 1]]);
    NonEmptyOne(es[|es| - 1]);
  }

  /** `NonEmpty` keeps everything exactly when there is nothing to drop. */
  lemma {:induction false} NonEmptyIsAll(es: seq<string>)
    ensures |NonEmpty(es)| <= |es| && (NonEmpty(es) == es <==> "" !in es)
  {
    if es != [] {
      NonEmptyIsAll(es[1..]);
      assert es == [es[0]] + es[1..];
    }
  }

  lemma {:induction false} PiecesOf(s: string, seps: set<char>)
    ensures forall i | 0 <= i < |Split(s, seps)| :: forall c | c in Split(s, seps)[i] :: c in s
    decreases |s|
  {
    var n := Span(s, seps);
    if n < |s| { PiecesOf(s[n + 1..], seps); }
  }

  lemma {:induction false} NonEmptyOf(es: seq<string>)
    ensures forall e | e in NonEmpty(es) :: e in es
  {
    if es != [] { NonEmptyOf(es[1..]); }
  }

  /** Neither a leading nor a doubled delimiter. */
  predicate Folded(s: string, delim: char) {
    forall i | 0 <= i < |s| && s[i] == delim :: i > 0 && s[i - 1] != delim
  }

  lemma LongerClean(r: seq<string>, c: char, seps: set<char>)
    requires r != []
    ensures var r' := Longer(r, c, seps);
            "" !in r'[..|r'| - 1] <==> "" !in r[..|r| - 1] && (c in seps ==> r[|r| - 1] != "")
  {
    if c in seps {
      assert (r + [""])[..|r|] == r;
      InitLast(r);
    } else {
      assert Longer(r, c, seps)[..|r| - 1] == r[..|r| - 1];
    }
  }

  /** No empty piece before the last exactly if no delimiter leads or is doubled. */
  lemma {:induction false} FoldedPieces(s: string, delim: char)
    ensures var r := Split(s, {delim}); Folded(s, delim) <==> "" !in r[..|r| - 1]
  {
    if s != "" {
      var t, c := s[..|s| - 1], s[|s| - 1];
      InitLast(s);
      FoldedPieces(t, delim);
      LastPiece(t, {delim});
      SplitSnoc(t, c, {delim});
      FoldedSnoc(t, c, delim);
      LongerClean(Split(t, {delim}), c, {delim});
    }
  }

  lemma FoldedSnoc(t: string, c: char, delim: char)
    ensures Folded(t + [c], delim) <==> Folded(t, delim) && (c == delim ==> t != "" && t[|t| - 1] != delim)
  {
    var s := t + [c];
    if Folded(s, delim) {
      forall i | 0 <= i < |t| && t[i] == delim ensures i > 0 && t[i - 1] != delim {
        assert s[i] == delim && s[i - 1] != delim;
      }
      if c == delim { assert s[|t|] == delim && s[|t| - 1] != delim; }
    }
  }

  /** Neither a leading nor a trailing nor a doubled delimiter. */
  predicate Clean(s: string, delim: char) {
    Folded(s, delim) && (s != "" ==> s[|s| - 1] != delim)
  }

  lemma CleanPieces(s: string, delim: char)
    requires s != ""
    ensures Clean(s, delim) <==> "" !in Split(s, {delim})
  {
    FoldedPieces(s, delim);
    LastPiece(s, {delim});
    InitLast(Split(s, {delim}));
  }
}
