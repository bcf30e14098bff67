/** Argument vectors of libltdl: a list of strings held as one byte buffer, each string
    followed by its terminator.
 */
module Argz {
  import opened Options
  import opened Text

  function Encode(es: seq<string>): string {
    if es == [] then "" else es[0] + [EOS] + Encode(es[1..])
  }

  function Decode(b: string): seq<string> {
    var r := Split(b, {EOS});
    r[..|r| - 1]
  }

  predicate WellFormed(b: string) {
    b != "" ==> b[|b| - 1] == EOS
  }

  predicate AllNulFree(es: seq<string>) {
    forall i | 0 <= i < |es| :: NulFree(es[i])
  }

  lemma {:induction false} EncodeIsJoin(es: seq<string>)
    ensures Encode(es) == Join(es + [""], EOS)
  {
    if es != [] {
      JoinCons(es + [""], EOS);
      assert (es + [""])[1..] == es[1..] + [""];
      EncodeIsJoin(es[1..]);
    }
  }

  lemma {:induction false} EncodeAppend(a: seq<string>, b: seq<string>)
    ensures Encode(a + b) == Encode(a) + Encode(b)
  {
    if a == [] {
      assert a + b == b;
    } else {
      assert (a + b)[1..] == a[1..] + b;
      EncodeAppend(a[1..], b);
      Associative(a[0] + [EOS], Encode(a[1..]), Encode(b));
    }
  }

  lemma EncodeOne(e: string)
    ensures Encode([e]) == e + [EOS]
  {
    assert [e][1..] == [];
  }

  lemma {:induction false} EncodeEnds(es: seq<string>)
    ensures WellFormed(Encode(es))
  {
    if es != [] { EncodeEnds(es[1..]); }
  }

  /** A buffer determines its entries. */
  lemma EncodeRoundTrip(es: seq<string>)
    requires AllNulFree(es)
    ensures Decode(Encode(es)) == es
  {
    EncodeIsJoin(es);
    SplitJoin(es + [""], EOS);
  }

  /** The buffers that are encodings are exactly the terminated ones. */
  lemma DecodeRoundTrip(b: string)
    ensures AllNulFree(Decode(b))
    ensures Encode(Decode(b)) == b <==> WellFormed(b)
  {
    var r := Split(b, {EOS});
    SplitPieces(b, {EOS});
    EncodeEnds(Decode(b));
    if WellFormed(b) {
      LastPiece(b, {EOS});
      EncodeIsJoin(Decode(b));
      assert Decode(b) + [""] == r;
      JoinSplit(b, EOS);
    }
  }

  lemma EncodeCons(es: seq<string>)
    requires es != []
    ensures Encode(es) == es[0] + [EOS] + Encode(es[1..])
  {
  }

  lemma EncodeCut(es: seq<string>, j: nat)
    requires j <= |es|
    ensures Encode(es) == Encode(es[..j]) + Encode(es[j..])
  {
    CutJoin(es, j);
    EncodeAppend(es[..j], es[j..]);
  }

  /** The buffer around entry `j`. */
  lemma EncodeAround(es: seq<string>, j: nat)
    requires j < |es|
    ensures Encode(es) == Encode(es[..j]) + (es[j] + [EOS] + Encode(es[j + 1..]))
  {
    EncodeCut(es, j);
    EncodeCons(es[j..]);
    assert es[j..][1..] == es[j + 1..];
  }

  // Splitting and stringifying

  /** Drops the empty pieces, except the last. */
  function Trim(r: seq<string>): seq<string>
    requires r != []
  {
    NonEmpty(r[..|r| - 1]) + [r[|r| - 1]]
  }

  /** What `argz_create_sep` makes of a string. */
  function Entries(s: string, delim: char): seq<string> {
    Trim(Split(s, {delim}))
  }

  lemma TrimIsNonEmpty(r: seq<string>)
    requires r != []
    ensures Trim(r) == NonEmpty(r) + if r[|r| - 1] == "" then [""] else []
  {
    NonEmptyLast(r);
  }

  /** The entries are the non-empty pieces unless there is no text or it ends in a delimiter. */
  lemma EntriesArePieces(s: string, delim: char)
    ensures Entries(s, delim) == NonEmpty(Split(s, {delim})) <==> s != "" && s[|s| - 1] != delim
  {
    TrimIsNonEmpty(Split(s, {delim}));
    LastPiece(s, {delim});
  }

  lemma EntriesNulFree(s: string, delim: char)
    requires NulFree(s)
    ensures AllNulFree(Entries(s, delim))
  {
    var r, es := Split(s, {delim}), Entries(s, delim);
    PiecesOf(s, {delim});
    NonEmptyOf(r[..|r| - 1]);
    forall i | 0 <= i < |es| ensures NulFree(es[i]) {
      assert es[i] in es;
      assert es[i] in r;
    }
  }

  /** The bytes of the entries before the last terminator. */
  function Written(r: seq<string>): string
    requires r != []
  {
    Encode(NonEmpty(r[..|r| - 1])) + r[|r| - 1]
  }

  lemma WrittenEncodes(r: seq<string>)
    requires r != []
    ensures Written(r) + [EOS] == Encode(Trim(r))
  {
    EncodeAppend(NonEmpty(r[..|r| - 1]), [r[|r| - 1]]);
    EncodeOne(r[|r| - 1]);
  }

  lemma WrittenExtend(r: seq<string>, c: char)
    requires r != []
    ensures Written(r[..|r| - 1] + [r[|r| - 1] + [c]]) == Written(r) + [c]
  {
    var n := |r| - 1;
    assert (r[..n] + [r[n] + [c]])[..n] == r[..n];
  }

  /** A delimiter counts only after something that is not one. */
  function Closed(w: string): string {
    if w != "" && w[|w| - 1] != EOS then w + [EOS] else w
  }

  function Grown(w: string, c: char, delim: char): string {
    if c == delim then Closed(w) else w + [c]
  }

  lemma WrittenClose(r: seq<string>)
    requires r != [] && NulFree(r[|r| - 1])
    ensures Written(r + [""]) == Closed(Written(r))
  {
    var es, x := NonEmpty(r[..|r| - 1]), r[|r| - 1];
    assert (r + [""])[..|r|] == r;
    NonEmptyLast(r);
    if x == "" {
      EncodeEnds(es);
      assert NonEmpty(r) == es;
    } else {
      EncodeAppend(es, [x]);
      EncodeOne(x);
      assert x[|x| - 1] in x;
    }
  }

  /** What is written after the first `p` characters. */
  function Trace(s: string, p: nat, delim: char): string
    requires p <= |s|
  {
    if p == 0 then "" else Grown(Trace(s, p - 1, delim), s[p - 1], delim)
  }

  lemma {:induction false} TraceIs(s: string, p: nat, delim: char)
    requires NulFree(s) && p <= |s|
    ensures Trace(s, p, delim) == Written(Split(s[..p], {delim}))
  {
    if p == 0 {
      assert s[..p] == "" && Split("", {delim}) == [""];
      assert [""][..0] == [];
    } else {
      var t, c := s[..p - 1], s[p - 1];
      TraceIs(s, p - 1, delim);
      assert s[..p] == t + [c] by { PrefixSnoc(s, p - 1); }
      GrownSplit(t, c, delim);
    }
  }

  lemma GrownSplit(t: string, c: char, delim: char)
    requires NulFree(t)
    ensures Written(Split(t + [c], {delim})) == Grown(Written(Split(t, {delim})), c, delim)
  {
    var r := Split(t, {delim});
    SplitSnoc(t, c, {delim});
    PiecesOf(t, {delim});
    if c == delim { WrittenClose(r); } else { WrittenExtend(r, c); }
  }

  /** The text with leading delimiters dropped and every other run of them cut to one. */
  function Fold(s: string, delim: char): string {
    if s == "" then ""
    else
      var n := |s| - 1;
      Fold(s[..n], delim) + if s[n] != delim || (n > 0 && s[n - 1] != delim) then [s[n]] else ""
  }

  lemma {:induction false} FoldIdentity(s: string, delim: char)
    ensures |Fold(s, delim)| <= |s| && (Fold(s, delim) == s <==> Folded(s, delim))
  {
    if s != "" {
      var n := |s| - 1;
      FoldIdentity(s[..n], delim);
      assert s == s[..n] + [s[n]];
      if Folded(s[..n], delim) {
        assert forall i | 0 <= i < n :: s[..n][i] == s[i];
      } else {
        var i :| 0 <= i < n && s[..n][i] == delim && !(i > 0 && s[..n][i - 1] != delim);
        assert s[i] == delim;
      }
    }
  }

  lemma {:induction false} JoinLast(es: seq<string>, x: string, sep: char)
    ensures Join(es + [x], sep) == (if es == [] then "" else Join(es, sep) + [sep]) + x
  {
    JoinCons(es + [x], sep);
    if es != [] {
      assert (es + [x])[1..] == es[1..] + [x];
      JoinLast(es[1..], x, sep);
      JoinCons(es, sep);
    }
  }

  /** Splitting and joining again folds the delimiters. */
  lemma {:induction false} JoinEntriesFolds(s: string, delim: char)
    ensures Join(Entries(s, delim), delim) == Fold(s, delim)
  {
    if s != "" {
      var n := |s| - 1;
      var t, c := s[..n], s[n];
      JoinEntriesFolds(t, delim);
      assert s == t + [c];
      EntriesSnoc(t, c, delim);
      LastPiece(t, {delim});
    }
  }

  lemma EntriesSnoc(t: string, c: char, delim: char)
    ensures var r := Split(t, {delim});
            Join(Entries(t + [c], delim), delim)
            == Join(Entries(t, delim), delim) + if c != delim || r[|r| - 1] != "" then [c] else ""
  {
    SplitSnoc(t, c, {delim});
    if c == delim { TrimClose(Split(t, {delim}), delim); } else { TrimExtend(Split(t, {delim}), c, delim); }
  }

  lemma TrimExtend(r: seq<string>, c: char, delim: char)
    requires r != []
    ensures Join(Trim(r[..|r| - 1] + [r[|r| - 1] + [c]]), delim) == Join(Trim(r), delim) + [c]
  {
    var n := |r| - 1;
    JoinLast(NonEmpty(r[..n]), r[n], delim);
    JoinLast(NonEmpty(r[..n]), r[n] + [c], delim);
    assert (r[..n] + [r[n] + [c]])[..n] == r[..n];
  }

  lemma TrimClose(r: seq<string>, delim: char)
    requires r != []
    ensures Join(Trim(r + [""]), delim) == Join(Trim(r), delim) + if r[|r| - 1] != "" then [delim] else ""
  {
    assert (r + [""])[..|r|] == r;
    NonEmptyLast(r);
    if r[|r| - 1] != "" {
      JoinLast(Trim(r), "", delim);
    } else {
      assert NonEmpty(r) == NonEmpty(r[..|r| - 1]);
    }
  }

  /** What `argz_stringify` makes of a buffer. */
  function Stringified(b: string, sep: char): (r: string)
    ensures |r| == |b|
    ensures forall k | 0 <= k < |b| :: r[k] == if 1 <= k < |b| - 1 && b[k] == EOS then sep else b[k]
  {
    seq(|b|, k requires 0 <= k < |b| => if 1 <= k < |b| - 1 && b[k] == EOS then sep else b[k])
  }

  lemma {:induction false} EncodeByJoin(es: seq<string>, sep: char)
    requires es != [] && AllNulFree(es)
    ensures |Encode(es)| == |Join(es, sep)| + 1
    ensures forall k | 0 <= k < |Join(es, sep)| ::
              Join(es, sep)[k] == if Encode(es)[k] == EOS then sep else Encode(es)[k]
  {
    JoinCons(es, sep);
    if |es| > 1 { EncodeByJoin(es[1..], sep); }
  }

  lemma StringifiedIs(b: string, w: string, sep: char)
    requires |b| == |w| + 1 >= 2 && b[|w|] == EOS && sep != EOS
    requires forall k | 0 <= k < |w| :: w[k] == if b[k] == EOS then sep else b[k]
    ensures Stringified(b, sep) == w + [EOS] <==> b[0] != EOS
  {
    if b[0] == EOS { assert (w + [EOS])[0] == sep; }
  }

  /** Stringifying joins the entries, unless an empty entry comes first. */
  lemma StringifyJoins(es: seq<string>, sep: char)
    requires es != [] && AllNulFree(es) && sep != EOS && |Encode(es)| >= 2
    ensures Stringified(Encode(es), sep) == Join(es, sep) + [EOS] <==> es[0] != ""
  {
    EncodeByJoin(es, sep);
    EncodeEnds(es);
    EncodeCons(es);
    StringifiedIs(Encode(es), Join(es, sep), sep);
  }

  predicate AllDelimiters(s: string, delim: char) {
    forall i | 0 <= i < |s| :: s[i] == delim
  }

  lemma {:induction false} FoldStart(s: string, delim: char)
    ensures Fold(s, delim) == "" <==> AllDelimiters(s, delim)
    ensures Fold(s, delim) != "" ==> Fold(s, delim)[0] != delim
  {
    if s != "" {
      var n := |s| - 1;
      FoldStart(s[..n], delim);
      if n > 0 && s[n - 1] != delim {
        assert s[..n][n - 1] != delim;
      }
      if AllDelimiters(s[..n], delim) {
        forall i | 0 <= i < n ensures s[i] == delim { assert s[..n][i] == delim; }
      }
    }
  }

  /** `argz_stringify` after `argz_create_sep` folds the delimiters.  The buffer is long
      enough to be stringified exactly when the text has something besides delimiters. */
  lemma StringifyFolds(s: string, delim: char)
    requires NulFree(s) && delim != EOS
    ensures |Encode(Entries(s, delim))| >= 2 <==> !AllDelimiters(s, delim)
    ensures !AllDelimiters(s, delim) ==> Stringified(Encode(Entries(s, delim)), delim) == Fold(s, delim) + [EOS]
  {
    var es := Entries(s, delim);
    EntriesNulFree(s, delim);
    JoinEntriesFolds(s, delim);
    FoldStart(s, delim);
    EncodeByJoin(es, delim);
    if !AllDelimiters(s, delim) {
      JoinCons(es, delim);
      StringifyJoins(es, delim);
    }
  }

  // Places in a buffer

  function Start(es: seq<string>, j: nat): nat
    requires j <= |es|
  {
    |Encode(es[..j])|
  }

  /** The place of entry `j`, or nothing after the last one. */
  function Place(es: seq<string>, j: nat): Option<nat>
    requires j <= |es|
  {
    if j < |es| then Some(Start(es, j)) else None
  }

  lemma NextStart(es: seq<string>, j: nat)
    requires j < |es|
    ensures Start(es, j + 1) == Start(es, j) + |es[j]| + 1
  {
    PrefixSnoc(es, j);
    EncodeAppend(es[..j], [es[j]]);
    EncodeOne(es[j]);
  }

  lemma Middle(a: string, e: string, r: string)
    ensures var b := a + (e + [EOS] + r);
            |b| == |a| + |e| + 1 + |r| && b[|a|..|a| + |e|] == e && b[|a| + |e|] == EOS
  {
  }

  lemma EncodeEmpty(es: seq<string>)
    ensures Encode(es) == "" <==> es == []
  {
  }

  lemma EntryBytes(es: seq<string>, j: nat)
    requires j < |es|
    ensures |Encode(es)| == Start(es, j) + |es[j]| + 1 + |Encode(es[j + 1..])|
    ensures Encode(es)[Start(es, j)..Start(es, j) + |es[j]|] == es[j]
    ensures Encode(es)[Start(es, j) + |es[j]|] == EOS
  {
    EncodeAround(es, j);
    Middle(Encode(es[..j]), es[j], Encode(es[j + 1..]));
  }

  lemma EntryAt(es: seq<string>, j: nat)
    requires j < |es|
    ensures Start(es, j + 1) == Start(es, j) + |es[j]| + 1 <= |Encode(es)|
    ensures Start(es, j + 1) == |Encode(es)| <==> j + 1 == |es|
    ensures Encode(es)[Start(es, j)..Start(es, j) + |es[j]|] == es[j]
    ensures Encode(es)[Start(es, j) + |es[j]|] == EOS
  {
    NextStart(es, j);
    EntryBytes(es, j);
    EncodeEmpty(es[j + 1..]);
  }

  lemma TerminatorAt(es: seq<string>, j: nat, i: nat)
    requires AllNulFree(es) && j < |es| && Start(es, j) <= i < Start(es, j + 1)
    ensures Start(es, j + 1) <= |Encode(es)| && (Start(es, j + 1) == |Encode(es)| <==> j + 1 == |es|)
    ensures Encode(es)[i] == EOS <==> i == Start(es, j + 1) - 1
  {
    EntryAt(es, j);
    var k := Start(es, j);
    if i < k + |es[j]| { assert Encode(es)[k..k + |es[j]|][i - k] == es[j][i - k]; }
  }

  /** The C string at a place. */
  function StringAt(b: string, i: nat): string
    requires i <= |b|
  {
    b[i..i + Span(b[i..], {EOS})]
  }

  lemma StringAtSpan(a: string, e: string, r: string)
    requires NulFree(e)
    ensures StringAt(a + (e + [EOS] + r), |a|) == e
  {
    var t := [EOS] + r;
    SpanIs(e, t, {EOS});
    assert (a + (e + [EOS] + r))[|a|..] == e + t;
  }

  lemma StringAtIs(es: seq<string>, j: nat)
    requires AllNulFree(es) && j < |es|
    ensures Start(es, j) <= |Encode(es)| && StringAt(Encode(es), Start(es, j)) == es[j]
  {
    EncodeAround(es, j);
    StringAtSpan(Encode(es[..j]), es[j], Encode(es[j + 1..]));
  }

  /** The start of the entry that a place lies in. */
  function EntryStart(b: string, i: nat): (k: nat)
    requires i <= |b|
    ensures k <= i && NulFree(b[k..i]) && (k == 0 || b[k - 1] == EOS)
  {
    if i == 0 || b[i - 1] == EOS then i
    else
      var k := EntryStart(b, i - 1);
      assert b[k..i] == b[k..i - 1] + [b[i - 1]];
      k
  }

  function Inserted(b: string, k: nat, e: string): string
    requires k <= |b|
  {
    b[..k] + e + b[k..]
  }

  lemma {:induction false} EntryStartIs(b: string, i: nat, k: nat)
    requires k <= i <= |b| && NulFree(b[k..i]) && (k == 0 || b[k - 1] == EOS)
    ensures EntryStart(b, i) == k
    decreases i
  {
    if k < i {
      assert b[k..i] == b[k..i - 1] + [b[i - 1]];
      EntryStartIs(b, i - 1, k);
    }
  }

  lemma EntryStartOf(es: seq<string>, j: nat, i: nat)
    requires AllNulFree(es) && j < |es| && Start(es, j) <= i < Start(es, j + 1)
    ensures i <= |Encode(es)| && EntryStart(Encode(es), i) == Start(es, j)
  {
    var b, k := Encode(es), Start(es, j);
    EntryAt(es, j);
    EncodeEnds(es[..j]);
    EncodeAround(es, j);
    assert b[k..i] == es[j][..i - k];
    assert k > 0 ==> b[k - 1] == Encode(es[..j])[k - 1];
    EntryStartIs(b, i, k);
  }

  lemma EncodeInsert(es: seq<string>, j: nat, entry: string)
    requires j <= |es|
    ensures Start(es, j) <= |Encode(es)|
    ensures Inserted(Encode(es), Start(es, j), entry + [EOS]) == Encode(es[..j] + [entry] + es[j..])
  {
    var a, c := es[..j], es[j..];
    EncodeCut(es, j);
    assert Encode(a + [entry] + c) == Encode(a) + (entry + [EOS]) + Encode(c) by {
      EncodeAppend(a + [entry], c);
      EncodeAppend(a, [entry]);
      EncodeOne(entry);
    }
    assert Inserted(Encode(a) + Encode(c), |Encode(a)|, entry + [EOS]) == Encode(a) + (entry + [EOS]) + Encode(c);
  }

  /** Insertion anywhere in entry `j` puts the new entry before it. */
  lemma InsertRefines(es: seq<string>, j: nat, i: nat, entry: string)
    requires AllNulFree(es) && j < |es| && Start(es, j) <= i < Start(es, j + 1)
    ensures i <= |Encode(es)|
    ensures Inserted(Encode(es), EntryStart(Encode(es), i), entry + [EOS])
            == Encode(es[..j] + [entry] + es[j..])
  {
    EntryStartOf(es, j, i);
    EncodeInsert(es, j, entry);
  }

  lemma EncodeSnoc(es: seq<string>, entry: string)
    ensures Encode(es + [entry]) == Encode(es) + entry + [EOS]
  {
    EncodeAppend(es, [entry]);
    EncodeOne(entry);
    Associative(Encode(es), entry, [EOS]);
  }

  lemma InsertLast(es: seq<string>, entry: string)
    ensures Encode(es) + entry + [EOS] == Encode(es[..|es|] + [entry] + es[|es|..])
  {
    EncodeSnoc(es, entry);
    InsertEnd(es, entry);
  }

  /** The bytes after `argz_insert`. */
  function AfterInsert(b: string, place: Option<nat>, entry: string): string
    requires place.Some? ==> place.value <= |b|
  {
    match place
    case None => b + entry + [EOS]
    case Some(i) => Inserted(b, EntryStart(b, i), entry + [EOS])
  }

  lemma AfterInsertIs(es: seq<string>, j: nat, entry: string)
    requires AllNulFree(es) && NulFree(entry) && j <= |es|
    ensures Place(es, j).Some? ==> Place(es, j).value < |Encode(es)|
    ensures AfterInsert(Encode(es), Place(es, j), entry) == Encode(es[..j] + [entry] + es[j..])
    ensures AllNulFree(es[..j] + [entry] + es[j..])
  {
    if j < |es| {
      StartInside(es, j);
      InsertRefines(es, j, Start(es, j), entry);
    } else {
      InsertLast(es, entry);
    }
  }

  lemma StartInside(es: seq<string>, j: nat)
    requires j < |es|
    ensures Start(es, j) < Start(es, j + 1) <= |Encode(es)|
  {
    EntryAt(es, j);
  }

  // The order of entries

  /** `strcmp`. */
  function Compare(a: string, b: string): int {
    if a == "" then (if b == "" then 0 else -1)
    else if b == "" then 1
    else if a[0] != b[0] then (if a[0] < b[0] then -1 else 1)
    else Compare(a[1..], b[1..])
  }

  lemma {:induction false} CompareOrder(a: string, b: string)
    ensures Compare(a, b) == 0 <==> a == b
    ensures Compare(b, a) == -Compare(a, b)
  {
    if a != "" && b != "" && a[0] == b[0] {
      CompareOrder(a[1..], b[1..]);
      assert a == [a[0]] + a[1..] && b == [b[0]] + b[1..];
    }
  }

  /** The order of entries: at the first difference, or a proper prefix first. */
  predicate Before(a: string, b: string, k: nat) {
    && k <= |a| && k <= |b| && a[..k] == b[..k]
    && ((k == |a| && k < |b|) || (k < |a| && k < |b| && a[k] < b[k]))
  }

  lemma SameHead(a: string, b: string, k: nat)
    requires 0 < k <= |a| && k <= |b| && a[..k] == b[..k]
    ensures a[0] == b[0]
  {
    assert a[..k][0] == b[..k][0];
  }

  /** `strcmp` is below zero exactly for strings that come first in that order. */
  lemma {:induction false} CompareIsLexical(a: string, b: string)
    ensures Compare(a, b) < 0 <==> exists k: nat :: Before(a, b, k)
  {
    if a == "" || b == "" {
      assert b != "" ==> Before(a, b, 0) || a != "";
    } else if a[0] != b[0] {
      assert a[0] < b[0] ==> Before(a, b, 0);
      forall k: nat | Before(a, b, k) ensures k == 0 { if k > 0 { SameHead(a, b, k); } }
    } else {
      var c, d := a[1..], b[1..];
      CompareIsLexical(c, d);
      forall k: nat | Before(c, d, k) ensures Before(a, b, k + 1) {
        assert a[..k + 1] == [a[0]] + c[..k] && b[..k + 1] == [b[0]] + d[..k];
      }
      forall k: nat | Before(a, b, k) ensures k > 0 && Before(c, d, k - 1) {
        assert k > 0;
        assert c[..k - 1] == a[..k][1..] && d[..k - 1] == b[..k][1..];
      }
    }
  }

  lemma {:induction false} CompareTransitive(a: string, b: string, c: string)
    requires Compare(a, b) < 0 && Compare(b, c) < 0
    ensures Compare(a, c) < 0
  {
    if a != "" && a[0] == b[0] == c[0] { CompareTransitive(a[1..], b[1..], c[1..]); }
  }

  predicate Ascending(es: seq<string>) {
    forall i, j | 0 <= i < j < |es| :: Compare(es[i], es[j]) < 0
  }

  /** The entry belongs between the first `j` entries and the next one. */
  predicate Between(es: seq<string>, j: nat, entry: string) {
    && j <= |es|
    && (forall i | 0 <= i < j :: Compare(es[i], entry) < 0)
    && (j < |es| ==> Compare(entry, es[j]) < 0)
  }

  /** The first entry that is not below. */
  function Slot(es: seq<string>, entry: string): (j: nat)
    ensures j <= |es| && (forall i | 0 <= i < j :: Compare(es[i], entry) < 0)
    ensures j < |es| ==> Compare(entry, es[j]) <= 0
  {
    SlotFrom(es, entry, 0)
  }

  function SlotFrom(es: seq<string>, entry: string, from: nat): (j: nat)
    requires from <= |es| && forall i | 0 <= i < from :: Compare(es[i], entry) < 0
    ensures from <= j <= |es| && (forall i | 0 <= i < j :: Compare(es[i], entry) < 0)
    ensures j < |es| ==> Compare(entry, es[j]) <= 0
    decreases |es| - from
  {
    if from == |es| || Compare(entry, es[from]) <= 0 then from
    else
      CompareOrder(entry, es[from]);
      SlotFrom(es, entry, from + 1)
  }

  lemma SlotIs(es: seq<string>, entry: string, j: nat)
    requires j <= |es| && (forall i | 0 <= i < j :: Compare(es[i], entry) < 0)
    requires j < |es| ==> Compare(entry, es[j]) <= 0
    ensures Slot(es, entry) == j
  {
    var k := Slot(es, entry);
    if k < |es| { CompareOrder(es[k], entry); }
    if j < |es| { CompareOrder(es[j], entry); }
  }

  lemma InsertAscending(es: seq<string>, j: nat, entry: string)
    requires Ascending(es) && Between(es, j, entry)
    ensures entry !in es && Ascending(es[..j] + [entry] + es[j..])
  {
    forall i | 0 <= i < |es| ensures es[i] != entry && (i >= j ==> Compare(entry, es[i]) < 0) {
      CompareOrder(es[i], entry);
      if i > j { CompareTransitive(entry, es[j], es[i]); }
    }
  }
}
