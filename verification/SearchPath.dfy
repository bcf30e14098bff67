/** Search paths of libltdl: canonical form and the visit of every directory, in the build
    whose path separator is a colon and whose only directory separator is a slash.
 */
module SearchPath {
  import opened Options
  import opened Text
  import opened Argz
  import opened ArgzBuffer

  const PATHSEP := ':'

  /** One element with runs of slashes cut to one and trailing slashes dropped. */
  function Norm(e: string): string {
    if e == "" then ""
    else if e[0] == '/' && (|e| == 1 || e[1] == '/') then Norm(e[1..])
    else [e[0]] + Norm(e[1..])
  }

  function NormAll(es: seq<string>): (r: seq<string>)
    ensures |r| == |es| && forall i | 0 <= i < |es| :: r[i] == Norm(es[i])
  {
    if es == [] then [] else [Norm(es[0])] + NormAll(es[1..])
  }

  predicate AllSlashes(e: string) {
    forall i | 0 <= i < |e| :: e[i] == '/'
  }

  /** What `Norm` means: the same names between slashes, absolute or not as before, with
      no empty name in the middle or at the end. */
  predicate Tidy(e: string) {
    forall i | 0 <= i < |e| && e[i] == '/' :: i + 1 < |e| && e[i + 1] != '/'
  }

  lemma {:induction false} NormTidy(e: string)
    ensures Tidy(Norm(e)) && |Norm(e)| <= |e|
    ensures Norm(e) == "" <==> AllSlashes(e)
    ensures Norm(e) != "" ==> Norm(e)[0] == e[0]
    ensures Norm(e) == e <==> Tidy(e)
  {
    if e != "" {
      var t := e[1..];
      NormTidy(t);
      assert e == [e[0]] + t;
      assert AllSlashes(e) <==> e[0] == '/' && AllSlashes(t);
      if |e| > 1 { assert t[0] == e[1]; }
      assert Tidy(e) <==> Tidy(t) && (e[0] == '/' ==> |e| > 1 && e[1] != '/') by { TidyCons(e); }
      if e[0] != '/' || (|e| > 1 && e[1] != '/') {
        assert Norm(e)[1..] == Norm(t);
        TidyCons(Norm(e));
      }
    }
  }

  lemma TidyCons(e: string)
    requires e != ""
    ensures Tidy(e) <==> Tidy(e[1..]) && (e[0] == '/' ==> |e| > 1 && e[1] != '/')
  {
    var t := e[1..];
    if Tidy(e) {
      forall i | 0 <= i < |t| && t[i] == '/' ensures i + 1 < |t| && t[i + 1] != '/' { assert e[i + 1] == '/'; }
    }
    if Tidy(t) && (e[0] == '/' ==> |e| > 1 && e[1] != '/') {
      forall i | 0 <= i < |e| && e[i] == '/' ensures i + 1 < |e| && e[i + 1] != '/' {
        if i > 0 { assert t[i - 1] == '/'; }
      }
    }
  }

  /** The same first name, and the same non-empty names after it. */
  ghost predicate SameNames(a: seq<string>, b: seq<string>) {
    a != [] && b != [] && a[0] == b[0] && NonEmpty(a[1..]) == NonEmpty(b[1..])
  }

  lemma SameNamesPrefixed(c: char, a: seq<string>, b: seq<string>)
    requires SameNames(a, b)
    ensures SameNames(Prefixed(c, a, {'/'}), Prefixed(c, b, {'/'}))
  {
    if c == '/' {
      assert ([""] + a)[1..] == a && ([""] + b)[1..] == b;
    } else {
      assert ([[c] + a[0]] + a[1..])[1..] == a[1..] && ([[c] + b[0]] + b[1..])[1..] == b[1..];
    }
  }

  lemma SameNamesDropped(a: seq<string>, b: seq<string>)
    requires SameNames(a, b) && b[0] == ""
    ensures SameNames(a, [""] + b)
  {
    assert ([""] + b)[1..] == b;
  }

  lemma FirstName(t: string)
    ensures Split(t, {'/'})[0] == "" <==> t == "" || t[0] == '/'
  {
  }

  predicate Dropped(e: string)
    requires e != ""
  {
    e[0] == '/' && (|e| == 1 || e[1] == '/')
  }

  lemma NamesDropped(e: string)
    requires e != "" && Dropped(e) && SameNames(Split(Norm(e[1..]), {'/'}), Split(e[1..], {'/'}))
    ensures SameNames(Split(Norm(e), {'/'}), Split(e, {'/'}))
  {
    var t := e[1..];
    assert e == ['/'] + t;
    SplitCons('/', t, {'/'});
    FirstName(t);
    SameNamesDropped(Split(Norm(t), {'/'}), Split(t, {'/'}));
  }

  lemma NamesCopied(e: string)
    requires e != "" && !Dropped(e) && SameNames(Split(Norm(e[1..]), {'/'}), Split(e[1..], {'/'}))
    ensures SameNames(Split(Norm(e), {'/'}), Split(e, {'/'}))
  {
    var c, t := e[0], e[1..];
    assert e == [c] + t;
    SplitCons(c, t, {'/'});
    SplitCons(c, Norm(t), {'/'});
    SameNamesPrefixed(c, Split(Norm(t), {'/'}), Split(t, {'/'}));
  }

  lemma {:induction false} NormNames(e: string)
    ensures SameNames(Split(Norm(e), {'/'}), Split(e, {'/'}))
  {
    if e != "" {
      NormNames(e[1..]);
      if Dropped(e) { NamesDropped(e); } else { NamesCopied(e); }
    }
  }

  /** Normalising keeps the names between slashes. */
  lemma NormKeepsNames(e: string)
    ensures NonEmpty(Split(Norm(e), {'/'})) == NonEmpty(Split(e, {'/'}))
  {
    NormNames(e);
  }

  // The canonical path

  function DropEmpty(es: seq<string>): (r: seq<string>)
    ensures r != [] ==> r[0] != ""
  {
    if es == [] || es[0] != "" then es else DropEmpty(es[1..])
  }

  /** The non-empty elements of a path, normalised. */
  function Pieces(s: string): seq<string> {
    NormAll(NonEmpty(Split(s, {PATHSEP})))
  }

  /** The elements of the canonical path: the non-empty elements of the path, normalised,
      without those at the front that are only slashes. */
  function Elements(path: string): seq<string> {
    DropEmpty(Pieces(path))
  }

  function Canonical(path: string): string {
    Join(Elements(path), PATHSEP)
  }

  function At(path: string, i: nat): char {
    if i < |path| then path[i] else EOS
  }

  /** What one position of the path adds; `started` says that something was written. */
  function Copied(c: char, next: char, started: bool): string {
    if c == PATHSEP && (!started || next == PATHSEP || next == EOS) then ""
    else if c != '/' then [c]
    else if next != PATHSEP && next != EOS && next != '/' then "/"
    else ""
  }

  function Scan(s: string, started: bool): string {
    if s == "" then ""
    else
      var w := Copied(s[0], At(s, 1), started);
      w + Scan(s[1..], started || w != "")
  }

  lemma CopiedInElement(e: string, t: string, started: bool)
    requires e != "" && Free(e, {PATHSEP}) && NulFree(e) && (t == "" || t[0] == PATHSEP)
    ensures Norm(e) == Copied(e[0], At(e + t, 1), started) + Norm(e[1..])
  {
    assert At(e + t, 1) == if |e| > 1 then e[1] else if t == "" then EOS else PATHSEP;
    if |e| > 1 { assert e[1] in e && e[1] !in {PATHSEP}; }
  }

  lemma ScanFirst(e: string, t: string, started: bool)
    requires e != ""
    ensures var w := Copied(e[0], At(e + t, 1), started);
            Scan(e + t, started) == w + Scan(e[1..] + t, started || w != "")
  {
    assert (e + t)[1..] == e[1..] + t;
  }

  /** Within an element, and before a separator or the end, the scan normalises. */
  lemma {:induction false} ScanElement(e: string, t: string, started: bool)
    requires Free(e, {PATHSEP}) && NulFree(e) && (t == "" || t[0] == PATHSEP)
    ensures Scan(e + t, started) == Norm(e) + Scan(t, started || Norm(e) != "")
  {
    if e == "" {
      assert e + t == t;
    } else {
      var w, f := Copied(e[0], At(e + t, 1), started), e[1..];
      CopiedInElement(e, t, started);
      ScanElement(f, t, started || w != "");
      ScanFirst(e, t, started);
      Associative(w, Norm(f), Scan(t, started || Norm(e) != ""));
    }
  }

  lemma ScanSep(r: string, started: bool)
    requires NulFree(r)
    ensures Scan([PATHSEP] + r, started) ==
            if started && r != "" && r[0] != PATHSEP then [PATHSEP] + Scan(r, true) else Scan(r, started)
  {
    assert ([PATHSEP] + r)[1..] == r;
    assert At([PATHSEP] + r, 1) == At(r, 0);
    if r != "" { assert r[0] in r; }
  }

  lemma PiecesCons(e: string, t: string)
    requires Free(e, {PATHSEP}) && (t == "" || t[0] == PATHSEP)
    ensures Pieces(e + t) == if e == "" then Rest(t) else [Norm(e)] + Rest(t)
  {
    SplitHead(e, t, {PATHSEP});
    var es := if t == "" then [] else Split(t[1..], {PATHSEP});
    assert Split(e + t, {PATHSEP}) == [e] + es && ([e] + es)[1..] == es;
    assert NormAll(NonEmpty(es)) == Rest(t);
    if e == "" {
      assert NonEmpty([e] + es) == NonEmpty(es);
    } else {
      assert ([e] + NonEmpty(es))[1..] == NonEmpty(es);
    }
  }

  /** The pieces from the next separator on. */
  function Rest(t: string): seq<string> {
    if t == "" then [] else Pieces(t[1..])
  }

  lemma ConsJoin(x: string, es: seq<string>)
    ensures Tail([x] + es, PATHSEP) == [PATHSEP] + x + Tail(es, PATHSEP)
    ensures Join([x] + es, PATHSEP) == x + Tail(es, PATHSEP)
  {
    assert ([x] + es)[1..] == es;
  }

  /** A separator, after something was written, and the element behind it. */
  lemma ScanNext(e: string, u: string)
    requires Free(e, {PATHSEP}) && NulFree(e) && NulFree(u) && (u == "" || u[0] == PATHSEP)
    ensures Scan([PATHSEP] + (e + u), true) ==
            if e == "" then Scan(u, true) else [PATHSEP] + Norm(e) + Scan(u, true)
  {
    ScanSep(e + u, true);
    if e == "" {
      assert e + u == u;
    } else {
      assert (e + u)[0] == e[0] != PATHSEP;
      ScanElement(e, u, true);
      Associative([PATHSEP], Norm(e), Scan(u, true));
    }
  }

  /** After something was written, each non-empty element comes with its separator. */
  lemma {:induction false} ScanTail(t: string)
    requires NulFree(t) && (t == "" || t[0] == PATHSEP)
    ensures Scan(t, true) == Tail(Rest(t), PATHSEP)
    decreases |t|
  {
    if t != "" {
      var r := t[1..];
      var n := Span(r, {PATHSEP});
      var e, u := r[..n], r[n..];
      assert r == e + u && t == [PATHSEP] + r;
      ScanTail(u);
      ScanNext(e, u);
      PiecesCons(e, u);
      ConsJoin(Norm(e), Rest(u));
    }
  }

  lemma CanonicalCons(e: string, t: string)
    requires Free(e, {PATHSEP}) && (t == "" || t[0] == PATHSEP)
    ensures Canonical(e + t) ==
            if Norm(e) != "" then Norm(e) + Tail(Rest(t), PATHSEP) else Join(DropEmpty(Rest(t)), PATHSEP)
  {
    PiecesCons(e, t);
    ConsJoin(Norm(e), Rest(t));
    assert ([Norm(e)] + Rest(t))[1..] == Rest(t);
  }

  lemma ScanCons(e: string, t: string)
    requires Free(e, {PATHSEP}) && NulFree(e) && NulFree(t) && (t == "" || t[0] == PATHSEP)
    ensures Scan(e + t, false) ==
            if Norm(e) != "" then Norm(e) + Scan(t, true) else if t == "" then "" else Scan(t[1..], false)
  {
    ScanElement(e, t, false);
    if t != "" {
      assert t == [PATHSEP] + t[1..];
      ScanSep(t[1..], false);
    }
  }

  /** The scan computes the canonical path. */
  lemma {:induction false} ScanCanonical(s: string)
    requires NulFree(s)
    ensures Scan(s, false) == Canonical(s)
    decreases |s|
  {
    var n := Span(s, {PATHSEP});
    var e, t := s[..n], s[n..];
    assert s == e + t;
    CanonicalCons(e, t);
    ScanCons(e, t);
    if Norm(e) != "" {
      ScanTail(t);
    } else if t != "" {
      ScanCanonical(t[1..]);
    }
  }

  // What the canonical path is like

  lemma {:induction false} NoLonger(s: string, started: bool)
    ensures |Scan(s, started)| <= |s|
  {
    if s != "" { NoLonger(s[1..], started || Copied(s[0], At(s, 1), started) != ""); }
  }

  lemma {:induction false} NormOf(e: string)
    ensures forall c | c in Norm(e) :: c in e
  {
    if e != "" { NormOf(e[1..]); }
  }

  lemma {:induction false} DropEmptySuffix(es: seq<string>)
    ensures exists k :: 0 <= k <= |es| && DropEmpty(es) == es[k..] && forall i | 0 <= i < k :: es[i] == ""
  {
    if es == [] || es[0] != "" {
      assert DropEmpty(es) == es[0..];
    } else {
      DropEmptySuffix(es[1..]);
      var k :| 0 <= k <= |es| - 1 && DropEmpty(es[1..]) == es[1..][k..] && forall i | 0 <= i < k :: es[1..][i] == "";
      assert DropEmpty(es) == es[k + 1..];
      forall i | 0 <= i < k + 1 ensures es[i] == "" { if i > 0 { assert es[1..][i - 1] == ""; } }
    }
  }

  /** Every canonical element is tidy and has no separator. */
  lemma ElementsTidy(path: string)
    ensures forall i | 0 <= i < |Elements(path)| :: Tidy(Elements(path)[i]) && PATHSEP !in Elements(path)[i]
  {
    var es := NonEmpty(Split(path, {PATHSEP}));
    SplitPieces(path, {PATHSEP});
    NonEmptyOf(Split(path, {PATHSEP}));
    DropEmptySuffix(Pieces(path));
    forall i | 0 <= i < |es| ensures Tidy(Norm(es[i])) && PATHSEP !in Norm(es[i]) {
      assert es[i] in Split(path, {PATHSEP});
      NormTidy(es[i]);
      NormOf(es[i]);
    }
  }

  lemma SplitCanonical(path: string)
    ensures Split(Canonical(path), {PATHSEP}) == if Elements(path) == [] then [""] else Elements(path)
  {
    if Elements(path) != [] {
      ElementsTidy(path);
      SplitJoin(Elements(path), PATHSEP);
    }
  }

  predicate LateEmpty(ps: seq<string>) {
    exists i, j :: 0 <= i < j < |ps| && ps[i] != "" && ps[j] == ""
  }

  lemma LateEmptyCons(ps: seq<string>)
    requires ps != []
    ensures LateEmpty(ps) <==> if ps[0] == "" then LateEmpty(ps[1..]) else "" in ps
  {
    var t := ps[1..];
    assert forall k | 0 <= k < |t| :: t[k] == ps[k + 1];
    if LateEmpty(ps) && ps[0] == "" {
      var i, j :| 0 <= i < j < |ps| && ps[i] != "" && ps[j] == "";
      assert t[i - 1] != "" && t[j - 1] == "";
    }
    if LateEmpty(t) {
      var i, j :| 0 <= i < j < |t| && t[i] != "" && t[j] == "";
      assert ps[i + 1] != "" && ps[j + 1] == "";
    }
    if ps[0] != "" && "" in ps {
      var j :| 0 <= j < |ps| && ps[j] == "";
      assert 0 < j;
    }
  }

  lemma {:induction false} LateEmptyIff(ps: seq<string>)
    ensures "" in DropEmpty(ps) <==> LateEmpty(ps)
  {
    if ps != [] {
      LateEmptyCons(ps);
      if ps[0] == "" { LateEmptyIff(ps[1..]); }
    }
  }

  /** An element that is all slashes comes after one that is not. */
  predicate LateSlashes(path: string) {
    var es := NonEmpty(Split(path, {PATHSEP}));
    exists i, j :: 0 <= i < j < |es| && !AllSlashes(es[i]) && AllSlashes(es[j])
  }

  lemma LateSlashesIff(path: string)
    ensures "" in Elements(path) <==> LateSlashes(path)
  {
    var es, ps := NonEmpty(Split(path, {PATHSEP})), Pieces(path);
    forall i | 0 <= i < |es| ensures ps[i] == "" <==> AllSlashes(es[i]) { NormTidy(es[i]); }
    LateEmptyIff(ps);
  }

  /** A list of tidy elements survives a second pass, but for the empty ones. */
  lemma NormFixed(es: seq<string>)
    requires forall i | 0 <= i < |es| :: Tidy(es[i])
    ensures DropEmpty(NormAll(NonEmpty(es))) == NonEmpty(es)
  {
    var ne := NonEmpty(es);
    NonEmptyOf(es);
    forall i | 0 <= i < |ne| ensures Norm(ne[i]) == ne[i] {
      assert ne[i] in ne && ne[i] in es;
      NormTidy(ne[i]);
    }
    assert NormAll(ne) == ne;
    if ne != [] { assert ne[0] in ne; }
  }

  lemma ElementsAgain(path: string)
    ensures Elements(Canonical(path)) == NonEmpty(Elements(path))
  {
    ElementsTidy(path);
    SplitCanonical(path);
    NormFixed(Elements(path));
    NormFixed([""]);
  }

  lemma JoinNonEmptyIff(es: seq<string>)
    requires (es != [] ==> es[0] != "") && forall i | 0 <= i < |es| :: PATHSEP !in es[i]
    ensures Join(NonEmpty(es), PATHSEP) == Join(es, PATHSEP) <==> "" !in es
  {
    var ne := NonEmpty(es);
    NonEmptyIsAll(es);
    if es != [] {
      NonEmptyOf(es);
      forall i | 0 <= i < |ne| ensures PATHSEP !in ne[i] { assert ne[i] in ne && ne[i] in es; }
      SplitJoin(es, PATHSEP);
      SplitJoin(ne, PATHSEP);
    }
  }

  /** The canonical form is stable exactly if no element of the path is all slashes after
      one that is not. */
  lemma CanonicalIdempotentIff(path: string)
    ensures Canonical(Canonical(path)) == Canonical(path) <==> !LateSlashes(path)
  {
    LateSlashesIff(path);
    ElementsAgain(path);
    ElementsTidy(path);
    JoinNonEmptyIff(Elements(path));
  }

  lemma CanonicalStart(path: string)
    ensures Canonical(path) == "" <==> Elements(path) == []
    ensures Canonical(path) != "" ==> Canonical(path)[0] != PATHSEP
  {
    ElementsTidy(path);
    if Elements(path) != [] { JoinCons(Elements(path), PATHSEP); }
  }

  /** No separator leads, trails or is doubled, exactly under the same condition. */
  lemma CanonicalCleanIff(path: string)
    ensures Clean(Canonical(path), PATHSEP) <==> !LateSlashes(path)
  {
    LateSlashesIff(path);
    CanonicalStart(path);
    if Canonical(path) != "" {
      CleanPieces(Canonical(path), PATHSEP);
      SplitCanonical(path);
    }
  }

  /** Without an element of slashes only, the canonical path is the non-empty elements,
      normalised and joined again; it is clean and stable. */
  lemma CanonicalPlain(path: string)
    requires forall e | e in NonEmpty(Split(path, {PATHSEP})) :: !AllSlashes(e)
    ensures Canonical(path) == Join(Pieces(path), PATHSEP)
    ensures Clean(Canonical(path), PATHSEP) && Canonical(Canonical(path)) == Canonical(path)
  {
    var es := NonEmpty(Split(path, {PATHSEP}));
    if es != [] {
      assert es[0] in es;
      NormTidy(es[0]);
    }
    CanonicalCleanIff(path);
    CanonicalIdempotentIff(path);
  }

  lemma PiecesMiddle(e: string, t: string)
    requires e != "" && Free(e, {PATHSEP})
    ensures Pieces(e + [PATHSEP] + t) == [Norm(e)] + Pieces(t)
  {
    PiecesCons(e, [PATHSEP] + t);
    assert e + ([PATHSEP] + t) == e + [PATHSEP] + t && ([PATHSEP] + t)[1..] == t;
  }

  lemma PiecesAround(x: string, y: string)
    requires x != "" && Tidy(x) && Free(x, {PATHSEP}) && y != "" && Tidy(y) && Free(y, {PATHSEP})
    ensures Pieces(x + [PATHSEP] + ("/" + [PATHSEP] + y)) == [x, "", y]
  {
    NormTidy(x);
    NormTidy("/");
    NormTidy(y);
    PiecesMiddle(x, "/" + [PATHSEP] + y);
    PiecesMiddle("/", y);
    PiecesCons(y, "");
    assert y + "" == y;
  }

  lemma JoinTwo(x: string, y: string)
    ensures Join([x, y], PATHSEP) == x + [PATHSEP] + y
  {
    assert [x, y][1..] == [y];
    JoinCons([x, y], PATHSEP);
    JoinCons([y], PATHSEP);
  }

  lemma JoinThree(x: string, y: string)
    ensures Join([x, "", y], PATHSEP) == x + [PATHSEP, PATHSEP] + y
  {
    assert [x, "", y][1..] == ["", y];
    JoinCons([x, "", y], PATHSEP);
    JoinTwo("", y);
    assert "" + [PATHSEP] + y == [PATHSEP] + y;
    assert x + [PATHSEP] + ([PATHSEP] + y) == x + [PATHSEP, PATHSEP] + y;
  }

  lemma NonEmptyThree(x: string, y: string)
    requires x != "" && y != ""
    ensures NonEmpty([x, "", y]) == [x, y]
  {
    NonEmptyLast([x, "", y]);
    assert [x, "", y][..2] == [x, ""];
    NonEmptyLast([x, ""]);
    assert [x, ""][..1] == [x];
    NonEmptyOne(x);
  }

  /** Between any two tidy elements, an element of slashes gives a path that is not stable. */
  lemma NotIdempotent(x: string, y: string)
    requires x != "" && Tidy(x) && Free(x, {PATHSEP}) && y != "" && Tidy(y) && Free(y, {PATHSEP})
    ensures Canonical(x + [PATHSEP] + ("/" + [PATHSEP] + y)) == x + [PATHSEP, PATHSEP] + y
    ensures Canonical(Canonical(x + [PATHSEP] + ("/" + [PATHSEP] + y))) == x + [PATHSEP] + y
  {
    PiecesAround(x, y);
    JoinTwo(x, y);
    JoinThree(x, y);
    NonEmptyThree(x, y);
    ElementsAgain(x + [PATHSEP] + ("/" + [PATHSEP] + y));
  }

  // The loops

  /** `canonicalize_path`. */
  method Canonicalize(path: string) returns (canonical: array<char>, dest: nat)
    requires path != "" && NulFree(path)
    ensures fresh(canonical) && dest <= |path| && dest < canonical.Length && canonical[dest] == EOS
    ensures canonical[..dest] == Canonical(path)
  {
    canonical := new char[1 + |path|];
    dest := 0;
    var src := 0;
    while src < |path|
      invariant 0 <= dest <= src <= |path|
      invariant canonical[..dest] + Scan(path[src..], dest > 0) == Scan(path, false)
    {
      ghost var done, w := canonical[..dest], Copied(path[src], At(path, src + 1), dest > 0);
      ScanAt(path, src, dest > 0);
      dest := CopyOne(canonical, dest, path[src], At(path, src + 1));
      Associative(done, w, Scan(path[src + 1..], dest > 0));
      src := src + 1;
    }
    ScanCanonical(path);
    canonical[dest] := EOS;
    assert canonical[..dest] == Scan(path, false);
  }

  lemma ScanAt(path: string, src: nat, started: bool)
    requires src < |path|
    ensures var w := Copied(path[src], At(path, src + 1), started);
            Scan(path[src..], started) == w + Scan(path[src + 1..], started || w != "")
  {
    assert path[src..][1..] == path[src + 1..];
    assert At(path[src..], 1) == At(path, src + 1);
  }

  /** The body of the loop, on the character at `src` and the one after it. */
  method CopyOne(canonical: array<char>, dest: nat, c: char, next: char) returns (dest': nat)
    requires dest < canonical.Length
    modifies canonical
    ensures dest <= dest' <= dest + 1
    ensures canonical[..dest'] == old(canonical[..dest]) + Copied(c, next, dest > 0)
  {
    dest' := dest;
    if c == PATHSEP {
      if dest == 0 || next == PATHSEP || next == EOS { return; }
    }
    if c != '/' {
      dest' := Put(canonical, dest, c);
    } else if next != PATHSEP && next != EOS && next != '/' {
      dest' := Put(canonical, dest, '/');
    }
  }

  /** The directories that a search visits. */
  function Visited(path: string): seq<string> {
    Entries(Canonical(path), PATHSEP)
  }

  /** The last non-empty element of the path is there and not all slashes. */
  predicate EndsInName(path: string) {
    var es := NonEmpty(Split(path, {PATHSEP}));
    es != [] && !AllSlashes(es[|es| - 1])
  }

  lemma {:induction false} DropEmptyLast(ps: seq<string>)
    ensures DropEmpty(ps) != [] && DropEmpty(ps)[|DropEmpty(ps)| - 1] != "" <==> ps != [] && ps[|ps| - 1] != ""
  {
    if ps != [] && ps[0] == "" { DropEmptyLast(ps[1..]); }
  }

  lemma LastElement(path: string)
    ensures EndsInName(path) <==> Elements(path) != [] && Elements(path)[|Elements(path)| - 1] != ""
  {
    var es := NonEmpty(Split(path, {PATHSEP}));
    DropEmptyLast(NormAll(es));
    if es != [] { NormTidy(es[|es| - 1]); }
  }

  /** The search visits the non-empty canonical elements in order, and nothing else exactly
      if the path ends in a name; otherwise it visits an empty name at the end. */
  lemma VisitedIff(path: string)
    ensures Visited(path) == NonEmpty(Elements(path)) + if EndsInName(path) then [] else [""]
  {
    SplitCanonical(path);
    LastElement(path);
    if Elements(path) == [] {
      assert Trim([""]) == [""];
    } else {
      TrimIsNonEmpty(Elements(path));
    }
  }

  lemma {:induction false} NonEmptyDropped(ps: seq<string>)
    ensures NonEmpty(DropEmpty(ps)) == NonEmpty(ps)
  {
    if ps != [] && ps[0] == "" {
      NonEmptyDropped(ps[1..]);
    }
  }

  /** Read from the path: its elements between colons, normalised, without those that are
      empty or only slashes. */
  lemma VisitedFromPath(path: string)
    requires EndsInName(path)
    ensures Visited(path) == NonEmpty(NormAll(Split(path, {':'})))
  {
    VisitedIff(path);
    NonEmptyDropped(Pieces(path));
    NormNonEmpty(Split(path, {':'}));
  }

  lemma {:induction false} NormNonEmpty(es: seq<string>)
    ensures NonEmpty(NormAll(NonEmpty(es))) == NonEmpty(NormAll(es))
  {
    if es != [] {
      var t := es[1..];
      NormNonEmpty(t);
      assert NormAll(es)[1..] == NormAll(t);
      if es[0] == "" {
        assert NonEmpty(es) == NonEmpty(t) && NormAll(es)[0] == "";
      } else {
        assert NonEmpty(es)[1..] == NonEmpty(t);
        assert NormAll(NonEmpty(es))[1..] == NormAll(NonEmpty(t));
        assert NormAll(NonEmpty(es))[0] == NormAll(es)[0];
      }
    }
  }

  lemma {:induction false} ScanOf(s: string, started: bool)
    ensures forall c | c in Scan(s, started) :: c in s
  {
    if s != "" { ScanOf(s[1..], started || Copied(s[0], At(s, 1), started) != ""); }
  }

  /** A visited directory is tidy, and empty only if the path does not end in a name. */
  lemma VisitedTidy(path: string)
    ensures forall i | 0 <= i < |Visited(path)| ::
              Tidy(Visited(path)[i]) && (EndsInName(path) ==> Visited(path)[i] != "")
  {
    var ds, ne := Visited(path), NonEmpty(Elements(path));
    VisitedIff(path);
    ElementsTidy(path);
    NonEmptyOf(Elements(path));
    forall i | 0 <= i < |ds| ensures Tidy(ds[i]) && (EndsInName(path) ==> ds[i] != "") {
      if i < |ne| { assert ds[i] == ne[i] && ne[i] in ne && ne[i] in Elements(path); }
    }
  }

  function InDirectory(dir: string, base: string): string {
    if base == "" then dir else dir + "/" + base
  }

  /** The name of a file in a directory: the names of the directory, then those of the base. */
  predicate FileIn(filename: string, dir: string, base: string) {
    if base == "" then filename == dir
    else Split(filename, {'/'}) == Split(dir, {'/'}) + Split(base, {'/'})
  }

  lemma InDirectoryIs(dir: string, base: string)
    ensures FileIn(InDirectory(dir, base), dir, base)
  {
    SplitAround(dir, '/', base, {'/'});
  }

  method FileName(dir: string, base: string) returns (filename: string)
    requires Tidy(dir) && (base != "" ==> dir != "")
    ensures filename == InDirectory(dir, base)
  {
    filename := dir;
    if base != "" {
      if filename[|dir| - 1] != '/' { filename := filename + "/"; }
      filename := filename + base;
    }
  }

  method NameAt(v: Vector, place: nat, base: string, ghost dirs: seq<string>, ghost j: nat)
    returns (filename: string)
    requires v.Holds(dirs) && j < |dirs| && place == Start(dirs, j)
    requires Tidy(dirs[j]) && (base != "" ==> dirs[j] != "")
    ensures place < Start(dirs, j + 1) && filename == InDirectory(dirs[j], base)
  {
    StringAtIs(dirs, j);
    EntryAt(dirs, j);
    filename := FileName(StringAt(v.Bytes(), place), base);
  }

  function Names(dirs: seq<string>, base: string): (r: seq<string>)
    ensures |r| == |dirs| && forall i | 0 <= i < |dirs| :: r[i] == InDirectory(dirs[i], base)
  {
    seq(|dirs|, i requires 0 <= i < |dirs| => InDirectory(dirs[i], base))
  }

  /** Calls on a list of names: in order, up to the first result that is not zero. */
  predicate Tried(names: seq<string>, func: string -> int, result: int, calls: seq<string>) {
    && calls <= names
    && (forall i | 0 <= i < |calls| - 1 :: func(calls[i]) == 0)
    && result == (if calls == [] then 0 else func(calls[|calls| - 1]))
    && (result == 0 ==> calls == names)
  }

  /** `foreach_dirinpath`.  With a base name, the last byte of every directory is read, so
      none may be empty. */
  method ForeachDir(path: string, base: string, func: string -> int) returns (result: int, calls: seq<string>)
    requires NulFree(path) && (path != "" && base != "" ==> EndsInName(path))
    ensures path == "" ==> result == 0 && calls == []
    ensures path != "" ==> Tried(Names(Visited(path), base), func, result, calls)
    ensures path != "" ==> |calls| <= |Visited(path)| &&
                           forall i | 0 <= i < |calls| :: FileIn(calls[i], Visited(path)[i], base)
  {
    result, calls := 0, [];
    if path == "" { return; }
    var canonical, n := Canonicalize(path);
    ScanCanonical(path);
    ScanOf(path, false);
    var v := CreateSep(canonical[..n], PATHSEP);
    VisitedTidy(path);
    result, calls := TryAll(v, Visited(path), base, func, Names(Visited(path), base));
    forall i | 0 <= i < |calls| ensures FileIn(calls[i], Visited(path)[i], base) {
      InDirectoryIs(Visited(path)[i], base);
    }
  }

  /** The first `j` calls gave zero. */
  predicate ZeroTo(names: seq<string>, func: string -> int, j: nat) {
    j <= |names| && forall i | 0 <= i < j :: func(names[i]) == 0
  }

  lemma TriedTo(names: seq<string>, func: string -> int, j: nat)
    requires ZeroTo(names, func, j) && j < |names|
    ensures if func(names[j]) == 0 then ZeroTo(names, func, j + 1)
            else Tried(names, func, func(names[j]), names[..j] + [names[j]])
  {
  }

  lemma TriedAll(names: seq<string>, func: string -> int)
    requires ZeroTo(names, func, |names|)
    ensures Tried(names, func, 0, names[..|names|])
  {
    assert names[..|names|] == names;
  }

  method TryAll(v: Vector, ghost dirs: seq<string>, base: string, func: string -> int, ghost names: seq<string>)
    returns (result: int, calls: seq<string>)
    requires v.Holds(dirs) && forall i | 0 <= i < |dirs| :: Tidy(dirs[i]) && (base != "" ==> dirs[i] != "")
    requires names == Names(dirs, base)
    ensures Tried(names, func, result, calls)
  {
    result, calls := 0, [];
    ghost var j: nat := 0;
    var dir := v.Next(None, dirs, 0);
    while dir.Some?
      invariant ZeroTo(names, func, j) && calls == names[..j] && dir == Place(dirs, j) && result == 0
      decreases |dirs| - j
    {
      var filename := NameAt(v, dir.value, base, dirs, j);
      TriedTo(names, func, j);
      PrefixSnoc(names, j);
      calls := calls + [filename];
      result := func(filename);
      if result != 0 { return; }
      dir := v.Next(dir, dirs, j);
      j := j + 1;
    }
    TriedAll(names, func);
  }
}
