/** The file that lists the backends: one pass counts lines, a second one reads tokens. */
module BackendFile {
  import opened Options
  import opened Text
  import opened Decimal

  const BLANK := {' ', '\r', '\n', '\t'}
  const NEWLINE := {'\n'}
  const DEFAULT_PORT := 3306

  datatype Host = Host(host: string, port: int)

  /** The words between blanks, as `strtok` gives them. */
  function Tokens(s: string): seq<string> { NonEmpty(Split(s, BLANK)) }

  predicate IsBlank(line: string) {
    forall i | 0 <= i < |line| :: line[i] in " \t\r\n"
  }

  /** The lines that end in a newline. */
  function Lines(s: string): seq<string> {
    var r := Split(s, NEWLINE);
    r[..|r| - 1]
  }

  /** A file whose last line is complete. */
  predicate AtLineStart(s: string) {
    s == "" || s[|s| - 1] == '\n'
  }

  /** Further text is another line once it ends in a newline, and no line before that. */
  lemma LinesAppend(s: string, t: string)
    requires AtLineStart(s) && Free(t, NEWLINE)
    ensures Lines(s + t) == Lines(s)
    ensures Lines(s + t + ['\n']) == Lines(s) + [t]
  {
    SplitLast(s, t);
    SplitSnoc(s + t, '\n', NEWLINE);
    var r := Lines(s) + [t];
    assert (r + [""])[..|r|] == r && r[..|r| - 1] == Lines(s);
  }

  lemma SplitLast(s: string, t: string)
    requires AtLineStart(s) && Free(t, NEWLINE)
    ensures Split(s + t, NEWLINE) == Lines(s) + [t]
  {
    SplitFree(t, '\n', NEWLINE);
    if s == "" {
      assert s + t == t;
      assert Split(s, NEWLINE) == [""];
    } else {
      var a := s[..|s| - 1];
      assert s == a + ['\n'] && s + t == a + ['\n'] + t;
      SplitAround(a, '\n', t, NEWLINE);
      SplitSnoc(a, '\n', NEWLINE);
      assert (Split(a, NEWLINE) + [""])[..|Split(a, NEWLINE)|] == Split(a, NEWLINE);
    }
  }

  function Filled(lines: seq<string>): seq<string> {
    if lines == [] then [] else (if IsBlank(lines[0]) then [] else [lines[0]]) + Filled(lines[1..])
  }

  function AllTokens(lines: seq<string>): seq<string> {
    if lines == [] then [] else Tokens(lines[0]) + AllTokens(lines[1..])
  }

  // Lines and tokens

  lemma TokensAround(a: string, c: char, b: string)
    requires c in BLANK
    ensures Tokens(a + [c] + b) == Tokens(a) + Tokens(b)
  {
    SplitAround(a, c, b, BLANK);
    NonEmptyAppend(Split(a, BLANK), Split(b, BLANK));
  }

  lemma CutAt(s: string, n: nat)
    requires n < |s|
    ensures s == s[..n] + [s[n]] + s[n + 1..]
  {
  }

  /** The tokens of the file are those of its lines, in order. */
  lemma {:induction false} TokensByLine(s: string)
    ensures Tokens(s) == AllTokens(Split(s, NEWLINE))
    decreases |s|
  {
    var n := Span(s, NEWLINE);
    if n < |s| {
      var a, b := s[..n], s[n + 1..];
      TokensByLine(b);
      CutAt(s, n);
      TokensAround(a, s[n], b);
      assert ([a] + Split(b, NEWLINE))[1..] == Split(b, NEWLINE);
    } else {
      assert [s][1..] == [];
    }
  }

  lemma {:induction false} TokensOfBlank(line: string)
    ensures Tokens(line) == [] <==> IsBlank(line)
  {
    if line != "" {
      TokensOfBlank(line[1..]);
      assert line == [line[0]] + line[1..];
      var r := Split(line[1..], BLANK);
      SplitCons(line[0], line[1..], BLANK);
      assert ([""] + r)[1..] == r;
      assert IsBlank(line) <==> line[0] in BLANK && IsBlank(line[1..]);
    } else {
      assert Split(line, BLANK) == [""] && [""][1..] == [];
    }
  }

  lemma {:induction false} AllTokensAppend(a: seq<string>, b: seq<string>)
    ensures AllTokens(a + b) == AllTokens(a) + AllTokens(b)
  {
    if a == [] {
      assert a + b == b;
    } else {
      assert (a + b)[1..] == a[1..] + b;
      AllTokensAppend(a[1..], b);
      Associative(Tokens(a[0]), AllTokens(a[1..]), AllTokens(b));
    }
  }

  /** There are at least as many tokens as lines with something on them. */
  lemma {:induction false} EnoughTokens(lines: seq<string>)
    ensures |AllTokens(lines)| >= |Filled(lines)|
  {
    if lines != [] {
      TokensOfBlank(lines[0]);
      EnoughTokens(lines[1..]);
    }
  }

  lemma {:induction false} OneEach(lines: seq<string>)
    requires OneTokenPerLine(lines)
    ensures |AllTokens(lines)| == |Filled(lines)|
    ensures forall i | 0 <= i < |Filled(lines)| :: Tokens(Filled(lines)[i]) == [AllTokens(lines)[i]]
  {
    if lines != [] {
      var rest := lines[1..];
      TokensOfBlank(lines[0]);
      OneEach(rest);
      if !IsBlank(lines[0]) {
        assert Filled(lines) == [lines[0]] + Filled(rest);
        assert Tokens(lines[0]) == [AllTokens(lines)[0]];
        assert forall i | 0 <= i < |Filled(rest)| :: AllTokens(lines)[i + 1] == AllTokens(rest)[i];
      } else {
        assert AllTokens(lines) == AllTokens(rest) && Filled(lines) == Filled(rest);
      }
    }
  }

  lemma TokensStart(s: string)
    ensures AllTokens(Lines(s)) <= Tokens(s)
  {
    var r := Split(s, NEWLINE);
    TokensByLine(s);
    AllTokensAppend(Lines(s), [r[|r| - 1]]);
    InitLast(r);
  }

  predicate OneTokenPerLine(lines: seq<string>) {
    forall i | 0 <= i < |lines| :: |Tokens(lines[i])| <= 1
  }

  /** What the second pass can count on: a token for every slot, and with at most one token
      on each line, the token of that slot's line. */
  lemma SlotTokens(s: string)
    ensures |Tokens(s)| >= |Filled(Lines(s))|
    ensures OneTokenPerLine(Lines(s)) ==>
            forall i | 0 <= i < |Filled(Lines(s))| :: Tokens(Filled(Lines(s))[i]) == [Tokens(s)[i]]
  {
    var lines := Lines(s);
    TokensStart(s);
    EnoughTokens(lines);
    if OneTokenPerLine(lines) { OneEach(lines); }
  }

  // Hosts

  /** A token is a host name, with a port after the first colon if there is one. */
  function ParseHost(token: string): Host {
    var n := Span(token, {':'});
    if n < |token| then Host(token[..n], Atoi(token[n + 1..])) else Host(token, DEFAULT_PORT)
  }

  lemma AtoiOfDigits(n: nat)
    requires n < UINT_SIZE / 2
    ensures Atoi(Digits(n)) == n
  {
    StrtolOfDigits(n);
    ToIntKeeps(n);
  }

  /** A host and port written as a token are read back. */
  lemma HostRoundTrip(host: string, port: nat)
    requires Free(host, {':'}) && port < UINT_SIZE / 2
    ensures ParseHost(host + [':'] + Digits(port)) == Host(host, port)
    ensures ParseHost(host) == Host(host, 3306)
  {
    HostAtColon(host, Digits(port));
    AtoiOfDigits(port);
    SpanIs(host, "", {':'});
    assert host + "" == host;
  }

  /** The host ends at the first colon, and the port is what follows it. */
  lemma HostAtColon(host: string, port: string)
    requires Free(host, {':'})
    ensures ParseHost(host + [':'] + port) == Host(host, Atoi(port))
  {
    var t := [':'] + port;
    assert host + [':'] + port == host + t;
    SpanIs(host, t, {':'});
    assert (host + t)[..|host|] == host && (host + t)[|host| + 1..] == port;
  }

  // The two passes

  lemma {:induction false} FilledAppend(a: seq<string>, b: seq<string>)
    ensures Filled(a + b) == Filled(a) + Filled(b)
  {
    if a == [] {
      assert a + b == b;
    } else {
      assert (a + b)[1..] == a[1..] + b;
      FilledAppend(a[1..], b);
      Associative(if IsBlank(a[0]) then [] else [a[0]], Filled(a[1..]), Filled(b));
    }
  }

  /** Lines seen so far, and whether the line being read has something on it. */
  ghost predicate Seen(s: string, num: nat, c: nat) {
    var r := Split(s, NEWLINE);
    num == |Filled(r[..|r| - 1])| && (c == 0 <==> IsBlank(r[|r| - 1]))
  }

  lemma SeenNewline(s: string, num: nat, c: nat)
    requires Seen(s, num, c)
    ensures Seen(s + ['\n'], if c > 0 then num + 1 else num, 0)
  {
    var r := Split(s, NEWLINE);
    var n := |r| - 1;
    SplitSnoc(s, '\n', NEWLINE);
    assert (r + [""])[..n + 1] == r == r[..n] + [r[n]];
    FilledAppend(r[..n], [r[n]]);
    assert [r[n]][1..] == [];
  }

  lemma BlankSnoc(line: string, x: char)
    ensures IsBlank(line + [x]) <==> IsBlank(line) && x in BLANK
  {
    var s := line + [x];
    assert s[|line|] == x && forall i | 0 <= i < |line| :: s[i] == line[i];
    if !IsBlank(line) {
      var i :| 0 <= i < |line| && line[i] !in BLANK;
      assert s[i] !in BLANK;
    }
  }

  lemma SeenOther(s: string, num: nat, c: nat, x: char)
    requires Seen(s, num, c) && x != '\n'
    ensures Seen(s + [x], num, if x in BLANK then c else c + 1)
  {
    var r := Split(s, NEWLINE);
    var n := |r| - 1;
    SplitSnoc(s, x, NEWLINE);
    var r' := r[..n] + [r[n] + [x]];
    assert r'[..n] == r[..n];
    BlankSnoc(r[n], x);
  }

  /** The first pass counts the newline-terminated lines that are not blank. */
  method CountLines(buf: string) returns (num: nat)
    ensures num == |Filled(Lines(buf))|
  {
    num := 0;
    var c := 0;
    for i := 0 to |buf|
      invariant c >= 0 && Seen(buf[..i], num, c)
    {
      PrefixSnoc(buf, i);
      if buf[i] == '\n' {
        SeenNewline(buf[..i], num, c);
        if c > 0 {
          num := num + 1;
          c := 0;
        }
      } else {
        SeenOther(buf[..i], num, c, buf[i]);
        if buf[i] != '\r' && buf[i] != '\t' && buf[i] != ' ' {
          c := c + 1;
        }
      }
    }
    assert buf[..|buf|] == buf;
  }

  /** `strtok` from a position: the next token and where to go on. */
  method NextToken(buf: string, pos: nat) returns (token: Option<string>, pos': nat)
    requires pos <= |buf|
    ensures pos <= pos' <= |buf|
    ensures match token
            case None => Tokens(buf[pos..]) == []
            case Some(t) => pos < pos' && Tokens(buf[pos..]) == [t] + Tokens(buf[pos'..])
  {
    var i := pos;
    while i < |buf| && buf[i] in BLANK
      invariant pos <= i <= |buf| && Tokens(buf[pos..]) == Tokens(buf[i..])
    {
      SkipBlank(buf, i);
      i := i + 1;
    }
    if i == |buf| {
      assert buf[i..] == "";
      TokensOfBlank("");
      return None, i;
    }
    var j := i;
    while j < |buf| && buf[j] !in BLANK
      invariant i <= j <= |buf| && Free(buf[i..j], BLANK)
    {
      FreeSnoc(buf, i, j, BLANK);
      j := j + 1;
    }
    FirstToken(buf, i, j);
    return Some(buf[i..j]), if j < |buf| then j + 1 else j;
  }

  lemma SkipBlank(buf: string, i: nat)
    requires i < |buf| && buf[i] in BLANK
    ensures Tokens(buf[i..]) == Tokens(buf[i + 1..])
  {
    var r := Split(buf[i + 1..], BLANK);
    assert buf[i..] == [buf[i]] + buf[i + 1..];
    SplitCons(buf[i], buf[i + 1..], BLANK);
    assert ([""] + r)[1..] == r;
  }

  lemma FirstToken(buf: string, i: nat, j: nat)
    requires i < j <= |buf| && Free(buf[i..j], BLANK) && (j < |buf| ==> buf[j] in BLANK)
    ensures Tokens(buf[i..]) == [buf[i..j]] + Tokens(buf[if j < |buf| then j + 1 else j..])
  {
    assert buf[i..] == buf[i..j] + buf[j..];
    TokensHead(buf[i..j], buf[j..]);
    if j < |buf| { assert buf[j..][1..] == buf[j + 1..]; } else { TokensOfBlank(buf[j..]); }
  }

  lemma TokensHead(w: string, t: string)
    requires w != "" && Free(w, BLANK) && (t == "" || t[0] in BLANK)
    ensures Tokens(w + t) == [w] + if t == "" then [] else Tokens(t[1..])
  {
    SplitHead(w, t, BLANK);
    if t == "" {
      NonEmptyOne(w);
    } else {
      NonEmptyAppend([w], Split(t[1..], BLANK));
      NonEmptyOne(w);
    }
  }

  /** `strtok` sees the file up to its first terminator. */
  function Visible(buf: string): string { buf[..Span(buf, {EOS})] }

  lemma VisibleIs(a: string, b: string)
    requires NulFree(a)
    ensures Visible(a) == a && Visible(a + [EOS] + b) == a
  {
    SpanIs(a, "", {EOS});
    assert a + "" == a && a[..|a|] == a;
    SpanIs(a, [EOS] + b, {EOS});
    assert a + [EOS] + b == a + ([EOS] + b) && (a + ([EOS] + b))[..|a|] == a;
  }

  /** What slot `k` gets: its token's host, or nothing if there are not enough tokens. */
  function Slot(all: seq<string>, k: nat): Option<Host> {
    if k < |all| then Some(ParseHost(all[k])) else None
  }

  /** `backend_read_file` on the contents of the file. */
  method ReadBackends(buf: string) returns (num: nat, backends: array?<Option<Host>>)
    ensures num == |Filled(Lines(buf))| && (num == 0 <==> backends == null)
    ensures num > 0 ==> backends.Length == num
    ensures var all := Tokens(Visible(buf));
            forall k | 0 <= k < num :: backends[k] == if k < |all| then Some(ParseHost(all[k])) else None
  {
    num := CountLines(buf);
    if num == 0 { return 0, null; }
    var slots := new Option<Host>[num](_ => None);
    FillSlots(Visible(buf), slots, Tokens(Visible(buf)));
    backends := slots;
  }

  /** No slot stays empty exactly if the lines before the first terminator hold as many tokens
      as the file has lines that are not blank; without a terminator none ever does. */
  lemma AllFilledIff(buf: string)
    ensures (forall k: nat | k < |Filled(Lines(buf))| :: Slot(Tokens(Visible(buf)), k).Some?)
            <==> |Filled(Lines(buf))| <= |AllTokens(Split(Visible(buf), NEWLINE))|
    ensures NulFree(buf) ==> forall k: nat | k < |Filled(Lines(buf))| :: Slot(Tokens(Visible(buf)), k).Some?
  {
    var n := |Filled(Lines(buf))|;
    TokensByLine(Visible(buf));
    if n > |Tokens(Visible(buf))| { assert Slot(Tokens(Visible(buf)), n - 1).None?; }
    if NulFree(buf) {
      SpanIs(buf, "", {EOS});
      assert buf + "" == buf && buf[..|buf|] == buf;
      SlotTokens(buf);
    }
  }

  lemma OneLine(line: string)
    requires Free(line, NEWLINE) && !IsBlank(line)
    ensures Filled(Lines(line + ['\n'])) == [line]
  {
    SplitFree(line, '\n', NEWLINE);
    assert [line, ""][..1] == [line] && [line][1..] == [];
  }

  /** A file with a terminator can leave a slot empty: one line that begins with it. */
  lemma NulLeavesSlot(word: string)
    requires Free(word, BLANK) && word != ""
    ensures var buf := [EOS] + word + ['\n']; |Filled(Lines(buf))| == 1 && |Tokens(Visible(buf))| == 0
  {
    var line := [EOS] + word;
    assert line[1] == word[0] && word[0] !in BLANK;
    OneLine(line);
    assert Visible(line + ['\n']) == "";
    TokensOfBlank("");
  }

  /** The tokens from number `i` on are the one at hand and those from `pos` on. */
  ghost predicate Ahead(all: seq<string>, i: nat, buf: string, pch: Option<string>, pos: nat) {
    && i <= |all| && pos <= |buf|
    && all[i..] == if pch.Some? then [pch.value] + Tokens(buf[pos..]) else []
  }

  lemma TakeFirst(all: seq<string>, i: nat, t: string, rest: seq<string>)
    requires i <= |all| && all[i..] == [t] + rest
    ensures i < |all| && all[i] == t && all[i + 1..] == rest
  {
    assert all[i..][0] == t && all[i..][1..] == rest;
  }

  method FirstOne(buf: string, ghost all: seq<string>) returns (pch: Option<string>, pos: nat)
    requires all == Tokens(buf)
    ensures Ahead(all, 0, buf, pch, pos)
  {
    assert buf[0..] == buf && all[0..] == all;
    pch, pos := NextToken(buf, 0);
  }

  method NextOne(buf: string, token: string, pos: nat, ghost all: seq<string>, ghost i: nat)
    returns (pch: Option<string>, pos': nat)
    requires Ahead(all, i, buf, Some(token), pos)
    ensures i < |all| && all[i] == token && Ahead(all, i + 1, buf, pch, pos')
  {
    TakeFirst(all, i, token, Tokens(buf[pos..]));
    pch, pos' := NextToken(buf, pos);
  }

  /** The first `i` slots hold what the first `i` tokens say, the others nothing. */
  ghost predicate Stored(slots: array<Option<Host>>, i: nat, all: seq<string>)
    reads slots
  {
    && i <= slots.Length && i <= |all|
    && (forall k | 0 <= k < i :: slots[k] == Some(ParseHost(all[k])))
    && (forall k | i <= k < slots.Length :: slots[k] == None)
  }

  method Store(slots: array<Option<Host>>, i: nat, token: string, ghost all: seq<string>)
    requires Stored(slots, i, all) && i < slots.Length && i < |all| && all[i] == token
    modifies slots
    ensures Stored(slots, i + 1, all)
  {
    slots[i] := Some(ParseHost(token));
  }

  /** The second pass. */
  method FillSlots(buf: string, slots: array<Option<Host>>, ghost all: seq<string>)
    requires all == Tokens(buf) && Stored(slots, 0, all)
    modifies slots
    ensures forall k | 0 <= k < slots.Length :: slots[k] == Slot(all, k)
  {
    var i := 0;
    var pch, pos := FirstOne(buf, all);
    while pch.Some? && i < slots.Length
      invariant Stored(slots, i, all) && Ahead(all, i, buf, pch, pos)
      decreases slots.Length - i
    {
      pch, pos := FillOne(buf, slots, i, pch.value, pos, all);
      i := i + 1;
    }
    if pch.None? { assert |all[i..]| == 0; }
  }

  method FillOne(buf: string, slots: array<Option<Host>>, i: nat, token: string, pos: nat, ghost all: seq<string>)
    returns (pch: Option<string>, pos': nat)
    requires Stored(slots, i, all) && i < slots.Length && Ahead(all, i, buf, Some(token), pos)
    modifies slots
    ensures Stored(slots, i + 1, all) && Ahead(all, i + 1, buf, pch, pos')
  {
    pch, pos' := NextOne(buf, token, pos, all, i);
    Store(slots, i, token, all);
  }
}
