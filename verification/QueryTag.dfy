/** Decimal numbers as the C library prints and reads them. */
module Decimal {
  import opened Division

  const LONG_MAX := 0x7fff_ffff_ffff_ffff
  const ULONG_SIZE := 0x1_0000_0000_0000_0000
  const UINT_SIZE := 0x1_0000_0000

  predicate IsDigit(c: char) { '0' <= c <= '9' }

  predicate AllDigits(s: string) {
    forall i | 0 <= i < |s| :: IsDigit(s[i])
  }

  /** `isspace`. */
  predicate IsSpace(c: char) {
    c == ' ' || '\t' <= c <= '\r'
  }

  function DigitChar(d: nat): (c: char)
    requires d < 10
    ensures IsDigit(c) && Value(c) == d
  {
    '0' + d as char
  }

  function Value(c: char): (d: nat)
    requires IsDigit(c)
    ensures d < 10
  {
    c as int - '0' as int
  }

  lemma DigitValue(c: char)
    requires IsDigit(c)
    ensures "0123456789"[Value(c)] == c
  {
    assert forall d: nat | d < 10 :: "0123456789"[d] == DigitChar(d);
  }

  /** The output of "%lu". */
  function Digits(n: nat): (s: string)
    ensures s != "" && AllDigits(s)
  {
    if n < 10 then [DigitChar(n)] else Digits(n / 10) + [DigitChar(n % 10)]
  }

  function Number(s: string): nat
    requires AllDigits(s)
  {
    if s == "" then 0 else 10 * Number(s[..|s| - 1]) + Value(s[|s| - 1])
  }

  function Pow10(k: nat): (p: nat)
    ensures p >= 1
  {
    if k == 0 then 1 else 10 * Pow10(k - 1)
  }

  lemma {:induction false} NumberOfDigits(n: nat)
    ensures Number(Digits(n)) == n
  {
    if n >= 10 {
      NumberOfDigits(n / 10);
      assert (Digits(n / 10) + [DigitChar(n % 10)])[..|Digits(n)| - 1] == Digits(n / 10);
    } else {
      assert [DigitChar(n)][..0] == "";
    }
  }

  /** The digit of a number at a decimal place. */
  function Place(n: nat, i: nat): nat { n / Pow10(i) % 10 }

  lemma PlaceAbove(n: nat, d: nat, i: nat)
    requires i > 0 && d < 10
    ensures Place(10 * n + d, i) == Place(n, i - 1)
  {
    var p := Pow10(i - 1);
    var q, r := n / p, n % p;
    assert 10 * n + d == q * (10 * p) + (10 * r + d) && 10 * r + d < 10 * p;
    Divided(10 * n + d, q, 10 * r + d, 10 * p);
  }

  /** Read as a number, a string of digits has those digits at its decimal places, the last
      one at the lowest place, and nothing above them. */
  lemma {:induction false} NumberPlaces(s: string, i: nat)
    requires AllDigits(s)
    ensures i < |s| ==> Place(Number(s), i) == Value(s[|s| - 1 - i])
    ensures Number(s) < Pow10(|s|)
  {
    NumberBound(s);
    if i < |s| {
      var m := |s| - 1;
      if i == 0 {
        LowestPlace(Number(s[..m]), Value(s[m]));
      } else {
        NumberPlaces(s[..m], i - 1);
        PlaceAbove(Number(s[..m]), Value(s[m]), i);
      }
    }
  }

  lemma LowestPlace(n: nat, d: nat)
    requires d < 10
    ensures Place(10 * n + d, 0) == d
  {
  }

  lemma {:induction false} NumberBound(s: string)
    requires AllDigits(s)
    ensures Number(s) < Pow10(|s|)
  {
    if s != "" { NumberBound(s[..|s| - 1]); }
  }

  /** The length of the output. */
  lemma {:induction false} DigitsLength(n: nat, k: nat)
    requires k >= 1
    ensures |Digits(n)| <= k <==> n < Pow10(k)
    decreases k
  {
    if n >= 10 && k > 1 {
      DigitsLength(n / 10, k - 1);
    }
  }

  function DigitRun(s: string): (n: nat)
    ensures n <= |s| && AllDigits(s[..n])
  {
    if s == "" || !IsDigit(s[0]) then 0 else 1 + DigitRun(s[1..])
  }

  function SkipSpaces(s: string): string {
    if s != "" && IsSpace(s[0]) then SkipSpaces(s[1..]) else s
  }

  datatype Long = Long(value: int, range: bool)

  /** `strtol` in base ten on a 64-bit machine; `range` says that `errno` was set. */
  function Strtol(s: string): (r: Long)
    ensures -LONG_MAX - 1 <= r.value <= LONG_MAX
  {
    var t := SkipSpaces(s);
    var negative := t != "" && t[0] == '-';
    var u := if negative || (t != "" && t[0] == '+') then t[1..] else t;
    var n: int := Number(u[..DigitRun(u)]);
    if negative then
      if n > LONG_MAX + 1 then Long(-LONG_MAX - 1, true) else Long(-n, false)
    else
      if n > LONG_MAX then Long(LONG_MAX, true) else Long(n, false)
  }

  /** `atoi`: the low 32 bits of what `strtol` gives, as a signed number. */
  function Atoi(s: string): int { ToInt(Strtol(s).value) }

  /** Conversion of a `long` to `int`, modulo 2^32. */
  function ToInt(v: int): (r: int)
    ensures -UINT_SIZE / 2 <= r < UINT_SIZE / 2 && (r - v) % UINT_SIZE == 0
  {
    var low := v % UINT_SIZE;
    if low < UINT_SIZE / 2 then low else low - UINT_SIZE
  }

  /** Conversion of a `long` to `unsigned long`, modulo 2^64. */
  function ToULong(v: int): (r: nat)
    ensures r < ULONG_SIZE && (r - v) % ULONG_SIZE == 0
  {
    v % ULONG_SIZE
  }

  lemma ToIntKeeps(n: nat)
    requires n < UINT_SIZE / 2
    ensures ToInt(n) == n
  {
  }

  /** What `strtol` makes of a sign and digits. */
  function Clamped(n: int): Long {
    if n > LONG_MAX then Long(LONG_MAX, true)
    else if n < -LONG_MAX - 1 then Long(-LONG_MAX - 1, true)
    else Long(n, false)
  }

  /** Text at which the digits of a number end. */
  predicate Ends(rest: string) {
    rest == "" || !IsDigit(rest[0])
  }

  lemma {:induction false} SpacesSkipped(spaces: string, s: string)
    requires (forall i | 0 <= i < |spaces| :: IsSpace(spaces[i])) && (s == "" || !IsSpace(s[0]))
    ensures SkipSpaces(spaces + s) == s
  {
    if spaces == "" {
      assert spaces + s == s;
    } else {
      assert (spaces + s)[1..] == spaces[1..] + s;
      SpacesSkipped(spaces[1..], s);
    }
  }

  lemma {:induction false} DigitRunIs(digits: string, rest: string)
    requires AllDigits(digits) && Ends(rest)
    ensures DigitRun(digits + rest) == |digits|
  {
    if digits == "" {
      assert digits + rest == rest;
    } else {
      assert (digits + rest)[1..] == digits[1..] + rest;
      DigitRunIs(digits[1..], rest);
    }
  }

  lemma DigitsRead(digits: string, rest: string)
    requires AllDigits(digits) && Ends(rest)
    ensures var u := digits + rest; Number(u[..DigitRun(u)]) == Number(digits)
  {
    DigitRunIs(digits, rest);
    assert (digits + rest)[..|digits|] == digits;
  }

  /** `strtol` on any text: spaces, perhaps a sign, digits, and whatever follows them. */
  lemma StrtolReads(spaces: string, sign: string, digits: string, rest: string)
    requires forall i | 0 <= i < |spaces| :: IsSpace(spaces[i])
    requires sign in {"", "+", "-"} && AllDigits(digits) && Ends(rest)
    requires sign == "" && digits == "" && rest != "" ==> !IsSpace(rest[0]) && rest[0] !in {'+', '-'}
    ensures Strtol(spaces + (sign + (digits + rest)))
            == Clamped((if sign == "-" then -1 else 1) * Number(digits))
  {
    var u := digits + rest;
    var t := sign + u;
    SpacesSkipped(spaces, t);
    DigitsRead(digits, rest);
    if sign == "" {
      assert t == u;
    } else {
      assert t[1..] == u && t[0] == sign[0];
    }
  }

  lemma {:induction false} DigitRunAll(s: string)
    requires AllDigits(s)
    ensures DigitRun(s) == |s|
  {
    if s != "" { DigitRunAll(s[1..]); }
  }

  /** Reading back what was printed, with or without a space in front. */
  lemma StrtolOfDigits(n: nat)
    ensures Strtol(Digits(n)) == if n <= LONG_MAX then Long(n, false) else Long(LONG_MAX, true)
    ensures Strtol(" " + Digits(n)) == Strtol(Digits(n))
  {
    var s := Digits(n);
    assert IsDigit(s[0]);
    assert SkipSpaces(s) == s;
    assert (" " + s)[1..] == s;
    DigitRunAll(s);
    assert s[..|s|] == s;
    NumberOfDigits(n);
  }
}

/** The transaction number at the end of a replicated query. */
module QueryTag {
  import opened Decimal

  const LONG_LEN := 20
  const ID_SIZE := 3 + LONG_LEN

  /** The text that `proxy_backend_query` appends. */
  function Tag(id: nat): string { "-- " + Digits(id) }

  /** What follows the last dash, as `strrchr` finds it. */
  function AfterDash(s: string): (t: string)
    requires '-' in s
    ensures |t| < |s| && s[|s| - |t| - 1] == '-' && s[|s| - |t|..] == t && '-' !in t
  {
    var n := |s| - 1;
    if s[n] == '-' then ""
    else
      assert s[..n] + [s[n]] == s;
      var t := AfterDash(s[..n]) + [s[n]];
      t
  }

  function ToId(r: Long): nat {
    if r.range then 0 else ToULong(r.value)
  }

  /** `id_from_query`. */
  function IdFromQuery(query: string): nat {
    if '-' !in query then 0 else ToId(Strtol(AfterDash(query)))
  }

  lemma {:induction false} AfterDashIs(s: string, t: string)
    requires '-' !in t
    ensures AfterDash(s + ['-'] + t) == t
  {
    if t != "" {
      var m := |t| - 1;
      AfterDashIs(s, t[..m]);
      assert (s + ['-'] + t)[..|s| + |t|] == s + ['-'] + t[..m];
      assert t == t[..m] + [t[m]];
    }
  }

  lemma TagIs(text: string, id: nat)
    ensures text + Tag(id) == (text + ['-']) + ['-'] + (" " + Digits(id)) && '-' !in " " + Digits(id)
  {
    assert "-- " == ['-'] + ['-'] + " ";
  }

  lemma IdAfterDash(s: string, t: string)
    requires '-' !in t
    ensures IdFromQuery(s + ['-'] + t) == ToId(Strtol(t))
  {
    AfterDashIs(s, t);
  }

  lemma ToIdKeeps(n: nat)
    requires n <= LONG_MAX
    ensures ToId(Long(n, false)) == n
  {
    assert n < ULONG_SIZE;
  }

  lemma IdOfDigits(id: nat)
    ensures ToId(Strtol(" " + Digits(id))) == if id <= LONG_MAX then id else 0
  {
    StrtolOfDigits(id);
    if id <= LONG_MAX { ToIdKeeps(id); }
  }

  /** The number comes back, whatever the text holds, exactly if it fits a signed long. */
  lemma TagRoundTrip(text: string, id: nat)
    requires id < ULONG_SIZE
    ensures IdFromQuery(text + Tag(id)) == if id <= LONG_MAX then id else 0
  {
    var q, s, t := text + Tag(id), text + ['-'], " " + Digits(id);
    assert q == s + ['-'] + t && '-' !in t by { TagIs(text, id); }
    IdAfterDash(s, t);
    IdOfDigits(id);
  }

  /** Of any query, the number is what the digits behind the last dash say, after spaces and a
      plus sign, whatever follows them; it is zero if they do not fit a signed long. */
  lemma IdIsLastNumber(text: string, spaces: string, sign: string, digits: string, rest: string)
    requires forall i | 0 <= i < |spaces| :: IsSpace(spaces[i])
    requires sign in {"", "+"} && AllDigits(digits) && digits != "" && Ends(rest) && '-' !in rest
    ensures IdFromQuery(text + ['-'] + (spaces + (sign + (digits + rest))))
            == if Number(digits) <= LONG_MAX then Number(digits) else 0
    ensures '-' !in text ==> IdFromQuery(text) == 0
  {
    StrtolReads(spaces, sign, digits, rest);
    IdAfterDash(text, spaces + (sign + (digits + rest)));
    if Number(digits) <= LONG_MAX { ToIdKeeps(Number(digits)); }
  }

  /** A tag never takes more room than was set aside for it, and can take all of it. */
  lemma TagFits(id: nat)
    requires id < ULONG_SIZE
    ensures |Tag(id)| <= ID_SIZE
    ensures |Tag(id)| == ID_SIZE <==> id >= 10_000_000_000_000_000_000
  {
    assert Pow10(5) == 100_000;
    assert Pow10(10) == 10_000_000_000;
    assert Pow10(15) == 1_000_000_000_000_000;
    assert Pow10(19) == 10_000_000_000_000_000_000;
    DigitsLength(id, 19);
    DigitsLength(id, 20);
  }
}
