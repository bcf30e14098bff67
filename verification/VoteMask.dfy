/** The bitmask in which the workers of one replicated query record success.

    Bit `bi` of `results` is set by the worker of backend `bi`.  The source
    shifts 32-bit `int` values, so a mask is well defined for at most
    `MAX_BACKENDS` backends; `ShiftsFit` shows that no shift overflows there.
 */
module VoteMask {
  import opened Powers

  const MAX_BACKENDS: nat := 30
  const INT_MAX: nat := 0x7fff_ffff

  /** `x << e` on a value and shift that stay inside the type. */
  function Shl(x: nat, e: nat): nat {
    x * Pow2(e)
  }

  /** Bitwise `|` of two unsigned values. */
  function Or(a: nat, b: nat): nat {
    if a == 0 && b == 0 then 0
    else (if a % 2 == 1 || b % 2 == 1 then 1 else 0) + 2 * Or(a / 2, b / 2)
  }

  /** Bitwise `&` of two unsigned values. */
  function And(a: nat, b: nat): nat {
    if a == 0 || b == 0 then 0
    else (if a % 2 == 1 && b % 2 == 1 then 1 else 0) + 2 * And(a / 2, b / 2)
  }

  /** Bit of one backend, as both the voters and the final check write it. */
  function Bit(bi: nat): nat {
    if bi == 0 then 1 else Shl(2, bi - 1)
  }

  /** The mask that the commit test compares against. */
  function Full(n: nat): nat
    requires n >= 1
  {
    Shl(2, n - 1) - 1
  }

  /** Mask after the given votes were recorded, in this order. */
  function Tally(ballots: seq<nat>): nat {
    if ballots == [] then 0
    else Or(Tally(ballots[..|ballots| - 1]), Bit(ballots[|ballots| - 1]))
  }

  /** The `i`-th binary digit. */
  predicate Digit(m: nat, i: nat)
    decreases i
  {
    if i == 0 then m % 2 == 1 else Digit(m / 2, i - 1)
  }

  /** No shift of the vote code leaves the range of a 32-bit int. */
  lemma ShiftsFit(n: nat)
    requires 1 <= n <= MAX_BACKENDS
    ensures Shl(2, n - 1) <= INT_MAX
    ensures forall bi: nat :: bi < n ==> Bit(bi) <= INT_MAX
  {
    assert Pow2(8) == 256 && Pow2(16) == 0x1_0000 && Pow2(24) == 0x100_0000 && Pow2(30) == 0x4000_0000;
    Pow2Grows(n, 30);
    forall bi: nat | bi < n ensures Bit(bi) <= INT_MAX { Pow2Grows(bi, 30); }
  }

  lemma {:induction false} DigitOfZero(i: nat)
    ensures !Digit(0, i)
  {
    if i > 0 { DigitOfZero(i - 1); }
  }

  lemma {:induction false} DigitOfPow2(e: nat, i: nat)
    ensures Digit(Pow2(e), i) <==> i == e
  {
    if i > 0 && e > 0 {
      assert Pow2(e) / 2 == Pow2(e - 1);
      DigitOfPow2(e - 1, i - 1);
    } else if i > 0 {
      DigitOfZero(i - 1);
    }
  }

  lemma {:induction false} DigitOfOnes(n: nat, i: nat)
    ensures Digit(Pow2(n) - 1, i) <==> i < n
  {
    if n == 0 {
      DigitOfZero(i);
    } else if i > 0 {
      assert (Pow2(n) - 1) / 2 == Pow2(n - 1) - 1;
      DigitOfOnes(n - 1, i - 1);
    }
  }

  lemma {:induction false} DigitOfOr(a: nat, b: nat, i: nat)
    ensures Digit(Or(a, b), i) <==> Digit(a, i) || Digit(b, i)
    decreases i
  {
    if i == 0 {
    } else if a == 0 && b == 0 {
      DigitOfZero(i);
    } else {
      assert Or(a, b) / 2 == Or(a / 2, b / 2);
      DigitOfOr(a / 2, b / 2, i - 1);
    }
  }

  /** Two masks with the same digits are the same number. */
  lemma {:induction false} SameDigits(a: nat, b: nat)
    requires forall i: nat :: Digit(a, i) <==> Digit(b, i)
    ensures a == b
    decreases a + b
  {
    if a + b > 0 {
      forall i: nat ensures Digit(a / 2, i) <==> Digit(b / 2, i) {
        assert Digit(a, i + 1) <==> Digit(b, i + 1);
      }
      SameDigits(a / 2, b / 2);
      assert Digit(a, 0) <==> Digit(b, 0);
    }
  }

  lemma {:induction false} AndPow2(m: nat, e: nat)
    ensures And(m, Pow2(e)) != 0 <==> Digit(m, e)
    decreases e
  {
    if m == 0 {
      DigitOfZero(e);
    } else if e > 0 {
      assert Pow2(e) / 2 == Pow2(e - 1) && Pow2(e) % 2 == 0;
      AndPow2(m / 2, e - 1);
    } else {
      assert Pow2(0) / 2 == 0 && And(m / 2, 0) == 0;
    }
  }

  lemma {:induction false} DigitOfTally(ballots: seq<nat>, i: nat)
    ensures Digit(Tally(ballots), i) <==> i in ballots
  {
    if ballots == [] {
      DigitOfZero(i);
    } else {
      var rest, last := ballots[..|ballots| - 1], ballots[|ballots| - 1];
      assert ballots == rest + [last];
      DigitOfTally(rest, i);
      assert Bit(last) == Pow2(last);
      DigitOfPow2(last, i);
      DigitOfOr(Tally(rest), Bit(last), i);
    }
  }

  /** The final per-backend test reads back exactly who voted. */
  lemma BitTestReadsVoters(ballots: seq<nat>, bi: nat)
    ensures And(Tally(ballots), Bit(bi)) != 0 <==> bi in ballots
  {
    assert Bit(bi) == Pow2(bi);
    AndPow2(Tally(ballots), bi);
    DigitOfTally(ballots, bi);
  }

  /** The commit test succeeds exactly when every backend voted, whatever the
      order of the votes and however often one is repeated. */
  lemma FullIffAllVoted(ballots: seq<nat>, n: nat)
    requires n >= 1
    requires forall b <- ballots :: b < n
    ensures Tally(ballots) == Full(n) <==> forall bi: nat :: bi < n ==> bi in ballots
  {
    assert Full(n) == Pow2(n) - 1;
    forall i: nat
      ensures Digit(Full(n), i) <==> i < n
      ensures Digit(Tally(ballots), i) <==> i in ballots
    {
      DigitOfOnes(n, i);
      DigitOfTally(ballots, i);
    }
    if forall bi: nat :: bi < n ==> bi in ballots {
      SameDigits(Tally(ballots), Full(n));
    }
  }
}
