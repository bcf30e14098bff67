/** Small definitions shared by several modules. */
module Options {
  datatype Option<+T> = None | Some(value: T)
}

module Powers {
  function Pow2(e: nat): (p: nat)
    ensures p >= 1
  {
    if e == 0 then 1 else 2 * Pow2(e - 1)
  }

  lemma {:induction false} Pow2Grows(d: nat, e: nat)
    requires d <= e
    ensures Pow2(d) <= Pow2(e)
    decreases e
  {
    if d < e { Pow2Grows(d, e - 1); }
  }
}

module Division {

  lemma Exceeds(k: int, q: int, p: nat)
    ensures k > q ==> k * p >= q * p + p
  {
    if k > q {
      var d: nat := k - q - 1;
      assert d * p >= 0;
      calc {
        k * p;
        (q + (1 + d)) * p;
        q * p + (1 + d) * p;
        q * p + (p + d * p);
      }
    }
  }

  /** Quotient and remainder are what they should be. */
  lemma Divided(x: int, q: int, r: int, p: nat)
    requires x == q * p + r && 0 <= r < p
    ensures x / p == q && x % p == r
  {
    var k, s := x / p, x % p;
    assert x == k * p + s && 0 <= s < p;
    Exceeds(k, q, p);
    Exceeds(q, k, p);
  }
}
