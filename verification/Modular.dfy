/** Remainders as repeated subtraction, so that proofs about windows of rounds stay linear. */
module Modular {

  function Mod(x: nat, t: nat): (r: nat)
    requires t > 0
    ensures r < t
    ensures x < t ==> r == x
  {
    if x < t then x else Mod(x - t, t)
  }

  lemma MulGrows(k: nat, t: nat)
    requires k >= 1
    ensures k * t >= t
  {
  }

  lemma Unique(d: nat, m: nat, e: nat, n: nat, t: nat)
    requires d * t + m == e * t + n && m < t && n < t
    ensures m == n
  {
    if e < d { MulGrows(d - e, t); } else if d < e { MulGrows(e - d, t); }
  }

  lemma DivMod(x: nat, t: nat)
    requires t > 0
    ensures x / t >= 0 && x % t >= 0 && x == x / t * t + x % t
  {
  }

  lemma {:induction false} ModIsRemainder(x: nat, t: nat)
    requires t > 0
    ensures Mod(x, t) == x % t
  {
    if x >= t {
      ModIsRemainder(x - t, t);
      DivMod(x, t);
      DivMod(x - t, t);
      assert ((x - t) / t + 1) * t == (x - t) / t * t + t;
      Unique(x / t, x % t, (x - t) / t + 1, (x - t) % t, t);
    } else {
      DivMod(x, t);
      Unique(x / t, x % t, 0, x, t);
    }
  }

  /** A residue may replace its number inside a sum. */
  lemma {:induction false} ModOfSum(a: nat, x: nat, t: nat)
    requires t > 0
    ensures Mod(a + Mod(x, t), t) == Mod(a + x, t)
  {
    if x >= t { ModOfSum(a, x - t, t); }
  }

  lemma {:induction false} NearbyResiduesDiffer(x: nat, y: nat, t: nat)
    requires 0 < t && x < y < x + t
    ensures Mod(x, t) != Mod(y, t)
  {
    if x >= t { NearbyResiduesDiffer(x - t, y - t, t); }
  }

  /** Every residue occurs in every window of t consecutive numbers. */
  lemma {:induction false} WithResidue(start: nat, t: nat, b: nat) returns (r: nat)
    requires b < t
    ensures start <= r < start + t && Mod(r, t) == b
  {
    if start >= t {
      var q := WithResidue(start - t, t, b);
      r := q + t;
    } else {
      r := if start <= b then b else b + t;
    }
  }
}
