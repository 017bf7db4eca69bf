/** Binary digits of unsigned words. */
module Bits {
  function Pow2(k: nat): (p: nat)
    ensures p >= 1
  {
    if k == 0 then 1 else 2 * Pow2(k - 1)
  }

  function Bit(v: nat, k: nat): bool {
    if k == 0 then v % 2 == 1 else Bit(v / 2, k - 1)
  }

  /** The bitwise conjunction of two words. */
  function And(a: nat, b: nat): nat {
    if a == 0 || b == 0 then 0
    else (if a % 2 == 1 && b % 2 == 1 then 1 else 0) + 2 * And(a / 2, b / 2)
  }

  lemma {:induction false} BitOfPow2(k: nat, j: nat)
    ensures Bit(Pow2(k), j) <==> j == k
  {
    if j > 0 {
      if k > 0 { BitOfPow2(k - 1, j - 1); } else { BitOfZero(j); }
    }
  }

  lemma {:induction false} BitOfZero(j: nat)
    ensures !Bit(0, j)
  {
    if j > 0 { BitOfZero(j - 1); }
  }

  lemma {:induction false} AndPow2(k: nat, b: nat)
    ensures And(Pow2(k), b) != 0 <==> Bit(b, k)
  {
    if b == 0 { BitOfZero(k); } else if k > 0 { AndPow2(k - 1, b / 2); }
  }

  /** Words of `n` digits that agree in every digit are equal. */
  lemma {:induction false} SameBits(v: nat, w: nat, n: nat)
    requires v < Pow2(n) && w < Pow2(n)
    requires forall k :: 0 <= k < n ==> Bit(v, k) == Bit(w, k)
    ensures v == w
  {
    if n > 0 {
      forall k | 0 <= k < n - 1 ensures Bit(v / 2, k) == Bit(w / 2, k) {
        assert Bit(v, k + 1) == Bit(w, k + 1);
      }
      SameBits(v / 2, w / 2, n - 1);
      assert Bit(v, 0) == Bit(w, 0);
    }
  }

  /** The complement flips every digit. */
  lemma {:induction false} BitOfComplement(v: nat, n: nat, k: nat)
    requires v < Pow2(n) && k < n
    ensures Pow2(n) - 1 - v >= 0 && Bit(Pow2(n) - 1 - v, k) == !Bit(v, k)
  {
    if k > 0 {
      BitOfComplement(v / 2, n - 1, k - 1);
    }
    HalfComplement(v, Pow2(n - 1));
  }

  lemma HalfComplement(v: nat, p: nat)
    requires v < 2 * p
    ensures var c := 2 * p - 1 - v;
            c / 2 == p - 1 - v / 2 && c % 2 == 1 - v % 2
  {
    var h, r := v / 2, v % 2;
    assert v == 2 * h + r;
    assert 2 * p - 1 - v == 2 * (p - 1 - h) + (1 - r);
  }

  lemma {:induction false} Pow2Monotonic(j: nat, k: nat)
    requires j < k
    ensures Pow2(j) < Pow2(k)
  {
    if j < k - 1 { Pow2Monotonic(j, k - 1); }
  }

  lemma Pow2Of32()
    ensures Pow2(32) == 0x1_0000_0000
  {
    assert Pow2(8) == 256;
    assert Pow2(16) == 65536;
    assert Pow2(24) == 16777216;
  }
}
