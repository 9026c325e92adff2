/** Bit fields of machine words, read and written with integer arithmetic. */
module Bits {

  function Pow2(n: nat): (r: nat)
    ensures r >= 1
  {
    if n == 0 then 1 else 2 * Pow2(n - 1)
  }

  /** The `width` bits of `w` starting at bit `lo`, i.e. bits [lo + width - 1 : lo]. */
  function BitsAt(w: nat, lo: nat, width: nat): nat
  {
    (w / Pow2(lo)) % Pow2(width)
  }

  /** Bitwise OR of two naturals (Python's `|` on non-negative ints). */
  function BitOr(a: nat, b: nat): nat
    decreases a + b
  {
    if a == 0 then b
    else if b == 0 then a
    else 2 * BitOr(a / 2, b / 2) + (if a % 2 == 1 || b % 2 == 1 then 1 else 0)
  }

  lemma {:induction false} Pow2Add(m: nat, n: nat)
    ensures Pow2(m + n) == Pow2(m) * Pow2(n)
  {
    if m > 0 {
      Pow2Add(m - 1, n);
    }
  }

  lemma MulAtLeast(x: int, d: int)
    requires x >= 1 && d >= 0
    ensures x * d >= d
  {
    assert x * d == (x - 1) * d + d;
  }

  lemma DivModUnique(n: int, d: int, q: int, r: int)
    requires d > 0 && 0 <= r < d && n == q * d + r
    ensures n / d == q && n % d == r
  {
    var q', r' := n / d, n % d;
    assert n == q' * d + r';
    if q' > q {
      assert q' * d - q * d == (q' - q) * d;
      MulAtLeast(q' - q, d);
    } else if q' < q {
      assert q * d - q' * d == (q - q') * d;
      MulAtLeast(q - q', d);
    }
  }

  lemma MulSwap(a: int, b: int, c: int)
    ensures a * (b * c) == (a * c) * b
  {
  }

  lemma MulDistrib(a: int, b: int, c: int)
    ensures (a + b) * c == a * c + b * c
  {
  }

  /** A field placed at bit `lo` between a higher part and a lower part reads back unchanged. */
  lemma FieldOf(w: nat, hi: nat, f: nat, lo: nat, width: nat, low: nat)
    requires f < Pow2(width) && low < Pow2(lo)
    requires w == hi * Pow2(lo + width) + f * Pow2(lo) + low
    ensures BitsAt(w, lo, width) == f
  {
    var pl, pw := Pow2(lo), Pow2(width);
    Pow2Add(lo, width);
    var top := hi * pw + f;
    MulSwap(hi, pl, pw);
    MulDistrib(hi * pw, f, pl);
    assert w == top * pl + low;
    DivModUnique(w, pl, top, low);
    DivModUnique(top, pw, hi, f);
  }

  lemma {:induction false} BitOrBound(a: nat, b: nat, n: nat)
    requires a < Pow2(n) && b < Pow2(n)
    ensures BitOr(a, b) < Pow2(n)
  {
    if a != 0 && b != 0 {
      BitOrBound(a / 2, b / 2, n - 1);
    }
  }

  lemma DoubleMul(q: int, h: int)
    ensures 2 * (q * h) == q * (2 * h)
  {
  }

  /** One step of BitOr when the left operand is even. */
  lemma BitOrEvenStep(x: nat, b: nat)
    requires x > 0 && b > 0
    ensures BitOr(2 * x, b) == 2 * BitOr(x, b / 2) + b % 2
  {
    assert (2 * x) / 2 == x && (2 * x) % 2 == 0;
  }

  /** OR of fields that occupy disjoint bit ranges is their sum. */
  lemma {:induction false} DisjointOr(a: nat, b: nat, k: nat)
    requires b < Pow2(k)
    ensures BitOr(a * Pow2(k), b) == a * Pow2(k) + b
    decreases k
  {
    if k == 0 {
      assert b == 0 && a * Pow2(k) == a;
    } else if a == 0 {
      assert a * Pow2(k) == 0;
    } else if b > 0 {
      var h := Pow2(k - 1);
      assert Pow2(k) == 2 * h;
      DoubleMul(a, h);
      MulAtLeast(a, h);
      BitOrEvenStep(a * h, b);
      DisjointOr(a, b / 2, k - 1);
      assert BitOr(a * Pow2(k), b) == 2 * (a * h) + 2 * (b / 2) + b % 2;
    }
  }

  /** The powers of two that the instruction layouts use. */
  lemma Pow2Values()
    ensures Pow2(1) == 0x2
    ensures Pow2(2) == 0x4
    ensures Pow2(3) == 0x8
    ensures Pow2(4) == 0x10
    ensures Pow2(5) == 0x20
    ensures Pow2(6) == 0x40
    ensures Pow2(7) == 0x80
    ensures Pow2(8) == 0x100
    ensures Pow2(12) == 0x1000
    ensures Pow2(16) == 0x10000
    ensures Pow2(19) == 0x80000
    ensures Pow2(20) == 0x100000
    ensures Pow2(21) == 0x200000
    ensures Pow2(22) == 0x400000
    ensures Pow2(23) == 0x800000
    ensures Pow2(24) == 0x1000000
    ensures Pow2(25) == 0x2000000
    ensures Pow2(26) == 0x4000000
    ensures Pow2(28) == 0x10000000
    ensures Pow2(32) == 0x100000000
  {
    assert Pow2(1) == 2 * Pow2(0);
    assert Pow2(2) == 2 * Pow2(1);
    assert Pow2(3) == 2 * Pow2(2);
    assert Pow2(4) == 2 * Pow2(3);
    assert Pow2(5) == 2 * Pow2(4);
    assert Pow2(6) == 2 * Pow2(5);
    assert Pow2(7) == 2 * Pow2(6);
    assert Pow2(8) == 2 * Pow2(7);
    assert Pow2(9) == 2 * Pow2(8);
    assert Pow2(10) == 2 * Pow2(9);
    assert Pow2(11) == 2 * Pow2(10);
    assert Pow2(12) == 2 * Pow2(11);
    assert Pow2(13) == 2 * Pow2(12);
    assert Pow2(14) == 2 * Pow2(13);
    assert Pow2(15) == 2 * Pow2(14);
    assert Pow2(16) == 2 * Pow2(15);
    assert Pow2(17) == 2 * Pow2(16);
    assert Pow2(18) == 2 * Pow2(17);
    assert Pow2(19) == 2 * Pow2(18);
    assert Pow2(20) == 2 * Pow2(19);
    assert Pow2(21) == 2 * Pow2(20);
    assert Pow2(22) == 2 * Pow2(21);
    assert Pow2(23) == 2 * Pow2(22);
    assert Pow2(24) == 2 * Pow2(23);
    assert Pow2(25) == 2 * Pow2(24);
    assert Pow2(26) == 2 * Pow2(25);
    assert Pow2(27) == 2 * Pow2(26);
    assert Pow2(28) == 2 * Pow2(27);
    assert Pow2(29) == 2 * Pow2(28);
    assert Pow2(30) == 2 * Pow2(29);
    assert Pow2(31) == 2 * Pow2(30);
    assert Pow2(32) == 2 * Pow2(31);
  }
}
