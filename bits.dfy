/**
 * Python's bitwise operators on non-negative integers, written as
 * arithmetic: `x << k` is `x * Pow2(k)`, `x >> k` is `x / Pow2(k)`,
 * `x & (2^k - 1)` is `x % Pow2(k)`, and `x ^ y` is `Xor(x, y)`.
 * The lemmas give `Xor` the algebra the Bech32 checksum proof needs.
 */
module Bits {

  function Pow2(k: nat): (r: nat)
    ensures r >= 1
  {
    if k == 0 then 1 else 2 * Pow2(k - 1)
  }

  lemma {:induction false} Pow2Add(a: nat, b: nat)
    ensures Pow2(a + b) == Pow2(a) * Pow2(b)
    decreases a
  {
    if a > 0 {
      Pow2Add(a - 1, b);
    }
  }

  lemma {:induction false} Pow2Monotone(a: nat, b: nat)
    requires a <= b
    ensures Pow2(a) <= Pow2(b)
    decreases b
  {
    if a < b {
      Pow2Monotone(a, b - 1);
    }
  }

  /** Python's `a ^ b` on non-negative integers, bit by bit from the lowest. */
  function Xor(a: nat, b: nat): nat
    decreases a + b
  {
    if a == 0 then b
    else if b == 0 then a
    else 2 * Xor(a / 2, b / 2) + (if a % 2 == b % 2 then 0 else 1)
  }

  /** The lowest bit of `a ^ b` and the rest, for every pair of operands. */
  lemma XorUnfold(a: nat, b: nat)
    ensures Xor(a, b) == 2 * Xor(a / 2, b / 2) + (if a % 2 == b % 2 then 0 else 1)
  {
    if a == 0 {
      assert Xor(a / 2, b / 2) == b / 2;
    } else if b == 0 {
      assert Xor(a / 2, b / 2) == a / 2;
    }
  }

  lemma {:induction false} XorComm(a: nat, b: nat)
    ensures Xor(a, b) == Xor(b, a)
    decreases a + b
  {
    if a != 0 && b != 0 {
      XorComm(a / 2, b / 2);
    }
  }

  lemma {:induction false} XorAssoc(a: nat, b: nat, c: nat)
    ensures Xor(Xor(a, b), c) == Xor(a, Xor(b, c))
    decreases a + b + c
  {
    if a == 0 || b == 0 || c == 0 {
    } else {
      var ab, bc := Xor(a, b), Xor(b, c);
      XorUnfold(a, b);
      XorUnfold(b, c);
      XorUnfold(ab, c);
      XorUnfold(a, bc);
      assert ab / 2 == Xor(a / 2, b / 2);
      assert bc / 2 == Xor(b / 2, c / 2);
      XorAssoc(a / 2, b / 2, c / 2);
    }
  }

  lemma {:induction false} XorSelf(a: nat)
    ensures Xor(a, a) == 0
    decreases a
  {
    if a != 0 {
      XorSelf(a / 2);
    }
  }

  /** `a ^ b` fits in `n` bits when both operands do. */
  lemma {:induction false} XorBound(a: nat, b: nat, n: nat)
    requires a < Pow2(n) && b < Pow2(n)
    ensures Xor(a, b) < Pow2(n)
    decreases n
  {
    XorUnfold(a, b);
    if n > 0 {
      XorBound(a / 2, b / 2, n - 1);
    }
  }

  /** Exclusive-or with a value confined to the low `k` bits of a shifted
      value is addition: `(a << k) ^ b == (a << k) + b` when `b < 2^k`. */
  lemma {:induction false} XorDisjoint(a: nat, b: nat, k: nat)
    requires b < Pow2(k)
    ensures Xor(a * Pow2(k), b) == a * Pow2(k) + b
    decreases k
  {
    if k > 0 {
      var m := a * Pow2(k - 1);
      assert a * Pow2(k) == 2 * m;
      XorUnfold(2 * m, b);
      assert (2 * m) / 2 == m && (2 * m) % 2 == 0;
      XorDisjoint(a, b / 2, k - 1);
    }
  }

  /** Shifting distributes over exclusive-or: `(a ^ b) << 5 == (a << 5) ^ (b << 5)`. */
  lemma XorShift5(a: nat, b: nat)
    ensures Xor(a * 32, b * 32) == Xor(a, b) * 32
  {
    var a2, b2 := a * 2, b * 2;
    var a4, b4 := a2 * 2, b2 * 2;
    var a8, b8 := a4 * 2, b4 * 2;
    var a16, b16 := a8 * 2, b8 * 2;
    XorShiftOne(a, b);
    XorShiftOne(a2, b2);
    XorShiftOne(a4, b4);
    XorShiftOne(a8, b8);
    XorShiftOne(a16, b16);
    assert a16 * 2 == a * 32 && b16 * 2 == b * 32;
  }

  lemma XorShiftOne(a: nat, b: nat)
    ensures Xor(a * 2, b * 2) == Xor(a, b) * 2
  {
    var a2, b2 := a * 2, b * 2;
    assert a2 / 2 == a && a2 % 2 == 0 && b2 / 2 == b && b2 % 2 == 0;
    XorUnfold(a2, b2);
  }

  /** Exclusive-or with a value below `2^k` leaves the bits above `k` alone
      and acts on the low `k` bits only. */
  lemma XorSplit(c: nat, y: nat, k: nat)
    requires y < Pow2(k)
    ensures Xor(c, y) / Pow2(k) == c / Pow2(k)
    ensures Xor(c, y) % Pow2(k) == Xor(c % Pow2(k), y)
  {
    var p := Pow2(k);
    DivModSplit(c, p);
    var h: nat, l: nat := c / p, c % p;
    var hp := h * p;
    XorDisjoint(h, l, k);
    assert c == Xor(hp, l);
    XorAssoc(hp, l, y);
    XorBound(l, y, k);
    XorDisjoint(h, Xor(l, y), k);
    assert Xor(c, y) == hp + Xor(l, y);
    DivModUnique(h, Xor(l, y), p);
  }

  lemma DivModUnique(h: nat, l: nat, p: nat)
    requires 0 <= l < p
    ensures (h * p + l) / p == h && (h * p + l) % p == l
  {
    var x := h * p + l;
    var q, r := x / p, x % p;
    assert p * (q - h) == l - r;
    if q > h {
      MulAtLeast(p, q - h);
    } else if q < h {
      MulAtLeast(p, h - q);
    }
  }

  lemma DivModSplit(c: nat, p: nat)
    requires p > 0
    ensures c / p >= 0 && 0 <= c % p < p
    ensures c == (c / p) * p + c % p
  {
  }

  lemma MulMono(a: nat, b: nat, m: nat)
    requires a <= b
    ensures a * m <= b * m
  {
  }

  lemma MulAtLeast(p: nat, d: int)
    requires d >= 1
    ensures p * d >= p
  {
  }

  /** Adding a multiple of `m` does not change the remainder. */
  lemma ModAddMultiple(k: nat, r: nat, m: nat)
    requires m > 0
    ensures (k * m + r) % m == r % m && (k * m + r) / m == k + r / m
  {
    DivModSplit(r, m);
    assert k * m + r == (k + r / m) * m + r % m;
    DivModUnique(k + r / m, r % m, m);
  }

  /** Keeping `b` low bits, then `a <= b` of them, keeps `a` low bits. */
  lemma ModOfMod(x: nat, a: nat, b: nat)
    requires a <= b
    ensures (x % Pow2(b)) % Pow2(a) == x % Pow2(a)
  {
    Pow2Add(a, b - a);
    ModOfModCore(x, Pow2(a), Pow2(b - a));
  }

  lemma ModOfModCore(x: nat, pa: nat, c: nat)
    requires pa > 0 && c > 0
    ensures (x % (pa * c)) % pa == x % pa
  {
    var pb := pa * c;
    DivModSplit(x, pb);
    var q, r := x / pb, x % pb;
    assert x == (q * c) * pa + r;
    ModAddMultiple(q * c, r, pa);
  }

  /** The low `a + t` bits of `x` are its low `a` bits with the next `t`
      bits above them. */
  lemma SplitLow(x: nat, a: nat, t: nat)
    ensures x % Pow2(a + t) == ((x / Pow2(a)) % Pow2(t)) * Pow2(a) + x % Pow2(a)
  {
    Pow2Add(a, t);
    SplitLowCore(x, Pow2(a), Pow2(t));
  }

  lemma SplitLowCore(x: nat, pa: nat, pt: nat)
    requires pa > 0 && pt > 0
    ensures x % (pa * pt) == ((x / pa) % pt) * pa + x % pa
  {
    DivModSplit(x, pa);
    var h, l := x / pa, x % pa;
    DivModSplit(h, pt);
    var h2, m := h / pt, h % pt;
    assert x == h2 * (pa * pt) + (m * pa + l);
    MulMono(m, pt - 1, pa);
    assert m * pa + l < pa * pt;
    DivModUnique(h2, m * pa + l, pa * pt);
  }

  /** Shifting `x` left by `f` bits and filling in `b < 2^f`, then keeping
      `n + f` bits, is keeping `n` bits of `x` before the shift. */
  lemma ShiftInLow(x: nat, b: nat, f: nat, n: nat)
    requires b < Pow2(f)
    ensures (x * Pow2(f) + b) % Pow2(n + f) == (x % Pow2(n)) * Pow2(f) + b
  {
    Pow2Add(n, f);
    ShiftInLowCore(x, b, Pow2(f), Pow2(n));
  }

  lemma ShiftInLowCore(x: nat, b: nat, pf: nat, pn: nat)
    requires b < pf && pn > 0
    ensures (x * pf + b) % (pn * pf) == (x % pn) * pf + b
  {
    DivModSplit(x, pn);
    var q, r := x / pn, x % pn;
    assert x * pf + b == q * (pn * pf) + (r * pf + b);
    MulMono(r, pn - 1, pf);
    assert r * pf + b < pn * pf;
    DivModUnique(q, r * pf + b, pn * pf);
  }

  /** `(x << (t - k)) & (2^t - 1)` is the low `k` bits of `x`, shifted up. */
  lemma ShiftUpLow(x: nat, k: nat, t: nat)
    requires k <= t
    ensures (x * Pow2(t - k)) % Pow2(t) == (x % Pow2(k)) * Pow2(t - k)
  {
    Pow2Add(k, t - k);
    ShiftInLowCore(x, 0, Pow2(t - k), Pow2(k));
  }
}
