/**
 * The Bech32 encoder of tools/brain_wallet.py (BIP-173, "Bech32" section):
 * the checksum polynomial, the expansion of the human-readable part, the
 * six-symbol checksum and the final string.
 *
 * Values are Python's unbounded non-negative integers; the shifts, masks and
 * exclusive-ors of the source are written with `Bits`.
 */
module Bech32 {
  import opened Bits

  /** BECH32_CHARSET: symbol `d` is written as `Charset[d]`. */
  const Charset: string := "qpzry9x8gf2tvdw0s3jn54khce6mua7l"

  /** 2^25: `chk >> 25` and `chk & 0x1FFFFFF` split the state here. */
  const Top: nat := 0x200_0000

  /** 2^30: every state the checksum reaches from small values stays below. */
  const Bound: nat := 0x4000_0000

  lemma Pow2Constants()
    ensures Pow2(0) == 1 && Pow2(5) == 32 && Pow2(10) == 0x400 && Pow2(15) == 0x8000
    ensures Pow2(20) == 0x10_0000 && Pow2(25) == Top && Pow2(30) == Bound
  {
    assert Pow2(5) == 32 by {
      assert Pow2(1) == 2 && Pow2(2) == 4 && Pow2(3) == 8 && Pow2(4) == 16;
    }
    Pow2Add(5, 5);
    Pow2Add(10, 5);
    Pow2Add(15, 5);
    Pow2Add(20, 5);
    Pow2Add(25, 5);
  }

  /** The five generator constants of `_bech32_polymod`. */
  function Gen(i: nat): (g: nat)
    requires i < 5
    ensures g < Bound
  {
    [0x3b6a57b2, 0x26508e6d, 0x1ea119fa, 0x3d4233dd, 0x2a1462b3][i]
  }

  /** Bit `i` of `b`: `(b >> i) & 1`. */
  function Bit(b: nat, i: nat): nat
  {
    if i == 0 then b % 2 else Bit(b / 2, i - 1)
  }

  /** The inner loop of `_bech32_polymod` from index `i` on: exclusive-or of
      `chk` with generator `j` for every set bit `j >= i` of `b`. */
  function MixFrom(chk: nat, b: nat, i: nat): nat
    requires i <= 5
    decreases 5 - i
  {
    if i == 5 then chk
    else MixFrom(Xor(chk, if Bit(b, i) == 1 then Gen(i) else 0), b, i + 1)
  }

  /** One iteration of the outer loop of `_bech32_polymod`. */
  function Step(chk: nat, v: nat): nat
  {
    MixFrom(Xor((chk % Top) * 32, v), chk / Top, 0)
  }

  /** The checksum state after feeding `values` to a state `chk`. */
  function PolymodFrom(chk: nat, values: seq<nat>): nat
    decreases |values|
  {
    if values == [] then chk else PolymodFrom(Step(chk, values[0]), values[1..])
  }

  /** `_bech32_polymod(values)` */
  function Polymod(values: seq<nat>): nat
  {
    PolymodFrom(1, values)
  }

  /** Values below 2^30, as `_bech32_hrp_expand` and five-bit data produce. */
  predicate Bounded(values: seq<nat>)
  {
    forall i :: 0 <= i < |values| ==> values[i] < Bound
  }

  /** Five-bit symbols, the alphabet of the data part. */
  predicate IsFiveBit(data: seq<nat>)
  {
    forall i :: 0 <= i < |data| ==> data[i] < 32
  }

  lemma {:induction false} MixBound(chk: nat, b: nat, i: nat)
    requires i <= 5 && chk < Bound
    ensures MixFrom(chk, b, i) < Bound
    decreases 5 - i
  {
    if i < 5 {
      Pow2Constants();
      XorBound(chk, if Bit(b, i) == 1 then Gen(i) else 0, 30);
      MixBound(Xor(chk, if Bit(b, i) == 1 then Gen(i) else 0), b, i + 1);
    }
  }

  /** One step keeps the state below 2^30 when the value fed is below 2^30. */
  lemma StepBound(chk: nat, v: nat)
    requires v < Bound
    ensures Step(chk, v) < Bound
  {
    Pow2Constants();
    XorBound((chk % Top) * 32, v, 30);
    MixBound(Xor((chk % Top) * 32, v), chk / Top, 0);
  }

  lemma {:induction false} PolymodBound(chk: nat, values: seq<nat>)
    requires chk < Bound && Bounded(values)
    ensures PolymodFrom(chk, values) < Bound
    decreases |values|
  {
    if values != [] {
      StepBound(chk, values[0]);
      PolymodBound(Step(chk, values[0]), values[1..]);
    }
  }

  /** `_bech32_polymod` as the source runs it: the outer loop over the values
      and the inner loop over the five generators. */
  method PolymodLoop(values: seq<nat>) returns (chk: nat)
    ensures chk == Polymod(values)
    ensures Bounded(values) ==> chk < Bound
  {
    chk := 1;
    for k := 0 to |values|
      invariant PolymodFrom(chk, values[k..]) == Polymod(values)
      invariant Bounded(values) ==> chk < Bound
    {
      assert values[k..][1..] == values[k + 1..];
      if Bounded(values) {
        StepBound(chk, values[k]);
      }
      var b := chk / Top;
      chk := Xor((chk % Top) * 32, values[k]);
      ghost var start := chk;
      for i := 0 to 5
        invariant MixFrom(chk, b, i) == MixFrom(start, b, 0)
      {
        chk := Xor(chk, if Bit(b, i) == 1 then Gen(i) else 0);
      }
    }
  }

  /** Feeding `a + b` is feeding `a`, then `b`. */
  lemma {:induction false} PolymodFromAppend(chk: nat, a: seq<nat>, b: seq<nat>)
    ensures PolymodFrom(chk, a + b) == PolymodFrom(PolymodFrom(chk, a), b)
    decreases |a|
  {
    if a == [] {
      assert a + b == b;
    } else {
      assert (a + b)[1..] == a[1..] + b;
      PolymodFromAppend(Step(chk, a[0]), a[1..], b);
    }
  }

  /** The inner loop commutes with an exclusive-or applied beforehand. */
  lemma {:induction false} MixLinear(x: nat, d: nat, b: nat, i: nat)
    requires i <= 5
    ensures MixFrom(Xor(x, d), b, i) == Xor(MixFrom(x, b, i), d)
    decreases 5 - i
  {
    if i < 5 {
      var g := if Bit(b, i) == 1 then Gen(i) else 0;
      XorAssoc(x, d, g);
      XorComm(d, g);
      XorAssoc(x, g, d);
      MixLinear(Xor(x, g), d, b, i + 1);
    }
  }

  /** A difference `y` confined to the low 25 bits of the state passes through
      one step shifted left by five bits, next to the value fed. */
  lemma StepLinear(c: nat, y: nat, w: nat)
    requires y < Top
    ensures Step(Xor(c, y), w) == Xor(Xor(Step(c, 0), y * 32), w)
  {
    Pow2Constants();
    XorSplit(c, y, 25);
    var a := (c % Top) * 32;
    XorShift5(c % Top, y);
    XorAssoc(a, y * 32, w);
    MixLinear(a, Xor(y * 32, w), c / Top, 0);
    XorAssoc(MixFrom(a, c / Top, 0), y * 32, w);
  }

  /** `_bech32_hrp_expand(hrp)`: the high bits of every character, a zero,
      then the low five bits of every character. */
  function HrpExpand(hrp: string): (r: seq<nat>)
    ensures |r| == 2 * |hrp| + 1 && r[|hrp|] == 0
    ensures forall j :: |hrp| < j < |r| ==> r[j] < 32
    ensures forall i :: 0 <= i < |hrp| ==> r[i] * 32 + r[|hrp| + 1 + i] == hrp[i] as int
    ensures Bounded(r)
  {
    seq(|hrp|, i requires 0 <= i < |hrp| => hrp[i] as nat / 32) + [0]
    + seq(|hrp|, i requires 0 <= i < |hrp| => hrp[i] as nat % 32)
  }

  /** The BIP-173 checksum condition on a data part that carries its checksum. */
  predicate VerifyChecksum(hrp: string, data: seq<nat>)
  {
    Polymod(HrpExpand(hrp) + data) == 1
  }

  /** Symbol `i` of the checksum: `(polymod >> 5 * (5 - i)) & 31`. */
  function Symbols(p: nat): (r: seq<nat>)
    ensures |r| == 6 && IsFiveBit(r)
  {
    seq(6, i requires 0 <= i < 6 => (p / Pow2(5 * (5 - i))) % 32)
  }

  /** `_bech32_create_checksum(hrp, data)` */
  function CreateChecksum(hrp: string, data: seq<nat>): (r: seq<nat>)
    ensures |r| == 6 && IsFiveBit(r)
  {
    Symbols(Xor(Polymod(HrpExpand(hrp) + data + Zeros(6)), 1))
  }

  /** The difference after one more symbol still leaves room for the rest. */
  lemma DiffRoom(d: nat, c: seq<nat>)
    requires c != [] && IsFiveBit(c) && (d + 1) * Pow2(5 * |c|) <= Bound
    ensures d < Top && (d * 32 + c[0] + 1) * Pow2(5 * |c[1..]|) <= Bound
  {
    var n := |c[1..]|;
    assert 5 * |c| == 5 + 5 * n;
    Pow2Add(5, 5 * n);
    Pow2Constants();
    NextDiffBound(d, c[0], Pow2(5 * n));
  }

  lemma NextDiffBound(d: nat, w: nat, p: nat)
    requires w < 32 && p >= 1 && (d + 1) * (32 * p) <= Bound
    ensures d < Top && (d * 32 + w + 1) * p <= Bound
  {
    MulMono(1, p, (d + 1) * 32);
    MulMono(d * 32 + w + 1, 32 * (d + 1), p);
    assert 32 * (d + 1) * p == (d + 1) * (32 * p);
  }

  /** `n` zero symbols. */
  function Zeros(n: nat): (r: seq<nat>)
    ensures |r| == n && IsFiveBit(r)
  {
    seq(n, _ => 0)
  }

  /** `d` followed by the symbols `c`, most significant first, as one number. */
  function Pack(d: nat, c: seq<nat>): nat
    decreases |c|
  {
    if c == [] then d else Pack(d * 32 + c[0], c[1..])
  }

  /** The values folded through `f` from the state `chk` on. */
  function FoldFrom(f: (nat, nat) -> nat, chk: nat, values: seq<nat>): nat
    decreases |values|
  {
    if values == [] then chk else FoldFrom(f, f(chk, values[0]), values[1..])
  }

  /** `PolymodFrom` is the fold of `Step`. */
  lemma {:induction false} PolymodIsFold(chk: nat, values: seq<nat>)
    ensures PolymodFrom(chk, values) == FoldFrom(Step, chk, values)
    decreases |values|
  {
    if values != [] {
      PolymodIsFold(Step(chk, values[0]), values[1..]);
    }
  }

  /** A step through which a difference `d` of the state below 2^25 passes
      shifted left by five bits, next to the value fed, as `ShiftIn` shows
      for `Step`. */
  ghost predicate ShiftsDifferences(f: (nat, nat) -> nat)
  {
    forall x: nat, d: nat, w: nat :: d < Top && w < 32 ==> f(Xor(x, d), w) == Xor(f(x, 0), d * 32 + w)
  }

  lemma StepShiftsDifferences()
    ensures ShiftsDifferences(Step)
  {
    forall x: nat, d: nat, w: nat | d < Top && w < 32
      ensures Step(Xor(x, d), w) == Xor(Step(x, 0), d * 32 + w)
    {
      ShiftIn(x, d, w);
    }
  }

  /** Symbols fed after a state that differs by `d` make a state that differs
      from feeding as many zeros by `d` with the symbols packed after it. */
  lemma {:induction false} FeedDiff(f: (nat, nat) -> nat, z: nat, d: nat, c: seq<nat>)
    requires ShiftsDifferences(f)
    requires IsFiveBit(c) && (d + 1) * Pow2(5 * |c|) <= Bound
    ensures FoldFrom(f, Xor(z, d), c) == Xor(FoldFrom(f, z, Zeros(|c|)), Pack(d, c))
    decreases |c|
  {
    if c != [] {
      DiffRoom(d, c);
      FeedDiff(f, f(z, 0), d * 32 + c[0], c[1..]);
      assert f(Xor(z, d), c[0]) == Xor(f(z, 0), d * 32 + c[0]);
      assert Zeros(|c|)[0] == 0 && Zeros(|c|)[1..] == Zeros(|c[1..]|);
    } else {
      assert Zeros(0) == [];
    }
  }

  /** One symbol `w` fed to a state that differs by `d` makes a state that
      differs by `d * 32 + w`. */
  lemma ShiftIn(z: nat, d: nat, w: nat)
    requires d < Top && w < 32
    ensures Step(Xor(z, d), w) == Xor(Step(z, 0), d * 32 + w)
  {
    StepLinear(z, d, w);
    XorShiftIn(Step(z, 0), d, w);
  }

  lemma XorShiftIn(a: nat, d: nat, w: nat)
    requires w < 32
    ensures Xor(Xor(a, d * 32), w) == Xor(a, d * 32 + w)
  {
    XorAssoc(a, d * 32, w);
    XorLowFive(d, w);
  }

  lemma XorLowFive(d: nat, w: nat)
    requires w < 32
    ensures Xor(d * 32, w) == d * 32 + w
  {
    Pow2Constants();
    XorDisjoint(d, w, 5);
  }

  /** Packing the six symbols of a number below 2^30 gives the number back. */
  lemma PackSymbols(p: nat)
    requires p < Bound
    ensures var r := Symbols(p);
      r[0] * 0x200_0000 + r[1] * 0x10_0000 + r[2] * 0x8000 + r[3] * 0x400 + r[4] * 32 + r[5] == p
  {
    var r := Symbols(p);
    SymbolChain(p);
    SymbolChainHigh(p);
    Horner(p, p / Pow2(5), p / Pow2(10), p / Pow2(15), p / Pow2(20), p / Pow2(25),
      r[0], r[1], r[2], r[3], r[4], r[5]);
  }

  /** Each checksum symbol is the low five bits of what remains after the
      symbols below it are shifted out: the three lowest symbols. */
  lemma SymbolChain(p: nat)
    ensures var r := Symbols(p);
      p == (p / Pow2(5)) * 32 + r[5]
      && p / Pow2(5) == (p / Pow2(10)) * 32 + r[4]
      && p / Pow2(10) == (p / Pow2(15)) * 32 + r[3]
  {
    DivOne(p);
    SymbolStep(p, 5);
    SymbolStep(p, 4);
    SymbolStep(p, 3);
  }

  /** The three highest symbols, for a value below 2^30. */
  lemma SymbolChainHigh(p: nat)
    requires p < Bound
    ensures var r := Symbols(p);
      p / Pow2(15) == (p / Pow2(20)) * 32 + r[2]
      && p / Pow2(20) == (p / Pow2(25)) * 32 + r[1]
      && p / Pow2(25) == r[0]
  {
    SymbolStep(p, 2);
    SymbolStep(p, 1);
    TopSymbol(p);
  }

  /** Symbol `i` and the value shifted past it make up the value shifted
      up to it. */
  lemma SymbolStep(p: nat, i: nat)
    requires 1 <= i < 6
    ensures p / Pow2(5 * (5 - i)) == (p / Pow2(5 * (6 - i))) * 32 + Symbols(p)[i]
  {
    DivStep(p, 5 * (5 - i));
  }

  /** The first symbol is all that is left after shifting out the other five. */
  lemma TopSymbol(p: nat)
    requires p < Bound
    ensures p / Pow2(25) == Symbols(p)[0]
  {
    Pow2Add(25, 5);
    Pow2Constants();
    DivBelow(p, Pow2(25), 32);
  }

  /** One more symbol: `p >> k` is `p >> (k + 5)` shifted back with the five
      bits in between. */
  lemma DivStep(p: nat, k: nat)
    ensures p / Pow2(k) == (p / Pow2(k + 5)) * 32 + (p / Pow2(k)) % 32
  {
    Pow2Add(k, 5);
    Pow2Constants();
    DivThirtyTwo(p, Pow2(k));
  }

  lemma DivOne(p: nat)
    ensures p / Pow2(0) == p
  {
  }

  lemma DivBelow(p: nat, m: nat, c: nat)
    requires m > 0 && p < c * m
    ensures 0 <= p / m < c
  {
    DivModSplit(p, m);
    if p / m >= c {
      MulMono(c, p / m, m);
    }
  }

  /** Six base-32 digits, read back most significant first. */
  lemma Horner(p: int, q1: int, q2: int, q3: int, q4: int, q5: int,
               r0: int, r1: int, r2: int, r3: int, r4: int, r5: int)
    requires p == q1 * 32 + r5 && q1 == q2 * 32 + r4 && q2 == q3 * 32 + r3
    requires q3 == q4 * 32 + r2 && q4 == q5 * 32 + r1 && q5 == r0
    ensures r0 * 0x200_0000 + r1 * 0x10_0000 + r2 * 0x8000 + r3 * 0x400 + r4 * 32 + r5 == p
  {
  }

  /** Dividing by `m` and then by 32 is dividing by `32 * m`; the remainder
      of the first division is recovered from the two. */
  lemma DivThirtyTwo(p: nat, m: nat)
    requires m > 0
    ensures p / m == (p / (32 * m)) * 32 + (p / m) % 32
    ensures (p / m) / 32 == p / (32 * m)
  {
    var q := p / m;
    DivModSplit(p, m);
    DivModSplit(q, 32);
    var h, l := q / 32, q % 32;
    assert p == h * (32 * m) + (l * m + p % m);
    MulMono(l, 31, m);
    assert l * m + p % m < 32 * m;
    DivModUnique(h, l * m + p % m, 32 * m);
  }

  /** The property `_bech32_create_checksum` exists for: appending its six
      symbols to five-bit data makes the whole data part pass the BIP-173
      checksum condition. */
  lemma ChecksumVerifies(hrp: string, data: seq<nat>)
    requires IsFiveBit(data)
    ensures VerifyChecksum(hrp, data + CreateChecksum(hrp, data))
  {
    var e := HrpExpand(hrp);
    var r := CreateChecksum(hrp, data);
    BoundedAppend(e, data);
    AppendAssoc(e, data, r);
    ChecksumOfValues(e + data, r);
  }

  lemma AppendAssoc(a: seq<nat>, b: seq<nat>, c: seq<nat>)
    ensures a + (b + c) == (a + b) + c
  {
  }

  /** The checksum symbols of `values` bring the state after them to 1. */
  lemma ChecksumOfValues(values: seq<nat>, r: seq<nat>)
    requires Bounded(values) && r == Symbols(Xor(Polymod(values + Zeros(6)), 1))
    ensures Polymod(values + r) == 1
  {
    var s := Polymod(values);
    PolymodBound(1, values);
    PolymodFromAppend(1, values, Zeros(6));
    PolymodFromAppend(1, values, r);
    ChecksumAfter(s);
  }

  /** From any state below 2^30, the six symbols `_bech32_create_checksum`
      derives from that state bring it to 1. */
  lemma ChecksumAfter(s: nat)
    requires s < Bound
    ensures PolymodFrom(s, Symbols(Xor(PolymodFrom(s, Zeros(6)), 1))) == 1
  {
    var z := PolymodFrom(s, Zeros(6));
    var p := Xor(z, 1);
    PolymodBound(s, Zeros(6));
    assert p < Bound by {
      Pow2Constants();
      XorBound(z, 1, 30);
    }
    PackOfSymbols(p);
    FeedSix(s, Symbols(p));
    XorAssoc(z, z, 1);
    XorSelf(z);
  }

  /** The six checksum symbols of a 30-bit value pack back into it. */
  lemma PackOfSymbols(p: nat)
    requires p < Bound
    ensures Pack(0, Symbols(p)) == p
  {
    PackSymbols(p);
    PackSix(Symbols(p));
  }

  /** Six symbols fed after a state differ from six zeros by their packing. */
  lemma FeedSix(s: nat, r: seq<nat>)
    requires |r| == 6 && IsFiveBit(r)
    ensures PolymodFrom(s, r) == Xor(PolymodFrom(s, Zeros(6)), Pack(0, r))
  {
    Pow2Constants();
    assert (0 + 1) * Pow2(5 * |r|) == Bound;
    StepShiftsDifferences();
    FeedDiff(Step, s, 0, r);
    PolymodIsFold(s, r);
    PolymodIsFold(s, Zeros(6));
    assert Xor(s, 0) == s;
  }

  lemma PackSix(c: seq<nat>)
    requires |c| == 6
    ensures Pack(0, c) == c[0] * 0x200_0000 + c[1] * 0x10_0000 + c[2] * 0x8000 + c[3] * 0x400 + c[4] * 32 + c[5]
  {
    var d1 := c[0];
    var d2 := d1 * 32 + c[1];
    var d3 := d2 * 32 + c[2];
    var d4 := d3 * 32 + c[3];
    var d5 := d4 * 32 + c[4];
    var d6 := d5 * 32 + c[5];
    assert c[0..] == c;
    PackOne(0, c, 0);
    PackOne(d1, c, 1);
    PackOne(d2, c, 2);
    PackOne(d3, c, 3);
    PackOne(d4, c, 4);
    PackOne(d5, c, 5);
    assert Pack(d6, c[6..]) == d6;
  }

  lemma PackOne(d: nat, c: seq<nat>, k: nat)
    requires k < |c|
    ensures Pack(d, c[k..]) == Pack(d * 32 + c[k], c[k + 1..])
  {
    assert c[k..][1..] == c[k + 1..];
  }

  lemma BoundedAppend(a: seq<nat>, b: seq<nat>)
    requires Bounded(a) && IsFiveBit(b)
    ensures Bounded(a + b)
  {
  }

  /** Symbols written with BECH32_CHARSET. */
  function Written(c: seq<nat>): (s: string)
    requires IsFiveBit(c)
    ensures |s| == |c|
    ensures forall i :: 0 <= i < |c| ==> s[i] == Charset[c[i]]
  {
    seq(|c|, i requires 0 <= i < |c| => Charset[c[i]])
  }

  /** `_bech32_encode(hrp, data)`: the human-readable part, the separator
      `'1'`, then one character of BECH32_CHARSET per data and checksum symbol. */
  function Encode(hrp: string, data: seq<nat>): (r: string)
    requires IsFiveBit(data)
    ensures |r| == |hrp| + 1 + |data| + 6
    ensures r[..|hrp|] == hrp && r[|hrp|] == '1'
    ensures forall i :: |hrp| < i < |r| ==> r[i] in Charset
    ensures forall i :: 0 <= i < |data| ==> r[|hrp| + 1 + i] == Charset[data[i]]
    ensures forall i :: 0 <= i < 6 ==> r[|hrp| + 1 + |data| + i] == Charset[CreateChecksum(hrp, data)[i]]
  {
    var combined := data + CreateChecksum(hrp, data);
    var w := Written(combined);
    assert forall i :: 0 <= i < |data| ==> w[i] == Charset[data[i]];
    assert forall i :: 0 <= i < 6 ==> w[|data| + i] == Charset[CreateChecksum(hrp, data)[i]];
    hrp + "1" + w
  }

  /** The symbol a character of BECH32_CHARSET stands for, or -1 for a
      character outside it. */
  function Position(c: char): (k: int)
    ensures -1 <= k < 32
    ensures k >= 0 ==> Charset[k] == c
  {
    match c
    case 'q' => 0
    case 'p' => 1
    case 'z' => 2
    case 'r' => 3
    case 'y' => 4
    case '9' => 5
    case 'x' => 6
    case '8' => 7
    case 'g' => 8
    case 'f' => 9
    case '2' => 10
    case 't' => 11
    case 'v' => 12
    case 'd' => 13
    case 'w' => 14
    case '0' => 15
    case 's' => 16
    case '3' => 17
    case 'j' => 18
    case 'n' => 19
    case '5' => 20
    case '4' => 21
    case 'k' => 22
    case 'h' => 23
    case 'c' => 24
    case 'e' => 25
    case '6' => 26
    case 'm' => 27
    case 'u' => 28
    case 'a' => 29
    case '7' => 30
    case 'l' => 31
    case _ => -1
  }

  /** Every character of BECH32_CHARSET stands for its own index: the 32
      characters are distinct. */
  lemma PositionOfCharset(d: nat)
    requires d < |Charset|
    ensures Position(Charset[d]) == d
  {
  }

  /** Text made only of BECH32_CHARSET characters. */
  predicate InCharset(s: string)
  {
    forall i :: 0 <= i < |s| ==> Position(s[i]) >= 0
  }

  /** The symbols a data part written in BECH32_CHARSET stands for, as a
      BIP-173 decoder reads them. */
  function Read(s: string): (c: seq<nat>)
    requires InCharset(s)
    ensures |c| == |s| && IsFiveBit(c)
    ensures Written(c) == s
  {
    var c: seq<nat> := seq(|s|, i requires 0 <= i < |s| => Position(s[i]) as nat);
    assert Written(c) == s;
    c
  }

  /** Reading written symbols gives the symbols back. */
  lemma ReadWritten(c: seq<nat>)
    requires IsFiveBit(c)
    ensures InCharset(Written(c)) && Read(Written(c)) == c
  {
    var s := Written(c);
    forall i | 0 <= i < |c| ensures Position(s[i]) == c[i] {
      PositionOfCharset(c[i]);
    }
  }

  /** The string `_bech32_encode` produces is a valid BIP-173 string: what
      follows the separator reads back as the data followed by six symbols,
      and the whole data part passes the checksum condition. */
  lemma EncodeVerifies(hrp: string, data: seq<nat>)
    requires IsFiveBit(data)
    ensures var r := Encode(hrp, data);
      InCharset(r[|hrp| + 1..])
      && Read(r[|hrp| + 1..])[..|data|] == data
      && VerifyChecksum(hrp, Read(r[|hrp| + 1..]))
  {
    var c := data + CreateChecksum(hrp, data);
    var r := Encode(hrp, data);
    assert r[|hrp| + 1..] == Written(c);
    ReadWritten(c);
    ChecksumVerifies(hrp, data);
    assert c[..|data|] == data;
  }
}
