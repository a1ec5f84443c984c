/**
 * `_convertbits` of tools/brain_wallet.py: regroups a sequence of
 * `frombits`-bit values into `tobits`-bit values, most significant bits
 * first, as BIP-173 does to turn a witness program into five-bit symbols.
 */
module BitGroups {
  import opened Common
  import opened Bits

  /** The accumulator, the number of its low bits not yet emitted, and the
      groups emitted so far. */
  datatype State = State(acc: nat, bits: nat, ret: seq<nat>)

  /** `b < 0 or (b >> frombits)`: a value that does not fit in `frombits` bits. */
  predicate OutOfRange(b: int, frombits: nat)
  {
    b < 0 || b >= Pow2(frombits)
  }

  predicate AllInRange(data: seq<int>, frombits: nat)
  {
    forall i :: 0 <= i < |data| ==> !OutOfRange(data[i], frombits)
  }

  /** Every group is a `tobits`-bit value. */
  predicate Groups(ret: seq<nat>, tobits: nat)
  {
    forall i :: 0 <= i < |ret| ==> ret[i] < Pow2(tobits)
  }

  /** The big-endian value of `s` read as digits of `w` bits each. */
  function Val(s: seq<int>, w: nat): int
  {
    if s == [] then 0 else Val(s[..|s| - 1], w) * Pow2(w) + s[|s| - 1]
  }

  /** The inner `while bits >= tobits` loop: emit the top group of the
      pending bits until fewer than `tobits` remain. */
  function Drain(s: State, tobits: nat): (r: State)
    requires tobits >= 1
    ensures r.acc == s.acc && r.bits < tobits
    ensures |r.ret| * tobits + r.bits == |s.ret| * tobits + s.bits
    ensures Groups(s.ret, tobits) ==> Groups(r.ret, tobits)
    decreases s.bits
  {
    if s.bits < tobits then s
    else Drain(State(s.acc, s.bits - tobits,
                     s.ret + [(s.acc / Pow2(s.bits - tobits)) % Pow2(tobits)]), tobits)
  }

  /** One iteration of the outer loop on an in-range value `b`:
      `acc = ((acc << frombits) | b) & max_acc`, `bits += frombits`, then
      drain. Because `b < 2^frombits`, the `|` is an addition. */
  function Feed(s: State, b: nat, frombits: nat, tobits: nat): State
    requires tobits >= 1
  {
    Drain(State((s.acc * Pow2(frombits) + b) % Pow2(frombits + tobits - 1),
                s.bits + frombits, s.ret), tobits)
  }

  /** The state after the outer loop has consumed `data`, or `None` when the
      loop returns `[]` on an out-of-range value. */
  function FeedAll(data: seq<int>, frombits: nat, tobits: nat): (r: Option<State>)
    requires tobits >= 1
    ensures r.None? <==> !AllInRange(data, frombits)
    ensures r.Some? ==> r.value.bits < tobits && Groups(r.value.ret, tobits)
    ensures r.Some? ==> |r.value.ret| * tobits + r.value.bits == |data| * frombits
  {
    if data == [] then Some(State(0, 0, []))
    else
      var init, b := data[..|data| - 1], data[|data| - 1];
      match FeedAll(init, frombits, tobits)
      case None =>
        assert !AllInRange(init, frombits) && init == data[..|data| - 1];
        None
      case Some(s) =>
        if OutOfRange(b, frombits) then None
        else
          assert AllInRange(data, frombits) by {
            forall i | 0 <= i < |data| ensures !OutOfRange(data[i], frombits) {
              if i < |data| - 1 {
                assert data[i] == init[i];
              }
            }
          }
          assert (|data| - 1) * frombits + frombits == |data| * frombits;
          Some(Feed(s, b, frombits, tobits))
  }

  /** The trailing group `(acc << (tobits - bits)) & maxv`. */
  function Tail(s: State, tobits: nat): nat
    requires s.bits <= tobits
  {
    (s.acc * Pow2(tobits - s.bits)) % Pow2(tobits)
  }

  /** `_convertbits(data, frombits, tobits, pad)`. The source loops forever
      when `tobits` is 0, so a caller must pass at least 1. */
  function ConvertBits(data: seq<int>, frombits: nat, tobits: nat, pad: bool): seq<nat>
    requires tobits >= 1
  {
    match FeedAll(data, frombits, tobits)
    case None => []
    case Some(s) => Finish(s, frombits, tobits, pad)
  }

  /** The padding rule after the outer loop: with `pad`, a last partial group
      is emitted; without it, a full `frombits` value or non-zero bits left
      over make the result empty. */
  function Finish(s: State, frombits: nat, tobits: nat, pad: bool): seq<nat>
    requires s.bits <= tobits
  {
    if pad then (if s.bits != 0 then s.ret + [Tail(s, tobits)] else s.ret)
    else if s.bits >= frombits || Tail(s, tobits) != 0 then []
    else s.ret
  }

  /** `_convertbits` as the source runs it: an outer loop over the input, an
      inner loop emitting groups, and the padding rule at the end. */
  method ConvertBitsLoop(data: seq<int>, frombits: nat, tobits: nat, pad: bool)
    returns (ret: seq<nat>)
    requires tobits >= 1
    ensures ret == ConvertBits(data, frombits, tobits, pad)
  {
    var acc: nat := 0;
    var bits: nat := 0;
    ret := [];
    var maxv := Pow2(tobits) - 1;
    var maxAcc := Pow2(frombits + tobits - 1) - 1;
    for k := 0 to |data|
      invariant FeedAll(data[..k], frombits, tobits) == Some(State(acc, bits, ret))
    {
      var b := data[k];
      if OutOfRange(b, frombits) {
        OutOfRangeGivesEmpty(data, frombits, tobits, pad, k);
        return [];
      }
      FeedAllStep(data, k, frombits, tobits);
      acc, bits, ret := FeedStep(acc, bits, ret, b, frombits, tobits, maxAcc);
    }
    assert data[..|data|] == data;
    ret := PadTail(acc, bits, ret, frombits, tobits, pad, maxv);
  }

  /** One turn of the outer loop on an in-range value `b`. */
  method FeedStep(acc0: nat, bits0: nat, ret0: seq<nat>, b: nat, frombits: nat, tobits: nat, maxAcc: int)
    returns (acc: nat, bits: nat, ret: seq<nat>)
    requires tobits >= 1 && maxAcc + 1 == Pow2(frombits + tobits - 1)
    ensures State(acc, bits, ret) == Feed(State(acc0, bits0, ret0), b, frombits, tobits)
  {
    acc := (acc0 * Pow2(frombits) + b) % (maxAcc + 1);
    bits := bits0 + frombits;
    bits, ret := EmitGroups(acc, bits, ret0, tobits);
  }

  /** The padding rule, as the source writes it after the outer loop. */
  method PadTail(acc: nat, bits: nat, ret0: seq<nat>, frombits: nat, tobits: nat, pad: bool, maxv: int)
    returns (ret: seq<nat>)
    requires bits <= tobits && maxv + 1 == Pow2(tobits)
    ensures ret == Finish(State(acc, bits, ret0), frombits, tobits, pad)
  {
    ret := ret0;
    if pad {
      if bits != 0 {
        ret := ret + [(acc * Pow2(tobits - bits)) % (maxv + 1)];
      }
    } else if bits >= frombits || (acc * Pow2(tobits - bits)) % (maxv + 1) != 0 {
      return [];
    }
  }

  /** The inner `while bits >= tobits` loop of `_convertbits`. */
  method EmitGroups(acc: nat, bits0: nat, ret0: seq<nat>, tobits: nat)
    returns (bits: nat, ret: seq<nat>)
    requires tobits >= 1
    ensures State(acc, bits, ret) == Drain(State(acc, bits0, ret0), tobits)
  {
    var maxv := Pow2(tobits) - 1;
    bits, ret := bits0, ret0;
    while bits >= tobits
      invariant Drain(State(acc, bits, ret), tobits) == Drain(State(acc, bits0, ret0), tobits)
      decreases bits
    {
      bits := bits - tobits;
      ret := ret + [(acc / Pow2(bits)) % (maxv + 1)];
    }
  }

  /** One more in-range value extends the loop state by one `Feed`. */
  lemma FeedAllStep(data: seq<int>, k: nat, frombits: nat, tobits: nat)
    requires tobits >= 1 && k < |data| && !OutOfRange(data[k], frombits)
    requires FeedAll(data[..k], frombits, tobits).Some?
    ensures FeedAll(data[..k + 1], frombits, tobits)
      == Some(Feed(FeedAll(data[..k], frombits, tobits).value, data[k], frombits, tobits))
  {
    assert data[..k + 1][..k] == data[..k];
  }

  /** Once a prefix fails, the whole input fails. */
  lemma NoneExtends(data: seq<int>, k: nat, frombits: nat, tobits: nat)
    requires tobits >= 1 && k <= |data|
    requires FeedAll(data[..k], frombits, tobits).None?
    ensures FeedAll(data, frombits, tobits).None?
  {
    var i :| 0 <= i < k && OutOfRange(data[..k][i], frombits);
    assert data[i] == data[..k][i];
  }

  /** Any value that does not fit in `frombits` bits makes the result empty. */
  lemma OutOfRangeGivesEmpty(data: seq<int>, frombits: nat, tobits: nat, pad: bool, i: nat)
    requires tobits >= 1 && i < |data| && OutOfRange(data[i], frombits)
    ensures ConvertBits(data, frombits, tobits, pad) == []
  {
  }

  /** The trailing group is zero exactly when the pending bits are all zero. */
  lemma TailIsPendingBits(s: State, tobits: nat)
    requires s.bits <= tobits
    ensures Tail(s, tobits) == (s.acc % Pow2(s.bits)) * Pow2(tobits - s.bits)
    ensures Tail(s, tobits) == 0 <==> s.acc % Pow2(s.bits) == 0
  {
    ShiftUpLow(s.acc, s.bits, tobits);
  }

  /** Emitting one group moves its bits from the pending part to `ret`
      without changing the value they spell together. */
  lemma {:induction false} DrainValue(s: State, tobits: nat)
    requires tobits >= 1
    ensures var r := Drain(s, tobits);
      Val(r.ret, tobits) * Pow2(r.bits) + r.acc % Pow2(r.bits)
      == Val(s.ret, tobits) * Pow2(s.bits) + s.acc % Pow2(s.bits)
    decreases s.bits
  {
    if s.bits >= tobits {
      var rest := s.bits - tobits;
      EmitOneValue(s, tobits);
      DrainValue(State(s.acc, rest, s.ret + [(s.acc / Pow2(rest)) % Pow2(tobits)]), tobits);
    }
  }

  /** One turn of the inner loop. */
  lemma EmitOneValue(s: State, tobits: nat)
    requires tobits >= 1 && s.bits >= tobits
    ensures var rest := s.bits - tobits;
      var out := (s.acc / Pow2(rest)) % Pow2(tobits);
      Val(s.ret + [out], tobits) * Pow2(rest) + s.acc % Pow2(rest)
      == Val(s.ret, tobits) * Pow2(s.bits) + s.acc % Pow2(s.bits)
  {
    var rest := s.bits - tobits;
    var out := (s.acc / Pow2(rest)) % Pow2(tobits);
    assert (s.ret + [out])[..|s.ret|] == s.ret;
    SplitLow(s.acc, rest, tobits);
    Pow2Add(tobits, rest);
    assert rest + tobits == s.bits;
    EmitValue(Val(s.ret, tobits), out, Pow2(tobits), Pow2(rest), s.acc % Pow2(rest));
  }

  lemma PadScale(v: int, low: int, pb: int, pe: int, p5: int, vc: int, vd: int)
    requires p5 == pb * pe && vc == v * p5 + low * pe && vd == v * pb + low
    ensures vc == vd * pe
  {
  }

  lemma EmitValue(v: int, out: int, pt: int, pr: int, low: int)
    ensures (v * pt + out) * pr + low == v * (pt * pr) + (out * pr + low)
  {
  }

  /** What the outer loop has consumed is what it has emitted followed by the
      pending low bits of the accumulator. */
  lemma {:induction false} FeedAllValue(data: seq<int>, frombits: nat, tobits: nat)
    requires tobits >= 1 && AllInRange(data, frombits)
    ensures var s := FeedAll(data, frombits, tobits).value;
      Val(data, frombits) == Val(s.ret, tobits) * Pow2(s.bits) + s.acc % Pow2(s.bits)
    decreases |data|
  {
    if data != [] {
      var init, b := data[..|data| - 1], data[|data| - 1];
      assert AllInRange(init, frombits) by {
        forall i | 0 <= i < |init| ensures !OutOfRange(init[i], frombits) {
          assert init[i] == data[i];
        }
      }
      assert !OutOfRange(data[|data| - 1], frombits);
      FeedAllValue(init, frombits, tobits);
      FeedValue(FeedAll(init, frombits, tobits).value, b, frombits, tobits);
    }
  }

  /** One outer iteration appends `b` to the value consumed so far. */
  lemma FeedValue(s: State, b: nat, frombits: nat, tobits: nat)
    requires tobits >= 1 && b < Pow2(frombits) && s.bits < tobits
    ensures var r := Feed(s, b, frombits, tobits);
      Val(r.ret, tobits) * Pow2(r.bits) + r.acc % Pow2(r.bits)
      == (Val(s.ret, tobits) * Pow2(s.bits) + s.acc % Pow2(s.bits)) * Pow2(frombits) + b
  {
    var acc1 := (s.acc * Pow2(frombits) + b) % Pow2(frombits + tobits - 1);
    LoadedValue(s, b, frombits, tobits);
    DrainValue(State(acc1, s.bits + frombits, s.ret), tobits);
  }

  /** Before the inner loop: the shifted, masked accumulator and the bit count
      grown by `frombits` spell the old value followed by `b`. */
  lemma LoadedValue(s: State, b: nat, frombits: nat, tobits: nat)
    requires b < Pow2(frombits) && s.bits < tobits
    ensures var acc1 := (s.acc * Pow2(frombits) + b) % Pow2(frombits + tobits - 1);
      Val(s.ret, tobits) * Pow2(s.bits + frombits) + acc1 % Pow2(s.bits + frombits)
      == (Val(s.ret, tobits) * Pow2(s.bits) + s.acc % Pow2(s.bits)) * Pow2(frombits) + b
  {
    MaskedLowBits(s.acc, b, s.bits, frombits, tobits);
    Pow2Add(s.bits, frombits);
    EmitValue(Val(s.ret, tobits), s.acc % Pow2(s.bits), Pow2(s.bits), Pow2(frombits), b);
  }

  /** The masked accumulator still holds the pending bits shifted up with
      `b` below them: `max_acc` keeps at least `bits + frombits` bits. */
  lemma MaskedLowBits(acc: nat, b: nat, bits: nat, frombits: nat, tobits: nat)
    requires b < Pow2(frombits) && bits < tobits
    ensures ((acc * Pow2(frombits) + b) % Pow2(frombits + tobits - 1)) % Pow2(bits + frombits)
      == (acc % Pow2(bits)) * Pow2(frombits) + b
  {
    ModOfMod(acc * Pow2(frombits) + b, bits + frombits, frombits + tobits - 1);
    ShiftInLow(acc, b, frombits, bits);
  }

  /** With padding, every group has `tobits` bits and there are
      `ceil(|data| * frombits / tobits)` of them. */
  lemma PadShape(data: seq<int>, frombits: nat, tobits: nat)
    requires tobits >= 1 && AllInRange(data, frombits)
    ensures var r := ConvertBits(data, frombits, tobits, true);
      Groups(r, tobits) && |r| == (|data| * frombits + tobits - 1) / tobits
  {
    var s := FeedAll(data, frombits, tobits).value;
    CeilDiv(|s.ret|, s.bits, tobits, |data| * frombits);
  }

  /** `total = n * t + bits` with `bits < t` rounds up to `n` groups of `t`,
      or `n + 1` when `bits` is not zero. */
  lemma CeilDiv(n: nat, bits: nat, t: nat, total: nat)
    requires t >= 1 && bits < t && n * t + bits == total
    ensures (total + t - 1) / t == if bits == 0 then n else n + 1
  {
    if bits == 0 {
      DivModUnique(n, t - 1, t);
    } else {
      assert total + t - 1 == (n + 1) * t + (bits - 1);
      DivModUnique(n + 1, bits - 1, t);
    }
  }

  /** A 20-byte witness program regroups into 32 five-bit symbols. */
  lemma WitnessProgramGroups(prog: seq<int>)
    requires |prog| == 20 && AllInRange(prog, 8)
    ensures |ConvertBits(prog, 8, 5, true)| == 32
  {
    PadShape(prog, 8, 5);
  }

  /** Two digit strings of the same length and value are the same. */
  lemma {:induction false} ValInjective(a: seq<int>, b: seq<int>, w: nat)
    requires |a| == |b| && Val(a, w) == Val(b, w)
    requires forall i :: 0 <= i < |a| ==> 0 <= a[i] < Pow2(w) && 0 <= b[i] < Pow2(w)
    ensures a == b
    decreases |a|
  {
    if a != [] {
      var a', b' := a[..|a| - 1], b[..|b| - 1];
      ValNonNegative(a', w);
      ValNonNegative(b', w);
      DivModUnique(Val(a', w), a[|a| - 1], Pow2(w));
      DivModUnique(Val(b', w), b[|b| - 1], Pow2(w));
      ValInjective(a', b', w);
      assert a == a' + [a[|a| - 1]] && b == b' + [b[|b| - 1]];
    }
  }

  lemma {:induction false} ValNonNegative(s: seq<int>, w: nat)
    requires forall i :: 0 <= i < |s| ==> 0 <= s[i]
    ensures Val(s, w) >= 0
    decreases |s|
  {
    if s != [] {
      ValNonNegative(s[..|s| - 1], w);
    }
  }

  /** Bytes regrouped into padded five-bit symbols come back unchanged when
      regrouped into bytes without padding: the padding the first call adds
      is fewer than five zero bits, which the second call accepts. */
  lemma RoundTrip(d: seq<int>)
    requires AllInRange(d, 8)
    ensures AllInRange(ConvertBits(d, 8, 5, true), 5)
    ensures ConvertBits(ConvertBits(d, 8, 5, true), 5, 8, false) == d
  {
    var n := |d|;
    var s := FeedAll(d, 8, 5).value;
    var c := ConvertBits(d, 8, 5, true);
    PadShape(d, 8, 5);
    Pow2Constants5();
    assert AllInRange(c, 5);
    FeedAllValue(d, 8, 5);
    var e := if s.bits != 0 then 5 - s.bits else 0;
    PaddedValue(d, s, c, e);
    var s2 := FeedAll(c, 5, 8).value;
    FeedAllValue(c, 5, 8);
    SameQuotient(|s2.ret|, s2.bits, n, e);
    RecoverBytes(d, s2, e);
    TailIsPendingBits(s2, 8);
  }

  lemma SameQuotient(q1: nat, r1: nat, q2: nat, r2: nat)
    requires q1 * 8 + r1 == q2 * 8 + r2 && r1 < 8 && r2 < 8
    ensures q1 == q2 && r1 == r2
  {
    DivModUnique(q1, r1, 8);
    DivModUnique(q2, r2, 8);
  }

  /** Bytes regrouped back from their padded symbols are the original bytes,
      and the `e` padding bits left over are zero. */
  lemma RecoverBytes(d: seq<int>, s: State, e: nat)
    requires AllInRange(d, 8) && Groups(s.ret, 8) && |s.ret| == |d| && s.bits == e
    requires Val(s.ret, 8) * Pow2(e) + s.acc % Pow2(e) == Val(d, 8) * Pow2(e)
    ensures s.ret == d && s.acc % Pow2(s.bits) == 0
  {
    ValNonNegative(d, 8);
    ValNonNegative(s.ret, 8);
    DivModUnique(Val(d, 8), 0, Pow2(e));
    DivModUnique(Val(s.ret, 8), s.acc % Pow2(e), Pow2(e));
    ValInjective(s.ret, d, 8);
  }

  lemma Pow2Constants5()
    ensures Pow2(5) == 32 && Pow2(8) == 256
  {
    assert Pow2(4) == 16;
  }

  /** The padded symbols spell the bytes followed by `e` zero bits. */
  lemma PaddedValue(d: seq<int>, s: State, c: seq<nat>, e: nat)
    requires AllInRange(d, 8) && FeedAll(d, 8, 5) == Some(s)
    requires c == ConvertBits(d, 8, 5, true)
    requires e == if s.bits != 0 then 5 - s.bits else 0
    requires Val(d, 8) == Val(s.ret, 5) * Pow2(s.bits) + s.acc % Pow2(s.bits)
    ensures |c| * 5 == |d| * 8 + e && e < 5
    ensures Val(c, 5) == Val(d, 8) * Pow2(e)
  {
    if s.bits != 0 {
      PaddedValueWithTail(d, s, c, e);
    } else {
      assert Pow2(0) == 1 && s.acc % 1 == 0;
      assert c == s.ret && Val(d, 8) == Val(s.ret, 5);
    }
  }

  lemma PaddedValueWithTail(d: seq<int>, s: State, c: seq<nat>, e: nat)
    requires s.bits != 0 && s.bits < 5 && e == 5 - s.bits
    requires c == s.ret + [Tail(s, 5)]
    requires Val(d, 8) == Val(s.ret, 5) * Pow2(s.bits) + s.acc % Pow2(s.bits)
    ensures Val(c, 5) == Val(d, 8) * Pow2(e)
  {
    var v, low := Val(s.ret, 5), s.acc % Pow2(s.bits);
    TailIsPendingBits(s, 5);
    assert c[..|c| - 1] == s.ret;
    assert Val(c, 5) == v * Pow2(5) + low * Pow2(e);
    Pow2Add(s.bits, e);
    assert s.bits + e == 5;
    PadScale(v, low, Pow2(s.bits), Pow2(e), Pow2(5), Val(c, 5), Val(d, 8));
  }
}
