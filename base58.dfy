/**
 * `base58check_encode` of tools/brain_wallet.py: the payload, its version
 * bytes and a four-byte double SHA-256 checksum, written in base 58 with one
 * `'1'` for every leading zero byte.
 */
module Base58 {
  import opened Common
  import opened Bits
  import opened BitGroups

  /** BASE58_ALPHABET: the digits, the upper-case letters without `I` and `O`,
      the lower-case letters without `l`. */
  const Alphabet: string := "123456789" + "ABCDEFGH" + "JKLMN" + "PQRSTUVWXYZ" + "abcdefghijk" + "mnopqrstuvwxyz"

  /** `n` consecutive characters from `first` on. */
  function Run(first: char, n: nat): (r: string)
    requires first as int + n <= 128
    ensures |r| == n && Ascending(r)
  {
    seq(n, i requires 0 <= i < n => (first as int + i) as char)
  }

  predicate Ascending(s: string)
  {
    forall i, j :: 0 <= i < j < |s| ==> s[i] < s[j]
  }

  lemma AscendingAppend(a: string, b: string)
    requires Ascending(a) && Ascending(b)
    requires a == [] || b == [] || a[|a| - 1] < b[0]
    ensures Ascending(a + b)
  {
    forall i, j | 0 <= i < j < |a + b| ensures (a + b)[i] < (a + b)[j] {
      if i < |a| && j >= |a| {
        assert a[i] <= a[|a| - 1] && b[0] <= b[j - |a|];
      }
    }
  }

  /** The alphabet is in strictly increasing character order, so a digit is
      determined by its character and `'1'` stands only for digit 0. */
  lemma AlphabetAscending()
    ensures |Alphabet| == 58 && Ascending(Alphabet)
  {
    var r1, r2, r3 := Run('1', 9), Run('A', 8), Run('J', 5);
    var r4, r5, r6 := Run('P', 11), Run('a', 11), Run('m', 14);
    AlphabetRuns();
    AscendingAppend(r1, r2);
    AscendingAppend(r1 + r2, r3);
    AscendingAppend(r1 + r2 + r3, r4);
    AscendingAppend(r1 + r2 + r3 + r4, r5);
    AscendingAppend(r1 + r2 + r3 + r4 + r5, r6);
  }

  /** The alphabet is six runs of consecutive characters. */
  lemma AlphabetRuns()
    ensures Alphabet == Run('1', 9) + Run('A', 8) + Run('J', 5) + Run('P', 11) + Run('a', 11) + Run('m', 14)
  {
    assert "123456789" == Run('1', 9);
    assert "ABCDEFGH" == Run('A', 8);
    assert "JKLMN" == Run('J', 5);
    assert "PQRSTUVWXYZ" == Run('P', 11);
    assert "abcdefghijk" == Run('a', 11);
    assert "mnopqrstuvwxyz" == Run('m', 14);
  }

  lemma OnlyZeroIsOne(k: nat)
    requires k < 58
    ensures Alphabet[k] == '1' <==> k == 0
  {
    AlphabetAscending();
    assert Alphabet[0] == '1';
    if k > 0 {
      assert Alphabet[0] < Alphabet[k];
    }
  }

  /** The base-58 digits of `n`, most significant first, as the `divmod`
      loop produces them; zero has none. */
  function Digits(n: nat): (ds: seq<nat>)
    ensures forall i :: 0 <= i < |ds| ==> ds[i] < 58
    ensures n > 0 ==> |ds| > 0 && ds[0] != 0
    ensures n == 0 ==> ds == []
  {
    if n == 0 then [] else Digits(n / 58) + [n % 58]
  }

  /** The number that digits spell in base 58, most significant first. */
  function Value(ds: seq<nat>): nat
  {
    if ds == [] then 0 else Value(ds[..|ds| - 1]) * 58 + ds[|ds| - 1]
  }

  lemma {:induction false} ValueOfDigits(n: nat)
    ensures Value(Digits(n)) == n
    decreases n
  {
    if n > 0 {
      ValueOfDigits(n / 58);
      var ds := Digits(n);
      assert ds[..|ds| - 1] == Digits(n / 58);
    }
  }

  /** Leading zero digits do not change the value. */
  lemma {:induction false} ValueLeadingZeros(z: nat, ds: seq<nat>)
    ensures Value(seq(z, _ => 0) + ds) == Value(ds)
    decreases |ds|
  {
    if ds == [] {
      assert seq(z, _ => 0) + ds == seq(z, _ => 0);
      ZerosValue(z);
    } else {
      var init := ds[..|ds| - 1];
      assert (seq(z, _ => 0) + ds)[..z + |ds| - 1] == seq(z, _ => 0) + init;
      ValueLeadingZeros(z, init);
    }
  }

  lemma {:induction false} ZerosValue(z: nat)
    ensures Value(seq(z, _ => 0)) == 0
    decreases z
  {
    if z > 0 {
      assert seq(z, _ => 0)[..z - 1] == seq(z - 1, _ => 0);
      ZerosValue(z - 1);
    }
  }

  /** Number of zero bytes before the first non-zero byte. */
  function LeadingZeroBytes(data: seq<byte>): (n: nat)
    ensures n <= |data|
    ensures forall i :: 0 <= i < n ==> data[i] == 0
    ensures n == |data| || data[n] != 0
  {
    if data == [] || data[0] != 0 then 0 else 1 + LeadingZeroBytes(data[1..])
  }

  /** `int.from_bytes(data, "big")`: a number of `8 * |data|` bits, zero
      exactly when every byte is. */
  function FromBytes(data: seq<byte>): (n: nat)
    ensures n < Pow2(8 * |data|)
    ensures n == 0 <==> forall i :: 0 <= i < |data| ==> data[i] == 0
  {
    BytesValue(data);
    Val(data, 8)
  }

  lemma {:induction false} BytesValue(data: seq<byte>)
    ensures 0 <= Val(data, 8) < Pow2(8 * |data|)
    ensures Val(data, 8) == 0 <==> forall i :: 0 <= i < |data| ==> data[i] == 0
    decreases |data|
  {
    if data != [] {
      var init := data[..|data| - 1];
      BytesValue(init);
      Pow2Add(8 * |init|, 8);
      assert Pow2(8) == 256 by {
        assert Pow2(4) == 16;
      }
      assert 8 * |data| == 8 * |init| + 8;
      ByteStep(Val(init, 8), data[|data| - 1], Pow2(8 * |init|));
      assert forall i :: 0 <= i < |init| ==> init[i] == data[i];
    }
  }

  lemma ByteStep(v: int, b: int, p: int)
    requires 0 <= v < p && 0 <= b < 256
    ensures 0 <= v * 256 + b < p * 256
    ensures v * 256 + b == 0 <==> v == 0 && b == 0
  {
  }

  /** A zero byte in front does not change `int.from_bytes`: the value
      forgets leading zero bytes, which is why the encoder counts them. */
  lemma {:induction false} LeadingZeroValue(data: seq<byte>)
    ensures FromBytes([0] + data) == FromBytes(data)
    decreases |data|
  {
    if data != [] {
      var init := data[..|data| - 1];
      LeadingZeroValue(init);
      assert ([0] + data)[..|data|] == [0] + init;
    }
  }

  /** Digits written with the alphabet. */
  function Spell(ds: seq<nat>): (s: string)
    requires forall i :: 0 <= i < |ds| ==> ds[i] < 58
    ensures |s| == |ds|
  {
    seq(|ds|, i requires 0 <= i < |ds| => Alphabet[ds[i]])
  }

  /** The base-58 text of `data`: a `'1'` per leading zero byte, then the
      digits of its big-endian value. */
  function Encode(data: seq<byte>): string
  {
    Spell(seq(LeadingZeroBytes(data), _ => 0)) + Spell(Digits(FromBytes(data)))
  }

  /** The alphabet position of a character of the alphabet. */
  function DigitOf(c: char, from: nat): (k: nat)
    requires from < 58 && c in Alphabet[from..]
    ensures from <= k < 58 && Alphabet[k] == c
    decreases 58 - from
  {
    if Alphabet[from] == c then from
    else
      assert c in Alphabet[from + 1..] by {
        var j :| from <= j < 58 && Alphabet[j] == c;
        assert Alphabet[from + 1..][j - from - 1] == c;
      }
      DigitOf(c, from + 1)
  }

  /** Reading text back into digits. */
  function Read(s: string): (ds: seq<nat>)
    requires forall i :: 0 <= i < |s| ==> s[i] in Alphabet
  {
    seq(|s|, i requires 0 <= i < |s| => DigitOf(s[i], 0))
  }

  lemma ReadSpell(ds: seq<nat>)
    requires forall i :: 0 <= i < |ds| ==> ds[i] < 58
    ensures forall i :: 0 <= i < |ds| ==> Spell(ds)[i] in Alphabet
    ensures Read(Spell(ds)) == ds
  {
    AlphabetAscending();
    forall i | 0 <= i < |ds| ensures Read(Spell(ds))[i] == ds[i] {
      var k := DigitOf(Alphabet[ds[i]], 0);
    }
  }

  lemma {:induction false} LeadingOnes(n: nat, ds: seq<nat>)
    requires forall i :: 0 <= i < |ds| ==> ds[i] < 58
    requires ds == [] || ds[0] != 0
    ensures LeadingCount(Spell(seq(n, _ => 0)) + Spell(ds), '1') == n
    decreases n
  {
    var s := Spell(seq(n, _ => 0)) + Spell(ds);
    if n == 0 {
      assert s == Spell(ds);
      if ds != [] {
        OnlyZeroIsOne(ds[0]);
      }
    } else {
      assert s[1..] == Spell(seq(n - 1, _ => 0)) + Spell(ds);
      LeadingOnes(n - 1, ds);
    }
  }

  /** Number of copies of `c` that `s` starts with. */
  function LeadingCount(s: string, c: char): nat
  {
    if s == [] || s[0] != c then 0 else 1 + LeadingCount(s[1..], c)
  }

  /** What `base58check_encode`'s output promises: only alphabet characters,
      one leading `'1'` per leading zero byte, and digits that read back, in
      base 58, as the big-endian value of the bytes. */
  lemma EncodeProperties(data: seq<byte>)
    ensures forall i :: 0 <= i < |Encode(data)| ==> Encode(data)[i] in Alphabet
    ensures LeadingCount(Encode(data), '1') == LeadingZeroBytes(data)
    ensures Value(Read(Encode(data))) == Val(data, 8)
  {
    var z := LeadingZeroBytes(data);
    var n := FromBytes(data);
    var ds := seq(z, _ => 0) + Digits(n);
    assert Encode(data) == Spell(ds);
    ReadSpell(ds);
    LeadingOnes(z, Digits(n));
    ValueLeadingZeros(z, Digits(n));
    ValueOfDigits(n);
  }

  /** `base58check_encode` as the source runs it: the `divmod` loop that
      prepends digits, then the loop that counts leading zero bytes. */
  method EncodeLoop(data: seq<byte>) returns (s: string)
    ensures s == Encode(data)
  {
    var encoded := DigitLoop(FromBytes(data));
    var zeros := CountLeadingZeros(data);
    s := Spell(seq(zeros, _ => 0)) + encoded;
  }

  /** The `while num > 0` loop: each `divmod(num, 58)` prepends one digit. */
  method DigitLoop(n: nat) returns (encoded: string)
    ensures encoded == Spell(Digits(n))
  {
    var num := n;
    encoded := "";
    while num > 0
      invariant Spell(Digits(num)) + encoded == Spell(Digits(n))
    {
      var rem := num % 58;
      SpellLastDigit(num);
      num := num / 58;
      encoded := [Alphabet[rem]] + encoded;
    }
  }

  lemma SpellLastDigit(n: nat)
    requires n > 0
    ensures Spell(Digits(n)) == Spell(Digits(n / 58)) + [Alphabet[n % 58]]
  {
  }

  /** The loop over the bytes that stops at the first non-zero one. */
  method CountLeadingZeros(data: seq<byte>) returns (zeros: nat)
    ensures zeros == LeadingZeroBytes(data)
  {
    zeros := 0;
    for i := 0 to |data|
      invariant zeros == i && forall j :: 0 <= j < i ==> data[j] == 0
    {
      if data[i] == 0 {
        zeros := zeros + 1;
      } else {
        break;
      }
    }
    LeadingZeroBytesUnique(data, zeros);
  }

  /** The count of leading zero bytes is the one position where the zeros
      stop. */
  lemma LeadingZeroBytesUnique(data: seq<byte>, n: nat)
    requires n <= |data| && (n == |data| || data[n] != 0)
    requires forall j :: 0 <= j < n ==> data[j] == 0
    ensures n == LeadingZeroBytes(data)
  {
  }

  /** The first four bytes of the double SHA-256 of `raw`. */
  function Checksum(raw: seq<byte>, sha256: Digest32): (c: seq<byte>)
    ensures |c| == 4
  {
    sha256(sha256(raw))[..4]
  }

  /** `version + payload` followed by its checksum. */
  function CheckedData(version: seq<byte>, payload: seq<byte>, sha256: Digest32): (data: seq<byte>)
    ensures |data| == |version| + |payload| + 4
    ensures data[..|version| + |payload|] == version + payload
    ensures data[|version| + |payload|..] == Checksum(version + payload, sha256)
  {
    var raw := version + payload;
    raw + Checksum(raw, sha256)
  }

  /** `base58check_encode(version, payload)` */
  function CheckEncode(version: seq<byte>, payload: seq<byte>, sha256: Digest32): string
  {
    Encode(CheckedData(version, payload, sha256))
  }
}
