/**
 * Values and text helpers shared by every part of the model: an optional
 * value, bytes, and the handful of Python `str` operations the wallet tools
 * and the scanner rely on (`upper`, `lower`, `strip`, `replace`).
 */
module Common {

  /** Python's `Optional[T]`: `None` or a present value. */
  datatype Option<+T> = None | Some(value: T)

  /** One octet of a Python `bytes` value. */
  type byte = x: int | 0 <= x < 256

  type Bytes32 = s: seq<byte> | |s| == 32 witness seq(32, _ => 0)

  type Bytes20 = s: seq<byte> | |s| == 20 witness seq(20, _ => 0)

  /** A hash function with 32-byte digests (SHA-256, Keccak-256). */
  type Digest32 = seq<byte> -> Bytes32

  /** A hash function with 20-byte digests (HASH160). */
  type Digest20 = seq<byte> -> Bytes20

  /** Python's `str.isspace()` for one character (the Unicode White_Space set Python uses). */
  predicate IsSpace(c: char)
  {
    var n := c as int;
    (9 <= n <= 13) || (28 <= n <= 32) || n == 0x85 || n == 0xA0 || n == 0x1680
    || (0x2000 <= n <= 0x200A) || n == 0x2028 || n == 0x2029 || n == 0x202F
    || n == 0x205F || n == 0x3000
  }

  predicate IsLowerAscii(c: char) { 'a' <= c <= 'z' }

  predicate IsUpperAscii(c: char) { 'A' <= c <= 'Z' }

  function UpperChar(c: char): char
  {
    if IsLowerAscii(c) then (c as int - 32) as char else c
  }

  function LowerChar(c: char): char
  {
    if IsUpperAscii(c) then (c as int + 32) as char else c
  }

  /** Python's `s.upper()` on the ASCII letters. */
  function Upper(s: string): (r: string)
    ensures |r| == |s|
    ensures forall i :: 0 <= i < |s| ==> !IsLowerAscii(r[i])
    ensures forall i :: 0 <= i < |s| ==> LowerChar(r[i]) == LowerChar(s[i])
  {
    seq(|s|, i requires 0 <= i < |s| => UpperChar(s[i]))
  }

  /** Python's `s.lower()` on the ASCII letters. */
  function Lower(s: string): (r: string)
    ensures |r| == |s|
    ensures forall i :: 0 <= i < |s| ==> !IsUpperAscii(r[i])
    ensures forall i :: 0 <= i < |s| ==> UpperChar(r[i]) == UpperChar(s[i])
  {
    seq(|s|, i requires 0 <= i < |s| => LowerChar(s[i]))
  }

  /** A string that `upper()` leaves as it is. */
  predicate IsUpperCase(s: string)
  {
    forall i :: 0 <= i < |s| ==> !IsLowerAscii(s[i])
  }

  /** Upper-casing is idempotent, and two strings equal up to case have the same upper form. */
  lemma UpperIdempotent(s: string)
    ensures Upper(Upper(s)) == Upper(s)
    ensures IsUpperCase(s) ==> Upper(s) == s
  {
  }

  lemma UpperIgnoresCase(s: string, t: string)
    requires Lower(s) == Lower(t)
    ensures Upper(s) == Upper(t)
  {
    assert |s| == |t|;
    forall i | 0 <= i < |s| ensures Upper(s)[i] == Upper(t)[i] {
      assert Lower(s)[i] == Lower(t)[i];
    }
  }

  predicate AllSpace(s: string)
  {
    forall i :: 0 <= i < |s| ==> IsSpace(s[i])
  }

  /** Number of white-space characters `s.lstrip()` removes. */
  function LeadingSpace(s: string): (n: nat)
    ensures n <= |s| && AllSpace(s[..n]) && (n == |s| || !IsSpace(s[n]))
  {
    if s == [] || !IsSpace(s[0]) then 0
    else
      var n := 1 + LeadingSpace(s[1..]);
      assert s[..n] == [s[0]] + s[1..][..n - 1];
      n
  }

  /** Number of white-space characters `s.rstrip()` removes. */
  function TrailingSpace(s: string): (n: nat)
    ensures n <= |s| && AllSpace(s[|s| - n..]) && (n == |s| || !IsSpace(s[|s| - n - 1]))
  {
    if s == [] || !IsSpace(s[|s| - 1]) then 0
    else
      var init := s[..|s| - 1];
      var m := TrailingSpace(init);
      assert s[|s| - (m + 1)..] == init[|init| - m..] + [s[|s| - 1]];
      assert m + 1 < |s| ==> s[|s| - m - 2] == init[|init| - m - 1];
      m + 1
  }

  /** Python's `s.strip()`: `s` is `r` surrounded by white space only, and
      `r` neither starts nor ends with white space. */
  function Strip(s: string): (r: string)
    ensures r == [] || (!IsSpace(r[0]) && !IsSpace(r[|r| - 1]))
    ensures LeadingSpace(s) + |r| <= |s|
    ensures r == s[LeadingSpace(s)..LeadingSpace(s) + |r|]
    ensures AllSpace(s[LeadingSpace(s) + |r|..])
  {
    var lo := LeadingSpace(s);
    var t := s[lo..];
    var k := TrailingSpace(t);
    var r := t[..|t| - k];
    SliceParts(s, lo, k);
    r
  }

  /** Cutting `k` characters off the end of `s[lo..]` leaves a slice of `s`
      whose ends are characters of `s` and of `s[lo..]`. */
  lemma SliceParts(s: string, lo: nat, k: nat)
    requires lo <= |s| && k <= |s| - lo
    ensures var t := s[lo..]; var r := t[..|t| - k];
      r == s[lo..lo + |r|] && t[|t| - k..] == s[lo + |r|..]
      && (r != [] ==> r[0] == s[lo] && r[|r| - 1] == t[|t| - k - 1])
  {
  }

  /** A string is blank (`not s.strip()`) exactly when every character is white space. */
  lemma StripEmptyIffAllSpace(s: string)
    ensures Strip(s) == [] <==> AllSpace(s)
  {
    var r, lo := Strip(s), LeadingSpace(s);
    if r != [] {
      assert s[lo] == r[0] && !IsSpace(s[lo]);
    } else {
      assert s[..lo] == s;
    }
  }

  /** Concatenation is associative (stated once, for the loops that build a
      log piece by piece). */
  lemma ConcatAssoc<T>(a: seq<T>, b: seq<T>, c: seq<T>)
    ensures (a + b) + c == a + (b + c)
  {
  }

  /** `s.replace(c, "")`: the string with every `c` removed. */
  function RemoveChar(s: string, c: char): string
  {
    if s == [] then [] else RemoveChar(s[..|s| - 1], c) + (if s[|s| - 1] == c then [] else [s[|s| - 1]])
  }

  /** Removing a character distributes over concatenation. */
  lemma {:induction false} RemoveCharAppend(a: string, b: string, c: char)
    ensures RemoveChar(a + b, c) == RemoveChar(a, c) + RemoveChar(b, c)
    decreases |b|
  {
    if b == [] {
      assert a + b == a;
    } else {
      var init := b[..|b| - 1];
      assert (a + b)[..|a + b| - 1] == a + init;
      RemoveCharAppend(a, init, c);
      ConcatAssoc(RemoveChar(a, c), RemoveChar(init, c), if b[|b| - 1] == c then [] else [b[|b| - 1]]);
    }
  }

  /** A string without `c` is left as it is. */
  lemma {:induction false} RemoveCharNone(s: string, c: char)
    requires forall i :: 0 <= i < |s| ==> s[i] != c
    ensures RemoveChar(s, c) == s
  {
    if s != [] {
      RemoveCharNone(s[..|s| - 1], c);
    }
  }

  /** Removing `c` keeps every other character that was there, and adds none. */
  lemma {:induction false} RemoveCharKeeps(s: string, c: char, x: char)
    requires x != c
    ensures x in RemoveChar(s, c) <==> x in s
  {
    if s != [] {
      var init := s[..|s| - 1];
      RemoveCharKeeps(init, c, x);
      assert s == init + [s[|s| - 1]];
    }
  }

  /** An ASCII decimal digit. */
  predicate IsDigit(c: char)
  {
    48 <= c as int <= 57
  }

  /** The value of a string of digits read in base 10, most significant first. */
  function DigitsValue(s: string): nat
    requires forall i :: 0 <= i < |s| ==> IsDigit(s[i])
  {
    if s == [] then 0
    else
      assert IsDigit(s[|s| - 1]);
      DigitsValue(s[..|s| - 1]) * 10 + (s[|s| - 1] as int - 48)
  }

  /** Python's `str(n)` for a natural number: its base-10 digits, no leading zero. */
  function NatDecimal(n: nat): (s: string)
    ensures s != [] && forall i :: 0 <= i < |s| ==> IsDigit(s[i])
    ensures DigitsValue(s) == n
    ensures s[0] == '0' ==> n == 0
  {
    var last := (48 + n % 10) as char;
    if n < 10 then [last]
    else
      var s := NatDecimal(n / 10) + [last];
      assert s[..|s| - 1] == NatDecimal(n / 10);
      s
  }

  /** Python's `str(n)`: a minus sign before the digits of a negative number.
      The text starts with `'-'` exactly when `n` is negative, and the digits
      after the sign, without a leading zero, spell the magnitude of `n`. */
  function Decimal(n: int): (s: string)
    ensures s != [] && (s[0] == '-' <==> n < 0)
    ensures var digits := if n < 0 then s[1..] else s;
      digits != [] && (forall i :: 0 <= i < |digits| ==> IsDigit(digits[i]))
      && DigitsValue(digits) == (if n < 0 then -n else n)
      && (digits[0] == '0' ==> n == 0)
  {
    if n >= 0 then NatDecimal(n) else "-" + NatDecimal(-n)
  }
}
