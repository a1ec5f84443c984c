/**
 * Address and key formats of tools/brain_wallet.py: WIF private keys, P2PKH,
 * P2SH-P2WPKH and Bech32 P2WPKH Bitcoin addresses, and EIP-55 Ethereum
 * addresses. SHA-256, HASH160 and Keccak-256 are parameters fixed only in
 * their digest lengths.
 */
module Addresses {
  import opened Common
  import opened Bits
  import opened BitGroups
  import Base58
  import Bech32

  /** The four checksum bytes that end Base58Check data. */
  predicate ChecksumTail(d: seq<byte>, sha256: Digest32)
    requires |d| >= 4
  {
    d[|d| - 4..] == Base58.Checksum(d[..|d| - 4], sha256)
  }

  /** The bytes `private_key_to_wif` writes in Base58: version 0x80 on
      mainnet and 0xef otherwise, the key, 0x01 when the public key is to be
      compressed, and the checksum. */
  function WifData(priv: seq<byte>, compressed: bool, mainnet: bool, sha256: Digest32): (d: seq<byte>)
    ensures |d| == 1 + |priv| + (if compressed then 1 else 0) + 4
    ensures d[0] == (if mainnet then 0x80 else 0xef) && d[1..|priv| + 1] == priv
    ensures compressed ==> d[|priv| + 1] == 0x01
    ensures ChecksumTail(d, sha256)
  {
    var version: seq<byte> := [if mainnet then 0x80 else 0xef];
    var payload := priv + (if compressed then [0x01] else []);
    var raw := version + payload;
    var d := Base58.CheckedData(version, payload, sha256);
    assert d[..|raw|] == raw;
    assert d[1..|priv| + 1] == priv by {
      assert d[1..|priv| + 1] == raw[1..|priv| + 1];
    }
    assert compressed ==> d[|priv| + 1] == 0x01 by {
      if compressed {
        assert d[|priv| + 1] == raw[|priv| + 1];
      }
    }
    d
  }

  /** `private_key_to_wif(priv, compressed, mainnet)` */
  function Wif(priv: seq<byte>, compressed: bool, mainnet: bool, sha256: Digest32): string
  {
    Base58.Encode(WifData(priv, compressed, mainnet, sha256))
  }

  /** Base58Check data of one version byte and a 20-byte hash. */
  function HashData(version: byte, h: seq<byte>, sha256: Digest32): (d: seq<byte>)
    requires |h| == 20
    ensures |d| == 25 && d[0] == version
    ensures d[1..21] == h && ChecksumTail(d, sha256)
  {
    var d := Base58.CheckedData([version], h, sha256);
    assert d[1..21] == h by {
      assert d[..21] == [version] + h;
    }
    d
  }

  /** The bytes of a P2PKH address: version 0x00 on mainnet and 0x6f
      otherwise, the HASH160 of the public key, and the checksum. */
  function P2pkhData(pub: seq<byte>, mainnet: bool, hash160: Digest20, sha256: Digest32): (d: seq<byte>)
    ensures |d| == 25 && d[0] == (if mainnet then 0x00 else 0x6f)
    ensures d[1..21] == hash160(pub) && ChecksumTail(d, sha256)
  {
    HashData(if mainnet then 0x00 else 0x6f, hash160(pub), sha256)
  }

  /** `btc_p2pkh_address(pub, mainnet)` */
  function P2pkhAddress(pub: seq<byte>, mainnet: bool, hash160: Digest20, sha256: Digest32): string
  {
    Base58.Encode(P2pkhData(pub, mainnet, hash160, sha256))
  }

  /** A mainnet P2PKH address starts with exactly one `'1'`: its version byte
      is the only leading zero byte when the key hash does not start with 0. */
  lemma P2pkhMainnetStartsWithOne(pub: seq<byte>, hash160: Digest20, sha256: Digest32)
    ensures var a := P2pkhAddress(pub, true, hash160, sha256);
      |a| > 0 && a[0] == '1'
    ensures hash160(pub)[0] != 0 ==>
      Base58.LeadingCount(P2pkhAddress(pub, true, hash160, sha256), '1') == 1
  {
    var d := P2pkhData(pub, true, hash160, sha256);
    Base58.EncodeProperties(d);
    assert d[1] == hash160(pub)[0];
  }

  /** The redeem script of a P2SH-P2WPKH address: `0x00 0x14` (version 0
      witness, push 20 bytes) and the key hash. */
  function RedeemScript(pub: seq<byte>, hash160: Digest20): (s: seq<byte>)
    ensures |s| == 22 && s[..2] == [0x00, 0x14] && s[2..] == hash160(pub)
  {
    [0x00, 0x14] + hash160(pub)
  }

  /** The bytes of a P2SH-P2WPKH address: version 0x05 on mainnet and 0xc4
      otherwise, the HASH160 of the redeem script, and the checksum. */
  function P2shData(pub: seq<byte>, mainnet: bool, hash160: Digest20, sha256: Digest32): (d: seq<byte>)
    ensures |d| == 25 && d[0] == (if mainnet then 0x05 else 0xc4)
    ensures d[1..21] == hash160(RedeemScript(pub, hash160)) && ChecksumTail(d, sha256)
  {
    HashData(if mainnet then 0x05 else 0xc4, hash160(RedeemScript(pub, hash160)), sha256)
  }

  /** `btc_p2sh_p2wpkh_address(pub, mainnet)` */
  function P2shAddress(pub: seq<byte>, mainnet: bool, hash160: Digest20, sha256: Digest32): string
  {
    Base58.Encode(P2shData(pub, mainnet, hash160, sha256))
  }

  /** The data part of a P2WPKH address: witness version 0, then the key
      hash regrouped into five-bit symbols. */
  function WitnessData(prog: seq<byte>): seq<nat>
  {
    [0] + ConvertBits(prog, 8, 5, true)
  }

  /** `btc_bech32_p2wpkh_address(pub, hrp)`; the source's default `hrp` is
      `"bc"`. */
  function Bech32Address(pub: seq<byte>, hrp: string, hash160: Digest20): string
    requires Bech32.IsFiveBit(WitnessData(hash160(pub)))
  {
    Bech32.Encode(hrp, WitnessData(hash160(pub)))
  }

  const MainnetHrp: string := "bc"

  lemma BytesInRange(prog: seq<byte>)
    ensures AllInRange(prog, 8)
  {
    assert Pow2(8) == 256 by {
      assert Pow2(4) == 16;
    }
  }

  /** The witness data of a 20-byte key hash: 33 five-bit symbols, version 0
      first, from which the key hash is recovered exactly. */
  lemma WitnessDataShape(prog: seq<byte>)
    requires |prog| == 20
    ensures var w := WitnessData(prog);
      |w| == 33 && w[0] == 0 && Bech32.IsFiveBit(w)
      && ConvertBits(w[1..], 5, 8, false) == prog
  {
    BytesInRange(prog);
    WitnessProgramGroups(prog);
    RoundTrip(prog);
    var w := WitnessData(prog);
    assert w[1..] == ConvertBits(prog, 8, 5, true);
    assert Pow2(5) == 32 by {
      assert Pow2(4) == 16;
    }
  }

  /** A P2WPKH address is `hrp`, `'1'`, and 39 characters of the Bech32
      alphabet; read back as symbols they pass the BIP-173 checksum and
      carry witness version 0 and the key hash. */
  lemma Bech32AddressShape(pub: seq<byte>, hrp: string, hash160: Digest20)
    ensures Bech32.IsFiveBit(WitnessData(hash160(pub)))
    ensures var a := Bech32Address(pub, hrp, hash160);
      |a| == |hrp| + 40 && a[..|hrp|] == hrp && a[|hrp|] == '1'
      && a[|hrp| + 1] == 'q'
      && forall i :: |hrp| < i < |a| ==> a[i] in Bech32.Charset
    ensures var a := Bech32Address(pub, hrp, hash160);
      Bech32.InCharset(a[|hrp| + 1..])
      && var d := Bech32.Read(a[|hrp| + 1..]);
      Bech32.VerifyChecksum(hrp, d)
      && d[0] == 0 && ConvertBits(d[1..33], 5, 8, false) == hash160(pub)
  {
    var w := WitnessData(hash160(pub));
    WitnessDataShape(hash160(pub));
    Bech32.EncodeVerifies(hrp, w);
    var d := Bech32.Read(Bech32Address(pub, hrp, hash160)[|hrp| + 1..]);
    assert d[1..33] == w[1..] by {
      assert d[..33] == w;
    }
  }

  /** The lower-case hexadecimal digit of a value below 16. */
  function HexChar(n: nat): (c: char)
    requires n < 16
    ensures ('0' <= c <= '9' || 'a' <= c <= 'f') && HexValue(c) == n
  {
    if n < 10 then ('0' as int + n) as char else ('a' as int + n - 10) as char
  }

  /** `int(c, 16)` for one hexadecimal digit of either case. */
  function HexValue(c: char): nat
  {
    if '0' <= c <= '9' then c as nat - '0' as nat
    else if 'a' <= c <= 'f' then c as nat - 'a' as nat + 10
    else if 'A' <= c <= 'F' then c as nat - 'A' as nat + 10
    else 0
  }

  /** `bytes.hex()`: two lower-case digits per byte, high nibble first. */
  function Hex(b: seq<byte>): (s: string)
    ensures |s| == 2 * |b|
    ensures forall i :: 0 <= i < |s| ==> '0' <= s[i] <= '9' || 'a' <= s[i] <= 'f'
  {
    if b == [] then [] else [HexChar(b[0] / 16), HexChar(b[0] % 16)] + Hex(b[1..])
  }

  /** Each pair of digits of `bytes.hex()` reads back, in base 16, as its byte. */
  lemma {:induction false} HexPair(b: seq<byte>, j: nat)
    requires j < |b|
    ensures HexValue(Hex(b)[2 * j]) * 16 + HexValue(Hex(b)[2 * j + 1]) == b[j]
    decreases j
  {
    if j > 0 {
      HexPair(b[1..], j - 1);
      assert Hex(b)[2 * j] == Hex(b[1..])[2 * (j - 1)];
      assert Hex(b)[2 * j + 1] == Hex(b[1..])[2 * (j - 1) + 1];
    }
  }

  /** `s.encode("ascii")` for text made of ASCII characters. */
  function Ascii(s: string): (b: seq<byte>)
    requires forall i :: 0 <= i < |s| ==> s[i] as int < 128
    ensures |b| == |s|
  {
    seq(|s|, i requires 0 <= i < |s| => s[i] as int)
  }

  /** The EIP-55 checksummed form of a 20-byte address: `"0x"`, then each
      hex digit of the address, upper-cased when the hex digit at the same
      position of the Keccak-256 hash of the lower-case hex text is 8 or more. */
  function Eip55(raw: seq<byte>, keccak: Digest32): (r: string)
    requires |raw| == 20
    ensures |r| == 42 && r[..2] == "0x"
  {
    var hexAddr := Hex(raw);
    var addrHash := Hex(keccak(Ascii(hexAddr)));
    "0x" + seq(40, i requires 0 <= i < 40 =>
      if HexValue(addrHash[i]) >= 8 then UpperChar(hexAddr[i]) else hexAddr[i])
  }

  /** What EIP-55 promises: the address is the hex address up to case, and a
      character is upper-case exactly when it is a letter whose hash digit is
      8 or more. */
  lemma Eip55Casing(raw: seq<byte>, keccak: Digest32)
    requires |raw| == 20
    ensures var r := Eip55(raw, keccak);
      Lower(r[2..]) == Hex(raw)
      && forall i :: 0 <= i < 40 ==>
           (IsUpperAscii(r[2 + i]) <==>
             'a' <= Hex(raw)[i] <= 'f' && HexValue(Hex(keccak(Ascii(Hex(raw))))[i]) >= 8)
  {
    var r := Eip55(raw, keccak);
    var hexAddr := Hex(raw);
    var addrHash := Hex(keccak(Ascii(hexAddr)));
    forall i | 0 <= i < 40
      ensures LowerChar(r[2 + i]) == hexAddr[i]
      ensures IsUpperAscii(r[2 + i]) <==> 'a' <= hexAddr[i] <= 'f' && HexValue(addrHash[i]) >= 8
    {
      CaseOfHexDigit(hexAddr[i], HexValue(addrHash[i]) >= 8);
    }
    assert Lower(r[2..]) == hexAddr by {
      forall i | 0 <= i < 40 ensures Lower(r[2..])[i] == hexAddr[i] {
        assert r[2..][i] == r[2 + i];
      }
    }
  }

  /** Upper-casing a lower-case hex digit on demand: it lowers back to the
      digit, and it is an upper-case letter exactly when it was a letter and
      upper-casing was asked for. */
  lemma CaseOfHexDigit(c: char, upper: bool)
    requires '0' <= c <= '9' || 'a' <= c <= 'f'
    ensures var e := if upper then UpperChar(c) else c;
      LowerChar(e) == c && (IsUpperAscii(e) <==> upper && 'a' <= c <= 'f')
  {
  }

  /** `eth_address_from_privkey` from the 64-byte public point `x ‖ y` on:
      the last 20 bytes of its Keccak-256 hash, in EIP-55 form. */
  function EthAddress(pubXY: seq<byte>, keccak: Digest32): (r: string)
    ensures |r| == 42 && r[..2] == "0x"
    ensures Lower(r[2..]) == Hex(keccak(pubXY)[12..])
  {
    var digest := keccak(pubXY);
    Eip55Casing(digest[12..], keccak);
    Eip55(digest[12..], keccak)
  }
}
