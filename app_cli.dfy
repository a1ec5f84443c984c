/**
 * The interactive wallet menu (`app/cli.py`): reading answers from standard
 * input, `prompt_int`'s retry loop, the word-count check before a mnemonic
 * is generated, the script-type and chain menus, the address derivation
 * loops and the Blockstream balance clamp. Standard input is the sequence
 * of lines still to be read; BIP-32/39/44 derivation (`bip_utils`) is a
 * function parameter giving the address at each index.
 */
module AppCli {
  import opened Common

  /** `prompt`: the next line of input, or `""` at end of input, and the
      input that remains. */
  function Prompt(inputs: seq<string>): (r: (string, seq<string>))
    ensures inputs == [] ==> r == ("", [])
    ensures inputs != [] ==> [r.0] + r.1 == inputs
  {
    if inputs == [] then ("", []) else (inputs[0], inputs[1..])
  }

  /** Digits with single underscores between them, the body `int()` accepts
      in base 10. */
  predicate WellGrouped(s: string)
  {
    s != [] && IsDigit(s[0]) &&
    (|s| == 1 || (if s[1] == '_' then WellGrouped(s[2..]) else WellGrouped(s[1..])))
  }

  /** The digits of a well-grouped string, underscores dropped. */
  function GroupedDigits(s: string): (d: string)
    requires WellGrouped(s)
    ensures d != [] && forall i :: 0 <= i < |d| ==> IsDigit(d[i])
  {
    if |s| == 1 then [s[0]]
    else if s[1] == '_' then [s[0]] + GroupedDigits(s[2..])
    else [s[0]] + GroupedDigits(s[1..])
  }

  /** The digits are the numeral with its underscores removed, as
      `int()` reads it. */
  lemma {:induction false} GroupedDigitsUngroup(s: string)
    requires WellGrouped(s)
    ensures GroupedDigits(s) == RemoveChar(s, '_')
  {
    assert !IsDigit('_');
    RemoveCharNone([s[0]], '_');
    if |s| > 1 {
      var rest := if s[1] == '_' then s[2..] else s[1..];
      GroupedDigitsUngroup(rest);
      assert s == [s[0]] + s[1..];
      RemoveCharAppend([s[0]], s[1..], '_');
      if s[1] == '_' {
        assert s[1..] == ['_'] + rest;
        assert ['_'][..0] == [];
        RemoveCharAppend(['_'], rest, '_');
      }
    }
  }

  /** A string of digits is well grouped and has no underscore to drop. */
  lemma {:induction false} DigitsGrouped(s: string)
    requires s != [] && forall i :: 0 <= i < |s| ==> IsDigit(s[i])
    ensures WellGrouped(s) && GroupedDigits(s) == s
  {
    if |s| > 1 {
      assert !IsDigit('_');
      assert s[1] != '_';
      DigitsGrouped(s[1..]);
    }
  }

  /** Python's `int(raw)` on an already stripped string: an optional sign,
      then digits grouped by single underscores; anything else is a
      `ValueError`, here `None`. */
  function ParseInt(raw: string): (n: Option<int>)
    ensures n.Some? ==> raw != [] && (IsDigit(raw[0]) || raw[0] == '+' || raw[0] == '-')
  {
    var signed := raw != [] && (raw[0] == '+' || raw[0] == '-');
    var body := if signed then raw[1..] else raw;
    if WellGrouped(body) then
      var v: int := DigitsValue(GroupedDigits(body));
      Some(if signed && raw[0] == '-' then -v else v)
    else None
  }

  /** `int()` reads back what `str()` writes. */
  lemma ParseDecimal(n: int)
    ensures ParseInt(Decimal(n)) == Some(n)
  {
    var d := NatDecimal(if n >= 0 then n else -n);
    DigitsGrouped(d);
    if n < 0 {
      assert Decimal(n)[1..] == d;
    }
  }

  /** How `prompt_int` treats one answer line. */
  datatype Reply = Blank | Retry | Accept(value: int)

  /** A blank line selects the default, a number in range is the answer, and
      anything else (not a number, or out of range) is asked again. */
  function ReplyTo(line: string, minValue: int, maxValue: int): (r: Reply)
    ensures r == Blank <==> Strip(line) == []
    ensures r.Accept? <==> Strip(line) != [] && ParseInt(Strip(line)).Some? &&
                           minValue <= ParseInt(Strip(line)).value <= maxValue
    ensures r.Accept? ==> r.value == ParseInt(Strip(line)).value
  {
    var raw := Strip(line);
    if raw == [] then Blank
    else
      match ParseInt(raw)
      case None => Retry
      case Some(v) => if v < minValue || v > maxValue then Retry else Accept(v)
  }

  /** The reply each line gets. */
  function Replies(inputs: seq<string>, minValue: int, maxValue: int): (rs: seq<Reply>)
    ensures |rs| == |inputs|
    ensures forall i :: 0 <= i < |inputs| ==> rs[i] == ReplyTo(inputs[i], minValue, maxValue)
  {
    seq(|inputs|, i requires 0 <= i < |inputs| => ReplyTo(inputs[i], minValue, maxValue))
  }

  /** The answer and the number of lines read, given the lines' replies;
      the end of input reads as a blank line. */
  function Settle(replies: seq<Reply>, default: int): (r: (int, nat))
    ensures r.1 <= |replies|
  {
    if replies == [] then (default, 0)
    else
      match replies[0]
      case Blank => (default, 1)
      case Accept(v) => (v, 1)
      case Retry =>
        var (v, n) := Settle(replies[1..], default);
        (v, n + 1)
  }

  /** What `prompt_int` returns and the input it leaves unread. */
  function PromptIntResult(inputs: seq<string>, default: int, minValue: int, maxValue: int): (int, seq<string>)
  {
    var (v, n) := Settle(Replies(inputs, minValue, maxValue), default);
    (v, inputs[n..])
  }

  /** One more reply to retry: the answer is that of the replies after it. */
  lemma SettleRetry(replies: seq<Reply>, i: nat, default: int)
    requires i < |replies| && replies[i] == Retry
    ensures Settle(replies[i..], default) == (Settle(replies[i + 1..], default).0, Settle(replies[i + 1..], default).1 + 1)
  {
    assert replies[i..][1..] == replies[i + 1..];
  }

  /** A reply other than a retry settles the replies from it after one line. */
  lemma SettleStops(replies: seq<Reply>, i: nat, default: int)
    requires i < |replies| && replies[i] != Retry
    ensures Settle(replies[i..], default) == (if replies[i] == Blank then default else replies[i].value, 1)
  {
  }

  /** One pass of `prompt_int`'s loop body over an answer line. */
  method ReadReply(line: string, minValue: int, maxValue: int) returns (reply: Reply)
    ensures reply == ReplyTo(line, minValue, maxValue)
  {
    var raw := Strip(line);
    if raw == [] {
      return Blank;
    }
    var parsed := ParseInt(raw);
    if parsed.None? || parsed.value < minValue || parsed.value > maxValue {
      return Retry;
    }
    return Accept(parsed.value);
  }

  /** `prompt_int`: asks until a blank answer (the default) or a number in
      range; the end of input reads as a blank answer. */
  method PromptInt(inputs: seq<string>, default: int, minValue: int, maxValue: int) returns (value: int, rest: seq<string>)
    ensures (value, rest) == PromptIntResult(inputs, default, minValue, maxValue)
  {
    ghost var replies := Replies(inputs, minValue, maxValue);
    ghost var i := 0;
    rest := inputs;
    while rest != []
      invariant i <= |inputs| && rest == inputs[i..]
      invariant Settle(replies, default).0 == Settle(replies[i..], default).0
      invariant Settle(replies, default).1 == Settle(replies[i..], default).1 + i
      decreases |rest|
    {
      var reply := ReadReply(rest[0], minValue, maxValue);
      assert reply == replies[i] && replies[i..][0] == reply;
      rest := rest[1..];
      match reply
      case Blank =>
        SettleStops(replies, i, default);
        return default, rest;
      case Accept(v) =>
        SettleStops(replies, i, default);
        return v, rest;
      case Retry =>
        SettleRetry(replies, i, default);
        i := i + 1;
    }
    assert replies[i..] == [];
    value := default;
  }

  /** The reply that decides: every reply before index `k` is a retry; the
      answer is the default when the replies end there or reply `k` is
      blank, and otherwise the number reply `k` accepts; the lines read are
      those up to and including `k`. */
  lemma {:induction false} SettleDecides(replies: seq<Reply>, default: int) returns (k: nat)
    ensures k <= |replies|
    ensures forall j :: 0 <= j < k ==> replies[j] == Retry
    ensures k == |replies| ==> Settle(replies, default) == (default, k)
    ensures k < |replies| ==>
      replies[k] != Retry && Settle(replies, default).1 == k + 1 &&
      Settle(replies, default).0 == (if replies[k] == Blank then default else replies[k].value)
  {
    if replies == [] || replies[0] != Retry {
      k := 0;
    } else {
      var k' := SettleDecides(replies[1..], default);
      k := k' + 1;
      assert forall j :: 0 < j < |replies| ==> replies[j] == replies[1..][j - 1];
    }
  }

  /** The line that decides: every line before index `k` is asked again;
      the answer is the default when input ends there or line `k` is blank,
      and otherwise the number line `k` holds, which is in range. Nothing
      after line `k` is read. */
  lemma PromptIntDecides(inputs: seq<string>, default: int, minValue: int, maxValue: int) returns (k: nat)
    ensures k <= |inputs|
    ensures forall j :: 0 <= j < k ==> ReplyTo(inputs[j], minValue, maxValue) == Retry
    ensures k == |inputs| ==> PromptIntResult(inputs, default, minValue, maxValue) == (default, [])
    ensures k < |inputs| ==>
      var r := PromptIntResult(inputs, default, minValue, maxValue);
      r.1 == inputs[k + 1..] &&
      ((Strip(inputs[k]) == [] && r.0 == default) ||
       (ParseInt(Strip(inputs[k])) == Some(r.0) && minValue <= r.0 <= maxValue))
  {
    var replies := Replies(inputs, minValue, maxValue);
    k := SettleDecides(replies, default);
    assert inputs[|inputs|..] == [];
  }

  /** The answer is the default or a number in range. */
  lemma PromptIntInRange(inputs: seq<string>, default: int, minValue: int, maxValue: int)
    ensures var v := PromptIntResult(inputs, default, minValue, maxValue).0;
      v == default || minValue <= v <= maxValue
  {
    var k := PromptIntDecides(inputs, default, minValue, maxValue);
  }

  /** The word count `action_generate_mnemonic` generates: the prompt lets
      through 12 to 24, the action goes on only for 12 or 24. */
  function MnemonicWordCount(inputs: seq<string>): (n: Option<int>)
    ensures n.Some? ==> n.value == 12 || n.value == 24
  {
    var count := PromptIntResult(inputs, 12, 12, 24).0;
    if count == 12 || count == 24 then Some(count) else None
  }

  /** A count the prompt accepts but the generator does not is refused. */
  lemma WordCountRefused(inputs: seq<string>, v: int)
    requires inputs != [] && ParseInt(Strip(inputs[0])) == Some(v)
    requires 12 < v < 24
    ensures MnemonicWordCount(inputs) == None
  {
  }

  /** At the end of input a 12-word mnemonic is generated. */
  lemma WordCountAtEnd()
    ensures MnemonicWordCount([]) == Some(12)
  {
    assert Strip("") == "";
  }

  /** The BTC address schemes: BIP-44 legacy, BIP-49 nested SegWit and
      BIP-84 native SegWit. */
  datatype BtcScript = P2pkh | P2shP2wpkh | Bech32

  /** The name `_derive_btc_addresses` knows each scheme by. */
  function ScriptName(script: BtcScript): string
  {
    match script
    case P2pkh => "p2pkh"
    case P2shP2wpkh => "p2sh-p2wpkh"
    case Bech32 => "bech32"
  }

  /** `_derive_btc_addresses`' dispatch: the scheme a name selects, `None`
      where it raises `ValueError`. */
  function BtcScriptOf(name: string): (script: Option<BtcScript>)
    ensures script.Some? ==> ScriptName(script.value) == name
  {
    if name == "p2pkh" then Some(P2pkh)
    else if name == "p2sh-p2wpkh" then Some(P2shP2wpkh)
    else if name == "bech32" then Some(Bech32)
    else None
  }

  /** Each scheme is selected by its own name and only by it. */
  lemma ScriptNamesRoundTrip(script: BtcScript)
    ensures BtcScriptOf(ScriptName(script)) == Some(script)
  {
  }

  /** The outcome of `_derive_btc_addresses`. */
  datatype Derivation = Derived(addresses: seq<string>) | UnsupportedScript

  /** The loop `for index in range(count)`: the address at each index, index
      0 first; a count below 1 gives none. */
  method AddressRange(addressAt: nat -> string, count: int) returns (addresses: seq<string>)
    ensures |addresses| == if count > 0 then count else 0
    ensures forall i :: 0 <= i < |addresses| ==> addresses[i] == addressAt(i)
  {
    addresses := [];
    var index := 0;
    while index < count
      invariant 0 <= index && (index <= count || (count <= 0 && index == 0))
      invariant |addresses| == index
      invariant forall i :: 0 <= i < index ==> addresses[i] == addressAt(i)
    {
      addresses := addresses + [addressAt(index)];
      index := index + 1;
    }
  }

  /** `_derive_btc_addresses`: an unknown script type is refused; otherwise
      `count` addresses of the chosen scheme. `addressAt(script, i)` is the
      external-chain address at index `i` of account 0 of the seed. */
  method DeriveBtcAddresses(addressAt: (BtcScript, nat) -> string, scriptType: string, count: int)
    returns (r: Derivation)
    ensures r.UnsupportedScript? <==> BtcScriptOf(scriptType).None?
    ensures r.Derived? ==>
      |r.addresses| == (if count > 0 then count else 0) &&
      forall i :: 0 <= i < |r.addresses| ==> r.addresses[i] == addressAt(BtcScriptOf(scriptType).value, i)
  {
    var script := BtcScriptOf(scriptType);
    if script.None? {
      return UnsupportedScript;
    }
    var addresses := AddressRange((i: nat) => addressAt(script.value, i), count);
    r := Derived(addresses);
  }

  /** The EVM coin types `_derive_evm_addresses` derives for. */
  datatype EvmCoin = Ethereum | BinanceSmartChain | Polygon

  const EthereumLabels: seq<string> := ["eth", "ethereum"]
  const BinanceLabels: seq<string> := ["bsc", "bnb", "binance smart chain", "binance-smart-chain"]
  const PolygonLabels: seq<string> := ["polygon", "matic"]

  /** The coin a chain label selects, ignoring case; an unknown label falls
      back to Ethereum. */
  function EvmCoinOf(chain: string): (coin: EvmCoin)
    ensures coin == BinanceSmartChain <==> Lower(chain) in BinanceLabels
    ensures coin == Polygon <==> Lower(chain) in PolygonLabels
    ensures coin == Ethereum <==> Lower(chain) !in BinanceLabels + PolygonLabels
  {
    var lowered := Lower(chain);
    if lowered in EthereumLabels then Ethereum
    else if lowered in BinanceLabels then BinanceSmartChain
    else if lowered in PolygonLabels then Polygon
    else Ethereum
  }

  /** Labels that differ only in case select the same coin. */
  lemma EvmCoinIgnoresCase(a: string, b: string)
    requires Upper(a) == Upper(b)
    ensures EvmCoinOf(a) == EvmCoinOf(b)
  {
    assert |a| == |b|;
    forall i | 0 <= i < |a| ensures Lower(a)[i] == Lower(b)[i] {
      assert Upper(a)[i] == Upper(b)[i];
    }
    assert Lower(a) == Lower(b);
  }

  /** `_derive_evm_addresses`: `count` addresses of the coin the label
      selects. */
  method DeriveEvmAddresses(addressAt: (EvmCoin, nat) -> string, chain: string, count: int)
    returns (addresses: seq<string>)
    ensures |addresses| == if count > 0 then count else 0
    ensures forall i :: 0 <= i < |addresses| ==> addresses[i] == addressAt(EvmCoinOf(chain), i)
  {
    var coin := EvmCoinOf(chain);
    addresses := AddressRange((i: nat) => addressAt(coin, i), count);
  }

  /** `prompt(...).strip() or default`: the choice is the default or the
      answer without surrounding blanks, and never blank when the default
      is not. */
  function ChoiceOr(line: string, default: string): (choice: string)
    ensures Strip(line) != [] ==> choice == Strip(line)
    ensures Strip(line) == [] ==> choice == default
    ensures choice != default ==> choice == Strip(line)
    ensures default != [] ==> choice != []
  {
    var c := Strip(line);
    if c == [] then default else c
  }

  /** Pressing Enter at the menus picks Bitcoin, and then native SegWit. */
  lemma BlankAnswerDefaults(line: string)
    requires Strip(line) == []
    ensures ChoiceOr(line, "1") == "1"
    ensures BtcScriptOf(ScriptChoice(ChoiceOr(line, "3"))) == Some(Bech32)
  {
  }

  const ScriptChoices: map<string, string> := map["1" := "p2pkh", "2" := "p2sh-p2wpkh", "3" := "bech32"]

  /** The BTC script menu: `1`, `2` and `3` pick the three schemes, anything
      else native SegWit, so the menu never reaches the `ValueError`. */
  function ScriptChoice(choice: string): (name: string)
    ensures BtcScriptOf(name).Some?
    ensures BtcScriptOf(name).value == (if choice == "1" then P2pkh else if choice == "2" then P2shP2wpkh else Bech32)
  {
    if choice in ScriptChoices then ScriptChoices[choice] else "bech32"
  }

  const ChainChoices: map<string, string> := map["2" := "ETH", "3" := "BSC", "4" := "POLYGON"]

  /** The EVM chain menu: `2`, `3` and `4` name Ethereum, BNB Smart Chain and
      Polygon, anything else Ethereum; each label selects the coin it names. */
  function ChainChoice(choice: string): (chain: string)
    ensures EvmCoinOf(chain) == (if choice == "3" then BinanceSmartChain else if choice == "4" then Polygon else Ethereum)
  {
    LowerChoices();
    if choice in ChainChoices then ChainChoices[choice] else "ETH"
  }

  /** The lower-case forms of the menu's chain labels. */
  lemma LowerChoices()
    ensures Lower("ETH") == "eth" && Lower("BSC") == "bsc" && Lower("POLYGON") == "polygon"
  {
    assert Lower("ETH") == [LowerChar('E'), LowerChar('T'), LowerChar('H')];
    assert Lower("BSC") == [LowerChar('B'), LowerChar('S'), LowerChar('C')];
    assert Lower("POLYGON") == [LowerChar('P'), LowerChar('O'), LowerChar('L'), LowerChar('Y'),
                                LowerChar('G'), LowerChar('O'), LowerChar('N')];
  }

  /** The derivation menu asks for 1 to 50 addresses (5 by default), so
      between 1 and 50 addresses are derived. */
  lemma DeriveCountInRange(inputs: seq<string>)
    ensures 1 <= PromptIntResult(inputs, 5, 1, 50).0 <= 50
  {
    PromptIntInRange(inputs, 5, 1, 50);
  }

  /** `_btc_get_balance`: funded minus spent outputs, never below zero. */
  function SatoshiBalance(funded: int, spent: int): (sats: nat)
    ensures sats >= funded - spent
    ensures sats == 0 || sats == funded - spent
  {
    if funded > spent then funded - spent else 0
  }
}
