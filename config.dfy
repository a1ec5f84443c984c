/**
 * Scanner configuration (`scanner/config.py`): `load_config` turns an
 * already-parsed YAML mapping, or the built-in default when there is no
 * file, into chain settings with upper-case keys and symbols and cleaned
 * address lists. YAML parsing and the file-existence test are outside the
 * model: the caller passes the parsed document, or `None` for "no path, or
 * no file at that path".
 */
module Config {
  import opened Common

  /** One entry of the `chains` mapping as parsed: `symbol` and `addresses`
      are `None` when absent or null; an address entry is `None` when null. */
  datatype RawChain = RawChain(symbol: Option<string>, addresses: Option<seq<Option<string>>>)

  /** The parsed document; `chains` lists the mapping's entries in order. */
  datatype RawConfig = RawConfig(chains: Option<seq<(string, RawChain)>>,
                                 quoteCurrency: Option<string>,
                                 priceSource: Option<string>)

  datatype ChainConfig = ChainConfig(symbol: string, addresses: seq<string>)

  datatype AppConfig = AppConfig(chains: map<string, ChainConfig>, quoteCurrency: string, priceSource: string)

  /** The ten chains of `DEFAULT_CONFIG`. */
  const DefaultSymbols: seq<string> := ["BTC", "ETH", "BNB", "SOL", "AVAX", "LTC", "OP", "MATIC", "TON", "TRX"]

  /** `DEFAULT_CONFIG`: every chain under its own symbol with no addresses,
      quoted in USD, and no price source. */
  function DefaultRaw(): RawConfig
  {
    RawConfig(Some(seq(|DefaultSymbols|, i requires 0 <= i < |DefaultSymbols| =>
                       (DefaultSymbols[i], RawChain(Some(DefaultSymbols[i]), Some([]))))),
              Some("USD"), None)
  }

  /** Python's `x or default` for an optional string: `None` and `""` are falsy. */
  function OrElse(x: Option<string>, default: string): string
  {
    if x.Some? && x.value != "" then x.value else default
  }

  /** `[a.strip() for a in addresses if a and a.strip()]`: the stripped,
      non-blank entries, in their original order. */
  function CleanAddresses(raw: seq<Option<string>>): (clean: seq<string>)
    ensures |clean| <= |raw|
    ensures forall i :: 0 <= i < |clean| ==> clean[i] != [] && !IsSpace(clean[i][0]) && !IsSpace(clean[i][|clean[i]| - 1])
  {
    if raw == [] then [] else Kept(raw[0]) + CleanAddresses(raw[1..])
  }

  /** What one entry contributes: its stripped text unless it is null, empty or blank. */
  function Kept(entry: Option<string>): (kept: seq<string>)
    ensures |kept| <= 1
    ensures kept != [] ==> kept[0] != [] && !IsSpace(kept[0][0]) && !IsSpace(kept[0][|kept[0]| - 1])
  {
    match entry
    case Some(a) => if a != [] && Strip(a) != [] then [Strip(a)] else []
    case None => []
  }

  /** Cleaning a concatenation cleans each part: the order is preserved. */
  lemma {:induction false} CleanAppend(a: seq<Option<string>>, b: seq<Option<string>>)
    ensures CleanAddresses(a + b) == CleanAddresses(a) + CleanAddresses(b)
  {
    if a != [] {
      assert (a + b)[0] == a[0] && (a + b)[1..] == a[1..] + b;
      CleanAppend(a[1..], b);
    } else {
      assert a + b == b;
    }
  }

  /** An address is kept exactly when some entry strips to it and it is not blank. */
  lemma {:induction false} CleanMembers(raw: seq<Option<string>>, x: string)
    ensures x in CleanAddresses(raw) <==> x != [] && exists i :: 0 <= i < |raw| && raw[i].Some? && Strip(raw[i].value) == x
  {
    if raw != [] {
      var rest := raw[1..];
      CleanMembers(rest, x);
      if exists i :: 0 <= i < |rest| && rest[i].Some? && Strip(rest[i].value) == x {
        var i :| 0 <= i < |rest| && rest[i].Some? && Strip(rest[i].value) == x;
        assert raw[i + 1] == rest[i];
      }
      if exists i :: 0 <= i < |raw| && raw[i].Some? && Strip(raw[i].value) == x {
        var i :| 0 <= i < |raw| && raw[i].Some? && Strip(raw[i].value) == x;
        if i > 0 {
          assert rest[i - 1] == raw[i];
        }
      }
    }
  }

  /** One chain's settings: the symbol defaults to the key and is upper-cased. */
  function ChainOf(key: string, raw: RawChain): (c: ChainConfig)
    ensures IsUpperCase(c.symbol)
    ensures raw.symbol.None? ==> c.symbol == Upper(key)
    ensures raw.symbol.Some? ==> c.symbol == Upper(raw.symbol.value)
    ensures raw.addresses.None? ==> c.addresses == []
    ensures raw.addresses.Some? ==> c.addresses == CleanAddresses(raw.addresses.value)
  {
    ChainConfig(Upper(if raw.symbol.Some? then raw.symbol.value else key),
                CleanAddresses(if raw.addresses.Some? then raw.addresses.value else []))
  }

  /** The `chains` dictionary after the loop has handled `entries`: each
      entry is stored under its upper-cased key, over any earlier entry with
      the same key up to case. */
  function ChainsOf(entries: seq<(string, RawChain)>): map<string, ChainConfig>
  {
    if entries == [] then map[]
    else
      var e := entries[|entries| - 1];
      ChainsOf(entries[..|entries| - 1])[Upper(e.0) := ChainOf(e.0, e.1)]
  }

  /** The keys of the result are exactly the upper-cased keys of the entries. */
  lemma ChainsKeys(entries: seq<(string, RawChain)>, k: string)
    ensures k in ChainsOf(entries) <==> exists i :: 0 <= i < |entries| && Upper(entries[i].0) == k
  {
    if k in ChainsOf(entries) {
      var i := KeyOrigin(entries, k);
    }
    if exists i :: 0 <= i < |entries| && Upper(entries[i].0) == k {
      var i :| 0 <= i < |entries| && Upper(entries[i].0) == k;
      KeyStored(entries, i);
    }
  }

  /** Each key of the result comes from some entry. */
  lemma {:induction false} KeyOrigin(entries: seq<(string, RawChain)>, k: string) returns (i: nat)
    requires k in ChainsOf(entries)
    ensures i < |entries| && Upper(entries[i].0) == k
  {
    var init := entries[..|entries| - 1];
    if k == Upper(entries[|entries| - 1].0) {
      i := |entries| - 1;
    } else {
      i := KeyOrigin(init, k);
      assert entries[i] == init[i];
    }
  }

  /** Each entry's upper-cased key is a key of the result. */
  lemma {:induction false} KeyStored(entries: seq<(string, RawChain)>, i: nat)
    requires i < |entries|
    ensures Upper(entries[i].0) in ChainsOf(entries)
  {
    var init := entries[..|entries| - 1];
    if i < |init| {
      assert init[i] == entries[i];
      KeyStored(init, i);
    }
  }

  /** Of the entries whose keys agree up to case, the last one decides the
      chain's settings. */
  lemma {:induction false} LastEntryWins(entries: seq<(string, RawChain)>, i: nat)
    requires i < |entries|
    requires forall j :: i < j < |entries| ==> Upper(entries[j].0) != Upper(entries[i].0)
    ensures Upper(entries[i].0) in ChainsOf(entries)
    ensures ChainsOf(entries)[Upper(entries[i].0)] == ChainOf(entries[i].0, entries[i].1)
  {
    var init := entries[..|entries| - 1];
    if i < |init| {
      assert init[i] == entries[i];
      forall j | i < j < |init| ensures Upper(init[j].0) != Upper(init[i].0) {
        assert init[j] == entries[j];
      }
      LastEntryWins(init, i);
    }
  }

  /** Every key and every symbol of the result is upper-case. */
  lemma {:induction false} ChainsUpperCase(entries: seq<(string, RawChain)>, k: string)
    requires k in ChainsOf(entries)
    ensures IsUpperCase(k) && IsUpperCase(ChainsOf(entries)[k].symbol)
  {
    var e := entries[|entries| - 1];
    UpperIdempotent(e.0);
    if k != Upper(e.0) {
      ChainsUpperCase(entries[..|entries| - 1], k);
    }
  }

  /** `load_config`: `None` stands for "no path, or no file there". The
      quote currency is upper-case and never empty: a missing, null or empty
      setting gives `"USD"`; a missing, null or empty price source gives
      `"coingecko"`. */
  method LoadConfig(file: Option<RawConfig>) returns (cfg: AppConfig)
    ensures var raw := if file.Some? then file.value else DefaultRaw();
      var entries := if raw.chains.Some? then raw.chains.value else [];
      cfg.chains == ChainsOf(entries)
    ensures IsUpperCase(cfg.quoteCurrency) && cfg.quoteCurrency != [] && cfg.priceSource != []
    ensures var raw := if file.Some? then file.value else DefaultRaw();
      (raw.quoteCurrency.None? || raw.quoteCurrency == Some("") ==> cfg.quoteCurrency == "USD")
      && (raw.quoteCurrency.Some? && raw.quoteCurrency.value != "" ==> cfg.quoteCurrency == Upper(raw.quoteCurrency.value))
    ensures var raw := if file.Some? then file.value else DefaultRaw();
      (raw.priceSource.None? || raw.priceSource == Some("") ==> cfg.priceSource == "coingecko")
      && (raw.priceSource.Some? && raw.priceSource.value != "" ==> cfg.priceSource == raw.priceSource.value)
  {
    var raw := if file.Some? then file.value else DefaultRaw();
    var entries := if raw.chains.Some? then raw.chains.value else [];
    var chains: map<string, ChainConfig> := map[];
    for i := 0 to |entries|
      invariant chains == ChainsOf(entries[..i])
    {
      var (key, c) := entries[i];
      var symbol := if c.symbol.Some? then c.symbol.value else key;
      var addresses := CleanAddresses(if c.addresses.Some? then c.addresses.value else []);
      chains := chains[Upper(key) := ChainConfig(Upper(symbol), addresses)];
      assert entries[..i + 1][..i] == entries[..i];
    }
    assert entries[..|entries|] == entries;
    cfg := AppConfig(chains, Upper(OrElse(raw.quoteCurrency, "USD")), OrElse(raw.priceSource, "coingecko"));
  }

  /** With no file, the ten default chains are configured, each under its
      own symbol and with no addresses, quoted in USD from CoinGecko. */
  lemma DefaultConfig(k: string)
    ensures var entries := DefaultRaw().chains.value;
      k in ChainsOf(entries) <==> k in DefaultSymbols
    ensures var entries := DefaultRaw().chains.value;
      k in ChainsOf(entries) ==> ChainsOf(entries)[k] == ChainConfig(k, [])
    ensures Upper(OrElse(DefaultRaw().quoteCurrency, "USD")) == "USD"
    ensures OrElse(DefaultRaw().priceSource, "coingecko") == "coingecko"
  {
    var entries := DefaultRaw().chains.value;
    ChainsKeys(entries, k);
    forall i | 0 <= i < |entries| ensures Upper(entries[i].0) == entries[i].0 == DefaultSymbols[i] {
      DefaultSymbolUpper(i);
    }
    if k in DefaultSymbols {
      var i :| 0 <= i < |DefaultSymbols| && DefaultSymbols[i] == k;
      DefaultSymbolsDistinct(i);
      LastEntryWins(entries, i);
    }
  }

  /** Each default symbol is upper-case. */
  lemma DefaultSymbolUpper(i: nat)
    requires i < |DefaultSymbols|
    ensures Upper(DefaultSymbols[i]) == DefaultSymbols[i]
  {
    UpperIdempotent(DefaultSymbols[i]);
  }

  /** The default symbols are distinct. */
  lemma DefaultSymbolsDistinct(i: nat)
    requires i < |DefaultSymbols|
    ensures forall m :: i < m < |DefaultSymbols| ==> DefaultSymbols[m] != DefaultSymbols[i]
  {
  }

  /** A missing, null or empty `chains` entry configures no chain. */
  lemma NoChains(raw: RawConfig)
    requires raw.chains.None? || raw.chains == Some([])
    ensures var entries := if raw.chains.Some? then raw.chains.value else [];
      ChainsOf(entries) == map[]
  {
  }
}
