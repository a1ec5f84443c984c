/**
 * The USD price oracle (`scanner/price.py`): a per-symbol cache of quotes
 * with a time to live in front of a CoinGecko lookup. The clock and the
 * HTTP answer are inputs: `now` is the clock at the lookup, `later` the
 * clock when a fresh quote is stored, and `response` what the request for
 * the symbol's coin would give (`None` for a transport or parse error).
 */
module Price {
  import opened Common

  datatype PriceQuote = PriceQuote(symbol: string, price: real, ts: real)

  const DefaultCacheSeconds: int := 60

  /** The CoinGecko id of each of the ten supported symbols. */
  const CoinIds: map<string, string> := map[
    "BTC" := "bitcoin", "ETH" := "ethereum", "BNB" := "binancecoin", "SOL" := "solana",
    "AVAX" := "avalanche-2", "LTC" := "litecoin", "OP" := "optimism",
    "MATIC" := "matic-network", "TON" := "the-open-network", "TRX" := "tron"]

  /** `mapping.get(symbol)`: every mapped symbol is upper-case and its id is
      non-empty, so `if not coin` rejects exactly the unmapped symbols. */
  function CoinId(symbol: string): (coin: Option<string>)
    ensures coin.Some? ==> IsUpperCase(symbol) && coin.value != ""
  {
    if symbol in CoinIds then Some(CoinIds[symbol]) else None
  }

  /** `_fetch_price_usd`: an unmapped symbol gives `None` and sends no
      request; a mapped one gives whatever the request gives. */
  function FetchPriceUsd(symbol: string, response: Option<real>): (price: Option<real>)
    ensures CoinId(symbol).None? ==> price.None?
    ensures CoinId(symbol).Some? ==> price == response
  {
    match CoinId(symbol)
    case None => None
    case Some(_) => response
  }

  /** A cache as the oracle keeps it: keyed by upper-case symbols, each
      entry quoting its own key, and only symbols that have a coin id. */
  ghost predicate WellFormedCache(cache: map<string, PriceQuote>)
  {
    forall s :: s in cache ==> IsUpperCase(s) && cache[s].symbol == s && CoinId(s).Some?
  }

  /** A cached quote still young enough to be served. */
  predicate FreshQuote(cache: map<string, PriceQuote>, ttl: int, s: string, now: real)
  {
    s in cache && now - cache[s].ts < ttl as real
  }

  /** What one `get_price_usd` call returns, and the cache it leaves. */
  datatype Lookup = Lookup(price: Option<real>, cache: map<string, PriceQuote>)

  function GetPrice(cache: map<string, PriceQuote>, ttl: int, symbol: string,
                    now: real, later: real, response: Option<real>): Lookup
  {
    var s := Upper(symbol);
    if FreshQuote(cache, ttl, s, now) then Lookup(Some(cache[s].price), cache)
    else
      var price := FetchPriceUsd(s, response);
      if price.Some? then Lookup(price, cache[s := PriceQuote(s, price.value, later)])
      else Lookup(price, cache)
  }

  /** The symbol is upper-cased before the cache is consulted, so symbols
      that differ only in case get the same answer and the same cache. */
  lemma PriceIgnoresCase(cache: map<string, PriceQuote>, ttl: int, a: string, b: string,
                         now: real, later: real, response: Option<real>)
    requires Lower(a) == Lower(b)
    ensures GetPrice(cache, ttl, a, now, later, response) == GetPrice(cache, ttl, b, now, later, response)
  {
    UpperIgnoresCase(a, b);
  }

  /** A young cached quote is served as it is: the cache does not change and
      the answer does not depend on what a request would have said. */
  lemma CacheHit(cache: map<string, PriceQuote>, ttl: int, symbol: string,
                 now: real, later: real, r1: Option<real>, r2: Option<real>)
    requires FreshQuote(cache, ttl, Upper(symbol), now)
    ensures GetPrice(cache, ttl, symbol, now, later, r1) == GetPrice(cache, ttl, symbol, now, later, r2)
    ensures GetPrice(cache, ttl, symbol, now, later, r1) == Lookup(Some(cache[Upper(symbol)].price), cache)
  {
  }

  /** On a miss, a successful fetch replaces the symbol's entry by a quote
      stamped `later` and returns its price. */
  lemma FetchStored(cache: map<string, PriceQuote>, ttl: int, symbol: string,
                    now: real, later: real, p: real)
    requires !FreshQuote(cache, ttl, Upper(symbol), now) && CoinId(Upper(symbol)).Some?
    ensures var r := GetPrice(cache, ttl, symbol, now, later, Some(p));
      r.price == Some(p) && Upper(symbol) in r.cache && r.cache[Upper(symbol)] == PriceQuote(Upper(symbol), p, later)
  {
  }

  /** A failed fetch answers `None`, even when a stale quote is cached, and
      leaves the cache as it was. */
  lemma FetchFailed(cache: map<string, PriceQuote>, ttl: int, symbol: string, now: real, later: real)
    requires !FreshQuote(cache, ttl, Upper(symbol), now)
    ensures GetPrice(cache, ttl, symbol, now, later, None) == Lookup(None, cache)
  {
  }

  /** A symbol without a coin id is never cached in a well-formed cache, so
      it always answers `None` and changes nothing. */
  lemma UnmappedSymbol(cache: map<string, PriceQuote>, ttl: int, symbol: string,
                       now: real, later: real, response: Option<real>)
    requires WellFormedCache(cache) && CoinId(Upper(symbol)).None?
    ensures GetPrice(cache, ttl, symbol, now, later, response) == Lookup(None, cache)
  {
  }

  /** Only the requested symbol's entry can change. */
  lemma OthersUntouched(cache: map<string, PriceQuote>, ttl: int, symbol: string,
                        now: real, later: real, response: Option<real>, t: string)
    requires t != Upper(symbol)
    ensures var c := GetPrice(cache, ttl, symbol, now, later, response).cache;
      (t in c <==> t in cache) && (t in c ==> c[t] == cache[t])
  {
  }

  /** A lookup keeps the cache well formed. */
  lemma LookupKeepsCache(cache: map<string, PriceQuote>, ttl: int, symbol: string,
                         now: real, later: real, response: Option<real>)
    requires WellFormedCache(cache)
    ensures WellFormedCache(GetPrice(cache, ttl, symbol, now, later, response).cache)
  {
  }

  /** `PriceOracle`: the time to live and the quote cache, a dictionary the
      lookups overwrite in place. */
  class PriceOracle {
    var cacheSeconds: int
    var cache: map<string, PriceQuote>

    ghost predicate Valid()
      reads this
    {
      WellFormedCache(cache)
    }

    /** `PriceOracle(cache_seconds)`: an empty cache. */
    constructor (cacheSeconds: int)
      ensures Valid() && this.cacheSeconds == cacheSeconds && cache == map[]
    {
      this.cacheSeconds := cacheSeconds;
      cache := map[];
    }

    /** `PriceOracle()`: the default time to live of a minute. */
    constructor Default()
      ensures Valid() && cacheSeconds == 60 && cache == map[]
    {
      cacheSeconds := DefaultCacheSeconds;
      cache := map[];
    }

    /** `get_price_usd`: serves a young cached quote, otherwise asks the
        fetch and caches a successful answer. */
    method GetPriceUsd(symbol: string, now: real, later: real, response: Option<real>) returns (price: Option<real>)
      requires Valid()
      modifies this`cache
      ensures Valid()
      ensures Lookup(price, cache) == GetPrice(old(cache), cacheSeconds, symbol, now, later, response)
    {
      var s := Upper(symbol);
      LookupKeepsCache(cache, cacheSeconds, symbol, now, later, response);
      if s in cache && now - cache[s].ts < cacheSeconds as real {
        return Some(cache[s].price);
      }
      price := FetchPriceUsd(s, response);
      if price.Some? {
        cache := cache[s := PriceQuote(s, price.value, later)];
      }
    }
  }
}
