/**
 * The chain-adapter registry (`scanner/chains/__init__.py`): a module-level
 * dictionary from upper-cased symbols to adapter classes, filled by the
 * `@register(symbol)` decorator and read by `get_adapter`. The adapters'
 * HTTP balance lookups are not part of this model; an adapter here is only
 * the class it was made from.
 */
module Registry {
  import opened Common

  /** The ten adapter classes of `scanner/chains/`. */
  datatype AdapterClass =
    | Ethereum | BnbSmartChain | Optimism | Polygon
    | Bitcoin | Litecoin | Avalanche | Solana | Ton | Tron

  /** The symbol each class is registered under. */
  function ClassSymbol(cls: AdapterClass): (s: string)
    ensures IsUpperCase(s)
  {
    match cls
    case Ethereum => "ETH"
    case BnbSmartChain => "BNB"
    case Optimism => "OP"
    case Polygon => "MATIC"
    case Bitcoin => "BTC"
    case Litecoin => "LTC"
    case Avalanche => "AVAX"
    case Solana => "SOL"
    case Ton => "TON"
    case Tron => "TRX"
  }

  /** An adapter instance, as `cls()` creates it. */
  class ChainAdapter {
    const cls: AdapterClass

    constructor (cls: AdapterClass)
      ensures this.cls == cls
    {
      this.cls := cls;
    }
  }

  /** The dictionary after `register(symbol)(cls)`. */
  function Registered(reg: map<string, AdapterClass>, symbol: string, cls: AdapterClass): map<string, AdapterClass>
  {
    reg[Upper(symbol) := cls]
  }

  /** `ADAPTERS_REGISTRY.get(symbol.upper())`. */
  function Find(reg: map<string, AdapterClass>, symbol: string): Option<AdapterClass>
  {
    if Upper(symbol) in reg then Some(reg[Upper(symbol)]) else None
  }

  /** A registration is found under every spelling of its symbol, and the
      last registration of a symbol wins over an earlier one. */
  lemma LastRegistrationWins(reg: map<string, AdapterClass>, s1: string, c1: AdapterClass,
                             s2: string, c2: AdapterClass, query: string)
    requires Lower(s1) == Lower(s2) && Lower(s2) == Lower(query)
    ensures Find(Registered(Registered(reg, s1, c1), s2, c2), query) == Some(c2)
  {
    UpperIgnoresCase(s1, s2);
    UpperIgnoresCase(s2, query);
  }

  /** Registering one symbol leaves every other symbol's entry alone. */
  lemma RegisterOthersUntouched(reg: map<string, AdapterClass>, symbol: string, cls: AdapterClass, query: string)
    requires Upper(query) != Upper(symbol)
    ensures Find(Registered(reg, symbol, cls), query) == Find(reg, query)
  {
  }

  /** Lookups ignore case. */
  lemma FindIgnoresCase(reg: map<string, AdapterClass>, a: string, b: string)
    requires Lower(a) == Lower(b)
    ensures Find(reg, a) == Find(reg, b)
  {
    UpperIgnoresCase(a, b);
  }

  /** The ten decorated classes, in the order of their modules and definitions. */
  const AdapterClasses: seq<AdapterClass> :=
    [Avalanche, Bitcoin, Litecoin, Ethereum, BnbSmartChain, Optimism, Polygon, Solana, Ton, Tron]

  /** The dictionary after registering `classes` one after the other. */
  function RegisterEach(reg: map<string, AdapterClass>, classes: seq<AdapterClass>): map<string, AdapterClass>
  {
    if classes == [] then reg
    else
      var c := classes[|classes| - 1];
      Registered(RegisterEach(reg, classes[..|classes| - 1]), ClassSymbol(c), c)
  }

  /** No two adapter classes share a symbol. */
  lemma ClassSymbolInjective(a: AdapterClass, b: AdapterClass)
    requires ClassSymbol(a) == ClassSymbol(b)
    ensures a == b
  {
    var s := ClassSymbol(a);
    assert s[0] == ClassSymbol(b)[0] && |s| == |ClassSymbol(b)|;
  }

  /** After registering a list of classes, each of them is found under its
      own symbol. */
  lemma {:induction false} EachRegistered(reg: map<string, AdapterClass>, classes: seq<AdapterClass>, c: AdapterClass)
    requires c in classes
    ensures Find(RegisterEach(reg, classes), ClassSymbol(c)) == Some(c)
  {
    var last := classes[|classes| - 1];
    var init := classes[..|classes| - 1];
    UpperIdempotent(ClassSymbol(c));
    UpperIdempotent(ClassSymbol(last));
    if last == c {
    } else {
      assert classes == init + [last];
      if ClassSymbol(last) == ClassSymbol(c) {
        ClassSymbolInjective(last, c);
      }
      EachRegistered(reg, init, c);
    }
  }

  /** `ADAPTERS_REGISTRY`, mutated in place by the decorator. */
  class AdapterRegistry {
    var adapters: map<string, AdapterClass>

    /** Every key is upper-case. */
    ghost predicate Valid()
      reads this
    {
      forall s :: s in adapters ==> IsUpperCase(s)
    }

    /** `ADAPTERS_REGISTRY = {}`. */
    constructor ()
      ensures Valid() && adapters == map[]
    {
      adapters := map[];
    }

    /** `register(symbol)(cls)`: stores the class under the upper-cased
        symbol, replacing an earlier class, and hands the class back. */
    method Register(symbol: string, cls: AdapterClass) returns (same: AdapterClass)
      requires Valid()
      modifies this`adapters
      ensures Valid()
      ensures adapters == Registered(old(adapters), symbol, cls) && same == cls
    {
      UpperIdempotent(symbol);
      adapters := adapters[Upper(symbol) := cls];
      same := cls;
    }

    /** `get_adapter`: `None` for an unregistered symbol, otherwise a new
        instance of the registered class. */
    method GetAdapter(symbol: string) returns (adapter: ChainAdapter?)
      ensures adapter == null <==> Find(adapters, symbol).None?
      ensures adapter != null ==> fresh(adapter) && Some(adapter.cls) == Find(adapters, symbol)
    {
      var key := Upper(symbol);
      if key in adapters {
        adapter := new ChainAdapter(adapters[key]);
      } else {
        adapter := null;
      }
    }

    /** The ten `@register` decorators of `scanner/chains/`, run when the
        adapter modules are imported. */
    method RegisterAll()
      requires Valid()
      modifies this`adapters
      ensures Valid()
      ensures adapters == RegisterEach(old(adapters), AdapterClasses)
    {
      ghost var start := adapters;
      for i := 0 to |AdapterClasses|
        invariant Valid()
        invariant adapters == RegisterEach(start, AdapterClasses[..i])
      {
        var c := AdapterClasses[i];
        var _ := Register(ClassSymbol(c), c);
        assert AdapterClasses[..i + 1][..i] == AdapterClasses[..i];
      }
      assert AdapterClasses[..|AdapterClasses|] == AdapterClasses;
    }
  }
}
