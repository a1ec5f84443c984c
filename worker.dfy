/**
 * The per-chain workers of `scanner/cli.py` (`scan` and `snapshot`), run
 * here one at a time. What the threads, the clock and the network would
 * supply is input: per cycle, what the price oracle answered; per address,
 * what the adapter answered, whether some other thread had called `stop()`
 * just before the address is handled, and (for `snapshot`) whether the
 * scan's duration had run out. The shared state is the `ScannerUI` object,
 * which the source updates without a lock.
 */
module Worker {
  import opened Common
  import opened ScannerUi
  import Registry
  import Config

  /** What the worker meets at one address of a cycle. `timeUp` is only
      consulted by the `snapshot` worker; `scan` has no deadline. */
  datatype Poll = Poll(address: string, stopRequested: bool, timeUp: bool, balance: Option<real>)

  /** The `scan` options the worker reads. */
  datatype ScanOptions = ScanOptions(interval: real, stopOnProfit: bool, profitMinUsd: real, fast: bool)

  /** The command-line defaults of `scan`. */
  const DefaultScanOptions := ScanOptions(3.0, false, 0.01, false)

  /** `interval = min(interval, 0.3)` under `--fast`. */
  function EffectiveInterval(opts: ScanOptions): (interval: real)
    ensures interval <= opts.interval
    ensures opts.fast ==> interval <= 0.3 && (interval == opts.interval || interval == 0.3)
    ensures !opts.fast ==> interval == opts.interval
  {
    if opts.fast && opts.interval > 0.3 then 0.3 else opts.interval
  }

  /** `oracle.get_price_usd(symbol) or 0.0`: no price counts as zero. */
  function ScanPrice(answer: Option<real>): (price: real)
    ensures answer.None? ==> price == 0.0
    ensures answer.Some? ==> price == answer.value
  {
    if answer.Some? && answer.value != 0.0 then answer.value else 0.0
  }

  /** `oracle.get_price_usd(symbol) or price`: a failed lookup, and also a
      price of exactly zero, keeps the previous price; otherwise the new price
      is a non-zero answer of the oracle. */
  function SnapshotPrice(answer: Option<real>, previous: real): (price: real)
    ensures price == previous || (answer == Some(price) && price != 0.0)
    ensures answer.None? || answer == Some(0.0) ==> price == previous
    ensures answer.Some? && answer.value != 0.0 ==> price != previous ==> price == answer.value
  {
    if answer.Some? && answer.value != 0.0 then answer.value else previous
  }

  /** The results that answered polls would record, in poll order. */
  function Answered(symbol: string, price: real, polls: seq<Poll>): (rs: seq<WalletResult>)
    ensures |rs| <= |polls|
    ensures forall r :: r in rs ==> r.chain == symbol && r.priceUsd == price
  {
    if polls == [] then []
    else
      var rest := Answered(symbol, price, polls[1..]);
      match polls[0].balance
      case None => rest
      case Some(bal) => [WalletResult(symbol, polls[0].address, bal, price)] + rest
  }

  /** The polls of one cycle visit `addresses`, one poll per address, in
      the order of the list the worker was given. */
  predicate Walks(polls: seq<Poll>, addresses: seq<string>)
  {
    |polls| == |addresses| && forall j :: 0 <= j < |polls| ==> polls[j].address == addresses[j]
  }

  /** The addresses of a run of results, in order. */
  function AddressesOf(rs: seq<WalletResult>): (a: seq<string>)
    ensures |a| == |rs| && forall j :: 0 <= j < |rs| ==> a[j] == rs[j].address
  {
    seq(|rs|, j requires 0 <= j < |rs| => rs[j].address)
  }

  /** `a` is `b` with some elements left out, the rest kept in order. */
  predicate Subsequence(a: seq<string>, b: seq<string>)
    decreases |b|
  {
    a == [] || (b != [] && ((a[0] == b[0] && Subsequence(a[1..], b[1..])) || Subsequence(a, b[1..])))
  }

  /** A prefix of a subsequence is a subsequence. */
  lemma {:induction false} SubsequencePrefix(a: seq<string>, b: seq<string>, n: nat)
    requires n <= |a| && Subsequence(a, b)
    ensures Subsequence(a[..n], b)
    decreases |b|
  {
    if n > 0 {
      if a[0] == b[0] && Subsequence(a[1..], b[1..]) {
        SubsequencePrefix(a[1..], b[1..], n - 1);
        assert a[1..][..n - 1] == a[..n][1..];
      } else {
        SubsequencePrefix(a, b[1..], n);
      }
    }
  }

  /** Every element of a subsequence is an element of the whole. */
  lemma {:induction false} SubsequenceMembers(a: seq<string>, b: seq<string>, x: string)
    requires Subsequence(a, b) && x in a
    ensures x in b
    decreases |b|
  {
    if a[0] == b[0] && Subsequence(a[1..], b[1..]) {
      if x != a[0] {
        SubsequenceMembers(a[1..], b[1..], x);
      }
    } else {
      SubsequenceMembers(a, b[1..], x);
    }
  }

  /** The answered polls of a cycle over `addresses` record those addresses
      in the list's order, no list entry twice. */
  lemma {:induction false} AnsweredInOrder(symbol: string, price: real, polls: seq<Poll>, addresses: seq<string>)
    requires Walks(polls, addresses)
    ensures Subsequence(AddressesOf(Answered(symbol, price, polls)), addresses)
  {
    if polls != [] {
      AnsweredInOrder(symbol, price, polls[1..], addresses[1..]);
      var rest := AddressesOf(Answered(symbol, price, polls[1..]));
      if polls[0].balance.Some? {
        assert AddressesOf(Answered(symbol, price, polls))[1..] == rest;
      }
    }
  }

  /** What a cycle records is a prefix of what its answered polls would
      record: its addresses come from the list, in the list's order. */
  lemma PrefixInOrder(rs: seq<WalletResult>, symbol: string, price: real, polls: seq<Poll>, addresses: seq<string>)
    requires Walks(polls, addresses) && rs <= Answered(symbol, price, polls)
    ensures Subsequence(AddressesOf(rs), addresses)
    ensures forall r :: r in rs ==> r.chain == symbol && r.priceUsd == price
  {
    var all := Answered(symbol, price, polls);
    AnsweredInOrder(symbol, price, polls, addresses);
    SubsequencePrefix(AddressesOf(all), addresses, |rs|);
    assert AddressesOf(all)[..|rs|] == AddressesOf(rs);
    forall r | r in rs ensures r in all {
      var j :| 0 <= j < |rs| && rs[j] == r;
      assert all[j] == r;
    }
  }

  /** What one cycle records and whether the stop flag is set afterwards. */
  datatype Outcome = Outcome(recorded: seq<WalletResult>, stopped: bool)

  /** A balance that triggers the profit branch. */
  predicate Triggers(bal: real, price: real, opts: ScanOptions)
  {
    bal * price >= opts.profitMinUsd
  }

  /** One pass of `scan`'s `for addr in addresses` loop, starting with the
      stop flag `stopped`. */
  function ScanCycle(stopped: bool, symbol: string, price: real, polls: seq<Poll>, opts: ScanOptions): Outcome
  {
    if polls == [] then Outcome([], stopped)
    else if stopped || polls[0].stopRequested then Outcome([], true)
    else
      match polls[0].balance
      case None => ScanCycle(false, symbol, price, polls[1..], opts)
      case Some(bal) =>
        var r := WalletResult(symbol, polls[0].address, bal, price);
        if Triggers(bal, price, opts) && opts.stopOnProfit then Outcome([r], true)
        else
          var o := ScanCycle(false, symbol, price, polls[1..], opts);
          Outcome([r] + o.recorded, o.stopped)
  }

  /** A cycle records a prefix of the answered polls: in address order,
      with the cycle's price, skipping unanswered addresses, and nothing
      after the stop flag is seen. */
  lemma {:induction false} ScanCycleRecordsPrefix(stopped: bool, symbol: string, price: real, polls: seq<Poll>, opts: ScanOptions)
    ensures var rs := ScanCycle(stopped, symbol, price, polls, opts).recorded;
      rs <= Answered(symbol, price, polls)
  {
    if polls != [] && !stopped && !polls[0].stopRequested {
      ScanCycleRecordsPrefix(false, symbol, price, polls[1..], opts);
    }
  }

  /** `ScanCycle` from poll `i` on, when the flag is set or a stop is
      requested there. */
  lemma ScanCycleHalts(stopped: bool, symbol: string, price: real, polls: seq<Poll>, i: nat, opts: ScanOptions)
    requires i < |polls| && (stopped || polls[i].stopRequested)
    ensures ScanCycle(stopped, symbol, price, polls[i..], opts) == Outcome([], true)
  {
    assert polls[i..][0] == polls[i];
  }

  /** `ScanCycle` from poll `i` on, when poll `i` has no answer. */
  lemma ScanCycleSkips(symbol: string, price: real, polls: seq<Poll>, i: nat, opts: ScanOptions)
    requires i < |polls| && !polls[i].stopRequested && polls[i].balance.None?
    ensures ScanCycle(false, symbol, price, polls[i..], opts) == ScanCycle(false, symbol, price, polls[i + 1..], opts)
  {
    assert polls[i..][0] == polls[i] && polls[i..][1..] == polls[i + 1..];
  }

  /** `ScanCycle` from poll `i` on, when poll `i` has a balance. */
  lemma ScanCycleRecords(symbol: string, price: real, polls: seq<Poll>, i: nat, opts: ScanOptions)
    requires i < |polls| && !polls[i].stopRequested && polls[i].balance.Some?
    ensures var bal := polls[i].balance.value;
      var r := WalletResult(symbol, polls[i].address, bal, price);
      var next := ScanCycle(false, symbol, price, polls[i + 1..], opts);
      ScanCycle(false, symbol, price, polls[i..], opts)
        == if Triggers(bal, price, opts) && opts.stopOnProfit then Outcome([r], true)
           else Outcome([r] + next.recorded, next.stopped)
  {
    assert polls[i..][0] == polls[i] && polls[i..][1..] == polls[i + 1..];
  }

  /** A worker that already sees the stop flag records nothing. */
  lemma ScanCycleStopped(symbol: string, price: real, polls: seq<Poll>, opts: ScanOptions)
    ensures ScanCycle(true, symbol, price, polls, opts) == Outcome([], true)
  {
  }

  /** With no stop request and no stop on profit, a cycle records every
      answered address and leaves the flag clear. */
  lemma {:induction false} ScanCycleComplete(symbol: string, price: real, polls: seq<Poll>, opts: ScanOptions)
    requires !opts.stopOnProfit
    requires forall i :: 0 <= i < |polls| ==> !polls[i].stopRequested
    ensures ScanCycle(false, symbol, price, polls, opts) == Outcome(Answered(symbol, price, polls), false)
  {
    if polls != [] {
      ScanCycleComplete(symbol, price, polls[1..], opts);
    }
  }

  /** Without stop requests from elsewhere, a cycle that starts clear ends
      with the flag set only under `stop_on_profit`, right after recording a
      result worth at least `profit_min_usd`; every earlier result was
      worth less. */
  lemma {:induction false} ScanCycleStopsOnProfit(symbol: string, price: real, polls: seq<Poll>, opts: ScanOptions)
    requires forall i :: 0 <= i < |polls| ==> !polls[i].stopRequested
    ensures var o := ScanCycle(false, symbol, price, polls, opts);
      o.stopped ==> opts.stopOnProfit && o.recorded != []
                    && Triggers(o.recorded[|o.recorded| - 1].balance, price, opts)
    ensures var o := ScanCycle(false, symbol, price, polls, opts);
      opts.stopOnProfit ==> forall j :: 0 <= j < |o.recorded| - 1 ==> !Triggers(o.recorded[j].balance, price, opts)
  {
    if polls != [] {
      ScanCycleStopsOnProfit(symbol, price, polls[1..], opts);
      var o := ScanCycle(false, symbol, price, polls, opts);
      var tail := ScanCycle(false, symbol, price, polls[1..], opts);
      if polls[0].balance.Some? && !(Triggers(polls[0].balance.value, price, opts) && opts.stopOnProfit) {
        assert o.recorded == [o.recorded[0]] + tail.recorded;
      }
    }
  }

  /** A `scan` cycle records addresses of the worker's list, in the list's
      order and no list entry twice, all at the cycle's price. */
  lemma ScanCycleInOrder(stopped: bool, symbol: string, price: real, polls: seq<Poll>, addresses: seq<string>, opts: ScanOptions)
    requires Walks(polls, addresses)
    ensures var rs := ScanCycle(stopped, symbol, price, polls, opts).recorded;
      Subsequence(AddressesOf(rs), addresses)
      && forall r :: r in rs ==> r.chain == symbol && r.priceUsd == price
  {
    ScanCycleRecordsPrefix(stopped, symbol, price, polls, opts);
    PrefixInOrder(ScanCycle(stopped, symbol, price, polls, opts).recorded, symbol, price, polls, addresses);
  }

  /** One pass of `snapshot`'s `for addr in addresses` loop: it stops at a
      stop flag or when time is up, and never sets the flag itself. */
  function SnapshotCycle(stopped: bool, symbol: string, price: real, polls: seq<Poll>): Outcome
  {
    if polls == [] then Outcome([], stopped)
    else if stopped || polls[0].stopRequested then Outcome([], true)
    else if polls[0].timeUp then Outcome([], false)
    else
      var o := SnapshotCycle(false, symbol, price, polls[1..]);
      match polls[0].balance
      case None => o
      case Some(bal) => Outcome([WalletResult(symbol, polls[0].address, bal, price)] + o.recorded, o.stopped)
  }

  /** A snapshot cycle records a prefix of the answered polls, and sets the
      flag only when some other thread asked for a stop. */
  lemma {:induction false} SnapshotCycleRecordsPrefix(stopped: bool, symbol: string, price: real, polls: seq<Poll>)
    ensures SnapshotCycle(stopped, symbol, price, polls).recorded <= Answered(symbol, price, polls)
    ensures SnapshotCycle(stopped, symbol, price, polls).stopped ==>
      stopped || exists i :: 0 <= i < |polls| && polls[i].stopRequested
  {
    if polls != [] && !stopped && !polls[0].stopRequested && !polls[0].timeUp {
      SnapshotCycleRecordsPrefix(false, symbol, price, polls[1..]);
      var o := SnapshotCycle(false, symbol, price, polls[1..]);
      if o.stopped {
        var i :| 0 <= i < |polls[1..]| && polls[1..][i].stopRequested;
        assert polls[i + 1].stopRequested;
      }
    }
  }

  /** A `snapshot` cycle records addresses of the worker's list, in the
      list's order and no list entry twice, all at the cycle's price. */
  lemma SnapshotCycleInOrder(stopped: bool, symbol: string, price: real, polls: seq<Poll>, addresses: seq<string>)
    requires Walks(polls, addresses)
    ensures var rs := SnapshotCycle(stopped, symbol, price, polls).recorded;
      Subsequence(AddressesOf(rs), addresses)
      && forall r :: r in rs ==> r.chain == symbol && r.priceUsd == price
  {
    SnapshotCycleRecordsPrefix(stopped, symbol, price, polls);
    PrefixInOrder(SnapshotCycle(stopped, symbol, price, polls).recorded, symbol, price, polls, addresses);
  }

  /** One `scan` cycle of the worker: polls every address in order, with the
      stop flag checked before each one. */
  method RunScanCycle(ui: ScannerUI, symbol: string, price: real, polls: seq<Poll>, opts: ScanOptions)
    requires ui.Valid()
    modifies ui
    ensures ui.Valid()
    ensures var o := ScanCycle(old(ui.stopped), symbol, price, polls, opts);
      ui.latestResults == old(ui.latestResults) + o.recorded && ui.stopped == o.stopped
  {
    ghost var goal := ScanCycle(ui.stopped, symbol, price, polls, opts);
    ghost var before := ui.latestResults;
    var i := 0;
    while i < |polls|
      invariant 0 <= i <= |polls| && ui.Valid()
      invariant ui.latestResults + ScanCycle(ui.stopped, symbol, price, polls[i..], opts).recorded == before + goal.recorded
      invariant ScanCycle(ui.stopped, symbol, price, polls[i..], opts).stopped == goal.stopped
    {
      var leave := ScanPoll(ui, symbol, price, polls, i, opts);
      i := i + 1;
      if leave {
        ScanCycleStopped(symbol, price, polls[i..], opts);
        break;
      }
    }
  }

  /** The body of `scan`'s `for` loop at address `i`: `leave` is the
      `break`, taken only with the stop flag set. */
  method ScanPoll(ui: ScannerUI, symbol: string, price: real, polls: seq<Poll>, i: nat, opts: ScanOptions)
    returns (leave: bool)
    requires ui.Valid() && i < |polls|
    modifies ui
    ensures ui.Valid()
    ensures var here := ScanCycle(old(ui.stopped), symbol, price, polls[i..], opts);
      var next := ScanCycle(ui.stopped, symbol, price, polls[i + 1..], opts);
      ui.latestResults + next.recorded == old(ui.latestResults) + here.recorded && next.stopped == here.stopped
    ensures leave ==> ui.stopped
  {
    if polls[i].stopRequested {
      ScanCycleHalts(ui.stopped, symbol, price, polls, i, opts);
      ui.Stop();
    }
    if ui.ShouldStop() {
      ScanCycleHalts(true, symbol, price, polls, i, opts);
      ScanCycleStopped(symbol, price, polls[i + 1..], opts);
      return true;
    }
    leave := RecordPoll(ui, symbol, price, polls, i, opts);
  }

  /** The rest of that body, once the flag was seen clear: skip an
      unanswered address, record an answered one, and stop on a profit
      under `stop_on_profit`. */
  method RecordPoll(ui: ScannerUI, symbol: string, price: real, polls: seq<Poll>, i: nat, opts: ScanOptions)
    returns (leave: bool)
    requires ui.Valid() && i < |polls| && !ui.stopped && !polls[i].stopRequested
    modifies ui
    ensures ui.Valid()
    ensures var here := ScanCycle(false, symbol, price, polls[i..], opts);
      var next := ScanCycle(ui.stopped, symbol, price, polls[i + 1..], opts);
      ui.latestResults + next.recorded == old(ui.latestResults) + here.recorded && next.stopped == here.stopped
    ensures leave ==> ui.stopped
  {
    var p := polls[i];
    if p.balance.None? {
      ScanCycleSkips(symbol, price, polls, i, opts);
      return false;
    }
    var bal := p.balance.value;
    ScanCycleRecords(symbol, price, polls, i, opts);
    ui.RecordResult(WalletResult(symbol, p.address, bal, price));
    leave := false;
    if bal * price >= opts.profitMinUsd && opts.stopOnProfit {
      ui.Stop();
      ScanCycleStopped(symbol, price, polls[i + 1..], opts);
      leave := true;
    }
  }

  /** What `scan`'s worker meets in one turn of its `while` loop. */
  datatype ScanRound = ScanRound(priceAnswer: Option<real>, polls: seq<Poll>)

  /** The results the `scan` worker records over `rounds`, with the flag
      it leaves: it stops looping once the flag is set. */
  function ScanRounds(stopped: bool, symbol: string, rounds: seq<ScanRound>, opts: ScanOptions): Outcome
    decreases |rounds|
  {
    if rounds == [] || stopped then Outcome([], stopped)
    else
      var o := ScanCycle(false, symbol, ScanPrice(rounds[0].priceAnswer), rounds[0].polls, opts);
      var rest := ScanRounds(o.stopped, symbol, rounds[1..], opts);
      Outcome(o.recorded + rest.recorded, rest.stopped)
  }

  /** Every round of a worker walks its address list. */
  predicate ScanRoundsWalk(rounds: seq<ScanRound>, addresses: seq<string>)
  {
    forall k :: 0 <= k < |rounds| ==> Walks(rounds[k].polls, addresses)
  }

  /** Everything the `scan` worker records is for its own chain and one of
      its own addresses, at the price the oracle gave that round (`0.0` for
      none). */
  lemma {:induction false} ScanRoundsFromList(stopped: bool, symbol: string, rounds: seq<ScanRound>, addresses: seq<string>, opts: ScanOptions)
    requires ScanRoundsWalk(rounds, addresses)
    ensures forall r :: r in ScanRounds(stopped, symbol, rounds, opts).recorded ==>
      r.chain == symbol && r.address in addresses
      && exists k :: 0 <= k < |rounds| && r.priceUsd == ScanPrice(rounds[k].priceAnswer)
    decreases |rounds|
  {
    if rounds != [] && !stopped {
      var price := ScanPrice(rounds[0].priceAnswer);
      var o := ScanCycle(false, symbol, price, rounds[0].polls, opts);
      ScanCycleInOrder(false, symbol, price, rounds[0].polls, addresses, opts);
      ScanRoundsFromList(o.stopped, symbol, rounds[1..], addresses, opts);
      forall r | r in ScanRounds(stopped, symbol, rounds, opts).recorded
        ensures r.chain == symbol && r.address in addresses
        ensures exists k :: 0 <= k < |rounds| && r.priceUsd == ScanPrice(rounds[k].priceAnswer)
      {
        if r in o.recorded {
          var j :| 0 <= j < |o.recorded| && o.recorded[j] == r;
          assert AddressesOf(o.recorded)[j] == r.address;
          SubsequenceMembers(AddressesOf(o.recorded), addresses, r.address);
        } else {
          var k :| 0 <= k < |rounds[1..]| && r.priceUsd == ScanPrice(rounds[1..][k].priceAnswer);
          assert rounds[1..][k] == rounds[k + 1];
        }
      }
    }
  }

  /** `ScanRounds` from round `k` on, one round unfolded. */
  lemma ScanRoundsStep(symbol: string, rounds: seq<ScanRound>, k: nat, opts: ScanOptions)
    requires k < |rounds|
    ensures var o := ScanCycle(false, symbol, ScanPrice(rounds[k].priceAnswer), rounds[k].polls, opts);
      var rest := ScanRounds(o.stopped, symbol, rounds[k + 1..], opts);
      ScanRounds(false, symbol, rounds[k..], opts) == Outcome(o.recorded + rest.recorded, rest.stopped)
  {
    assert rounds[k..][0] == rounds[k] && rounds[k..][1..] == rounds[k + 1..];
  }

  /** `scan`'s `worker(symbol, addresses)`: returns at once when no adapter
      is registered for the symbol, otherwise polls round after round. */
  method ScanWorker(ui: ScannerUI, registry: Registry.AdapterRegistry, symbol: string,
                    addresses: seq<string>, rounds: seq<ScanRound>, opts: ScanOptions)
    requires ui.Valid() && ScanRoundsWalk(rounds, addresses)
    modifies ui
    ensures ui.Valid()
    ensures Registry.Find(registry.adapters, symbol).None? ==> ui.latestResults == old(ui.latestResults) && ui.stopped == old(ui.stopped)
    ensures Registry.Find(registry.adapters, symbol).Some? ==>
      var o := ScanRounds(old(ui.stopped), symbol, rounds, opts);
      ui.latestResults == old(ui.latestResults) + o.recorded && ui.stopped == o.stopped
  {
    var adapter := registry.GetAdapter(symbol);
    if adapter != null {
      ScanLoop(ui, symbol, addresses, rounds, opts);
    }
  }

  /** `while not ui.should_stop()`: one cycle per round until the flag is
      set (or, here, the rounds given run out). */
  method ScanLoop(ui: ScannerUI, symbol: string, addresses: seq<string>, rounds: seq<ScanRound>, opts: ScanOptions)
    requires ui.Valid() && ScanRoundsWalk(rounds, addresses)
    modifies ui
    ensures ui.Valid()
    ensures var o := ScanRounds(old(ui.stopped), symbol, rounds, opts);
      ui.latestResults == old(ui.latestResults) + o.recorded && ui.stopped == o.stopped
    ensures forall r :: r in ui.latestResults[|old(ui.latestResults)|..] ==> r.chain == symbol && r.address in addresses
  {
    ghost var goal := ScanRounds(ui.stopped, symbol, rounds, opts);
    ghost var before := ui.latestResults;
    var k := 0;
    while k < |rounds| && !ui.ShouldStop()
      invariant 0 <= k <= |rounds| && ui.Valid()
      invariant ui.latestResults + ScanRounds(ui.stopped, symbol, rounds[k..], opts).recorded == before + goal.recorded
      invariant ScanRounds(ui.stopped, symbol, rounds[k..], opts).stopped == goal.stopped
    {
      ScanRoundsStep(symbol, rounds, k, opts);
      var price := ScanPrice(rounds[k].priceAnswer);
      ghost var log := ui.latestResults;
      ghost var o := ScanCycle(false, symbol, price, rounds[k].polls, opts);
      RunScanCycle(ui, symbol, price, rounds[k].polls, opts);
      ConcatAssoc(log, o.recorded, ScanRounds(o.stopped, symbol, rounds[k + 1..], opts).recorded);
      k := k + 1;
    }
    assert k == |rounds| ==> rounds[k..] == [];
    assert ui.latestResults == before + goal.recorded;
    ScanRoundsFromList(old(ui.stopped), symbol, rounds, addresses, opts);
    AppendedFromList(ui.latestResults, before, goal.recorded, symbol, addresses);
  }

  /** What a loop appended to the log comes from the chain's address list. */
  lemma AppendedFromList(log: seq<WalletResult>, before: seq<WalletResult>, recorded: seq<WalletResult>,
                         symbol: string, addresses: seq<string>)
    requires log == before + recorded
    requires forall r :: r in recorded ==> r.chain == symbol && r.address in addresses
    ensures forall r :: r in log[|before|..] ==> r.chain == symbol && r.address in addresses
  {
    assert log[|before|..] == recorded;
  }

  /** `SnapshotCycle` from poll `i` on, when the flag is set or a stop is
      requested there. */
  lemma SnapshotCycleHalts(stopped: bool, symbol: string, price: real, polls: seq<Poll>, i: nat)
    requires i < |polls| && (stopped || polls[i].stopRequested)
    ensures SnapshotCycle(stopped, symbol, price, polls[i..]) == Outcome([], true)
  {
    assert polls[i..][0] == polls[i];
  }

  /** `SnapshotCycle` from poll `i` on, when time is up there. */
  lemma SnapshotCycleTimeUp(symbol: string, price: real, polls: seq<Poll>, i: nat)
    requires i < |polls| && !polls[i].stopRequested && polls[i].timeUp
    ensures SnapshotCycle(false, symbol, price, polls[i..]) == Outcome([], false)
  {
    assert polls[i..][0] == polls[i];
  }

  /** `SnapshotCycle` from poll `i` on, when poll `i` is handled. */
  lemma SnapshotCycleStep(symbol: string, price: real, polls: seq<Poll>, i: nat)
    requires i < |polls| && !polls[i].stopRequested && !polls[i].timeUp
    ensures var next := SnapshotCycle(false, symbol, price, polls[i + 1..]);
      SnapshotCycle(false, symbol, price, polls[i..])
        == if polls[i].balance.None? then next
           else Outcome([WalletResult(symbol, polls[i].address, polls[i].balance.value, price)] + next.recorded, next.stopped)
  {
    assert polls[i..][0] == polls[i] && polls[i..][1..] == polls[i + 1..];
  }

  /** One `snapshot` cycle of the worker. */
  method RunSnapshotCycle(ui: ScannerUI, symbol: string, price: real, polls: seq<Poll>)
    requires ui.Valid()
    modifies ui
    ensures ui.Valid()
    ensures var o := SnapshotCycle(old(ui.stopped), symbol, price, polls);
      ui.latestResults == old(ui.latestResults) + o.recorded && ui.stopped == o.stopped
  {
    ghost var goal := SnapshotCycle(ui.stopped, symbol, price, polls);
    ghost var before := ui.latestResults;
    var i := 0;
    while i < |polls|
      invariant 0 <= i <= |polls| && ui.Valid()
      invariant ui.latestResults + SnapshotCycle(ui.stopped, symbol, price, polls[i..]).recorded == before + goal.recorded
      invariant SnapshotCycle(ui.stopped, symbol, price, polls[i..]).stopped == goal.stopped
    {
      var leave := SnapshotPoll(ui, symbol, price, polls, i);
      if leave {
        return;
      }
      i := i + 1;
    }
  }

  /** The body of `snapshot`'s `for` loop at address `i`; `leave` is the
      `break`, after which nothing more is recorded. */
  method SnapshotPoll(ui: ScannerUI, symbol: string, price: real, polls: seq<Poll>, i: nat) returns (leave: bool)
    requires ui.Valid() && i < |polls|
    modifies ui
    ensures ui.Valid()
    ensures var here := SnapshotCycle(old(ui.stopped), symbol, price, polls[i..]);
      leave ==> ui.latestResults == old(ui.latestResults) && here == Outcome([], ui.stopped)
    ensures var here := SnapshotCycle(old(ui.stopped), symbol, price, polls[i..]);
      var next := SnapshotCycle(ui.stopped, symbol, price, polls[i + 1..]);
      !leave ==> ui.latestResults + next.recorded == old(ui.latestResults) + here.recorded && next.stopped == here.stopped
  {
    var p := polls[i];
    if p.stopRequested {
      SnapshotCycleHalts(ui.stopped, symbol, price, polls, i);
      ui.Stop();
    }
    if ui.ShouldStop() {
      SnapshotCycleHalts(true, symbol, price, polls, i);
      return true;
    }
    if p.timeUp {
      SnapshotCycleTimeUp(symbol, price, polls, i);
      return true;
    }
    SnapshotCycleStep(symbol, price, polls, i);
    if p.balance.Some? {
      ui.RecordResult(WalletResult(symbol, p.address, p.balance.value, price));
    }
    leave := false;
  }

  /** What `snapshot`'s worker meets in one turn of its `while` loop:
      whether the duration has run out at the loop test, the oracle's answer,
      and the polls. */
  datatype SnapshotRound = SnapshotRound(timeUp: bool, priceAnswer: Option<real>, polls: seq<Poll>)

  /** The results the `snapshot` worker records over `rounds`, starting with
      the price it already holds. */
  function SnapshotRounds(stopped: bool, symbol: string, price: real, rounds: seq<SnapshotRound>): Outcome
    decreases |rounds|
  {
    if rounds == [] || rounds[0].timeUp || stopped then Outcome([], stopped)
    else
      var p := SnapshotPrice(rounds[0].priceAnswer, price);
      var o := SnapshotCycle(false, symbol, p, rounds[0].polls);
      var rest := SnapshotRounds(o.stopped, symbol, p, rounds[1..]);
      Outcome(o.recorded + rest.recorded, rest.stopped)
  }

  /** Every round of a worker walks its address list. */
  predicate SnapshotRoundsWalk(rounds: seq<SnapshotRound>, addresses: seq<string>)
  {
    forall k :: 0 <= k < |rounds| ==> Walks(rounds[k].polls, addresses)
  }

  /** Everything the `snapshot` worker records is for its own chain and one
      of its own addresses, priced either at the price it started with or
      at a non-zero answer of the oracle in some round: a round the oracle
      does not answer records at the price held before it. */
  lemma {:induction false} SnapshotRoundsFromList(stopped: bool, symbol: string, price: real, rounds: seq<SnapshotRound>, addresses: seq<string>)
    requires SnapshotRoundsWalk(rounds, addresses)
    ensures forall r :: r in SnapshotRounds(stopped, symbol, price, rounds).recorded ==>
      r.chain == symbol && r.address in addresses
      && (r.priceUsd == price || (r.priceUsd != 0.0 && exists k :: 0 <= k < |rounds| && rounds[k].priceAnswer == Some(r.priceUsd)))
    decreases |rounds|
  {
    if rounds != [] && !rounds[0].timeUp && !stopped {
      var p := SnapshotPrice(rounds[0].priceAnswer, price);
      var o := SnapshotCycle(false, symbol, p, rounds[0].polls);
      SnapshotCycleInOrder(false, symbol, p, rounds[0].polls, addresses);
      SnapshotRoundsFromList(o.stopped, symbol, p, rounds[1..], addresses);
      forall r | r in SnapshotRounds(stopped, symbol, price, rounds).recorded
        ensures r.chain == symbol && r.address in addresses
        ensures r.priceUsd == price || (r.priceUsd != 0.0 && exists k :: 0 <= k < |rounds| && rounds[k].priceAnswer == Some(r.priceUsd))
      {
        if r in o.recorded {
          var j :| 0 <= j < |o.recorded| && o.recorded[j] == r;
          assert AddressesOf(o.recorded)[j] == r.address;
          SubsequenceMembers(AddressesOf(o.recorded), addresses, r.address);
          assert rounds[0].priceAnswer == Some(p) || p == price;
        } else if r.priceUsd != p {
          var k :| 0 <= k < |rounds[1..]| && rounds[1..][k].priceAnswer == Some(r.priceUsd);
          assert rounds[1..][k] == rounds[k + 1];
        } else {
          assert rounds[0].priceAnswer == Some(p) || p == price;
        }
      }
    }
  }

  /** Every result of a snapshot cycle carries the price the cycle was given. */
  lemma {:induction false} SnapshotCyclePrice(stopped: bool, symbol: string, price: real, polls: seq<Poll>)
    ensures forall r :: r in SnapshotCycle(stopped, symbol, price, polls).recorded ==> r.priceUsd == price
  {
    if polls != [] && !stopped && !polls[0].stopRequested && !polls[0].timeUp {
      SnapshotCyclePrice(false, symbol, price, polls[1..]);
    }
  }

  /** A first round whose oracle lookup fails, or answers exactly 0, records
      its results at the price the worker already held, ahead of everything
      later rounds record. */
  lemma UnansweredRoundKeepsPrice(symbol: string, price: real, rounds: seq<SnapshotRound>)
    requires rounds != [] && !rounds[0].timeUp
    requires rounds[0].priceAnswer.None? || rounds[0].priceAnswer == Some(0.0)
    ensures var first := SnapshotCycle(false, symbol, price, rounds[0].polls).recorded;
      first <= SnapshotRounds(false, symbol, price, rounds).recorded
      && forall r :: r in first ==> r.priceUsd == price
  {
    SnapshotCyclePrice(false, symbol, price, rounds[0].polls);
  }

  /** `SnapshotRounds` from round `k` on, one round unfolded. */
  lemma SnapshotRoundsStep(symbol: string, price: real, rounds: seq<SnapshotRound>, k: nat)
    requires k < |rounds| && !rounds[k].timeUp
    ensures var p := SnapshotPrice(rounds[k].priceAnswer, price);
      var o := SnapshotCycle(false, symbol, p, rounds[k].polls);
      var rest := SnapshotRounds(o.stopped, symbol, p, rounds[k + 1..]);
      SnapshotRounds(false, symbol, price, rounds[k..]) == Outcome(o.recorded + rest.recorded, rest.stopped)
  {
    assert rounds[k..][0] == rounds[k] && rounds[k..][1..] == rounds[k + 1..];
  }

  /** `snapshot`'s `worker(symbol, addresses)`: returns at once when no
      adapter is registered; otherwise the first oracle answer, with `0.0`
      for none, is the starting price. */
  method SnapshotWorker(ui: ScannerUI, registry: Registry.AdapterRegistry, symbol: string,
                        addresses: seq<string>, firstAnswer: Option<real>, rounds: seq<SnapshotRound>)
    requires ui.Valid() && SnapshotRoundsWalk(rounds, addresses)
    modifies ui
    ensures ui.Valid()
    ensures Registry.Find(registry.adapters, symbol).None? ==> ui.latestResults == old(ui.latestResults) && ui.stopped == old(ui.stopped)
    ensures Registry.Find(registry.adapters, symbol).Some? ==>
      var o := SnapshotRounds(old(ui.stopped), symbol, ScanPrice(firstAnswer), rounds);
      ui.latestResults == old(ui.latestResults) + o.recorded && ui.stopped == o.stopped
  {
    var adapter := registry.GetAdapter(symbol);
    if adapter != null {
      SnapshotLoop(ui, symbol, addresses, ScanPrice(firstAnswer), rounds);
    }
  }

  /** `while time.time() - start_ts < duration and not ui.should_stop()`:
      each round first refreshes the price, keeping the old one when the
      oracle gives none. */
  method SnapshotLoop(ui: ScannerUI, symbol: string, addresses: seq<string>, price0: real, rounds: seq<SnapshotRound>)
    requires ui.Valid() && SnapshotRoundsWalk(rounds, addresses)
    modifies ui
    ensures ui.Valid()
    ensures var o := SnapshotRounds(old(ui.stopped), symbol, price0, rounds);
      ui.latestResults == old(ui.latestResults) + o.recorded && ui.stopped == o.stopped
    ensures forall r :: r in ui.latestResults[|old(ui.latestResults)|..] ==> r.chain == symbol && r.address in addresses
  {
    var price := price0;
    ghost var goal := SnapshotRounds(ui.stopped, symbol, price, rounds);
    ghost var before := ui.latestResults;
    var k := 0;
    while k < |rounds| && !rounds[k].timeUp && !ui.ShouldStop()
      invariant 0 <= k <= |rounds| && ui.Valid()
      invariant ui.latestResults + SnapshotRounds(ui.stopped, symbol, price, rounds[k..]).recorded == before + goal.recorded
      invariant SnapshotRounds(ui.stopped, symbol, price, rounds[k..]).stopped == goal.stopped
    {
      SnapshotRoundsStep(symbol, price, rounds, k);
      price := SnapshotPrice(rounds[k].priceAnswer, price);
      ghost var log := ui.latestResults;
      ghost var o := SnapshotCycle(false, symbol, price, rounds[k].polls);
      RunSnapshotCycle(ui, symbol, price, rounds[k].polls);
      ConcatAssoc(log, o.recorded, SnapshotRounds(o.stopped, symbol, price, rounds[k + 1..]).recorded);
      k := k + 1;
    }
    assert k < |rounds| ==> rounds[k..][0] == rounds[k];
    assert k == |rounds| ==> rounds[k..] == [];
    assert ui.latestResults == before + goal.recorded;
    SnapshotRoundsFromList(old(ui.stopped), symbol, price0, rounds, addresses);
    AppendedFromList(ui.latestResults, before, goal.recorded, symbol, addresses);
  }

  /** The threads `scan` and `snapshot` start: one per configured chain,
      in the configuration's order, skipping chains without addresses. */
  method EligibleWorkers(chains: seq<(string, Config.ChainConfig)>) returns (workers: seq<(string, seq<string>)>)
    ensures workers == Eligible(chains)
  {
    workers := [];
    for i := 0 to |chains|
      invariant workers == Eligible(chains[..i])
    {
      var (symbol, c) := chains[i];
      assert chains[..i + 1][..i] == chains[..i];
      if c.addresses != [] {
        workers := workers + [(symbol, c.addresses)];
      }
    }
    assert chains[..|chains|] == chains;
  }

  /** The workers for the chains with at least one address, in order. */
  function Eligible(chains: seq<(string, Config.ChainConfig)>): seq<(string, seq<string>)>
  {
    if chains == [] then []
    else
      var last := chains[|chains| - 1];
      Eligible(chains[..|chains| - 1]) + (if last.1.addresses != [] then [(last.0, last.1.addresses)] else [])
  }

  /** A worker is started for a chain exactly when the chain has addresses,
      and it is given that chain's addresses. */
  lemma {:induction false} EligibleMembers(chains: seq<(string, Config.ChainConfig)>, symbol: string, addresses: seq<string>)
    ensures (symbol, addresses) in Eligible(chains) <==>
      addresses != [] && exists i :: 0 <= i < |chains| && chains[i].0 == symbol && chains[i].1.addresses == addresses
  {
    if chains != [] {
      var init := chains[..|chains| - 1];
      EligibleMembers(init, symbol, addresses);
      if exists i :: 0 <= i < |init| && init[i].0 == symbol && init[i].1.addresses == addresses {
        var i :| 0 <= i < |init| && init[i].0 == symbol && init[i].1.addresses == addresses;
        assert chains[i] == init[i];
      }
      if exists i :: 0 <= i < |chains| && chains[i].0 == symbol && chains[i].1.addresses == addresses {
        var i :| 0 <= i < |chains| && chains[i].0 == symbol && chains[i].1.addresses == addresses;
        if i < |init| {
          assert init[i] == chains[i];
        }
      }
    }
  }
}
