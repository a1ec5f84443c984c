/**
 * The scanner's shared state (`scanner/ui.py`): a counter of checked
 * wallets, the log of every result, the results worth money, and a stop
 * flag that is set once and never cleared. Rendering itself (rich panels,
 * number formatting) is not modelled; the two selections it makes are: the
 * last ten results and the most valuable profit.
 */
module ScannerUi {
  import opened Common

  /** One balance lookup: the chain, the address, its balance in native
      units and the USD price used for it. Floats are modelled as reals. */
  datatype WalletResult = WalletResult(chain: string, address: string, balance: real, priceUsd: real)

  /** `WalletResult.value_usd`: the balance priced in USD. */
  function ValueUsd(r: WalletResult): real
  {
    r.balance * r.priceUsd
  }

  /** A result counts as a profit exactly when the balance and the price
      are both non-zero and of the same sign; a zero price or an empty
      wallet never does. */
  lemma ProfitSign(r: WalletResult)
    ensures ValueUsd(r) > 0.0 <==> (r.balance > 0.0 && r.priceUsd > 0.0) || (r.balance < 0.0 && r.priceUsd < 0.0)
  {
    if r.balance > 0.0 && r.priceUsd < 0.0 {
      assert r.balance * r.priceUsd == -(r.balance * -r.priceUsd);
    } else if r.balance < 0.0 && r.priceUsd > 0.0 {
      assert r.balance * r.priceUsd == -(-r.balance * r.priceUsd);
    } else if r.balance < 0.0 && r.priceUsd < 0.0 {
      assert r.balance * r.priceUsd == -r.balance * -r.priceUsd;
    }
  }

  /** The results with `value_usd > 0`, in recording order. */
  function Profitable(rs: seq<WalletResult>): (ps: seq<WalletResult>)
    ensures |ps| <= |rs|
  {
    if rs == [] then []
    else
      var last := rs[|rs| - 1];
      Profitable(rs[..|rs| - 1]) + (if ValueUsd(last) > 0.0 then [last] else [])
  }

  /** Filtering a log extended by one result extends the filtered log by
      that result when it is a profit, and leaves it as it was otherwise. */
  lemma ProfitableSnoc(rs: seq<WalletResult>, r: WalletResult)
    ensures Profitable(rs + [r]) == Profitable(rs) + (if ValueUsd(r) > 0.0 then [r] else [])
  {
    assert (rs + [r])[..|rs|] == rs;
  }

  /** Something is among the profits exactly when it was recorded and is worth more than zero. */
  lemma {:induction false} ProfitableMembers(rs: seq<WalletResult>, x: WalletResult)
    ensures x in Profitable(rs) <==> x in rs && ValueUsd(x) > 0.0
  {
    if rs != [] {
      var init := rs[..|rs| - 1];
      ProfitableMembers(init, x);
      assert rs == init + [rs[|rs| - 1]];
    }
  }

  /** `ScannerUI`: the checked counter, the result log, the profit list and
      the stop event. The source has no lock; this model is sequential. */
  class ScannerUI {
    var checkedCount: int
    var latestResults: seq<WalletResult>
    var profits: seq<WalletResult>
    var stopped: bool

    /** The counter counts the log, and the profit list is the log's
        profitable part. */
    ghost predicate Valid()
      reads this
    {
      checkedCount == |latestResults| && profits == Profitable(latestResults)
    }

    constructor ()
      ensures Valid()
      ensures checkedCount == 0 && latestResults == [] && profits == [] && !stopped
    {
      checkedCount := 0;
      latestResults := [];
      profits := [];
      stopped := false;
    }

    /** `stop`: sets the event; calling it again changes nothing. */
    method Stop()
      modifies this`stopped
      ensures stopped
    {
      stopped := true;
    }

    /** `should_stop`: whether the event has been set. */
    predicate ShouldStop()
      reads this
    {
      stopped
    }

    /** `record_result`: counts the result, logs it at the end, and keeps it
        as a profit when it is worth more than zero. The stop flag is outside
        the frame, so it stays as it was. */
    method RecordResult(r: WalletResult)
      requires Valid()
      modifies this`checkedCount, this`latestResults, this`profits
      ensures Valid()
      ensures checkedCount == old(checkedCount) + 1
      ensures latestResults == old(latestResults) + [r]
      ensures profits == old(profits) + (if ValueUsd(r) > 0.0 then [r] else [])
    {
      ProfitableSnoc(latestResults, r);
      checkedCount := checkedCount + 1;
      latestResults := latestResults + [r];
      if ValueUsd(r) > 0.0 {
        profits := profits + [r];
      }
    }
  }

  /** The rows of the rendered table, `results[-10:]`: the last
      `min(10, n)` results, oldest first. */
  function RecentResults(rs: seq<WalletResult>): (shown: seq<WalletResult>)
    ensures |shown| == if |rs| < 10 then |rs| else 10
    ensures forall i :: 0 <= i < |shown| ==> shown[i] == rs[|rs| - |shown| + i]
  {
    if |rs| <= 10 then rs else rs[|rs| - 10..]
  }

  /** Position of `max(profits, key=value_usd)`: a most valuable entry, and
      the first one among equals, because `max` only replaces its candidate
      on a strictly greater key. */
  function BestIndex(ps: seq<WalletResult>): (k: nat)
    requires ps != []
    ensures k < |ps|
    ensures forall j :: 0 <= j < |ps| ==> ValueUsd(ps[j]) <= ValueUsd(ps[k])
    ensures forall j :: 0 <= j < k ==> ValueUsd(ps[j]) < ValueUsd(ps[k])
  {
    if |ps| == 1 then 0
    else
      var k := BestIndex(ps[..|ps| - 1]);
      if ValueUsd(ps[|ps| - 1]) > ValueUsd(ps[k]) then |ps| - 1 else k
  }

  /** The profit the panel shows, or none while there are no profits. */
  function Best(ps: seq<WalletResult>): (best: Option<WalletResult>)
    ensures best.None? <==> ps == []
    ensures best.Some? ==> best.value in ps && forall p :: p in ps ==> ValueUsd(p) <= ValueUsd(best.value)
  {
    if ps == [] then None else Some(ps[BestIndex(ps)])
  }
}
