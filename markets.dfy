/** Post-processing of the two batched registry reads: the market list and the bettor's
    wagers, and their composition into annotated markets. The reads themselves are inputs:
    one result per call, `None` for a call that failed. */
module Markets {
  import opened Wrappers
  import opened MarketTypes
  import opened MarketHelpers

  /** One `getMarket` tuple as the registry returns it; `deadline` is in seconds. */
  datatype RawMarket = RawMarket(
    title: string,
    description: string,
    metadataURI: string,
    deadline: nat,
    status: nat,
    outcome: nat,
    yesPool: nat,
    noPool: nat,
    bettorCount: nat)

  /** One `getWager` tuple. */
  datatype RawWager = RawWager(yesAmount: nat, noAmount: nat, paid: bool)

  /** A `getMarket(index)` call in the batch. */
  datatype Call = GetMarket(index: nat)

  /** The batch `fetchMarkets` sends for a market count: none at all for a count of 0, and
      otherwise exactly one call per index, in index order. */
  function MarketBatch(count: nat): (b: Option<seq<Call>>)
    ensures b.None? <==> count == 0
    ensures b.Some? ==> |b.value| == count && forall i :: 0 <= i < count ==> b.value[i] == GetMarket(i)
  {
    if count == 0 then None else Some(seq(count, i requires 0 <= i => GetMarket(i)))
  }

  /** The market decoded from the successful result of call `index`: the id is the call's index,
      the deadline becomes milliseconds, and status and outcome go through the decoders. */
  function DecodeMarket(index: nat, raw: RawMarket): (m: Market)
    ensures m.id == index && m.deadline == raw.deadline * 1000
    ensures m.title == raw.title && m.description == raw.description && m.metadataURI == raw.metadataURI
    ensures m.yesPool == raw.yesPool && m.noPool == raw.noPool && m.bettorCount == raw.bettorCount
    ensures StatusCode(m.status) == raw.status || (raw.status > 1 && m.status == Open)
    ensures OutcomeCode(m.outcome) == raw.outcome || (raw.outcome > 3 && m.outcome == Undecided)
  {
    Market(index, raw.title, raw.description, raw.metadataURI, raw.deadline * 1000,
      DecodeStatus(raw.status), DecodeOutcome(raw.outcome), raw.yesPool, raw.noPool, raw.bettorCount)
  }

  /** How many calls succeeded. */
  function Successes<T>(results: seq<Option<T>>): nat {
    if results == [] then 0 else (if results[0].Some? then 1 else 0) + Successes(results[1..])
  }

  /** The `map` and `filter` of `fetchMarkets` over the results of calls `base`, `base + 1`, ...:
      failed calls are dropped without renumbering the rest, so there are as many markets as
      successes and their ids are strictly ascending call indices (gaps mark failures). */
  function DecodeResults(results: seq<Option<RawMarket>>, base: nat): (ms: seq<Market>)
    ensures |ms| == Successes(results)
    ensures forall i :: 0 <= i < |ms| ==> base <= ms[i].id < base + |results|
    ensures StrictlyAscending(ms)
    decreases |results|
  {
    if results == [] then []
    else
      var rest := DecodeResults(results[1..], base + 1);
      if results[0].Some? then [DecodeMarket(base, results[0].value)] + rest else rest
  }

  /** Each market of `ms` is the decoded successful result of the call its id names, the calls
      being numbered from `base`. */
  predicate DecodesCalls(ms: seq<Market>, results: seq<Option<RawMarket>>, base: nat) {
    forall i :: 0 <= i < |ms| ==>
      base <= ms[i].id < base + |results| && results[ms[i].id - base].Some?
      && ms[i] == DecodeMarket(ms[i].id, results[ms[i].id - base].value)
  }

  /** Some market of `ms` has id `id`. */
  predicate HasId(ms: seq<Market>, id: nat) {
    exists i :: 0 <= i < |ms| && ms[i].id == id
  }

  /** Every decoded market is its own call's successful result, decoded. */
  lemma {:induction false} DecodeResultsSound(results: seq<Option<RawMarket>>, base: nat)
    ensures DecodesCalls(DecodeResults(results, base), results, base)
    decreases |results|
  {
    if results != [] {
      var rest := DecodeResults(results[1..], base + 1);
      DecodeResultsSound(results[1..], base + 1);
      DecodesCallsShift(rest, results, base);
      if results[0].Some? {
        DecodesCallsCons(DecodeMarket(base, results[0].value), rest, results, base);
      }
    }
  }

  /** Numbering the calls from one earlier keeps every market's call, once the first call is
      put back in front. */
  lemma DecodesCallsShift(ms: seq<Market>, results: seq<Option<RawMarket>>, base: nat)
    requires results != [] && DecodesCalls(ms, results[1..], base + 1)
    ensures DecodesCalls(ms, results, base)
  {
    forall i | 0 <= i < |ms|
      ensures results[ms[i].id - base] == results[1..][ms[i].id - (base + 1)]
    {
    }
  }

  /** The first call's market can be put in front. */
  lemma DecodesCallsCons(m: Market, ms: seq<Market>, results: seq<Option<RawMarket>>, base: nat)
    requires results != [] && results[0].Some? && m == DecodeMarket(base, results[0].value)
    requires DecodesCalls(ms, results, base)
    ensures DecodesCalls([m] + ms, results, base)
  {
    var all := [m] + ms;
    assert forall i :: 1 <= i < |all| ==> all[i] == ms[i - 1];
  }

  /** Every successful call has its market. */
  lemma {:induction false} DecodeResultsComplete(results: seq<Option<RawMarket>>, base: nat, k: nat)
    requires k < |results| && results[k].Some?
    ensures HasId(DecodeResults(results, base), base + k)
    decreases |results|
  {
    var ms := DecodeResults(results, base);
    var rest := DecodeResults(results[1..], base + 1);
    assert ms == if results[0].Some? then [DecodeMarket(base, results[0].value)] + rest else rest;
    if k == 0 {
      assert ms[0].id == base;
    } else {
      assert results[1..][k - 1] == results[k];
      DecodeResultsComplete(results[1..], base + 1, k - 1);
      var i :| 0 <= i < |rest| && rest[i].id == base + 1 + (k - 1);
      if results[0].Some? {
        assert ms[i + 1] == rest[i];
        assert 0 <= i + 1 < |ms| && ms[i + 1].id == base + k;
      } else {
        assert ms[i] == rest[i];
        assert 0 <= i < |ms| && ms[i].id == base + k;
      }
    }
  }

  /** Ordered by id, strictly ascending. */
  predicate StrictlyAscending(ms: seq<Market>) {
    forall i, j :: 0 <= i < j < |ms| ==> ms[i].id < ms[j].id
  }

  /** What `sort((a, b) => Number(a.id - b.id))` produces from `ms`: a rearrangement of `ms`
      whose ids do not decrease. */
  predicate SortedById(sorted: seq<Market>, ms: seq<Market>) {
    multiset(sorted) == multiset(ms)
    && forall i, j :: 0 <= i < j < |sorted| ==> sorted[i].id <= sorted[j].id
  }

  /** A list that is already strictly ascending by id has exactly one id-sorted rearrangement,
      itself: the sort in `fetchMarkets` changes nothing. */
  lemma {:induction false} SortIsIdentity(sorted: seq<Market>, ms: seq<Market>)
    requires StrictlyAscending(ms) && SortedById(sorted, ms)
    ensures sorted == ms
    decreases |ms|
  {
    assert |sorted| == |ms| by {
      assert |multiset(sorted)| == |multiset(ms)|;
    }
    if ms != [] {
      SortedHead(sorted, ms);
      SortedTail(sorted, ms);
      SortIsIdentity(sorted[1..], ms[1..]);
      assert sorted == [sorted[0]] + sorted[1..];
    }
  }

  /** Dropping a common first element keeps both properties. */
  lemma SortedTail(sorted: seq<Market>, ms: seq<Market>)
    requires StrictlyAscending(ms) && SortedById(sorted, ms)
    requires ms != [] && sorted != [] && sorted[0] == ms[0]
    ensures StrictlyAscending(ms[1..]) && SortedById(sorted[1..], ms[1..])
  {
    assert sorted == [sorted[0]] + sorted[1..];
    assert ms == [ms[0]] + ms[1..];
    assert multiset(sorted[1..]) == multiset(sorted) - multiset{sorted[0]};
    assert multiset(ms[1..]) == multiset(ms) - multiset{ms[0]};
  }

  /** The first element of an id-sorted rearrangement of a strictly ascending list is the list's
      first element. */
  lemma SortedHead(sorted: seq<Market>, ms: seq<Market>)
    requires StrictlyAscending(ms) && SortedById(sorted, ms) && ms != []
    ensures sorted != [] && sorted[0] == ms[0]
  {
    assert ms[0] in multiset(sorted);
    var j :| 0 <= j < |sorted| && sorted[j] == ms[0];
    assert sorted[0] in multiset(ms);
    var k :| 0 <= k < |ms| && ms[k] == sorted[0];
    assert sorted[0].id <= sorted[j].id;
    assert k == 0;
  }

  /** `fetchMarkets` given the market count and the batch's results (one per call). A count of 0
      yields no markets; otherwise one market per successful result, with ids below the count,
      in ascending id order. */
  function FetchMarkets(count: nat, results: seq<Option<RawMarket>>): (ms: seq<Market>)
    requires |results| == count
    ensures count == 0 ==> ms == []
    ensures |ms| == Successes(results)
    ensures StrictlyAscending(ms)
    ensures forall i :: 0 <= i < |ms| ==> ms[i].id < count
  {
    if count == 0 then [] else DecodeResults(results, 0)
  }

  /** The markets of `fetchMarkets` are exactly the successful results: each one is the decoded
      result of the call its id names, and each successful call has its market. */
  lemma FetchMarketsContents(count: nat, results: seq<Option<RawMarket>>, k: nat)
    requires |results| == count
    ensures DecodesCalls(FetchMarkets(count, results), results, 0)
    ensures k < count && results[k].Some? ==> HasId(FetchMarkets(count, results), k)
  {
    if count > 0 {
      DecodeResultsSound(results, 0);
      if k < count && results[k].Some? {
        DecodeResultsComplete(results, 0, k);
      }
    }
  }

  /** The stored form of one successful `getWager` result. */
  function ToWager(raw: RawWager): Wager {
    Wager(raw.yesAmount, raw.noAmount, raw.paid)
  }

  /** The map the `reduce` of `fetchUserWagers` builds from the entries of the batch: entry
      `idx` is stored under `ids[idx]` exactly when its read succeeded, a later entry for the
      same id overwriting an earlier one. */
  function WagerMap(ids: seq<nat>, results: seq<Option<RawWager>>): (m: map<nat, Wager>)
    requires |results| == |ids|
    ensures forall k :: k in m ==> k in ids
    decreases |ids|
  {
    if ids == [] then map[]
    else
      var n := |ids| - 1;
      var prev := WagerMap(ids[..n], results[..n]);
      if results[n].Some? then prev[ids[n] := ToWager(results[n].value)] else prev
  }

  /** The keys of the wager map are the ids whose read succeeded. */
  lemma {:induction false} WagerMapKeys(ids: seq<nat>, results: seq<Option<RawWager>>, k: nat)
    requires |results| == |ids|
    ensures k in WagerMap(ids, results) <==> exists i :: 0 <= i < |ids| && ids[i] == k && results[i].Some?
    decreases |ids|
  {
    if ids != [] {
      var n := |ids| - 1;
      WagerMapKeys(ids[..n], results[..n], k);
      if exists i :: 0 <= i < n && ids[..n][i] == k && results[..n][i].Some? {
        var i :| 0 <= i < n && ids[..n][i] == k && results[..n][i].Some?;
        assert ids[i] == k && results[i].Some?;
      }
      if exists i :: 0 <= i < |ids| && ids[i] == k && results[i].Some? {
        var i :| 0 <= i < |ids| && ids[i] == k && results[i].Some?;
        if i < n {
          assert ids[..n][i] == k && results[..n][i].Some?;
        }
      }
    }
  }

  /** An id holds the last successful read made for it. */
  lemma {:induction false} WagerMapLast(ids: seq<nat>, results: seq<Option<RawWager>>, i: nat)
    requires |results| == |ids| && i < |ids| && results[i].Some?
    requires forall j :: i < j < |ids| && ids[j] == ids[i] ==> results[j].None?
    ensures ids[i] in WagerMap(ids, results)
    ensures WagerMap(ids, results)[ids[i]] == ToWager(results[i].value)
    decreases |ids|
  {
    var n := |ids| - 1;
    var prev := WagerMap(ids[..n], results[..n]);
    assert WagerMap(ids, results) ==
      if results[n].Some? then prev[ids[n] := ToWager(results[n].value)] else prev;
    if i < n {
      assert ids[..n][i] == ids[i] && results[..n][i] == results[i];
      assert forall j :: i < j < n && ids[..n][j] == ids[..n][i] ==> results[..n][j].None? by {
        assert forall j :: i < j < n ==> ids[..n][j] == ids[j] && results[..n][j] == results[j];
      }
      WagerMapLast(ids[..n], results[..n], i);
      assert results[n].Some? ==> ids[n] != ids[i];
    }
  }

  /** `fetchUserWagers`: an empty id list yields an empty map with no batch; otherwise the
      results of the batch (one per id) are folded into a map, entry by entry. */
  method FetchUserWagers(ids: seq<nat>, results: seq<Option<RawWager>>) returns (acc: map<nat, Wager>)
    requires |results| == |ids|
    ensures acc == WagerMap(ids, results)
  {
    if |ids| == 0 {
      return map[];
    }
    acc := map[];
    var idx := 0;
    while idx < |ids|
      invariant 0 <= idx <= |ids|
      invariant acc == WagerMap(ids[..idx], results[..idx])
    {
      assert ids[..idx + 1][..idx] == ids[..idx];
      assert results[..idx + 1][..idx] == results[..idx];
      if results[idx].Some? {
        acc := acc[ids[idx] := ToWager(results[idx].value)];
      }
      idx := idx + 1;
    }
    assert ids[..idx] == ids && results[..idx] == results;
  }

  /** With distinct ids (as market ids are), every id with a successful read maps to that read,
      and an id whose read failed is absent. */
  lemma WagerMapDistinct(ids: seq<nat>, results: seq<Option<RawWager>>, i: nat)
    requires |results| == |ids| && i < |ids|
    requires forall a, b :: 0 <= a < b < |ids| ==> ids[a] != ids[b]
    ensures results[i].Some? ==>
      ids[i] in WagerMap(ids, results) && WagerMap(ids, results)[ids[i]] == ToWager(results[i].value)
    ensures results[i].None? ==> ids[i] !in WagerMap(ids, results)
  {
    WagerMapKeys(ids, results, ids[i]);
    if results[i].Some? {
      WagerMapLast(ids, results, i);
    }
  }

  /** `!address`: no connected address, or an empty one. */
  predicate NoAddress(address: Option<string>) {
    address.None? || address.value == ""
  }

  /** The market ids, in list order. */
  function Ids(ms: seq<Market>): (ids: seq<nat>)
    ensures |ids| == |ms| && forall i :: 0 <= i < |ms| ==> ids[i] == ms[i].id
  {
    seq(|ms|, i requires 0 <= i < |ms| => ms[i].id)
  }

  /** The query of `useMarketsWithWagers`. `wagerRead(id)` is the result the wager batch returns
      for market `id`. Without an address the markets carry no wager and no wager batch is
      read; otherwise each market carries the lookup of its id, which is absent exactly when
      its read failed. The markets themselves are those of `fetchMarkets`, in its order. */
  method MarketsWithWagers(address: Option<string>, count: nat, marketResults: seq<Option<RawMarket>>,
      wagerRead: nat -> Option<RawWager>)
      returns (ms: seq<MarketWithWager>)
    requires |marketResults| == count
    ensures var markets := FetchMarkets(count, marketResults);
      |ms| == |markets| && forall i :: 0 <= i < |ms| ==> ms[i].market == markets[i]
    ensures NoAddress(address) ==> forall i :: 0 <= i < |ms| ==> ms[i].userWager.None?
    ensures !NoAddress(address) ==> forall i :: 0 <= i < |ms| ==>
      var read := wagerRead(ms[i].market.id);
      ms[i].userWager == (if read.Some? then Some(ToWager(read.value)) else None)
  {
    var markets := FetchMarkets(count, marketResults);
    if NoAddress(address) {
      return seq(|markets|, i requires 0 <= i < |markets| => MarketWithWager(markets[i], None));
    }
    var ids := Ids(markets);
    var results := seq(|ids|, i requires 0 <= i < |ids| => wagerRead(ids[i]));
    var wagers := FetchUserWagers(ids, results);
    forall i | 0 <= i < |ids|
      ensures (results[i].Some? ==> ids[i] in wagers && wagers[ids[i]] == ToWager(results[i].value))
        && (results[i].None? ==> ids[i] !in wagers)
    {
      WagerMapDistinct(ids, results, i);
    }
    ms := seq(|markets|, i requires 0 <= i < |markets| =>
      MarketWithWager(markets[i], if ids[i] in wagers then Some(wagers[ids[i]]) else None));
    assert forall i :: 0 <= i < |ms| ==> ms[i].market.id == ids[i] && results[i] == wagerRead(ids[i]);
  }
}
