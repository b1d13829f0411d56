/** The market list: skeletons while loading, an empty state, or the active and settled sections. */
module MarketList {
  import opened MarketTypes
  import opened MarketHelpers
  import opened Seqs

  /** `isMarketActive` at `now`, as a filter predicate over annotated markets. */
  function ActiveAt(now: int): MarketWithWager -> bool {
    (m: MarketWithWager) => IsMarketActive(m.market, now)
  }

  /** Its complement, the filter of the settled section. */
  function SettledAt(now: int): MarketWithWager -> bool {
    (m: MarketWithWager) => !IsMarketActive(m.market, now)
  }

  /** What the list renders. In `Sections`, `closedNotice` stands for the "all active markets have
      closed" message shown in place of active cards. */
  datatype ListView =
    | Skeletons
    | EmptyState
    | Sections(active: seq<MarketWithWager>, closedNotice: bool,
               settled: seq<MarketWithWager>, settledSection: bool)

  /** The list for `markets` at the instant `now`. Loading shows only skeletons whatever the list
      holds; an empty list shows the empty state; otherwise the active section holds exactly the
      active markets and the settled section exactly the others, the notice replaces the active
      cards when none is active, and the settled section renders only when it has a market. */
  function Render(loading: bool, markets: seq<MarketWithWager>, now: int): (v: ListView)
    ensures loading <==> v == Skeletons
    ensures v == EmptyState <==> !loading && markets == []
    ensures v.Sections? ==>
      (forall m :: m in v.active <==> m in markets && IsMarketActive(m.market, now))
      && (forall m :: m in v.settled <==> m in markets && !IsMarketActive(m.market, now))
    ensures v.Sections? ==> (v.closedNotice <==> v.active == []) && (v.settledSection <==> v.settled != [])
  {
    if loading then Skeletons
    else if markets == [] then EmptyState
    else
      var active := Filter(ActiveAt(now), markets);
      var settled := Filter(SettledAt(now), markets);
      Sections(active, active == [], settled, settled != [])
  }

  /** The two sections partition the list: together they hold every market as often as the list
      does, so no market is lost, duplicated or shown in both sections. */
  lemma SectionsPartition(markets: seq<MarketWithWager>, now: int)
    requires markets != []
    ensures var v := Render(false, markets, now);
      multiset(v.active) + multiset(v.settled) == multiset(markets)
      && |v.active| + |v.settled| == |markets|
  {
    FilterPartition(ActiveAt(now), SettledAt(now), markets);
    var v := Render(false, markets, now);
    assert |multiset(v.active) + multiset(v.settled)| == |multiset(markets)|;
  }

  /** Both sections keep the list's order: the sections of a concatenation are the concatenations
      of the sections. */
  lemma SectionsKeepOrder(a: seq<MarketWithWager>, b: seq<MarketWithWager>, now: int)
    requires a != [] && b != []
    ensures var v, va, vb := Render(false, a + b, now), Render(false, a, now), Render(false, b, now);
      v.active == va.active + vb.active && v.settled == va.settled + vb.settled
  {
    FilterConcat(ActiveAt(now), a, b);
    FilterConcat(SettledAt(now), a, b);
  }

  /** The page reads the clock afresh for each filter, so the active section may be filtered at
      an instant `t1` and the settled section at a later instant `t2`. No market is then lost,
      and a market lands in both sections only when it is open and its deadline falls between
      the two readings, after `t1` and no later than `t2`. */
  lemma SectionsAcrossReadings(markets: seq<MarketWithWager>, t1: int, t2: int, m: MarketWithWager)
    requires t1 <= t2 && m in markets
    ensures m in Filter(ActiveAt(t1), markets) || m in Filter(SettledAt(t2), markets)
    ensures m in Filter(ActiveAt(t1), markets) && m in Filter(SettledAt(t2), markets) <==>
              m.market.status == Open && t1 < m.market.deadline <= t2
  {
    var p, q := ActiveAt(t1), SettledAt(t2);
    assert p(m) == IsMarketActive(m.market, t1) && q(m) == !IsMarketActive(m.market, t2);
  }

  /** A market that is open but whose deadline has just passed is listed as settled, although its
      outcome is still undecided. */
  lemma JustClosedIsSettled(m: MarketWithWager, now: int)
    requires m.market.status == Open && m.market.outcome == Undecided && m.market.deadline == now - 1000
    ensures Render(false, [m], now) == Sections([], true, [m], true)
  {
  }
}
