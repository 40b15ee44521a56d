/** Per-market live state of `src/state/market_state.rs`. */
module MarketStore {
  import opened Collections
  import opened Types

  datatype MarketInner = MarketInner(
    markPrice: Option<Fixed>, indexPrice: Option<Fixed>,
    fundingPerSecond: Fixed, funding24h: Fixed, longOi: Fixed, shortOi: Fixed,
    enabled: bool, paused: bool, maxLeverage: Option<Fixed>, maintenanceMarginBps: Option<nat>,
    volume24h: Option<Fixed>, trades24h: Option<nat>,
    priceChange24h: Option<Fixed>, priceChangePct24h: Option<Fixed>)

  datatype MarketSlot = MarketSlot(price: real, lastUpdateNs: nat, inner: MarketInner)

  type Markets = seq<MarketSlot>

  const DEFAULT_SLOT :=
    MarketSlot(0.0, 0, MarketInner(None, None, 0, 0, 0, 0, true, false, None, None, None, None, None, None))

  function NoMarkets(): (ms: Markets)
    ensures |ms| == MARKET_COUNT && forall m :: 0 <= m < MARKET_COUNT ==> ms[m] == DEFAULT_SLOT
  {
    seq(MARKET_COUNT, _ => DEFAULT_SLOT)
  }

  /** A market outside the table is ignored. */
  function WithPrice(ms: Markets, m: nat, price: real, ns: nat): Markets {
    if m < |ms| then ms[m := ms[m].(price := price, lastUpdateNs := ns)] else ms
  }

  function WithInner(ms: Markets, m: nat, f: MarketInner -> MarketInner): Markets {
    if m < |ms| then ms[m := ms[m].(inner := f(ms[m].inner))] else ms
  }

  function WithFunding(ms: Markets, m: nat, perSecond: Fixed, rate24h: Fixed): Markets {
    WithInner(ms, m, (i: MarketInner) => i.(fundingPerSecond := perSecond, funding24h := rate24h))
  }

  function WithPaused(ms: Markets, m: nat, paused: bool): Markets {
    WithInner(ms, m, (i: MarketInner) => i.(paused := paused))
  }

  function AddOi(ms: Markets, m: nat, isLong: bool, delta: Fixed): Markets {
    WithInner(ms, m, (i: MarketInner) => if isLong then i.(longOi := i.longOi + delta) else i.(shortOi := i.shortOi + delta))
  }

  function Oi(slot: MarketSlot, isLong: bool): Fixed {
    if isLong then slot.inner.longOi else slot.inner.shortOi
  }

  /** A market as the snapshot stores it. */
  datatype SnapshotMarket = SnapshotMarket(market: nat, slot: MarketSlot)

  /** The setter calls that restore makes for one stored market.  `set_oracle_prices` keeps the
      current price where the stored one is absent; every other setter overwrites. */
  function RestoreSlot(slot: MarketSlot, s: MarketSlot): MarketSlot {
    MarketSlot(s.price, s.lastUpdateNs,
               s.inner.(markPrice := if s.inner.markPrice.Some? then s.inner.markPrice else slot.inner.markPrice,
                        indexPrice := if s.inner.indexPrice.Some? then s.inner.indexPrice else slot.inner.indexPrice))
  }

  function RestoreMarkets(ms: Markets, saved: seq<SnapshotMarket>): Markets
    decreases |saved|
  {
    if saved == [] then ms
    else
      var before, s := RestoreMarkets(ms, saved[..|saved| - 1]), saved[|saved| - 1];
      if s.market < |before| then before[s.market := RestoreSlot(before[s.market], s.slot)] else before
  }

  function SnapshotMarkets(ms: Markets): seq<SnapshotMarket> {
    seq(|ms|, i requires 0 <= i < |ms| => SnapshotMarket(i, ms[i]))
  }

  lemma {:induction false} RestoreMarketsPrefix(ms: Markets, n: nat)
    requires |ms| == MARKET_COUNT && n <= MARKET_COUNT
    ensures RestoreMarkets(NoMarkets(), SnapshotMarkets(ms)[..n]) == ms[..n] + NoMarkets()[n..]
  {
    var saved := SnapshotMarkets(ms);
    if n > 0 {
      RestoreMarketsPrefix(ms, n - 1);
      assert saved[..n][..n - 1] == saved[..n - 1];
      var before := RestoreMarkets(NoMarkets(), saved[..n - 1]);
      assert before[n - 1] == DEFAULT_SLOT;
      assert RestoreSlot(DEFAULT_SLOT, ms[n - 1]) == ms[n - 1];
    }
  }

  lemma RestoredMarkets(ms: Markets)
    requires |ms| == MARKET_COUNT
    ensures RestoreMarkets(NoMarkets(), SnapshotMarkets(ms)) == ms
  {
    RestoreMarketsPrefix(ms, MARKET_COUNT);
    assert SnapshotMarkets(ms)[..MARKET_COUNT] == SnapshotMarkets(ms);
  }

  class MarketTable {
    var slots: Markets

    constructor ()
      ensures slots == NoMarkets()
    {
      slots := NoMarkets();
    }

    method SetPrice(m: nat, price: real, ns: nat)
      modifies this
      ensures slots == WithPrice(old(slots), m, price, ns)
    {
      if m < |slots| {
        slots := slots[m := slots[m].(price := price)];
        slots := slots[m := slots[m].(lastUpdateNs := ns)];
      }
    }

    method SetFundingRate(m: nat, perSecond: Fixed, rate24h: Fixed)
      modifies this
      ensures slots == WithFunding(old(slots), m, perSecond, rate24h)
    {
      if m < |slots| {
        slots := slots[m := slots[m].(inner := slots[m].inner.(fundingPerSecond := perSecond, funding24h := rate24h))];
      }
    }

    method SetPaused(m: nat, paused: bool)
      modifies this
      ensures slots == WithPaused(old(slots), m, paused)
    {
      if m < |slots| {
        slots := slots[m := slots[m].(inner := slots[m].inner.(paused := paused))];
      }
    }

    method AddOpenInterest(m: nat, isLong: bool, delta: Fixed)
      modifies this
      ensures slots == AddOi(old(slots), m, isLong, delta)
    {
      if m < |slots| {
        var i := slots[m].inner;
        i := if isLong then i.(longOi := i.longOi + delta) else i.(shortOi := i.shortOi + delta);
        slots := slots[m := slots[m].(inner := i)];
      }
    }

    /** The eight setter calls of restore, one after the other. */
    method Restore(s: SnapshotMarket)
      modifies this
      ensures slots == if s.market < |old(slots)|
                       then old(slots)[s.market := RestoreSlot(old(slots)[s.market], s.slot)]
                       else old(slots)
    {
      var m, saved := s.market, s.slot.inner;
      SetPrice(m, s.slot.price, s.slot.lastUpdateNs);
      SetFundingRate(m, saved.fundingPerSecond, saved.funding24h);
      if m < |slots| {
        var i := slots[m].inner.(longOi := saved.longOi, shortOi := saved.shortOi);
        if saved.markPrice.Some? {
          i := i.(markPrice := saved.markPrice);
        }
        if saved.indexPrice.Some? {
          i := i.(indexPrice := saved.indexPrice);
        }
        i := i.(maxLeverage := saved.maxLeverage, maintenanceMarginBps := saved.maintenanceMarginBps);
        i := i.(enabled := saved.enabled);
        slots := slots[m := slots[m].(inner := i)];
      }
      SetPaused(m, saved.paused);
      if m < |slots| {
        slots := slots[m := slots[m].(inner := slots[m].inner.(
          volume24h := saved.volume24h, trades24h := saved.trades24h,
          priceChange24h := saved.priceChange24h, priceChangePct24h := saved.priceChangePct24h))];
      }
    }
  }
}
