/** The tick files of `src/storage/tick_store.rs`, one per market. */
module TickStore {
  import opened Types

  type TickFiles = seq<seq<PriceTick>>

  function AppendTick(files: TickFiles, t: PriceTick): TickFiles {
    if t.market < |files| then files[t.market := files[t.market] + [t]] else files
  }

  class TickTable {
    var files: TickFiles

    constructor (files: TickFiles)
      ensures this.files == files
    {
      this.files := files;
    }

    /** A tick of an unknown market is refused and changes nothing. */
    method Append(t: PriceTick) returns (ok: bool)
      requires |files| == MARKET_COUNT
      modifies this
      ensures ok <==> t.market < MARKET_COUNT
      ensures files == AppendTick(old(files), t)
    {
      if t.market >= MARKET_COUNT {
        return false;
      }
      files := files[t.market := files[t.market] + [t]];
      ok := true;
    }
  }

  function AppendAll(files: TickFiles, ticks: seq<PriceTick>): TickFiles {
    if ticks == [] then files else AppendTick(AppendAll(files, ticks[..|ticks| - 1]), ticks[|ticks| - 1])
  }

  /** The ticks of one market, in order. */
  function OfMarket(ticks: seq<PriceTick>, market: nat): seq<PriceTick> {
    if ticks == [] then []
    else OfMarket(ticks[..|ticks| - 1], market)
         + if ticks[|ticks| - 1].market == market then [ticks[|ticks| - 1]] else []
  }

  /** Whatever was in the files before, each afterwards holds its own market's ticks behind it, in the
      order they came; ticks of unknown markets are nowhere. */
  lemma {:induction false} FilesHoldTheirTicks(files: TickFiles, ticks: seq<PriceTick>, market: nat)
    requires market < |files|
    ensures |AppendAll(files, ticks)| == |files|
    ensures AppendAll(files, ticks)[market] == files[market] + OfMarket(ticks, market)
  {
    if ticks != [] {
      FilesHoldTheirTicks(files, ticks[..|ticks| - 1], market);
    }
  }
}
