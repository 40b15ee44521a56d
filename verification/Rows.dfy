/** Order and position rows after a run, said in terms of the events that made and changed them. */
module RowHistories {
  import opened Collections
  import opened Types
  import opened PositionStore
  import opened OrderStore
  import opened Engine
  import opened Histories
  import Accounting
  import Snapshots

  /* ---------- orders ---------- */

  function Places(id: Hash): Test {
    (ie: IndexedEvent) => ie.event.OrderPlaced? && ie.event.orderId == id
  }

  function Executes(id: Hash): Test {
    (ie: IndexedEvent) => ie.event.OrderExecuted? && ie.event.orderId == id
  }

  function Cancels(id: Hash): Test {
    (ie: IndexedEvent) => ie.event.OrderCancelled? && ie.event.orderId == id
  }

  /** What the placement `p` fixes of an order. */
  ghost predicate ShowsPlacement(o: Order, p: IndexedEvent, id: Hash) {
    p.event.OrderPlaced?
    && var e := p.event;
       && o.orderId == id && o.user == e.user && o.market == e.market && o.isLong == e.isLong
       && o.triggerPrice == e.triggerPrice && o.sizeUsd == e.sizeUsd
       && (if e.orderType <= 3 then OrderTypeCode(o.orderType) == e.orderType else o.orderType == Limit)
       && o.limitPrice == None && o.leverage == 0 && o.collateralToken == 0 && o.collateralAmount == 0
       && o.txHash == p.txHash && o.blockNumber == p.blockNumber && o.createdAt == p.blockTimestamp
  }

  /** The row of order `id` after the run: there is one exactly when it was placed, with the fields of
      its last placement, the price, position and time of its last execution since then, and the
      status that the later of execution and cancellation gave it. */
  ghost predicate OrderIs(t: Orders, es: seq<IndexedEvent>, id: Hash) {
    var k, x, c := Last(es, Places(id)), Last(es, Executes(id)), Last(es, Cancels(id));
    && (id in t.rows <==> k >= 0)
    && (k >= 0 ==>
          var o := t.rows[id];
          && ShowsPlacement(o, es[k], id)
          && o.status == (if x > k && x > c then Executed else if c > k then Cancelled else Active)
          && o.executionPrice == (if x > k then Some(es[x].event.executionPrice) else None)
          && o.positionId == (if x > k then Some(es[x].event.positionId) else None)
          && o.executedAt == (if x > k then Some(es[x].blockTimestamp) else None))
  }

  /** One event, seen on one order. */
  ghost predicate OrderMoves(t: Orders, u: Orders, ie: IndexedEvent, id: Hash) {
    if Places(id)(ie) then
      && id in u.rows && ShowsPlacement(u.rows[id], ie, id) && u.rows[id].status == Active
      && u.rows[id].executionPrice == None && u.rows[id].positionId == None && u.rows[id].executedAt == None
    else
      && (id in u.rows <==> id in t.rows)
      && (id in t.rows ==>
            u.rows[id] == if Executes(id)(ie)
                          then t.rows[id].(status := Executed, executionPrice := Some(ie.event.executionPrice),
                                           positionId := Some(ie.event.positionId), executedAt := Some(ie.blockTimestamp))
                          else if Cancels(id)(ie) then t.rows[id].(status := Cancelled)
                          else t.rows[id])
  }

  lemma OrderStep(t: Orders, ie: IndexedEvent, id: Hash)
    ensures OrderMoves(t, NextOrders(t, ie), ie, id)
  {
    hide Orders.TakeOffBook;
  }

  lemma OrderSnoc(t: Orders, u: Orders, es: seq<IndexedEvent>, ie: IndexedEvent, id: Hash)
    requires OrderIs(t, es, id) && OrderMoves(t, u, ie, id)
    ensures OrderIs(u, es + [ie], id)
  {
    hide Last, ShowsPlacement;
    Snoc(es, ie, Places(id));
    Snoc(es, ie, Executes(id));
    Snoc(es, ie, Cancels(id));
    if id in t.rows && !Places(id)(ie) {
      SamePlacement(t.rows[id], u.rows[id], es[Last(es, Places(id))], id);
    }
  }

  lemma SamePlacement(o: Order, q: Order, p: IndexedEvent, id: Hash)
    requires q == o.(status := q.status, executionPrice := q.executionPrice, positionId := q.positionId, executedAt := q.executedAt)
    ensures ShowsPlacement(o, p, id) ==> ShowsPlacement(q, p, id)
  {
  }

  lemma {:induction false} OrderHistory(es: seq<IndexedEvent>, id: Hash)
    ensures OrderIs(Accounting.Run(es).orders, es, id)
  {
    if es == [] {
      assert Accounting.Run(es).orders == NO_ORDERS;
    } else {
      hide NextOrders, Accounting.Run, OrderIs, OrderMoves;
      var init, ie := es[..|es| - 1], es[|es| - 1];
      Split(es);
      OrderHistory(init, id);
      RunByStore(es);
      OrderStep(Accounting.Run(init).orders, ie, id);
      OrderSnoc(Accounting.Run(init).orders, Accounting.Run(es).orders, init, ie, id);
    }
  }

  /** Ids are not reused anywhere in the run. */
  ghost predicate Fresh(es: seq<IndexedEvent>) {
    forall k :: 0 <= k < |es| ==> Snapshots.FreshIds(Accounting.Run(es[..k]), es[k])
  }

  lemma FreshInit(es: seq<IndexedEvent>)
    requires es != [] && Fresh(es)
    ensures Fresh(es[..|es| - 1]) && Snapshots.FreshIds(Accounting.Run(es[..|es| - 1]), es[|es| - 1])
  {
    hide Snapshots.FreshIds, Accounting.Run;
    var init := es[..|es| - 1];
    forall k | 0 <= k < |init|
      ensures Snapshots.FreshIds(Accounting.Run(init[..k]), init[k])
    {
      assert init[..k] == es[..k] && init[k] == es[k];
    }
  }

  lemma {:induction false} OrdersConsistent(es: seq<IndexedEvent>)
    requires Fresh(es)
    ensures Accounting.Run(es).orders.Consistent()
  {
    if es == [] {
      Snapshots.InvEmpty();
    } else {
      hide NextOrders, Orders.Consistent, Accounting.Run, Fresh;
      FreshInit(es);
      OrdersConsistent(es[..|es| - 1]);
      RunByStore(es);
      Snapshots.InvOrders(Accounting.Run(es[..|es| - 1]).orders, es[|es| - 1]);
    }
  }

  predicate Listed(levels: Levels, price: Fixed, id: Hash) {
    price in levels && id in levels[price]
  }

  /** An order that was placed in a known market and neither executed nor cancelled since rests at its
      trigger price: on the bids exactly when it was placed long, else on the asks. */
  lemma PlacedOrderRests(es: seq<IndexedEvent>, id: Hash)
    requires Fresh(es)
    requires var k := Last(es, Places(id));
             k >= 0 && Last(es, Executes(id)) < k && Last(es, Cancels(id)) < k && es[k].event.market < 18
    ensures var e, t := es[Last(es, Places(id))].event, Accounting.Run(es).orders;
            && t.Resting(e.market, e.isLong, e.triggerPrice, id) && e.market < |t.books|
            && (Listed(t.books[e.market].bids, e.triggerPrice, id) <==> e.isLong)
            && (Listed(t.books[e.market].asks, e.triggerPrice, id) <==> !e.isLong)
  {
    hide Accounting.Run, Last, Fresh;
    OrderHistory(es, id);
    OrdersConsistent(es);
    var e, t := es[Last(es, Places(id))].event, Accounting.Run(es).orders;
    hide OrderIs;
    assert t.SideMatches(e.market, true, t.books[e.market].Side(true));
    assert t.SideMatches(e.market, false, t.books[e.market].Side(false));
  }

  /** The same for one live step from any consistent table. */
  lemma PlacementRests(s: State, ie: IndexedEvent)
    requires ie.event.OrderPlaced? && s.orders.Consistent() && ie.event.orderId !in s.orders.rows
    requires ie.event.market < 18
    ensures var e, t := ie.event, LiveStep(s, ie).orders;
            && t.Resting(e.market, e.isLong, e.triggerPrice, e.orderId) && e.market < |t.books|
            && (Listed(t.books[e.market].bids, e.triggerPrice, e.orderId) <==> e.isLong)
            && (Listed(t.books[e.market].asks, e.triggerPrice, e.orderId) <==> !e.isLong)
  {
    hide LiveApply;
    StoreByStore(s, ie);
    var e, t := ie.event, LiveStep(s, ie).orders;
    OrderStep(s.orders, ie, e.orderId);
    Snapshots.InvOrders(s.orders, ie);
    hide NextOrders;
    assert t.SideMatches(e.market, true, t.books[e.market].Side(true));
    assert t.SideMatches(e.market, false, t.books[e.market].Side(false));
  }

  /* ---------- arrival order ---------- */

  /** The ids stand in the order of their ranks. */
  ghost predicate Ranked(ids: seq<Hash>, rank: Hash -> int) {
    forall i, j :: 0 <= i < j < |ids| ==> rank(ids[i]) < rank(ids[j])
  }

  lemma {:induction false} RetainRanked(ids: seq<Hash>, id: Hash, rank: Hash -> int)
    requires Ranked(ids, rank)
    ensures Ranked(Retain(ids, id), rank)
  {
    if ids != [] {
      var rest := Retain(ids[1..], id);
      RetainRanked(ids[1..], id, rank);
      if ids[0] != id {
        forall x | x in rest
          ensures rank(ids[0]) < rank(x)
        {
          var i :| 0 <= i < |ids[1..]| && ids[1..][i] == x;
          assert ids[i + 1] == x;
        }
        assert Retain(ids, id) == [ids[0]] + rest;
      }
    }
  }

  ghost predicate RankedLevels(levels: Levels, rank: Hash -> int) {
    forall p :: p in levels ==> Ranked(levels[p], rank)
  }

  ghost predicate RankedBooks(books: seq<Book>, rank: Hash -> int) {
    forall m :: 0 <= m < |books| ==> RankedLevels(books[m].bids, rank) && RankedLevels(books[m].asks, rank)
  }

  function Placed(es: seq<IndexedEvent>): Hash -> int {
    (id: Hash) => Last(es, Places(id))
  }

  lemma RankedRemove(levels: Levels, price: Fixed, id: Hash, rank: Hash -> int)
    requires RankedLevels(levels, rank)
    ensures RankedLevels(RemoveFrom(levels, price, id), rank)
  {
    hide Ranked, Retain;
    if price in levels {
      RetainRanked(levels[price], id, rank);
      var left := RemoveFrom(levels, price, id);
      assert forall p :: p in left && p != price ==> p in levels && left[p] == levels[p];
      assert price in left ==> left[price] == Retain(levels[price], id);
    }
  }

  lemma RankedOffBook(t: Orders, o: Order, rank: Hash -> int)
    requires RankedBooks(t.books, rank)
    ensures RankedBooks(t.TakeOffBook(o), rank)
  {
    hide RankedLevels, RemoveFrom;
    var books := t.TakeOffBook(o);
    forall m | 0 <= m < |books|
      ensures RankedLevels(books[m].bids, rank) && RankedLevels(books[m].asks, rank)
    {
      assert RankedLevels(t.books[m].bids, rank) && RankedLevels(t.books[m].asks, rank);
      RankedRemove(t.books[m].bids, o.triggerPrice, o.orderId, rank);
      RankedRemove(t.books[m].asks, o.triggerPrice, o.orderId, rank);
    }
  }

  lemma RankedAdd(levels: Levels, price: Fixed, id: Hash, rank: Hash -> int)
    requires RankedLevels(levels, rank)
    requires forall x :: Listed(levels, price, x) ==> rank(x) < rank(id)
    ensures RankedLevels(AddTo(levels, price, id), rank)
  {
    var ids := if price in levels then levels[price] else [];
    var more := AddTo(levels, price, id);
    assert more[price] == ids + [id];
    forall i | 0 <= i < |ids|
      ensures rank(ids[i]) < rank(id)
    {
      assert Listed(levels, price, ids[i]);
    }
    forall p | p in more
      ensures Ranked(more[p], rank)
    {
      if p == price {
        assert Ranked(ids + [id], rank);
      } else {
        assert more[p] == levels[p];
      }
    }
  }

  /** Ranks of the orders in the books do not change with an event that places none of them. */
  lemma SameRanks(books: seq<Book>, before: Hash -> int, after: Hash -> int)
    requires RankedBooks(books, before)
    requires forall m, p, id :: 0 <= m < |books| && (Listed(books[m].bids, p, id) || Listed(books[m].asks, p, id)) ==>
               after(id) == before(id)
    ensures RankedBooks(books, after)
  {
    forall m | 0 <= m < |books|
      ensures RankedLevels(books[m].bids, after) && RankedLevels(books[m].asks, after)
    {
      assert RankedLevels(books[m].bids, before) && RankedLevels(books[m].asks, before);
      forall p | p in books[m].bids
        ensures Ranked(books[m].bids[p], after)
      {
        assert Ranked(books[m].bids[p], before);
        assert forall i :: 0 <= i < |books[m].bids[p]| ==> Listed(books[m].bids, p, books[m].bids[p][i]);
      }
      forall p | p in books[m].asks
        ensures Ranked(books[m].asks[p], after)
      {
        assert Ranked(books[m].asks[p], before);
        assert forall i :: 0 <= i < |books[m].asks[p]| ==> Listed(books[m].asks, p, books[m].asks[p][i]);
      }
    }
  }

  lemma ListedInRows(t: Orders, m: nat, p: Fixed, id: Hash)
    requires t.BooksMatch() && m < |t.books| && (Listed(t.books[m].bids, p, id) || Listed(t.books[m].asks, p, id))
    ensures id in t.rows
  {
    assert t.SideMatches(m, true, t.books[m].Side(true)) && t.SideMatches(m, false, t.books[m].Side(false));
  }

  lemma InsertRanked(t: Orders, o: Order, rank: Hash -> int)
    requires t.BooksMatch() && RankedBooks(t.books, rank) && forall id :: id in t.rows ==> rank(id) < rank(o.orderId)
    ensures RankedBooks(t.Insert(o).books, rank)
  {
    if o.status == Active && o.market < |t.books| {
      var book := t.books[o.market];
      forall x | Listed(book.bids, o.triggerPrice, x) || Listed(book.asks, o.triggerPrice, x)
        ensures rank(x) < rank(o.orderId)
      {
        ListedInRows(t, o.market, o.triggerPrice, x);
      }
      RankedAdd(book.bids, o.triggerPrice, o.orderId, rank);
      RankedAdd(book.asks, o.triggerPrice, o.orderId, rank);
    }
  }

  /** Within a price level orders stand in the order they were placed in, over every run. */
  lemma {:induction false} ArrivalOrder(es: seq<IndexedEvent>)
    requires Fresh(es)
    ensures RankedBooks(Accounting.Run(es).orders.books, Placed(es))
  {
    if es != [] {
      hide Fresh, Accounting.Run, Orders.Consistent, RankedBooks, Last;
      var init, ie := es[..|es| - 1], es[|es| - 1];
      Split(es);
      FreshInit(es);
      ArrivalOrder(init);
      RunByStore(es);
      OrdersConsistent(init);
      ArrivalStep(Accounting.Run(init).orders, init, ie);
    }
  }

  lemma ArrivalStep(t: Orders, es: seq<IndexedEvent>, ie: IndexedEvent)
    requires t.Consistent() && RankedBooks(t.books, Placed(es)) && (ie.event.OrderPlaced? ==> ie.event.orderId !in t.rows)
    requires forall id :: id in t.rows ==> Last(es, Places(id)) < |es|
    ensures RankedBooks(NextOrders(t, ie).books, Placed(es + [ie]))
  {
    hide RankedBooks, Last, Orders.SideMatches;
    var before, after := Placed(es), Placed(es + [ie]);
    forall id | id in t.rows
      ensures after(id) == before(id)
    {
      Snoc(es, ie, Places(id));
    }
    forall m, p, id | 0 <= m < |t.books| && (Listed(t.books[m].bids, p, id) || Listed(t.books[m].asks, p, id))
      ensures after(id) == before(id)
    {
      ListedInRows(t, m, p, id);
    }
    SameRanks(t.books, before, after);
    match ie.event {
      case OrderPlaced(id, _, _, _, _, _, _) =>
        Snoc(es, ie, Places(id));
        InsertRanked(t, NewOrder(ie), after);
      case OrderExecuted(id, _, _) =>
        if id in t.rows {
          RankedOffBook(t, t.rows[id].(orderId := id), after);
        }
      case OrderCancelled(id, _) =>
        if id in t.rows {
          RankedOffBook(t, t.rows[id].(orderId := id), after);
        }
      case _ =>
    }
  }

  /* ---------- positions ---------- */

  function Opens(id: Hash): Test {
    (ie: IndexedEvent) => ie.event.PositionOpened? && ie.event.positionId == id
  }

  function Closes(id: Hash): Test {
    (ie: IndexedEvent) => ie.event.PositionClosed? && ie.event.positionId == id
  }

  function FullCloses(id: Hash): Test {
    (ie: IndexedEvent) => ie.event.PositionClosed? && ie.event.positionId == id && ie.event.isFullClose
  }

  function PartCloses(id: Hash): Test {
    (ie: IndexedEvent) => ie.event.PositionClosed? && ie.event.positionId == id && !ie.event.isFullClose
  }

  function Liquidates(id: Hash): Test {
    (ie: IndexedEvent) => ie.event.Liquidation? && ie.event.positionId == id
  }

  /** A close or a liquidation. */
  function Exits(id: Hash): Test {
    (ie: IndexedEvent) => (ie.event.PositionClosed? || ie.event.Liquidation?) && ie.event.positionId == id
  }

  /** An opening or a modification: it sets the sizes. */
  function Sizes(id: Hash): Test {
    (ie: IndexedEvent) => (ie.event.PositionOpened? || ie.event.PositionModified?) && ie.event.positionId == id
  }

  /** What the partial closes behind position `m` of the run took off. */
  function TakenSince(es: seq<IndexedEvent>, id: Hash, m: int): int {
    if |es| <= m + 1 || es == [] then 0
    else TakenSince(es[..|es| - 1], id, m) + if PartCloses(id)(es[|es| - 1]) then es[|es| - 1].event.closedSizeUsd else 0
  }

  /** What the opening `o` fixes of a position. */
  ghost predicate ShowsOpening(p: Position, o: IndexedEvent, id: Hash) {
    o.event.PositionOpened?
    && var e := o.event;
       && p.positionId == id && p.user == e.user && p.market == e.market && p.isLong == e.isLong
       && p.leverage == e.leverage && p.collateralToken == e.collateralToken && p.entryPrice == e.entryPrice
       && p.openTx == o.txHash && p.openBlock == o.blockNumber && p.openedAt == o.blockTimestamp
  }

  ghost predicate PositionExits(p: Position, es: seq<IndexedEvent>, id: Hash, k: int)
    requires k >= -1
  {
    var x, c, f, l := Last(es, Exits(id)), Last(es, Closes(id)), Last(es, FullCloses(id)), Last(es, Liquidates(id));
    && p.exitPrice == (if x <= k then None
                       else if es[x].event.PositionClosed? then Some(es[x].event.exitPrice)
                       else Some(es[x].event.liquidationPrice))
    && p.closeTx == (if x > k then Some(es[x].txHash) else None)
    && p.closeBlock == (if x > k then Some(es[x].blockNumber) else None)
    && p.closedAt == (if x > k then Some(es[x].blockTimestamp) else None)
    && p.realizedPnl == (if c > k then Some(es[c].event.realizedPnl) else None)
    && p.status == (if l > k && l > f then Liquidated else if f > k then PositionStatus.Closed else Open)
  }

  ghost predicate PositionSizes(p: Position, es: seq<IndexedEvent>, id: Hash) {
    var m := Last(es, Sizes(id));
    m >= 0
    && var e := es[m].event;
       if e.PositionOpened?
       then && p.sizeUsd == e.sizeUsd - TakenSince(es, id, m)
            && p.collateralUsd == TruncDiv(e.sizeUsd, if e.leverage >= 1 then e.leverage else 1)
            && p.collateralAmount == e.collateralAmount
       else && p.sizeUsd == e.newSizeUsd - TakenSince(es, id, m)
            && p.collateralUsd == e.newCollateralUsd && p.collateralAmount == e.newCollateralAmount
  }

  /** The row of position `id` after the run: there is one exactly when it was opened, with the fields
      of its last opening; price, stamps, pnl and status come from its last exits since then; sizes
      and collateral from its last opening or modification, less the partial closes since. */
  ghost predicate PositionIs(t: Positions, es: seq<IndexedEvent>, id: Hash) {
    var k := Last(es, Opens(id));
    && (id in t.rows <==> k >= 0)
    && (k >= 0 ==> ShowsOpening(t.rows[id], es[k], id) && PositionExits(t.rows[id], es, id, k) && PositionSizes(t.rows[id], es, id))
  }

  /** One event, seen on one position. */
  ghost predicate PositionMoves(t: Positions, u: Positions, ie: IndexedEvent, id: Hash) {
    var e := ie.event;
    if Opens(id)(ie) then
      && id in u.rows && ShowsOpening(u.rows[id], ie, id)
      && var p := u.rows[id];
         && p.status == Open && p.exitPrice == None && p.realizedPnl == None
         && p.closeTx == None && p.closeBlock == None && p.closedAt == None
         && p.sizeUsd == e.sizeUsd && p.collateralAmount == e.collateralAmount
         && p.collateralUsd == TruncDiv(e.sizeUsd, if e.leverage >= 1 then e.leverage else 1)
    else
      && (id in u.rows <==> id in t.rows)
      && (id in t.rows ==>
            var p, q := t.rows[id], u.rows[id];
            if Closes(id)(ie) then
              q == p.(exitPrice := Some(e.exitPrice), realizedPnl := Some(e.realizedPnl), closeTx := Some(ie.txHash),
                      closeBlock := Some(ie.blockNumber), closedAt := Some(ie.blockTimestamp),
                      status := if e.isFullClose then PositionStatus.Closed else p.status,
                      sizeUsd := if e.isFullClose then p.sizeUsd else p.sizeUsd - e.closedSizeUsd)
            else if Liquidates(id)(ie) then
              q == p.(exitPrice := Some(e.liquidationPrice), closeTx := Some(ie.txHash), closeBlock := Some(ie.blockNumber),
                      closedAt := Some(ie.blockTimestamp), status := Liquidated)
            else if Sizes(id)(ie) then
              q == p.(sizeUsd := e.newSizeUsd, collateralUsd := e.newCollateralUsd, collateralAmount := e.newCollateralAmount)
            else q == p)
  }

  lemma PositionStep(t: Positions, ie: IndexedEvent, id: Hash)
    ensures PositionMoves(t, NextPositions(t, ie), ie, id)
  {
  }

  lemma ExitsSnoc(p: Position, q: Position, es: seq<IndexedEvent>, ie: IndexedEvent, id: Hash, k: int)
    requires k >= -1 && PositionExits(p, es, id, k) && !Opens(id)(ie) && k < |es|
    requires if Closes(id)(ie) then
               && q.exitPrice == Some(ie.event.exitPrice) && q.realizedPnl == Some(ie.event.realizedPnl)
               && q.closeTx == Some(ie.txHash) && q.closeBlock == Some(ie.blockNumber) && q.closedAt == Some(ie.blockTimestamp)
               && q.status == if ie.event.isFullClose then PositionStatus.Closed else p.status
             else if Liquidates(id)(ie) then
               && q.exitPrice == Some(ie.event.liquidationPrice) && q.realizedPnl == p.realizedPnl
               && q.closeTx == Some(ie.txHash) && q.closeBlock == Some(ie.blockNumber) && q.closedAt == Some(ie.blockTimestamp)
               && q.status == Liquidated
             else
               && q.exitPrice == p.exitPrice && q.realizedPnl == p.realizedPnl && q.closeTx == p.closeTx
               && q.closeBlock == p.closeBlock && q.closedAt == p.closedAt && q.status == p.status
    ensures PositionExits(q, es + [ie], id, k)
  {
    hide Last;
    Snoc(es, ie, Exits(id));
    Snoc(es, ie, Closes(id));
    Snoc(es, ie, FullCloses(id));
    Snoc(es, ie, Liquidates(id));
  }

  lemma TakenSnoc(es: seq<IndexedEvent>, ie: IndexedEvent, id: Hash, m: int)
    ensures TakenSince(es + [ie], id, m)
            == if m >= |es| then 0 else TakenSince(es, id, m) + if PartCloses(id)(ie) then ie.event.closedSizeUsd else 0
  {
    assert (es + [ie])[..|es|] == es;
  }

  lemma SizesSnoc(p: Position, q: Position, es: seq<IndexedEvent>, ie: IndexedEvent, id: Hash)
    requires !Sizes(id)(ie) && PositionSizes(p, es, id)
    requires q.collateralUsd == p.collateralUsd && q.collateralAmount == p.collateralAmount
    requires q.sizeUsd == p.sizeUsd - if PartCloses(id)(ie) then ie.event.closedSizeUsd else 0
    ensures PositionSizes(q, es + [ie], id)
  {
    hide Last, TakenSince, TruncDiv;
    Snoc(es, ie, Sizes(id));
    TakenSnoc(es, ie, id, Last(es, Sizes(id)));
  }

  lemma SizedNow(q: Position, es: seq<IndexedEvent>, ie: IndexedEvent, id: Hash)
    requires Sizes(id)(ie)
    requires if ie.event.PositionOpened?
             then && q.sizeUsd == ie.event.sizeUsd && q.collateralAmount == ie.event.collateralAmount
                  && q.collateralUsd == TruncDiv(ie.event.sizeUsd, if ie.event.leverage >= 1 then ie.event.leverage else 1)
             else && q.sizeUsd == ie.event.newSizeUsd && q.collateralUsd == ie.event.newCollateralUsd
                  && q.collateralAmount == ie.event.newCollateralAmount
    ensures PositionSizes(q, es + [ie], id)
  {
    hide Last, TakenSince, TruncDiv;
    Snoc(es, ie, Sizes(id));
    TakenSnoc(es, ie, id, |es|);
  }

  lemma OpenedNow(q: Position, es: seq<IndexedEvent>, ie: IndexedEvent, id: Hash)
    requires Opens(id)(ie)
    requires q.status == Open && q.exitPrice == None && q.realizedPnl == None
    requires q.closeTx == None && q.closeBlock == None && q.closedAt == None
    ensures PositionExits(q, es + [ie], id, |es|)
  {
    hide Last;
    Snoc(es, ie, Exits(id));
    Snoc(es, ie, Closes(id));
    Snoc(es, ie, FullCloses(id));
    Snoc(es, ie, Liquidates(id));
  }

  lemma PositionSnoc(t: Positions, u: Positions, es: seq<IndexedEvent>, ie: IndexedEvent, id: Hash)
    requires PositionIs(t, es, id) && PositionMoves(t, u, ie, id)
    ensures PositionIs(u, es + [ie], id)
  {
    hide Last, PositionExits, PositionSizes, TruncDiv;
    Snoc(es, ie, Opens(id));
    if Opens(id)(ie) {
      OpenedNow(u.rows[id], es, ie, id);
      SizedNow(u.rows[id], es, ie, id);
    } else if id in t.rows {
      var p, q := t.rows[id], u.rows[id];
      ExitsSnoc(p, q, es, ie, id, Last(es, Opens(id)));
      if Sizes(id)(ie) {
        SizedNow(q, es, ie, id);
      } else {
        SizesSnoc(p, q, es, ie, id);
      }
    }
  }

  lemma {:induction false} PositionHistory(es: seq<IndexedEvent>, id: Hash)
    ensures PositionIs(Accounting.Run(es).positions, es, id)
  {
    if es == [] {
      assert Accounting.Run(es).positions == NO_POSITIONS;
    } else {
      hide NextPositions, Accounting.Run, PositionIs, PositionMoves;
      var init, ie := es[..|es| - 1], es[|es| - 1];
      Split(es);
      PositionHistory(init, id);
      RunByStore(es);
      PositionStep(Accounting.Run(init).positions, ie, id);
      PositionSnoc(Accounting.Run(init).positions, Accounting.Run(es).positions, init, ie, id);
    }
  }
}
