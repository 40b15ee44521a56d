/** The order table of `src/state/orders.rs`: orders, the user index and one book per market. */
module OrderStore {
  import opened Collections
  import opened Types
  import Index

  /* ---------- one side of a book ---------- */

  /** One side of a book: price level to the ids resting there, in arrival order. */
  type Levels = map<Fixed, seq<Hash>>

  function AddTo(levels: Levels, price: Fixed, id: Hash): Levels {
    levels[price := (if price in levels then levels[price] else []) + [id]]
  }

  /** `ids.retain(|x| x != id)`. */
  function Retain(ids: seq<Hash>, id: Hash): (r: seq<Hash>)
    ensures forall x :: x in r <==> x in ids && x != id
    ensures multiset(r) == multiset(ids)[id := 0]
  {
    if ids == [] then []
    else
      assert ids == [ids[0]] + ids[1..];
      if ids[0] == id then Retain(ids[1..], id) else [ids[0]] + Retain(ids[1..], id)
  }

  function RemoveFrom(levels: Levels, price: Fixed, id: Hash): Levels {
    if price !in levels then levels
    else
      var ids := Retain(levels[price], id);
      if ids == [] then levels - {price} else levels[price := ids]
  }

  datatype Book = Book(bids: Levels, asks: Levels)
  {
    function Side(isLong: bool): Levels { if isLong then bids else asks }

    function Add(isLong: bool, price: Fixed, id: Hash): Book {
      if isLong then this.(bids := AddTo(bids, price, id)) else this.(asks := AddTo(asks, price, id))
    }

    function Remove(isLong: bool, price: Fixed, id: Hash): Book {
      if isLong then this.(bids := RemoveFrom(bids, price, id)) else this.(asks := RemoveFrom(asks, price, id))
    }

    function BestBid(): Option<Fixed> {
      var keys := Ascending(bids.Keys);
      if keys == [] then None else Some(keys[|keys| - 1])
    }

    function BestAsk(): Option<Fixed> {
      var keys := Ascending(asks.Keys);
      if keys == [] then None else Some(keys[0])
    }

    function Spread(): Option<Fixed> {
      if BestAsk().None? || BestBid().None? then None else Some(BestAsk().value - BestBid().value)
    }

    function BidsDepth(levels: nat): seq<DepthLevel> {
      Depth(bids, Reverse(Ascending(bids.Keys)), levels)
    }

    function AsksDepth(levels: nat): seq<DepthLevel> {
      Depth(asks, Ascending(asks.Keys), levels)
    }
  }

  datatype DepthLevel = DepthLevel(price: Fixed, orderCount: nat)

  /** The first `n` levels of `side` in the order of `prices`. */
  function Depth(side: Levels, prices: seq<Fixed>, n: nat): seq<DepthLevel>
    requires forall i :: 0 <= i < |prices| ==> prices[i] in side
  {
    seq(if n < |prices| then n else |prices|,
        i requires 0 <= i < |prices| => DepthLevel(prices[i], |side[prices[i]]|))
  }

  /** `bid_count` / `ask_count`: the level lengths added up. */
  ghost function Count(side: Levels): int {
    MapSum(map p | p in side :: |side[p]|)
  }

  /* ---------- the table ---------- */

  function OrderKey(o: Order): Hash { o.orderId }
  function OrderUser(o: Order): Address { o.user }

  datatype Orders = Orders(rows: map<Hash, Order>, byUser: map<Address, set<Hash>>, books: seq<Book>)
  {
    /** Insert or replace; an active order is added to its market's book. */
    function Insert(o: Order): Orders {
      Orders(rows[o.orderId := o], Index.Add(byUser, o.user, o.orderId),
             if o.status == Active && o.market < |books|
             then books[o.market := books[o.market].Add(o.isLong, o.triggerPrice, o.orderId)]
             else books)
    }

    function TakeOffBook(o: Order): seq<Book> {
      if o.status == Active && o.market < |books|
      then books[o.market := books[o.market].Remove(o.isLong, o.triggerPrice, o.orderId)]
      else books
    }

    function Cancel(id: Hash): Orders {
      if id !in rows then this
      else this.(rows := rows[id := rows[id].(status := Cancelled)], books := TakeOffBook(rows[id].(orderId := id)))
    }

    function Execute(id: Hash, price: Fixed, position: Hash, at: nat): Orders {
      if id !in rows then this
      else this.(rows := rows[id := rows[id].(status := Executed, executionPrice := Some(price),
                                              positionId := Some(position), executedAt := Some(at))],
                 books := TakeOffBook(rows[id].(orderId := id)))
    }

    function Remove(id: Hash): Orders {
      if id !in rows then this
      else Orders(rows - {id}, Index.Drop(byUser, rows[id].user, id), TakeOffBook(rows[id].(orderId := id)))
    }

    /** Order `id` rests in market `m` on the given side at `price`, by a scan of the rows. */
    predicate Resting(m: nat, isLong: bool, price: Fixed, id: Hash) {
      id in rows && rows[id].status == Active && rows[id].market == m
      && rows[id].isLong == isLong && rows[id].triggerPrice == price
    }

    /** One side of one book lists each resting order exactly once, at its price, and nothing
        else, and holds no empty level. */
    ghost predicate SideMatches(m: nat, isLong: bool, levels: Levels) {
      && (forall p, id :: p in levels && id in levels[p] <==> Resting(m, isLong, p, id))
      && (forall p :: p in levels ==> levels[p] != [] && NoRepeats(levels[p]))
    }

    ghost predicate BooksMatch() {
      |books| == MARKET_COUNT
      && forall m, isLong :: 0 <= m < MARKET_COUNT ==> SideMatches(m, isLong, books[m].Side(isLong))
    }

    ghost predicate Consistent() {
      && Keyed(rows, OrderKey)
      && Index.Matches(byUser, rows, OrderUser)
      && BooksMatch()
    }

    ghost function SideIds(m: nat, isLong: bool): set<Hash> {
      set id | id in rows && rows[id].status == Active && rows[id].market == m && rows[id].isLong == isLong
    }

    /** Active orders of markets below `n`. */
    ghost function ActiveBelow(n: nat): set<Hash> {
      set id | id in rows && rows[id].status == Active && rows[id].market < n
    }

    ghost function BookCountBelow(n: nat): int
      requires n <= |books|
    {
      if n == 0 then 0
      else BookCountBelow(n - 1) + Count(books[n - 1].bids) + Count(books[n - 1].asks)
    }
  }

  function NoBooks(): seq<Book> {
    seq(MARKET_COUNT, _ => Book(map[], map[]))
  }

  const NO_ORDERS := Orders(map[], map[], NoBooks())

  predicate NoRepeats(ids: seq<Hash>) {
    forall i, j :: 0 <= i < j < |ids| ==> ids[i] != ids[j]
  }

  lemma {:induction false} RetainNoRepeats(ids: seq<Hash>, id: Hash)
    requires NoRepeats(ids)
    ensures NoRepeats(Retain(ids, id))
  {
    if ids != [] {
      RetainNoRepeats(ids[1..], id);
      assert ids[0] !in ids[1..];
      var rest := Retain(ids[1..], id);
      assert forall i :: 0 <= i < |rest| ==> rest[i] in rest;
    }
  }

  /* ---------- one order entering or leaving one side ---------- */

  /** An order that rested nowhere on this side enters it. */
  lemma Enters(t: Orders, u: Orders, m: nat, isLong: bool, levels: Levels, id: Hash)
    requires t.SideMatches(m, isLong, levels)
    requires u.rows.Keys == t.rows.Keys + {id}
    requires forall x :: x in t.rows && x != id ==> u.rows[x] == t.rows[x]
    requires forall p :: !t.Resting(m, isLong, p, id)
    requires u.Resting(m, isLong, u.rows[id].triggerPrice, id)
    ensures u.SideMatches(m, isLong, AddTo(levels, u.rows[id].triggerPrice, id))
  {
    var price := u.rows[id].triggerPrice;
    var levels' := AddTo(levels, price, id);
    forall p, x
      ensures p in levels' && x in levels'[p] <==> u.Resting(m, isLong, p, x)
    {
      assert p in levels && x in levels[p] <==> t.Resting(m, isLong, p, x);
    }
    assert !t.Resting(m, isLong, price, id);
  }

  /** An order leaves the side it rested on. */
  lemma Leaves(t: Orders, u: Orders, m: nat, isLong: bool, levels: Levels, price: Fixed, id: Hash)
    requires t.SideMatches(m, isLong, levels)
    requires t.Resting(m, isLong, price, id)
    requires t.rows.Keys - {id} <= u.rows.Keys <= t.rows.Keys
    requires forall x :: x in t.rows && x != id ==> u.rows[x] == t.rows[x]
    requires id in u.rows ==> u.rows[id].status != Active
    ensures u.SideMatches(m, isLong, RemoveFrom(levels, price, id))
  {
    var levels' := RemoveFrom(levels, price, id);
    forall p, x
      ensures p in levels' && x in levels'[p] <==> u.Resting(m, isLong, p, x)
    {
      assert p in levels && x in levels[p] <==> t.Resting(m, isLong, p, x);
    }
    assert price in levels;
    RetainNoRepeats(levels[price], id);
  }

  /** A side that the changed order does not rest on, before or after, is untouched. */
  lemma Stays(t: Orders, u: Orders, m: nat, isLong: bool, levels: Levels, id: Hash)
    requires t.SideMatches(m, isLong, levels)
    requires t.rows.Keys - {id} <= u.rows.Keys <= t.rows.Keys + {id}
    requires forall x :: x in t.rows && x != id ==> u.rows[x] == t.rows[x]
    requires forall p :: !t.Resting(m, isLong, p, id) && !u.Resting(m, isLong, p, id)
    ensures u.SideMatches(m, isLong, levels)
  {
    forall p, x
      ensures p in levels && x in levels[p] <==> u.Resting(m, isLong, p, x)
    {
      assert p in levels && x in levels[p] <==> t.Resting(m, isLong, p, x);
    }
  }

  /* ---------- every operation keeps the books equal to a scan ---------- */

  /** Insert keeps the books equal to a scan exactly when it does not overwrite an order that is
      resting in a known market: the overwritten order's book entry is never removed. */
  lemma InsertBooksIff(t: Orders, o: Order)
    requires t.BooksMatch()
    ensures t.Insert(o).BooksMatch() <==>
              !(o.orderId in t.rows && t.rows[o.orderId].status == Active
                && t.rows[o.orderId].market < MARKET_COUNT)
  {
    var id, u := o.orderId, t.Insert(o);
    if id in t.rows && t.rows[id].status == Active && t.rows[id].market < MARKET_COUNT {
      InsertOverRestingBreaks(t, o);
    } else {
      forall m, isLong | 0 <= m < MARKET_COUNT
        ensures u.SideMatches(m, isLong, u.books[m].Side(isLong))
      {
        if o.status == Active && o.market == m && o.isLong == isLong {
          Enters(t, u, m, isLong, t.books[m].Side(isLong), id);
        } else {
          Stays(t, u, m, isLong, t.books[m].Side(isLong), id);
        }
      }
    }
  }

  lemma InsertOverRestingBreaks(t: Orders, o: Order)
    requires t.BooksMatch()
    requires o.orderId in t.rows && t.rows[o.orderId].status == Active
             && t.rows[o.orderId].market < MARKET_COUNT
    ensures !t.Insert(o).BooksMatch()
  {
    var id, u := o.orderId, t.Insert(o);
    var was := t.rows[id];
    var m, isLong, p := was.market, was.isLong, was.triggerPrice;
    var before, after := t.books[m].Side(isLong), u.books[m].Side(isLong);
    assert t.SideMatches(m, isLong, before);
    assert t.Resting(m, isLong, p, id);
    assert p in before && id in before[p];
    if u.Resting(m, isLong, p, id) {
      assert after[p] == before[p] + [id];
      var i :| 0 <= i < |before[p]| && before[p][i] == id;
      assert after[p][i] == after[p][|before[p]|];
      assert !u.SideMatches(m, isLong, after);
    } else {
      assert p in after && id in after[p];
      assert !(p in after && id in after[p] <==> u.Resting(m, isLong, p, id));
    }
  }

  /** Taking one order out of the active ones (cancel, execute, remove) keeps the books. */
  lemma DeactivateBooks(t: Orders, u: Orders, id: Hash)
    requires Keyed(t.rows, OrderKey) && t.BooksMatch()
    requires id in t.rows
    requires u.books == t.TakeOffBook(t.rows[id])
    requires t.rows.Keys - {id} <= u.rows.Keys <= t.rows.Keys
    requires forall x :: x in t.rows && x != id ==> u.rows[x] == t.rows[x]
    requires id in u.rows ==> u.rows[id].status != Active
    ensures u.BooksMatch()
  {
    var o := t.rows[id];
    assert OrderKey(o) == id;
    forall m, isLong | 0 <= m < MARKET_COUNT
      ensures u.SideMatches(m, isLong, u.books[m].Side(isLong))
    {
      if o.status == Active && o.market == m && o.isLong == isLong {
        Leaves(t, u, m, isLong, t.books[m].Side(isLong), o.triggerPrice, id);
      } else {
        Stays(t, u, m, isLong, t.books[m].Side(isLong), id);
      }
    }
  }

  lemma InsertConsistent(t: Orders, o: Order)
    requires t.Consistent()
    requires o.orderId !in t.rows
    ensures t.Insert(o).Consistent()
  {
    InsertBooksIff(t, o);
    Index.AddMatchesIff(t.byUser, t.rows, OrderUser, o.orderId, o);
  }

  lemma CancelConsistent(t: Orders, id: Hash)
    requires t.Consistent()
    ensures t.Cancel(id).Consistent()
  {
    if id in t.rows {
      var u := t.Cancel(id);
      assert t.rows[id].(orderId := id) == t.rows[id];
      DeactivateBooks(t, u, id);
      Index.UpdateMatches(t.byUser, t.rows, OrderUser, id, u.rows[id]);
    }
  }

  lemma ExecuteConsistent(t: Orders, id: Hash, price: Fixed, position: Hash, at: nat)
    requires t.Consistent()
    ensures t.Execute(id, price, position, at).Consistent()
  {
    if id in t.rows {
      var u := t.Execute(id, price, position, at);
      assert t.rows[id].(orderId := id) == t.rows[id];
      DeactivateBooks(t, u, id);
      Index.UpdateMatches(t.byUser, t.rows, OrderUser, id, u.rows[id]);
    }
  }

  lemma RemoveConsistent(t: Orders, id: Hash)
    requires t.Consistent()
    ensures t.Remove(id).Consistent()
  {
    if id in t.rows {
      var u := t.Remove(id);
      assert t.rows[id].(orderId := id) == t.rows[id];
      DeactivateBooks(t, u, id);
      Index.DropMatches(t.byUser, t.rows, OrderUser, id);
    }
  }

  /* ---------- whole runs ---------- */

  datatype OrderOp =
    | InsertOp(order: Order)
    | CancelOp(id: Hash)
    | ExecuteOp(id: Hash, price: Fixed, position: Hash, at: nat)
    | RemoveOp(id: Hash)

  function ApplyOp(t: Orders, op: OrderOp): Orders {
    match op
    case InsertOp(o) => t.Insert(o)
    case CancelOp(id) => t.Cancel(id)
    case ExecuteOp(id, price, position, at) => t.Execute(id, price, position, at)
    case RemoveOp(id) => t.Remove(id)
  }

  function ApplyOps(ops: seq<OrderOp>): Orders {
    if ops == [] then NO_ORDERS else ApplyOp(ApplyOps(ops[..|ops| - 1]), ops[|ops| - 1])
  }

  /** Every insert of the run names an id that is not present at that moment. */
  predicate FreshInserts(ops: seq<OrderOp>) {
    forall i :: 0 <= i < |ops| && ops[i].InsertOp? ==> ops[i].order.orderId !in ApplyOps(ops[..i]).rows
  }

  /** In every run of insert (of absent ids), cancel, execute and remove, the books and the user
      index equal a scan of the orders. */
  lemma {:induction false} BooksEqualScan(ops: seq<OrderOp>)
    requires FreshInserts(ops)
    ensures ApplyOps(ops).Consistent()
  {
    if ops != [] {
      var init, op := ops[..|ops| - 1], ops[|ops| - 1];
      forall i | 0 <= i < |init| && init[i].InsertOp?
        ensures init[i].order.orderId !in ApplyOps(init[..i]).rows
      {
        assert init[..i] == ops[..i] && init[i] == ops[i];
      }
      BooksEqualScan(init);
      var t := ApplyOps(init);
      match op {
        case InsertOp(o) => InsertConsistent(t, o);
        case CancelOp(id) => CancelConsistent(t, id);
        case ExecuteOp(id, price, position, at) => ExecuteConsistent(t, id, price, position, at);
        case RemoveOp(id) => RemoveConsistent(t, id);
      }
    }
  }

  /* ---------- what the readers return ---------- */

  /** The prices at which some order rests on a side, by a scan of the rows. */
  ghost predicate HasPrice(t: Orders, m: nat, isLong: bool, p: Fixed) {
    exists id :: t.Resting(m, isLong, p, id)
  }

  lemma PricesAreLevels(t: Orders, m: nat, isLong: bool, levels: Levels)
    requires t.SideMatches(m, isLong, levels)
    ensures forall p :: p in levels <==> HasPrice(t, m, isLong, p)
  {
    forall p
      ensures p in levels <==> HasPrice(t, m, isLong, p)
    {
      if p in levels {
        assert levels[p][0] in levels[p];
        assert t.Resting(m, isLong, p, levels[p][0]);
      }
      if HasPrice(t, m, isLong, p) {
        var id :| t.Resting(m, isLong, p, id);
        assert p in levels && id in levels[p];
      }
    }
  }

  /** Best bid and best ask are the greatest and least prices of the active orders of the side,
      absent exactly when there is none. */
  lemma BestPrices(t: Orders, m: nat)
    requires t.BooksMatch() && m < MARKET_COUNT
    ensures t.books[m].BestBid().None? <==> forall p :: !HasPrice(t, m, true, p)
    ensures t.books[m].BestAsk().None? <==> forall p :: !HasPrice(t, m, false, p)
    ensures t.books[m].BestBid().Some? ==> var b := t.books[m].BestBid().value;
              HasPrice(t, m, true, b) && forall p :: HasPrice(t, m, true, p) ==> p <= b
    ensures t.books[m].BestAsk().Some? ==> var a := t.books[m].BestAsk().value;
              HasPrice(t, m, false, a) && forall p :: HasPrice(t, m, false, p) ==> a <= p
  {
    hide Orders.SideMatches, Orders.Resting, HasPrice;
    var book := t.books[m];
    assert t.SideMatches(m, true, book.Side(true)) && t.SideMatches(m, false, book.Side(false));
    PricesAreLevels(t, m, true, book.bids);
    PricesAreLevels(t, m, false, book.asks);
    var bids, asks := Ascending(book.bids.Keys), Ascending(book.asks.Keys);
    forall p | HasPrice(t, m, true, p)
      ensures p in bids && p <= bids[|bids| - 1]
    {
      assert p in book.bids.Keys;
    }
    forall p | HasPrice(t, m, false, p)
      ensures p in asks && asks[0] <= p
    {
      assert p in book.asks.Keys;
    }
    if bids != [] { assert bids[|bids| - 1] in bids; }
    if asks != [] { assert asks[0] in asks; }
  }

  /** There is a spread exactly when both sides have resting orders, and it is the gap between the
      least resting ask and the greatest resting bid. */
  lemma SpreadIsGap(t: Orders, m: nat)
    requires t.BooksMatch() && m < MARKET_COUNT
    ensures t.books[m].Spread().Some? <==> (exists p :: HasPrice(t, m, true, p)) && (exists p :: HasPrice(t, m, false, p))
    ensures t.books[m].Spread().Some? ==>
              exists bid, ask ::
                && t.books[m].Spread().value == ask - bid && HasPrice(t, m, true, bid) && HasPrice(t, m, false, ask)
                && (forall p :: HasPrice(t, m, true, p) ==> p <= bid) && (forall p :: HasPrice(t, m, false, p) ==> ask <= p)
  {
    hide HasPrice, Orders.SideMatches, Book.BestBid, Book.BestAsk;
    BestPrices(t, m);
    if t.books[m].Spread().Some? {
      var bid, ask := t.books[m].BestBid().value, t.books[m].BestAsk().value;
      assert t.books[m].Spread().value == ask - bid && HasPrice(t, m, true, bid) && HasPrice(t, m, false, ask);
    }
  }

  /** The ids resting at one level, by a scan. */
  ghost function LevelIds(t: Orders, m: nat, isLong: bool, p: Fixed): set<Hash> {
    set id | id in t.rows && t.Resting(m, isLong, p, id)
  }

  lemma LevelCount(t: Orders, m: nat, isLong: bool, levels: Levels, p: Fixed)
    requires t.SideMatches(m, isLong, levels) && p in levels
    ensures |levels[p]| == |LevelIds(t, m, isLong, p)|
  {
    ElemsCount(levels[p]);
    forall id
      ensures id in levels[p] <==> id in LevelIds(t, m, isLong, p)
    {
      assert p in levels && id in levels[p] <==> t.Resting(m, isLong, p, id);
    }
    assert Elems(levels[p]) == LevelIds(t, m, isLong, p);
  }

  /** `a` is a better price than `b` on this side: bids prefer high, asks low. */
  predicate Better(isLong: bool, a: Fixed, b: Fixed) {
    if isLong then a > b else a < b
  }

  /** A depth listing, said without the book: the best levels first, strictly ordered, each with
      the number of orders resting there; a level left out is worse than all `n` listed. */
  ghost predicate IsDepth(t: Orders, m: nat, isLong: bool, n: nat, d: seq<DepthLevel>) {
    && |d| <= n
    && (forall i, j :: 0 <= i < j < |d| ==> Better(isLong, d[i].price, d[j].price))
    && (forall i :: 0 <= i < |d| ==>
          HasPrice(t, m, isLong, d[i].price) && d[i].orderCount == |LevelIds(t, m, isLong, d[i].price)|)
    && (forall p :: HasPrice(t, m, isLong, p) ==> Listed(d, p) || (|d| == n && WorseThanAll(isLong, d, p)))
  }

  ghost predicate Listed(d: seq<DepthLevel>, p: Fixed) {
    exists i :: 0 <= i < |d| && d[i].price == p
  }

  predicate WorseThanAll(isLong: bool, d: seq<DepthLevel>, p: Fixed) {
    forall i :: 0 <= i < |d| ==> Better(isLong, d[i].price, p)
  }

  lemma DepthOfSorted(t: Orders, m: nat, isLong: bool, side: Levels, prices: seq<Fixed>, n: nat)
    requires t.SideMatches(m, isLong, side)
    requires forall i, j :: 0 <= i < j < |prices| ==> Better(isLong, prices[i], prices[j])
    requires forall i :: 0 <= i < |prices| ==> prices[i] in side
    requires forall p :: p in side ==> p in prices
    ensures IsDepth(t, m, isLong, n, Depth(side, prices, n))
  {
    PricesAreLevels(t, m, isLong, side);
    var d := Depth(side, prices, n);
    forall i | 0 <= i < |d|
      ensures d[i].orderCount == |LevelIds(t, m, isLong, d[i].price)|
    {
      LevelCount(t, m, isLong, side, prices[i]);
    }
    forall p | HasPrice(t, m, isLong, p)
      ensures Listed(d, p) || (|d| == n && WorseThanAll(isLong, d, p))
    {
      var at :| 0 <= at < |prices| && prices[at] == p;
      if at < |d| {
        assert d[at].price == p;
      }
    }
  }

  /** Both depth readers return a depth listing, for every requested number of levels. */
  lemma DepthIsSortedScan(t: Orders, m: nat, n: nat)
    requires t.BooksMatch() && m < MARKET_COUNT
    ensures IsDepth(t, m, true, n, t.books[m].BidsDepth(n))
    ensures IsDepth(t, m, false, n, t.books[m].AsksDepth(n))
  {
    hide Orders.SideMatches, IsDepth, Ascending, Depth;
    var book := t.books[m];
    assert t.SideMatches(m, true, book.Side(true)) && t.SideMatches(m, false, book.Side(false));
    AscendingReversed(book.bids.Keys);
    DepthOfSorted(t, m, true, book.bids, Reverse(Ascending(book.bids.Keys)), n);
    DepthOfSorted(t, m, false, book.asks, Ascending(book.asks.Keys), n);
  }

  lemma AscendingReversed(s: set<int>)
    ensures forall p :: p in Reverse(Ascending(s)) <==> p in s
  {
    hide Ascending;
    var up, down := Ascending(s), Reverse(Ascending(s));
    forall p
      ensures p in down <==> p in up
    {
      if i :| 0 <= i < |up| && up[i] == p {
        assert down[|up| - 1 - i] == p;
      }
    }
  }

  ghost function LevelSets(levels: Levels): map<Fixed, set<Hash>> {
    map p | p in levels :: Elems(levels[p])
  }

  lemma CountBySets(levels: Levels)
    requires forall p :: p in levels ==> NoRepeats(levels[p])
    ensures Count(levels) == MapSum(Sizes(LevelSets(levels)))
  {
    forall p | p in levels
      ensures |levels[p]| == |LevelSets(levels)[p]|
    {
      ElemsCount(levels[p]);
    }
    assert Sizes(LevelSets(levels)) == map p | p in levels :: |levels[p]|;
  }

  lemma SideCount(t: Orders, m: nat, isLong: bool, levels: Levels)
    requires t.SideMatches(m, isLong, levels)
    ensures Count(levels) == |t.SideIds(m, isLong)|
  {
    CountBySets(levels);
    var sets, ids := LevelSets(levels), t.SideIds(m, isLong);
    forall p, id | p in sets && id in sets[p]
      ensures id in ids && t.rows[id].triggerPrice == p
    {
      assert p in levels && id in levels[p];
      assert t.Resting(m, isLong, p, id);
    }
    forall id | id in ids
      ensures exists p :: p in sets && id in sets[p]
    {
      var p := t.rows[id].triggerPrice;
      assert t.Resting(m, isLong, p, id);
      assert p in levels && id in levels[p];
      assert p in sets && id in sets[p];
    }
    forall p, q | p in sets && q in sets && p != q
      ensures sets[p] !! sets[q]
    {
      assert forall id :: id in sets[p] ==> t.rows[id].triggerPrice == p;
    }
    DisjointSizes(sets, ids);
  }

  /** The bid and ask counts of all books add up to the number of active orders in known markets. */
  lemma {:induction false} BookCountsAddUp(t: Orders, n: nat)
    requires t.BooksMatch() && n <= MARKET_COUNT
    ensures t.BookCountBelow(n) == |t.ActiveBelow(n)|
  {
    hide Orders.SideMatches, Count;
    if n == 0 {
      assert forall id :: id in t.rows ==> t.rows[id].market >= 0;
      assert t.ActiveBelow(0) == {};
    } else {
      var m := n - 1;
      BookCountsAddUp(t, m);
      assert t.SideMatches(m, true, t.books[m].Side(true)) && t.SideMatches(m, false, t.books[m].Side(false));
      SideCount(t, m, true, t.books[m].bids);
      SideCount(t, m, false, t.books[m].asks);
      var below, bids, asks := t.ActiveBelow(m), t.SideIds(m, true), t.SideIds(m, false);
      assert t.ActiveBelow(n) == below + bids + asks;
      assert below !! bids && (below + bids) !! asks;
    }
  }

  /* ---------- rebuilding a table ---------- */

  /** Two book sides hold the same orders at the same prices, up to arrival order in a level. */
  ghost predicate SameLevels(a: Levels, b: Levels) {
    a.Keys == b.Keys && forall p :: p in a ==> multiset(a[p]) == multiset(b[p])
  }

  ghost predicate SameBooks(a: seq<Book>, b: seq<Book>) {
    |a| == |b| && forall m :: 0 <= m < |a| ==> SameLevels(a[m].bids, b[m].bids) && SameLevels(a[m].asks, b[m].asks)
  }

  lemma {:induction false} NoRepeatsMultiset(a: seq<Hash>, b: seq<Hash>)
    requires NoRepeats(a) && NoRepeats(b)
    requires forall x :: x in a <==> x in b
    ensures multiset(a) == multiset(b)
  {
    forall x
      ensures multiset(a)[x] == multiset(b)[x]
    {
      OneCopy(a, x);
      OneCopy(b, x);
    }
  }

  lemma {:induction false} OneCopy(a: seq<Hash>, x: Hash)
    requires NoRepeats(a)
    ensures multiset(a)[x] == if x in a then 1 else 0
  {
    if a != [] {
      OneCopy(a[1..], x);
      assert a == [a[0]] + a[1..];
      assert a[0] !in a[1..];
    }
  }

  lemma SameRowsSameBooks(a: Orders, b: Orders)
    requires a.BooksMatch() && b.BooksMatch() && a.rows == b.rows
    ensures SameBooks(a.books, b.books)
  {
    forall m, isLong | 0 <= m < MARKET_COUNT
      ensures SameLevels(a.books[m].Side(isLong), b.books[m].Side(isLong))
    {
      var x, y := a.books[m].Side(isLong), b.books[m].Side(isLong);
      assert a.SideMatches(m, isLong, x) && b.SideMatches(m, isLong, y);
      PricesAreLevels(a, m, isLong, x);
      PricesAreLevels(b, m, isLong, y);
      forall p
        ensures p in x <==> p in y
      {
        assert forall id :: a.Resting(m, isLong, p, id) <==> b.Resting(m, isLong, p, id);
        assert HasPrice(a, m, isLong, p) <==> HasPrice(b, m, isLong, p);
      }
      forall p | p in x
        ensures multiset(x[p]) == multiset(y[p])
      {
        forall id
          ensures id in x[p] <==> id in y[p]
        {
          assert a.Resting(m, isLong, p, id) <==> b.Resting(m, isLong, p, id);
        }
        NoRepeatsMultiset(x[p], y[p]);
      }
    }
    forall m | 0 <= m < |a.books|
      ensures SameLevels(a.books[m].bids, b.books[m].bids) && SameLevels(a.books[m].asks, b.books[m].asks)
    {
      assert SameLevels(a.books[m].Side(true), b.books[m].Side(true));
      assert SameLevels(a.books[m].Side(false), b.books[m].Side(false));
    }
  }

  function InsertAll(t: Orders, os: seq<Order>): Orders
    decreases |os|
  {
    if os == [] then t else InsertAll(t, os[..|os| - 1]).Insert(os[|os| - 1])
  }

  lemma {:induction false} InsertAllRows(os: seq<Order>)
    requires DistinctKeys(os, OrderKey)
    ensures InsertAll(NO_ORDERS, os).Consistent()
    ensures InsertAll(NO_ORDERS, os).rows == Collect(os, OrderKey)
    decreases |os|
  {
    if os != [] {
      var init := os[..|os| - 1];
      InsertAllRows(init);
      CollectRows(init, OrderKey);
      assert forall i :: 0 <= i < |init| ==> OrderKey(init[i]) != OrderKey(os[|init|]);
      InsertConsistent(InsertAll(NO_ORDERS, init), os[|init|]);
    }
  }

  /** Listing a consistent table in any order and inserting the rows into an empty one gives back
      the orders and the user index, and the same books up to arrival order within a level. */
  lemma RestoreOrders(t: Orders, os: seq<Order>)
    requires t.Consistent()
    requires Enumerates(os, t.rows, OrderKey)
    ensures var r := InsertAll(NO_ORDERS, os);
            r.Consistent() && r.rows == t.rows && r.byUser == t.byUser && SameBooks(r.books, t.books)
  {
    CollectEnumerated(os, t.rows, OrderKey);
    InsertAllRows(os);
    var r := InsertAll(NO_ORDERS, os);
    Index.MatchesUnique(r.byUser, t.byUser, t.rows, OrderUser);
    SameRowsSameBooks(r, t);
  }

  /* ---------- the table, updated in place ---------- */

  /** Exactly the named order goes. */
  lemma RemoveTakesRow(t: Orders, id: Hash)
    ensures t.Remove(id).rows == map x | x in t.rows && x != id :: t.rows[x]
  {
  }

  /** What cancelling and executing do to the rows. */
  lemma EndsShow(t: Orders, id: Hash, price: Fixed, position: Hash, at: nat)
    ensures t.Cancel(id).rows.Keys == t.Execute(id, price, position, at).rows.Keys == t.rows.Keys
    ensures forall x :: x in t.rows && x != id ==>
              t.Cancel(id).rows[x] == t.rows[x] && t.Execute(id, price, position, at).rows[x] == t.rows[x]
    ensures id in t.rows ==>
              var c, e := t.Cancel(id).rows[id], t.Execute(id, price, position, at).rows[id];
              && c == t.rows[id].(status := Cancelled)
              && e == t.rows[id].(status := e.status, executionPrice := e.executionPrice, positionId := e.positionId,
                                  executedAt := e.executedAt)
              && e.status == Executed && e.executionPrice == Some(price) && e.positionId == Some(position)
              && e.executedAt == Some(at)
  {
  }

  class OrderTable {
    var rows: map<Hash, Order>
    var byUser: map<Address, set<Hash>>
    var books: seq<Book>

    ghost function View(): Orders
      reads this
    {
      Orders(rows, byUser, books)
    }

    constructor ()
      ensures View() == NO_ORDERS
    {
      rows, byUser := map[], map[];
      books := NoBooks();
    }

    method Insert(o: Order)
      modifies this
      ensures View() == old(View()).Insert(o)
    {
      rows := rows[o.orderId := o];
      byUser := Index.Add(byUser, o.user, o.orderId);
      if o.status == Active && o.market < |books| {
        books := books[o.market := books[o.market].Add(o.isLong, o.triggerPrice, o.orderId)];
      }
    }

    method RemoveFromOrderbook(market: nat, isLong: bool, price: Fixed, id: Hash)
      modifies this`books
      ensures books == if market < |old(books)|
                       then old(books)[market := old(books)[market].Remove(isLong, price, id)]
                       else old(books)
    {
      if market < |books| {
        books := books[market := books[market].Remove(isLong, price, id)];
      }
    }

    method Cancel(id: Hash) returns (result: Option<Order>)
      modifies this
      ensures View() == old(View()).Cancel(id)
      ensures result == if id in old(rows) then Some(rows[id]) else None
    {
      if id !in rows {
        return None;
      }
      var previous := rows[id];
      rows := rows[id := previous.(status := Cancelled)];
      result := Some(rows[id]);
      if previous.status == Active {
        RemoveFromOrderbook(previous.market, previous.isLong, previous.triggerPrice, id);
      }
    }

    method Execute(id: Hash, price: Fixed, position: Hash, at: nat) returns (result: Option<Order>)
      modifies this
      ensures View() == old(View()).Execute(id, price, position, at)
      ensures result == if id in old(rows) then Some(rows[id]) else None
    {
      if id !in rows {
        return None;
      }
      var previous := rows[id];
      rows := rows[id := previous.(status := Executed, executionPrice := Some(price),
                                   positionId := Some(position), executedAt := Some(at))];
      result := Some(rows[id]);
      if previous.status == Active {
        RemoveFromOrderbook(previous.market, previous.isLong, previous.triggerPrice, id);
      }
    }

    method Remove(id: Hash) returns (removed: Option<Order>)
      modifies this
      ensures View() == old(View()).Remove(id)
      ensures removed == if id in old(rows) then Some(old(rows)[id]) else None
    {
      if id !in rows {
        return None;
      }
      var order := rows[id];
      rows := rows - {id};
      byUser := Index.Drop(byUser, order.user, id);
      if order.status == Active {
        RemoveFromOrderbook(order.market, order.isLong, order.triggerPrice, id);
      }
      removed := Some(order);
    }
  }
}
