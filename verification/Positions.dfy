/** The position table of `src/state/positions.rs`: a primary map and two index sets. */
module PositionStore {
  import opened Collections
  import opened Types
  import Index

  function PositionKey(p: Position): Hash { p.positionId }
  function PositionUser(p: Position): Address { p.user }
  function PositionMarket(p: Position): nat { p.market }

  datatype Positions = Positions(
    rows: map<Hash, Position>, byUser: map<Address, set<Hash>>, byMarket: map<nat, set<Hash>>)
  {
    function Insert(p: Position): Positions {
      Positions(rows[p.positionId := p],
                Index.Add(byUser, p.user, p.positionId),
                Index.Add(byMarket, p.market, p.positionId))
    }

    /** Rewrite one row through a callback; a missing row is left missing. */
    function Update(id: Hash, f: Position -> Position): Positions {
      if id in rows then this.(rows := rows[id := f(rows[id])]) else this
    }

    function Remove(id: Hash): Positions {
      if id !in rows then this
      else Positions(rows - {id},
                     Index.Drop(byUser, rows[id].user, id),
                     Index.Drop(byMarket, rows[id].market, id))
    }

    /** Rows sit under their own id and both indexes equal a full scan. */
    ghost predicate Consistent() {
      && Keyed(rows, PositionKey)
      && Index.Matches(byUser, rows, PositionUser)
      && Index.Matches(byMarket, rows, PositionMarket)
    }

    /** `open_by_user`: through the user index, keeping rows that exist and are open. */
    function OpenByUser(user: Address): set<Hash> {
      set id | id in Index.Lookup(byUser, user) && id in rows && rows[id].status == Open
    }

    /** The same question answered by scanning every row. */
    function OpenScan(user: Address): set<Hash> {
      set id | id in rows && rows[id].user == user && rows[id].status == Open
    }
  }

  const NO_POSITIONS := Positions(map[], map[], map[])

  /** Insert keeps rows and indexes consistent exactly when it does not re-home an existing id. */
  lemma InsertConsistentIff(t: Positions, p: Position)
    requires t.Consistent()
    ensures t.Insert(p).Consistent() <==>
              (p.positionId in t.rows ==> t.rows[p.positionId].user == p.user
                                          && t.rows[p.positionId].market == p.market)
  {
    Index.AddMatchesIff(t.byUser, t.rows, PositionUser, p.positionId, p);
    Index.AddMatchesIff(t.byMarket, t.rows, PositionMarket, p.positionId, p);
  }

  lemma UpdateConsistent(t: Positions, id: Hash, f: Position -> Position)
    requires t.Consistent()
    requires id in t.rows ==> var p, q := t.rows[id], f(t.rows[id]);
                              q.positionId == p.positionId && q.user == p.user && q.market == p.market
    ensures t.Update(id, f).Consistent()
  {
    if id in t.rows {
      Index.UpdateMatches(t.byUser, t.rows, PositionUser, id, f(t.rows[id]));
      Index.UpdateMatches(t.byMarket, t.rows, PositionMarket, id, f(t.rows[id]));
    }
  }

  lemma RemoveConsistent(t: Positions, id: Hash)
    requires t.Consistent()
    ensures t.Remove(id).Consistent()
  {
    if id in t.rows {
      Index.DropMatches(t.byUser, t.rows, PositionUser, id);
      Index.DropMatches(t.byMarket, t.rows, PositionMarket, id);
    }
  }

  /** In a consistent table the index answers what a scan answers. */
  lemma OpenByUserIsScan(t: Positions, user: Address)
    requires t.Consistent()
    ensures t.OpenByUser(user) == t.OpenScan(user)
  {
    forall id
      ensures id in t.OpenByUser(user) <==> id in t.OpenScan(user)
    {
      assert id in Index.Lookup(t.byUser, user) <==> id in t.rows && PositionUser(t.rows[id]) == user;
    }
  }

  /** Rebuilding a table by inserting rows one after the other, as restore does. */
  function InsertAll(t: Positions, ps: seq<Position>): Positions
    decreases |ps|
  {
    if ps == [] then t else InsertAll(t, ps[..|ps| - 1]).Insert(ps[|ps| - 1])
  }

  lemma {:induction false} InsertAllRows(ps: seq<Position>)
    requires DistinctKeys(ps, PositionKey)
    ensures InsertAll(NO_POSITIONS, ps).Consistent()
    ensures InsertAll(NO_POSITIONS, ps).rows == Collect(ps, PositionKey)
    decreases |ps|
  {
    if ps != [] {
      var init := ps[..|ps| - 1];
      InsertAllRows(init);
      CollectRows(init, PositionKey);
      assert forall i :: 0 <= i < |init| ==> PositionKey(init[i]) != PositionKey(ps[|init|]);
      InsertConsistentIff(InsertAll(NO_POSITIONS, init), ps[|init|]);
    }
  }

  /** Listing a consistent table in any order and inserting the rows into an empty one gives
      back the same table, indexes included. */
  lemma RestorePositions(t: Positions, ps: seq<Position>)
    requires t.Consistent()
    requires Enumerates(ps, t.rows, PositionKey)
    ensures InsertAll(NO_POSITIONS, ps) == t
  {
    CollectEnumerated(ps, t.rows, PositionKey);
    InsertAllRows(ps);
    var r := InsertAll(NO_POSITIONS, ps);
    Index.MatchesUnique(r.byUser, t.byUser, t.rows, PositionUser);
    Index.MatchesUnique(r.byMarket, t.byMarket, t.rows, PositionMarket);
  }

  /** Exactly the named row goes, from the table and from what both queries see. */
  lemma RemoveTakesRow(t: Positions, id: Hash)
    ensures t.Remove(id).rows == map x | x in t.rows && x != id :: t.rows[x]
  {
  }

  class PositionTable {
    var rows: map<Hash, Position>
    var byUser: map<Address, set<Hash>>
    var byMarket: map<nat, set<Hash>>

    ghost function View(): Positions
      reads this
    {
      Positions(rows, byUser, byMarket)
    }

    constructor ()
      ensures View() == NO_POSITIONS
    {
      rows, byUser, byMarket := map[], map[], map[];
    }

    method Insert(p: Position)
      modifies this
      ensures View() == old(View()).Insert(p)
    {
      rows := rows[p.positionId := p];
      byUser := Index.Add(byUser, p.user, p.positionId);
      byMarket := Index.Add(byMarket, p.market, p.positionId);
    }

    method Get(id: Hash) returns (p: Option<Position>)
      ensures p == if id in rows then Some(rows[id]) else None
    {
      p := if id in rows then Some(rows[id]) else None;
    }

    method Update(id: Hash, f: Position -> Position) returns (found: bool)
      modifies this
      ensures View() == old(View()).Update(id, f)
      ensures found <==> id in old(rows)
    {
      found := id in rows;
      if found {
        rows := rows[id := f(rows[id])];
      }
    }

    method Remove(id: Hash) returns (removed: Option<Position>)
      modifies this
      ensures View() == old(View()).Remove(id)
      ensures removed == if id in old(rows) then Some(old(rows)[id]) else None
    {
      if id !in rows {
        return None;
      }
      var p := rows[id];
      rows := rows - {id};
      byUser := Index.Drop(byUser, p.user, id);
      byMarket := Index.Drop(byMarket, p.market, id);
      removed := Some(p);
    }
  }
}
