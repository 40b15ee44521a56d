/** The balance cache of `src/state/balances.rs`: balances by (user, token) and each user's tokens. */
module BalanceStore {
  import opened Collections
  import opened Types
  import Index

  function BalanceKey(b: Balance): (Address, Address) { (b.user, b.token) }

  datatype Balances = Balances(rows: map<(Address, Address), Balance>, tokens: map<Address, set<Address>>)
  {
    function Set(b: Balance): Balances {
      Balances(rows[(b.user, b.token) := b], Index.Add(tokens, b.user, b.token))
    }

    function Get(user: Address, token: Address): Option<Balance> {
      if (user, token) in rows then Some(rows[(user, token)]) else None
    }

    function Remove(user: Address, token: Address): Balances {
      if (user, token) !in rows then this
      else Balances(rows - {(user, token)}, Index.Drop(tokens, user, token))
    }

    /** The token index lists exactly the tokens with an entry, and keeps no empty set. */
    ghost predicate TokensMatch() {
      && (forall u, k :: k in Index.Lookup(tokens, u) <==> (u, k) in rows)
      && (forall u :: u in tokens ==> tokens[u] != {})
    }

    ghost predicate Consistent() {
      Keyed(rows, BalanceKey) && TokensMatch()
    }
  }

  const NO_BALANCES := Balances(map[], map[])

  lemma SetConsistent(t: Balances, b: Balance)
    requires t.Consistent()
    ensures t.Set(b).Consistent()
  {
    var u := t.Set(b);
    forall x, k
      ensures k in Index.Lookup(u.tokens, x) <==> (x, k) in u.rows
    {
      assert k in Index.Lookup(t.tokens, x) <==> (x, k) in t.rows;
    }
  }

  lemma RemoveConsistent(t: Balances, user: Address, token: Address)
    requires t.Consistent()
    ensures t.Remove(user, token).Consistent()
  {
    var u := t.Remove(user, token);
    forall x, k
      ensures k in Index.Lookup(u.tokens, x) <==> (x, k) in u.rows
    {
      assert k in Index.Lookup(t.tokens, x) <==> (x, k) in t.rows;
    }
  }

  /** Exactly the named balance goes. */
  lemma RemoveTakesRow(t: Balances, user: Address, token: Address)
    ensures t.Remove(user, token).rows == map k | k in t.rows && k != (user, token) :: t.rows[k]
  {
  }

  lemma TokensUnique(a: Balances, b: Balances)
    requires a.TokensMatch() && b.TokensMatch() && a.rows == b.rows
    ensures a == b
  {
    forall u
      ensures Index.Lookup(a.tokens, u) == Index.Lookup(b.tokens, u)
    {
      forall k
        ensures k in Index.Lookup(a.tokens, u) <==> k in Index.Lookup(b.tokens, u)
      {
        assert k in Index.Lookup(a.tokens, u) <==> (u, k) in a.rows;
        assert k in Index.Lookup(b.tokens, u) <==> (u, k) in b.rows;
      }
    }
    forall u
      ensures u in a.tokens <==> u in b.tokens
      ensures u in a.tokens ==> a.tokens[u] == b.tokens[u]
    {
      assert Index.Lookup(a.tokens, u) == Index.Lookup(b.tokens, u);
    }
    assert a.tokens == b.tokens;
  }

  function SetAll(t: Balances, bs: seq<Balance>): Balances
    decreases |bs|
  {
    if bs == [] then t else SetAll(t, bs[..|bs| - 1]).Set(bs[|bs| - 1])
  }

  lemma {:induction false} SetAllRows(bs: seq<Balance>)
    ensures SetAll(NO_BALANCES, bs).Consistent()
    ensures SetAll(NO_BALANCES, bs).rows == Collect(bs, BalanceKey)
    decreases |bs|
  {
    if bs != [] {
      SetAllRows(bs[..|bs| - 1]);
      SetConsistent(SetAll(NO_BALANCES, bs[..|bs| - 1]), bs[|bs| - 1]);
    }
  }

  lemma RestoreBalances(t: Balances, bs: seq<Balance>)
    requires t.Consistent()
    requires Enumerates(bs, t.rows, BalanceKey)
    ensures SetAll(NO_BALANCES, bs) == t
  {
    CollectEnumerated(bs, t.rows, BalanceKey);
    SetAllRows(bs);
    TokensUnique(SetAll(NO_BALANCES, bs), t);
  }

  class BalanceCache {
    var rows: map<(Address, Address), Balance>
    var tokens: map<Address, set<Address>>

    ghost function View(): Balances
      reads this
    {
      Balances(rows, tokens)
    }

    constructor ()
      ensures View() == NO_BALANCES
    {
      rows, tokens := map[], map[];
    }

    method Set(b: Balance)
      modifies this
      ensures View() == old(View()).Set(b)
    {
      tokens := Index.Add(tokens, b.user, b.token);
      rows := rows[(b.user, b.token) := b];
    }

    method Get(user: Address, token: Address) returns (b: Option<Balance>)
      ensures b == View().Get(user, token)
    {
      b := if (user, token) in rows then Some(rows[(user, token)]) else None;
    }

    method Remove(user: Address, token: Address) returns (removed: Option<Balance>)
      modifies this
      ensures View() == old(View()).Remove(user, token) && removed == old(View()).Get(user, token)
    {
      if (user, token) !in rows {
        return None;
      }
      removed := Some(rows[(user, token)]);
      rows := rows - {(user, token)};
      tokens := Index.Drop(tokens, user, token);
    }
  }
}

/** The user store of `src/relational/users.rs`, as events and restore reach it. */
module UserStore {
  import opened Collections
  import opened Types

  type Users = map<Address, User>

  function UserKey(u: User): Address { u.address }

  function WithUser(us: Users, address: Address, now: nat): Users {
    var u := if address in us then us[address]
             else User(address, None, None, None, "bronze", 0, now, None, Some(now));
    us[address := u.(lastActiveAt := Some(now))]
  }

  function WithVault(us: Users, address: Address, vault: Address): Users {
    if address in us then us[address := us[address].(vaultAddress := Some(vault))] else us
  }

  class UserTable {
    var rows: Users

    constructor ()
      ensures rows == map[]
    {
      rows := map[];
    }

    method Upsert(u: User)
      modifies this
      ensures rows == old(rows)[u.address := u]
    {
      rows := rows[u.address := u];
    }

    method Ensure(address: Address, now: nat)
      modifies this
      ensures rows == WithUser(old(rows), address, now)
    {
      if address !in rows {
        rows := rows[address := User(address, None, None, None, "bronze", 0, now, None, Some(now))];
      }
      rows := rows[address := rows[address].(lastActiveAt := Some(now))];
    }

    method SetVault(address: Address, vault: Address)
      modifies this
      ensures rows == WithVault(old(rows), address, vault)
    {
      if address in rows {
        rows := rows[address := rows[address].(vaultAddress := Some(vault))];
      }
    }
  }
}

/** The event log of `src/storage/event_store.rs`: two partition maps and a counter. */
module EventLogStore {
  import opened Collections
  import opened Types

  datatype EventLog = EventLog(
    byMarket: map<nat, seq<IndexedEvent>>, byTrader: map<Address, seq<IndexedEvent>>, total: nat)
  {
    function Append(e: IndexedEvent, market: Option<nat>, trader: Option<Address>): EventLog {
      EventLog(if market.Some? then Push(byMarket, market.value, e) else byMarket,
               if trader.Some? then Push(byTrader, trader.value, e) else byTrader,
               total + 1)
    }
  }

  const NO_EVENTS := EventLog(map[], map[], 0)

  function Push<K>(m: map<K, seq<IndexedEvent>>, k: K, e: IndexedEvent): map<K, seq<IndexedEvent>> {
    m[k := (if k in m then m[k] else []) + [e]]
  }

  class EventTable {
    var byMarket: map<nat, seq<IndexedEvent>>
    var byTrader: map<Address, seq<IndexedEvent>>
    var total: nat

    ghost function View(): EventLog
      reads this
    {
      EventLog(byMarket, byTrader, total)
    }

    constructor ()
      ensures View() == NO_EVENTS
    {
      byMarket, byTrader, total := map[], map[], 0;
    }

    method Append(e: IndexedEvent, market: Option<nat>, trader: Option<Address>)
      modifies this
      ensures View() == old(View()).Append(e, market, trader)
    {
      if market.Some? {
        byMarket := Push(byMarket, market.value, e);
      }
      if trader.Some? {
        byTrader := Push(byTrader, trader.value, e);
      }
      total := total + 1;
    }
  }
}

/** The indexer checkpoint of `src/relational/checkpoint.rs`. */
module CheckpointStore {
  datatype Checkpoint = Checkpoint(lastBlock: nat, lastBlockHash: string, lastBlockTimestamp: nat)

  const NO_CHECKPOINT := Checkpoint(0, "", 0)

  class CheckpointCell {
    var cp: Checkpoint

    constructor ()
      ensures cp == NO_CHECKPOINT
    {
      cp := NO_CHECKPOINT;
    }

    method Save(block: nat, hash: string, timestamp: nat)
      modifies this
      ensures cp == Checkpoint(block, hash, timestamp)
    {
      cp := Checkpoint(block, hash, timestamp);
    }

    method AdvanceBlock(block: nat)
      modifies this
      ensures cp == old(cp).(lastBlock := block)
    {
      cp := cp.(lastBlock := block);
    }
  }
}
