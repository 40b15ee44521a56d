/** Recovery over any number of sessions: open, make calls, snapshot, crash, and open again.  The
    state a session starts from is itself a recovered one. */
module Sessions {
  import opened Collections
  import opened Types
  import opened PositionStore
  import opened OrderStore
  import opened Engine
  import opened Recovery
  import opened Snapshots
  import Index

  /* ---------- agreement carries the invariant ---------- */

  lemma ConsistentPositions(a: Positions, b: Positions, dirty: set<Hash>)
    requires SamePositions(a, b, dirty) && a.Consistent()
    ensures b.Consistent()
  {
    forall id | id in b.rows
      ensures PositionKey(b.rows[id]) == id
      ensures PositionUser(b.rows[id]) == PositionUser(a.rows[id]) && PositionMarket(b.rows[id]) == PositionMarket(a.rows[id])
    {
      SameIdentity(a.rows[id], b.rows[id]);
    }
    SameMatches(a.byUser, a.rows, b.rows, PositionUser);
    SameMatches(a.byMarket, a.rows, b.rows, PositionMarket);
  }

  lemma SameIdentity(p: Position, q: Position)
    requires Core(p) == Core(q)
    ensures PositionKey(p) == PositionKey(q) && PositionUser(p) == PositionUser(q) && PositionMarket(p) == PositionMarket(q)
  {
    assert PositionKey(p) == PositionKey(Core(p)) && PositionUser(p) == PositionUser(Core(p));
    assert PositionMarket(p) == PositionMarket(Core(p)) && PositionMarket(q) == PositionMarket(Core(q));
    assert PositionKey(q) == PositionKey(Core(q)) && PositionUser(q) == PositionUser(Core(q));
  }

  lemma SameMatches<K(!new)>(ix: map<K, set<Hash>>, a: map<Hash, Position>, b: map<Hash, Position>, key: Position -> K)
    requires Index.Matches(ix, a, key) && a.Keys == b.Keys && forall id :: id in a ==> key(a[id]) == key(b[id])
    ensures Index.Matches(ix, b, key)
  {
    forall k, id
      ensures id in Index.Lookup(ix, k) <==> id in b && key(b[id]) == k
    {
      assert id in Index.Lookup(ix, k) <==> id in a && key(a[id]) == k;
      assert id in a.Keys <==> id in b.Keys;
    }
  }

  lemma StillNoRepeats(a: seq<Hash>, b: seq<Hash>)
    requires NoRepeats(a) && multiset(a) == multiset(b)
    ensures NoRepeats(b)
  {
    forall i, j | 0 <= i < j < |b|
      ensures b[i] != b[j]
    {
      if b[i] == b[j] {
        var x, front, back := b[j], b[..j], b[j..];
        assert b == front + back;
        assert front[i] == x && back[0] == x;
        assert multiset(b)[x] == multiset(front)[x] + multiset(back)[x] >= 2;
        OneCopy(a, x);
      }
    }
  }

  lemma SameSide(a: Orders, b: Orders, m: nat, isLong: bool, x: Levels, y: Levels)
    requires a.rows == b.rows && a.SideMatches(m, isLong, x) && SameLevels(x, y)
    ensures b.SideMatches(m, isLong, y)
  {
    forall p, id
      ensures p in y && id in y[p] <==> b.Resting(m, isLong, p, id)
    {
      assert p in x && id in x[p] <==> a.Resting(m, isLong, p, id);
      if p in x {
        assert id in multiset(x[p]) <==> id in multiset(y[p]);
      }
    }
    forall p | p in y
      ensures y[p] != [] && NoRepeats(y[p])
    {
      StillNoRepeats(x[p], y[p]);
      assert |multiset(x[p])| == |x[p]| && |multiset(y[p])| == |y[p]|;
    }
  }

  lemma ConsistentOrders(a: Orders, b: Orders)
    requires SameOrders(a, b) && a.Consistent()
    ensures b.Consistent()
  {
    hide Orders.SideMatches, SameLevels;
    forall m, isLong | 0 <= m < MARKET_COUNT
      ensures b.SideMatches(m, isLong, b.books[m].Side(isLong))
    {
      assert a.SideMatches(m, isLong, a.books[m].Side(isLong));
      SameSide(a, b, m, isLong, a.books[m].Side(isLong), b.books[m].Side(isLong));
    }
  }

  /** What agrees with a consistent state is consistent. */
  lemma InvAgree(a: State, b: State, dirty: set<Hash>)
    requires Inv(a) && Agree(a, b, dirty, false)
    ensures Inv(b)
  {
    hide Positions.Consistent, Orders.Consistent, SamePositions, SameOrders;
    ConsistentPositions(a.positions, b.positions, dirty);
    ConsistentOrders(a.orders, b.orders);
  }

  lemma FreshAgree(a: State, b: State, dirty: set<Hash>, ie: IndexedEvent)
    requires Agree(a, b, dirty, false)
    ensures FreshIds(a, ie) <==> FreshIds(b, ie)
  {
    hide Core;
    if ie.event.PositionOpened? && ie.event.positionId in a.positions.rows {
      SameIdentity(a.positions.rows[ie.event.positionId], b.positions.rows[ie.event.positionId]);
    }
  }

  lemma PricesAgree(a: State, b: State, dirty: set<Hash>, m: nat)
    requires Agree(a, b, dirty, false) && m < |a.markets|
    ensures m < |b.markets| && b.markets[m].price == a.markets[m].price && b.markets[m].lastUpdateNs == a.markets[m].lastUpdateNs
  {
    assert WithoutOi(a.markets[m]) == WithoutOi(b.markets[m]);
    assert WithoutOi(a.markets[m]).price == a.markets[m].price && WithoutOi(b.markets[m]).price == b.markets[m].price;
    assert WithoutOi(a.markets[m]).lastUpdateNs == a.markets[m].lastUpdateNs;
  }

  /* ---------- one recovery ---------- */

  /** `s` is a state some session was in after the calls `pre`: it agrees with the engine that made
      all of them without ever stopping. */
  ghost predicate Reached(s: State, pre: seq<WalEntry>) {
    && AllWritten(pre) && FreshRun(Empty(), pre)
    && Agree(LiveRun(Empty(), pre), s, Dirty(pre), false)
  }

  lemma ReachedInv(s: State, pre: seq<WalEntry>)
    requires Reached(s, pre)
    ensures Inv(s)
  {
    hide Inv, Agree, FreshRun, LiveRun;
    InvEmpty();
    InvRun(Empty(), pre);
    InvAgree(LiveRun(Empty(), pre), s, Dirty(pre));
  }

  lemma ReachedTicks(s: State, pre: seq<WalEntry>, k: nat, m: nat)
    requires Reached(s, pre) && k <= |pre| && m < |s.markets|
    ensures ShowsLastTick(s.markets[m], pre[k..], m)
  {
    hide LiveRun, LastTick;
    ReachedInv(s, pre);
    LiveShowsLastTick(Empty(), pre, m);
    LastTickOfSuffix(pre, k, m);
    PricesAgree(LiveRun(Empty(), pre), s, Dirty(pre), m);
  }

  /** The recovered state `rec` agrees with the session that was in state `s` after the calls `pre`,
      run on over the calls `post`, and with the engine that never stopped. */
  ghost predicate RecoversTo(rec: State, s: State, pre: seq<WalEntry>, post: seq<WalEntry>) {
    && AllWritten(pre) && AllWritten(post)
    && Agree(LiveRun(s, post), rec, Dirty(post), false)
    && Agree(LiveRun(Empty(), pre + post), rec, Dirty(pre + post), false)
  }

  /** A snapshot of a reached state, restored and followed by the log from anywhere before it on,
      agrees with the session that took it and with the engine that never stopped. */
  lemma RecoverSaved(s: State, snap: StateSnapshot, addresses: seq<Address>, pre: seq<WalEntry>, k: nat, post: seq<WalEntry>)
    requires Reached(s, pre) && IsSnapshot(s, snap, addresses) && FewDays(s) && k <= |pre| && AllWritten(post)
    requires BlocksUpTo(pre, s.checkpoint.lastBlock) && BlocksAbove(post, s.checkpoint.lastBlock)
    ensures RecoversTo(ReplayRun(Restore(snap), snap.checkpoint.lastBlock, pre[k..] + post), s, pre, post)
  {
    hide Inv, FewDays, Restore, LiveRun, ReplayRun, LastTick, ShowsLastTick, FreshRun, IsSnapshot, Dirty;
    var rec, ideal := ReplayRun(Restore(snap), snap.checkpoint.lastBlock, pre[k..] + post), LiveRun(Empty(), pre);
    ReachedInv(s, pre);
    forall m | 0 <= m < |s.markets|
      ensures ShowsLastTick(s.markets[m], pre[k..], m)
    {
      ReachedTicks(s, pre, k, m);
    }
    assert forall i :: 0 <= i < |pre[k..]| ==> pre[k..][i] == pre[k + i];
    RecoverFrom(s, snap, addresses, pre[k..], post);
    hide Agree;
    LiveRunConcat(Empty(), pre, post);
    AgreeLiveRun(ideal, s, post, Dirty(pre), false);
    DirtyConcat(pre, post);
    AgreeTrans(LiveRun(ideal, post), LiveRun(s, post), rec, Dirty(pre) + Dirty(post), Dirty(post), false);
    assert Dirty(pre) + Dirty(post) + Dirty(post) == Dirty(pre) + Dirty(post);
  }

  /* ---------- any number of sessions ---------- */

  /** The calls in the log, the live engine, and the latest snapshot with the state it was taken of
      and the number of calls it covers. */
  datatype Sys = Sys(log: seq<WalEntry>, live: State, snap: Option<StateSnapshot>, saved: State, covered: nat)

  /** A crash and the next `open`: the first `n` calls survive in the log, of which the first `from`
      may have been truncated away. */
  datatype Step =
    | Call(entry: WalEntry)
    | Save(snap: StateSnapshot, addresses: seq<Address>)
    | Crash(from: nat, n: nat)

  function Start(): Sys {
    Sys([], Empty(), None, Empty(), 0)
  }

  function SnapBlock(s: Sys): nat {
    if s.snap.Some? then s.snap.value.checkpoint.lastBlock else 0
  }

  ghost predicate Next(s: Sys, step: Step, t: Sys) {
    match step
    case Call(entry) =>
      && Written(entry)
      && (entry.EventEntry? ==> FreshIds(s.live, entry.indexed) && entry.indexed.blockNumber > SnapBlock(s))
      && t == s.(log := s.log + [entry], live := LiveEntry(s.live, entry))
    case Save(snap, addresses) =>
      && IsSnapshot(s.live, snap, addresses) && FewDays(s.live) && BlocksUpTo(s.log, s.live.checkpoint.lastBlock)
      && t == s.(snap := Some(snap), saved := s.live, covered := |s.log|)
    case Crash(from, n) =>
      && from <= s.covered <= n <= |s.log|
      && t == s.(log := s.log[..n],
                 live := if s.snap.None? then ReplayRun(Empty(), 0, s.log[..n])
                         else ReplayRun(Restore(s.snap.value), SnapBlock(s), s.log[from..n]))
  }

  ghost predicate SavedOk(s: Sys) {
    && s.covered <= |s.log|
    && BlocksAbove(s.log[s.covered..], SnapBlock(s))
    && if s.snap.None? then s.covered == 0
       else && Reached(s.saved, s.log[..s.covered]) && FewDays(s.saved)
            && BlocksUpTo(s.log[..s.covered], s.saved.checkpoint.lastBlock)
            && exists addresses :: IsSnapshot(s.saved, s.snap.value, addresses)
  }

  ghost predicate Ok(s: Sys) {
    Reached(s.live, s.log) && SavedOk(s)
  }

  lemma FreshPrefix(log: seq<WalEntry>, n: nat)
    requires AllWritten(log) && FreshRun(Empty(), log) && n <= |log|
    ensures AllWritten(log[..n]) && FreshRun(Empty(), log[..n])
  {
    hide FreshIds, LiveRun;
    forall k | 0 <= k < n && log[..n][k].EventEntry?
      ensures FreshIds(LiveRun(Empty(), log[..n][..k]), log[..n][k].indexed)
    {
      assert log[..n][..k] == log[..k] && log[..n][k] == log[k];
    }
  }

  lemma CallReached(s: State, log: seq<WalEntry>, entry: WalEntry)
    requires Reached(s, log) && Written(entry) && (entry.EventEntry? ==> FreshIds(s, entry.indexed))
    ensures Reached(LiveEntry(s, entry), log + [entry])
  {
    hide Agree, LiveEntry, FreshIds;
    var more, ideal := log + [entry], LiveRun(Empty(), log);
    assert more[..|log|] == log;
    forall k | 0 <= k < |more| && more[k].EventEntry?
      ensures FreshIds(LiveRun(Empty(), more[..k]), more[k].indexed)
    {
      if k < |log| {
        assert more[..k] == log[..k] && more[k] == log[k];
      } else {
        FreshAgree(ideal, s, Dirty(log), entry.indexed);
      }
    }
    AgreeLiveEntry(ideal, s, entry, Dirty(log));
    DirtyConcat(log, [entry]);
  }

  lemma LiveRunOne(s: State, entry: WalEntry)
    requires Written(entry)
    ensures AllWritten([entry]) && LiveRun(s, [entry]) == LiveEntry(s, entry)
  {
    hide LiveEntry;
    assert [entry][..0] == [];
  }

  lemma AgreeLiveEntry(a: State, b: State, entry: WalEntry, dirty: set<Hash>)
    requires Agree(a, b, dirty, false) && Written(entry)
    ensures Agree(LiveEntry(a, entry), LiveEntry(b, entry), dirty + Dirty([entry]), false)
  {
    hide Agree, LiveRun, LiveEntry;
    LiveRunOne(a, entry);
    LiveRunOne(b, entry);
    AgreeLiveRun(a, b, [entry], dirty, false);
  }

  lemma CallKeeps(s: Sys, entry: WalEntry, t: Sys)
    requires Ok(s) && Next(s, Call(entry), t)
    ensures Ok(t)
  {
    hide Reached, FewDays, IsSnapshot, LiveEntry;
    CallReached(s.live, s.log, entry);
    assert t.log[..t.covered] == s.log[..s.covered];
    assert t.log[t.covered..] == s.log[s.covered..] + [entry];
  }

  lemma SaveKeeps(s: Sys, snap: StateSnapshot, addresses: seq<Address>, t: Sys)
    requires Ok(s) && Next(s, Save(snap, addresses), t)
    ensures Ok(t)
  {
    hide Reached, FewDays;
    assert s.log[..|s.log|] == s.log && s.log[|s.log|..] == [];
    assert IsSnapshot(t.saved, t.snap.value, addresses);
  }

  lemma CrashReached(s: Sys, from: nat, n: nat, t: Sys)
    requires Ok(s) && Next(s, Crash(from, n), t)
    ensures Reached(t.live, t.log)
  {
    hide Agree, FewDays, IsSnapshot, LiveRun, ReplayRun, Restore, FreshRun, Dirty;
    var log, c := s.log[..n], s.covered;
    FreshPrefix(s.log, n);
    if s.snap.None? {
      assert forall i :: 0 <= i < n ==> log[i] == s.log[s.covered..][i];
      RecoverFresh(log);
    } else {
      var pre, post := s.log[..c], s.log[c..n];
      var addresses :| IsSnapshot(s.saved, s.snap.value, addresses);
      assert forall i :: 0 <= i < |post| ==> post[i] == s.log[c..][i];
      assert s.snap.value.checkpoint == s.saved.checkpoint by { SnapshotBlock(s.saved, s.snap.value, addresses); }
      RecoverSaved(s.saved, s.snap.value, addresses, pre, from, post);
      assert pre + post == log && pre[from..] + post == s.log[from..n];
    }
  }

  lemma SnapshotBlock(s: State, snap: StateSnapshot, addresses: seq<Address>)
    requires IsSnapshot(s, snap, addresses)
    ensures snap.checkpoint == s.checkpoint
  {
  }

  lemma RecoverFresh(log: seq<WalEntry>)
    requires AllWritten(log) && BlocksAbove(log, 0)
    ensures Agree(LiveRun(Empty(), log), ReplayRun(Empty(), 0, log), Dirty(log), false)
  {
    hide LiveRun, ReplayRun, Dirty;
    WalRecoveryIff(log);
  }

  lemma CrashKeeps(s: Sys, from: nat, n: nat, t: Sys)
    requires Ok(s) && Next(s, Crash(from, n), t)
    ensures Ok(t)
  {
    hide Reached, FewDays, IsSnapshot, ReplayRun, Restore;
    CrashReached(s, from, n, t);
    assert t.log[..t.covered] == s.log[..s.covered];
    assert forall i :: 0 <= i < |t.log[t.covered..]| ==> t.log[t.covered..][i] == s.log[s.covered..][i];
  }

  lemma NextOk(s: Sys, step: Step, t: Sys)
    requires Ok(s) && Next(s, step, t)
    ensures Ok(t)
  {
    hide Ok, Next;
    match step {
      case Call(entry) => CallKeeps(s, entry, t);
      case Save(snap, addresses) => SaveKeeps(s, snap, addresses, t);
      case Crash(from, n) => CrashKeeps(s, from, n, t);
    }
  }

  lemma StartOk()
    ensures Ok(Start())
  {
    AgreeSelf(Empty());
    assert LiveRun(Empty(), []) == Empty() && Dirty([]) == {};
  }

  ghost predicate IsRun(states: seq<Sys>, steps: seq<Step>) {
    && |states| == |steps| + 1 && states[0] == Start()
    && forall i :: 0 <= i < |steps| ==> Next(states[i], steps[i], states[i + 1])
  }

  lemma {:induction false} RunOk(states: seq<Sys>, steps: seq<Step>, k: nat)
    requires IsRun(states, steps) && k < |states|
    ensures Ok(states[k])
  {
    hide Ok, Next;
    if k == 0 {
      StartOk();
    } else {
      RunOk(states, steps, k - 1);
      NextOk(states[k - 1], steps[k - 1], states[k]);
    }
  }

  /** Over any number of sessions of calls, snapshots, crashes and openings, at every moment, the
      live engine agrees with one that made the surviving calls without ever stopping, and its
      indexes and books equal a scan. */
  lemma EverySessionAgrees(states: seq<Sys>, steps: seq<Step>, k: nat)
    requires IsRun(states, steps) && k < |states|
    ensures AllWritten(states[k].log)
    ensures Agree(LiveRun(Empty(), states[k].log), states[k].live, Dirty(states[k].log), false)
    ensures Inv(states[k].live)
  {
    hide Agree, Inv, LiveRun, SavedOk, FreshRun;
    RunOk(states, steps, k);
    ReachedInv(states[k].live, states[k].log);
  }
}
