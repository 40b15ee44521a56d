/** The buffered, syncing and rotating writer of `src/storage/wal.rs` as a crash protocol. */
module WalProtocol {
  import opened Collections
  import opened Bytes
  import opened Wal

  /** A segment file: what the operating system holds, and how much of it is known to be on disk. */
  datatype File = File(content: seq<byte>, synced: nat)

  /** When an append syncs.  The elapsed time of `Interval` is a choice of the environment. */
  datatype SyncPolicy = EveryWrite | Interval | Never

  datatype Config = Config(maxSegment: nat, policy: SyncPolicy)

  const BUFFER_CAPACITY := 64 * 1024

  datatype Writer = Writer(config: Config, segs: map<int, File>, cur: int, buffer: seq<byte>, segBytes: nat)
  {
    predicate Valid() {
      && cur in segs && (forall id :: id in segs ==> id <= cur && segs[id].synced <= |segs[id].content|)
      && (forall id :: id in segs && id != cur ==> segs[id].synced == |segs[id].content|)
    }

    /** Everything written to the current segment, buffered bytes included. */
    function Written(): seq<byte>
      requires cur in segs
    {
      segs[cur].content + buffer
    }

    function Flush(): Writer
      requires cur in segs
    {
      this.(segs := segs[cur := File(Written(), segs[cur].synced)], buffer := [])
    }

    /** `BufWriter::write_all`: flush when the data does not fit, bypass the buffer when it never
        could. */
    function WriteAll(data: seq<byte>): Writer
      requires cur in segs
    {
      var w := if |data| > BUFFER_CAPACITY - |buffer| then Flush() else this;
      if |data| >= BUFFER_CAPACITY
      then w.(segs := w.segs[cur := File(w.segs[cur].content + data, w.segs[cur].synced)])
      else w.(buffer := w.buffer + data)
    }

    function Sync(): Writer
      requires cur in segs
    {
      this.(segs := segs[cur := File(Written(), |Written()|)], buffer := [])
    }

    function Rotate(): Writer
      requires cur in segs
    {
      var w := Sync();
      w.(cur := cur + 1, segs := if cur + 1 in w.segs then w.segs else w.segs[cur + 1 := File([], 0)], segBytes := 0)
    }

    function WriteFrame<E>(c: Codec<E>, e: E): Writer
      requires cur in segs
    {
      var p := c.encode(e);
      var w := WriteAll(ToLe(|p| % U32, 4)).WriteAll(ToLe(c.crc(p), 4)).WriteAll(p);
      w.(segBytes := segBytes + HEADER + |p|)
    }

    /** Whether an append syncs before it returns. */
    predicate Syncs(elapsed: bool) {
      config.policy == EveryWrite || (config.policy == Interval && elapsed)
    }

    function Append<E>(c: Codec<E>, e: E, elapsed: bool): Writer
      requires cur in segs
    {
      var w := WriteFrame(c, e);
      var v := if Syncs(elapsed) then w.Sync() else w;
      if v.segBytes >= config.maxSegment then v.Rotate() else v
    }
  }

  /** `WalWriter::open`: continue the highest segment, or start segment 0.  Opening syncs nothing:
      of the current segment only the first `mark` bytes are known to be on disk.  The earlier ones
      were synced when the writer left them. */
  function OpenDir(config: Config, dir: map<int, seq<byte>>, mark: nat): Writer {
    var cur := if dir.Keys == {} then 0 else Greatest(dir.Keys);
    var files := map id | id in dir :: Found(dir[id], if id == cur then mark else |dir[id]|);
    var segs := if cur in files then files else files[cur := File([], 0)];
    Writer(config, segs, cur, [], |segs[cur].content|)
  }

  /** A file found on opening, of which `mark` bytes, as far as there are so many, are on disk. */
  function Found(content: seq<byte>, mark: nat): File {
    File(content, if mark <= |content| then mark else |content|)
  }

  /* ---------- the writer against its history ---------- */

  /** A writer together with the entries each segment has received, and how many of the current
      segment's entries are known to be on disk. */
  datatype Hist<!E> = Hist(w: Writer, ents: map<int, seq<E>>, durable: nat)

  /** Every byte belongs to a whole frame; only the current segment may hold unsynced bytes. */
  ghost predicate Inv<E>(c: Codec<E>, h: Hist<E>) {
    && h.w.Valid() && h.ents.Keys == h.w.segs.Keys
    && (forall id :: id in h.ents && id != h.w.cur ==> h.w.segs[id].content == Frames(c, h.ents[id]))
    && h.w.Written() == Frames(c, h.ents[h.w.cur])
    && h.w.segBytes == |Frames(c, h.ents[h.w.cur])|
    && h.durable <= |h.ents[h.w.cur]|
    && |Frames(c, h.ents[h.w.cur][..h.durable])| <= h.w.segs[h.w.cur].synced
  }

  /** Everything appended, in order. */
  function Log<E>(h: Hist<E>): seq<E> {
    InKeyOrder(h.ents)
  }

  /** How many entries, from the first on, no crash can take away any more. */
  function DurableCount<E>(h: Hist<E>): int
    requires h.w.cur in h.ents
  {
    |Log(h)| - |h.ents[h.w.cur]| + h.durable
  }

  lemma WriteAllAppends(w: Writer, data: seq<byte>)
    requires w.Valid()
    ensures var v := w.WriteAll(data);
            && v.Valid() && v.Written() == w.Written() + data && v.cur == w.cur && v.config == w.config
            && v.segBytes == w.segBytes && v.segs.Keys == w.segs.Keys && v.segs[w.cur].synced == w.segs[w.cur].synced
            && forall id :: id in w.segs && id != w.cur ==> v.segs[id] == w.segs[id]
  {
  }

  lemma WriteFrameAppends<E>(w: Writer, c: Codec<E>, e: E)
    requires w.Valid()
    ensures var v := w.WriteFrame(c, e);
            && v.Valid() && v.Written() == w.Written() + Frame(c, e) && v.cur == w.cur && v.config == w.config
            && v.segBytes == w.segBytes + |Frame(c, e)|
            && v.segs.Keys == w.segs.Keys && v.segs[w.cur].synced == w.segs[w.cur].synced
            && forall id :: id in w.segs && id != w.cur ==> v.segs[id] == w.segs[id]
  {
    hide Writer.WriteAll, ToLe;
    var p := c.encode(e);
    var len, crc := ToLe(|p| % U32, 4), ToLe(c.crc(p), 4);
    var w1 := w.WriteAll(len);
    WriteAllAppends(w, len);
    var w2 := w1.WriteAll(crc);
    WriteAllAppends(w1, crc);
    WriteAllAppends(w2, p);
    assert w.Written() + len + crc + p == w.Written() + Frame(c, e);
  }

  /* One step of the history for each thing the writer does. */

  function HistWrite<E>(c: Codec<E>, h: Hist<E>, e: E): Hist<E>
    requires h.w.cur in h.w.segs && h.w.cur in h.ents
  {
    Hist(h.w.WriteFrame(c, e), h.ents[h.w.cur := h.ents[h.w.cur] + [e]], h.durable)
  }

  function HistSync<E>(h: Hist<E>): Hist<E>
    requires h.w.cur in h.w.segs && h.w.cur in h.ents
  {
    Hist(h.w.Sync(), h.ents, |h.ents[h.w.cur]|)
  }

  function HistRotate<E>(h: Hist<E>): Hist<E>
    requires h.w.cur in h.w.segs
  {
    Hist(h.w.Rotate(), h.ents[h.w.cur + 1 := []], 0)
  }

  lemma WriteKeeps<E>(c: Codec<E>, h: Hist<E>, e: E)
    requires Inv(c, h)
    ensures var g := HistWrite(c, h, e);
            && Inv(c, g) && g.w.cur == h.w.cur && g.w.config == h.w.config
            && Log(g) == Log(h) + [e] && DurableCount(g) == DurableCount(h)
  {
    hide Writer.WriteFrame, InKeyOrder, Frame;
    var g, cur := HistWrite(c, h, e), h.w.cur;
    WriteFrameAppends(h.w, c, e);
    FramesSnoc(c, h.ents[cur], e);
    assert g.ents[cur][..g.durable] == h.ents[cur][..h.durable];
    LastInKeyOrder(h.ents, cur);
    LastInKeyOrder(g.ents, cur);
    assert g.ents - {cur} == h.ents - {cur};
  }

  lemma SyncKeeps<E>(c: Codec<E>, h: Hist<E>)
    requires Inv(c, h)
    ensures var g := HistSync(h);
            && Inv(c, g) && g.w.cur == h.w.cur && g.w.config == h.w.config
            && Log(g) == Log(h) && DurableCount(g) == |Log(h)| && DurableCount(h) <= |Log(h)|
  {
    var cur := h.w.cur;
    assert h.ents[cur][..|h.ents[cur]|] == h.ents[cur];
    assert HistSync(h).w.Written() == h.w.Written();
  }

  lemma RotateWriter(w: Writer)
    requires w.Valid()
    ensures var v := w.Rotate();
            && v.Valid() && v.cur == w.cur + 1 && v.config == w.config && v.segs.Keys == w.segs.Keys + {w.cur + 1}
            && v.Written() == [] && v.segBytes == 0 && v.segs[v.cur].synced == 0 && v.segs[w.cur].content == w.Written()
            && forall id :: id in w.segs && id != w.cur ==> v.segs[id] == w.segs[id]
  {
    assert w.cur + 1 !in w.segs;
  }

  lemma RotateKeeps<E>(c: Codec<E>, h: Hist<E>)
    requires Inv(c, h)
    ensures var g := HistRotate(h);
            Inv(c, g) && g.w.config == h.w.config && Log(g) == Log(h) && DurableCount(g) == |Log(h)|
  {
    hide InKeyOrder, Writer.Rotate;
    var g := HistRotate(h);
    RotateWriter(h.w);
    LastInKeyOrder(g.ents, h.w.cur + 1);
    assert g.ents - {h.w.cur + 1} == h.ents;
  }

  /** The history after one append. */
  function HistAppend<E>(c: Codec<E>, h: Hist<E>, e: E, elapsed: bool): Hist<E>
    requires h.w.cur in h.w.segs && h.w.cur in h.ents && h.w.Valid()
  {
    WriteFrameAppends(h.w, c, e);
    var g := HistWrite(c, h, e);
    var s := if h.w.Syncs(elapsed) then HistSync(g) else g;
    if s.w.segBytes >= h.w.config.maxSegment then HistRotate(s) else s
  }

  /** Every append keeps the invariant, adds exactly its entry at the end of the log, never takes
      durability away, and is durable on return if it synced. */
  lemma AppendKeeps<E>(c: Codec<E>, h: Hist<E>, e: E, elapsed: bool)
    requires Inv(c, h)
    ensures var g := HistAppend(c, h, e, elapsed);
            && g.w == h.w.Append(c, e, elapsed)
            && Inv(c, g) && g.w.config == h.w.config && Log(g) == Log(h) + [e]
            && DurableCount(h) <= DurableCount(g) <= |Log(g)|
            && (h.w.Syncs(elapsed) ==> DurableCount(g) == |Log(g)|)
  {
    hide Frames, Log, Writer.WriteFrame, Writer.Sync, Writer.Rotate;
    WriteKeeps(c, h, e);
    var g := HistWrite(c, h, e);
    SyncKeeps(c, g);
    var s := if h.w.Syncs(elapsed) then HistSync(g) else g;
    RotateKeeps(c, s);
  }

  /** Segment numbers start at 0. */
  predicate FromZero(w: Writer) {
    w.cur >= 0 && forall id :: id in w.segs ==> id >= 0
  }

  lemma AppendFromZero<E>(c: Codec<E>, h: Hist<E>, e: E, elapsed: bool)
    requires Inv(c, h) && FromZero(h.w)
    ensures FromZero(HistAppend(c, h, e, elapsed).w)
  {
    hide Frames, Writer.WriteFrame, Frame;
    WriteFrameAppends(h.w, c, e);
  }

  /** What an append leaves on disk, said on the configuration and the files.  Under `EveryWrite`, and
      under `Interval` when the interval has elapsed, nothing stays in the buffer and every byte of
      every segment is synced.  Otherwise an append that does not fill the segment syncs nothing. */
  lemma AppendSyncs<E>(c: Codec<E>, w: Writer, e: E, elapsed: bool)
    requires w.Valid()
    ensures w.config.policy == EveryWrite || (w.config.policy == Interval && elapsed) ==>
              var v := w.Append(c, e, elapsed);
              v.buffer == [] && forall id :: id in v.segs ==> v.segs[id].synced == |v.segs[id].content|
    ensures (w.config.policy == Never || (w.config.policy == Interval && !elapsed))
            && w.segBytes + HEADER + |c.encode(e)| < w.config.maxSegment ==>
              var v := w.Append(c, e, elapsed);
              v.cur == w.cur && v.cur in v.segs && v.segs[v.cur].synced == w.segs[w.cur].synced
  {
    hide Writer.WriteFrame, Frame;
    WriteFrameAppends(w, c, e);
  }

  /** When an append moves on to the next segment: exactly when the current one, this frame included,
      has reached the configured size.  What it leaves is whole on disk, and the next one is empty. */
  lemma RotatesIff<E>(c: Codec<E>, h: Hist<E>, e: E, elapsed: bool)
    requires Inv(c, h)
    ensures var w, v := h.w, h.w.Append(c, e, elapsed);
            var size := |w.segs[w.cur].content| + |w.buffer| + 8 + |c.encode(e)|;
            && v.cur == (if size >= w.config.maxSegment then w.cur + 1 else w.cur) && v.cur in v.segs
            && v.segBytes == (if size >= w.config.maxSegment then 0 else size)
            && (size >= w.config.maxSegment ==>
                  && v.segs[v.cur] == File([], 0) && v.buffer == []
                  && w.cur in v.segs && v.segs[w.cur].synced == |v.segs[w.cur].content| == size)
  {
    hide Writer.WriteFrame, Frames, Frame;
    WriteFrameAppends(h.w, c, e);
  }

  /** No more than 64 KiB ever wait in the buffer; and a frame for which there is room, where nothing
      asks for a sync, goes no further. */
  predicate Buffered(w: Writer) {
    |w.buffer| <= 65536
  }

  lemma AppendBuffers<E>(c: Codec<E>, w: Writer, e: E, elapsed: bool)
    requires w.cur in w.segs && Buffered(w)
    ensures Buffered(w.Append(c, e, elapsed))
    ensures |w.buffer| + 8 + |c.encode(e)| <= 65536 && |c.encode(e)| < 65536
            && w.segBytes + 8 + |c.encode(e)| < w.config.maxSegment
            && (w.config.policy == Never || (w.config.policy == Interval && !elapsed)) ==>
              w.Append(c, e, elapsed).segs == w.segs
  {
    hide ToLe;
    var p := c.encode(e);
    var v := w.WriteAll(ToLe(|p| % U32, 4));
    var u := v.WriteAll(ToLe(c.crc(p), 4));
    assert Buffered(v) && Buffered(u) && Buffered(u.WriteAll(p));
    assert Buffered(w.WriteFrame(c, e));
  }

  /* ---------- crash and reopen ---------- */

  /** The directory a crash can leave: each file cut somewhere behind its synced part. */
  ghost predicate IsCrash(w: Writer, dir: map<int, seq<byte>>) {
    && dir.Keys == w.segs.Keys
    && forall id :: id in dir ==> w.segs[id].synced <= |dir[id]| && dir[id] <= w.segs[id].content
  }

  /** The number of entries a crash leaves behind. */
  function Survivors<E>(c: Codec<E>, h: Hist<E>, dir: map<int, seq<byte>>): int
    requires h.w.cur in h.ents && h.w.cur in dir
  {
    |Log(h)| - |h.ents[h.w.cur]| + Fit(c, h.ents[h.w.cur], |dir[h.w.cur]|)
  }

  /** What is codable in the log is codable in its segment. */
  lemma {:induction false} SegmentCodable<E>(c: Codec<E>, ents: map<int, seq<E>>, id: int)
    requires id in ents && AllCodable(c, InKeyOrder(ents))
    ensures AllCodable(c, ents[id])
    decreases |ents|
  {
    hide Codable;
    var g := Greatest(ents.Keys);
    var before := InKeyOrder(ents - {g});
    LastInKeyOrder(ents, g);
    assert forall i :: 0 <= i < |before| ==> before[i] == InKeyOrder(ents)[i];
    assert forall i :: 0 <= i < |ents[g]| ==> ents[g][i] == InKeyOrder(ents)[|before| + i];
    if id != g {
      SegmentCodable(c, ents - {g}, id);
    }
  }

  lemma CrashedSegments<E>(c: Codec<E>, h: Hist<E>, dir: map<int, seq<byte>>)
    requires Inv(c, h) && AllCodable(c, Log(h)) && IsCrash(h.w, dir)
    ensures var cur := h.w.cur;
            && Parsed(c, dir) - {cur} == h.ents - {cur}
            && Parse(c, dir[cur]) == h.ents[cur][..Fit(c, h.ents[cur], |dir[cur]|)]
            && h.durable <= Fit(c, h.ents[cur], |dir[cur]|)
  {
    var cur := h.w.cur;
    forall id | id in dir && id != cur
      ensures Parse(c, dir[id]) == h.ents[id]
    {
      assert dir[id] == Frames(c, h.ents[id]);
      SegmentCodable(c, h.ents, id);
      ParseClean(c, h.ents[id]);
    }
    SegmentCodable(c, h.ents, cur);
    var whole := Frames(c, h.ents[cur]);
    assert dir[cur] == whole[..|dir[cur]|];
    ParseCut(c, h.ents[cur], |dir[cur]|);
    FitCovers(c, h.ents[cur], h.durable, |dir[cur]|);
  }

  /** Crash safety: replay after a crash delivers a prefix of what was appended, in order, that
      contains every durable entry. */
  lemma CrashReplay<E>(c: Codec<E>, h: Hist<E>, dir: map<int, seq<byte>>)
    requires Inv(c, h) && AllCodable(c, Log(h)) && IsCrash(h.w, dir)
    ensures 0 <= DurableCount(h) <= Survivors(c, h, dir) <= |Log(h)|
    ensures Replay(c, dir) == Log(h)[..Survivors(c, h, dir)]
  {
    hide Frames, Fit, Parse, Codable, InKeyOrder;
    var cur := h.w.cur;
    CrashedSegments(c, h, dir);
    assert Parsed(c, dir).Keys == dir.Keys;
    LastInKeyOrder(Parsed(c, dir), cur);
    LastInKeyOrder(h.ents, cur);
    var before, k := InKeyOrder(h.ents - {cur}), Fit(c, h.ents[cur], |dir[cur]|);
    assert before + h.ents[cur][..k] == (before + h.ents[cur])[..|before| + k];
  }

  lemma CrashPrefix<E>(c: Codec<E>, h: Hist<E>, dir: map<int, seq<byte>>) returns (n: nat)
    requires Inv(c, h) && AllCodable(c, Log(h)) && IsCrash(h.w, dir)
    ensures DurableCount(h) <= n <= |Log(h)| && Replay(c, dir) == Log(h)[..n]
  {
    CrashReplay(c, h, dir);
    n := Survivors(c, h, dir);
  }

  /** When the tail a crash leaves is clean: exactly when the cut falls between two frames. */
  lemma CrashedTailIff<E>(c: Codec<E>, h: Hist<E>, dir: map<int, seq<byte>>)
    requires Inv(c, h) && AllCodable(c, Log(h)) && IsCrash(h.w, dir)
    ensures CleanTail(c, dir[h.w.cur]) <==>
            exists k :: 0 <= k <= |h.ents[h.w.cur]| && |dir[h.w.cur]| == |Frames(c, h.ents[h.w.cur][..k])|
  {
    hide Frames, CleanTail;
    var es, tail := h.ents[h.w.cur], dir[h.w.cur];
    SegmentCodable(c, h.ents, h.w.cur);
    assert tail == Frames(c, es)[..|tail|];
    CutTailIff(c, es, |tail|);
  }

  /** Every segment of the directory ends with a whole valid frame. */
  ghost predicate CleanDir<E>(c: Codec<E>, dir: map<int, seq<byte>>) {
    forall id :: id in dir ==> CleanTail(c, dir[id])
  }

  /** The history a writer starts with when it opens a directory. */
  function HistOpen<E>(c: Codec<E>, config: Config, dir: map<int, seq<byte>>, mark: nat): Hist<E> {
    var w := OpenDir(config, dir, mark);
    if dir.Keys == {} then Hist(w, map[0 := []], 0)
    else Hist(w, Parsed(c, dir), Fit(c, Parse(c, dir[w.cur]), w.segs[w.cur].synced))
  }

  lemma EmptyDirOpens<E>(c: Codec<E>, config: Config, mark: nat)
    ensures var g := HistOpen(c, config, map[], mark);
            && Inv(c, g) && g.w == OpenDir(config, map[], mark) && Log(g) == Replay(c, map[]) == [] && DurableCount(g) == 0
  {
    var g := HistOpen(c, config, map[], mark);
    assert g.w.segs == map[0 := File([], 0)];
    assert g.ents[0][..0] == [];
    LastInKeyOrder(g.ents, 0);
    assert g.ents - {0} == map[];
    assert Parsed(c, map[]) == map[];
  }

  /** Opening a clean directory starts a session on exactly the replayed entries; those within the
      part known to be on disk are durable. */
  lemma OpenKeeps<E>(c: Codec<E>, config: Config, dir: map<int, seq<byte>>, mark: nat)
    requires CleanDir(c, dir)
    ensures var g := HistOpen(c, config, dir, mark);
            && Inv(c, g) && g.w == OpenDir(config, dir, mark) && Log(g) == Replay(c, dir)
            && (dir.Keys == {} || mark >= |dir[g.w.cur]| ==> DurableCount(g) == |Log(g)|)
  {
    var g := HistOpen(c, config, dir, mark);
    if dir.Keys == {} {
      assert dir == map[];
      EmptyDirOpens(c, config, mark);
    } else {
      var cur := Greatest(dir.Keys);
      assert g.w.cur == cur && g.w.segs.Keys == dir.Keys;
      assert g.w.Written() == dir[cur];
      forall id | id in dir
        ensures dir[id] == Frames(c, g.ents[id])
      {
        assert CleanTail(c, dir[id]);
      }
      FitBound(c, g.ents[cur], g.w.segs[cur].synced);
      assert g.ents[cur][..|g.ents[cur]|] == g.ents[cur];
      if mark >= |dir[cur]| {
        FitCovers(c, g.ents[cur], |g.ents[cur]|, g.w.segs[cur].synced);
      }
    }
  }

  lemma RestartClean<E>(c: Codec<E>, h: Hist<E>, dir: map<int, seq<byte>>)
    requires Inv(c, h) && AllCodable(c, Log(h)) && IsCrash(h.w, dir) && CleanTail(c, dir[h.w.cur])
    ensures CleanDir(c, dir) && Greatest(dir.Keys) == h.w.cur
  {
    forall id | id in dir && id != h.w.cur
      ensures CleanTail(c, dir[id])
    {
      assert dir[id] == Frames(c, h.ents[id]);
      SegmentCodable(c, h.ents, id);
      ParseClean(c, h.ents[id]);
    }
  }

  /** Reopening what a crash left, whose last segment has a clean tail, starts a new session on
      exactly the replayed entries.  Nothing durable stops being durable; when all that was found
      is on disk, everything is durable. */
  lemma RestartKeeps<E>(c: Codec<E>, h: Hist<E>, dir: map<int, seq<byte>>, mark: nat)
    requires Inv(c, h) && AllCodable(c, Log(h)) && IsCrash(h.w, dir) && CleanTail(c, dir[h.w.cur])
    requires h.w.segs[h.w.cur].synced <= mark
    ensures var g := HistOpen(c, h.w.config, dir, mark);
            && Inv(c, g) && g.w.config == h.w.config && Log(g) == Replay(c, dir) == Log(h)[..Survivors(c, h, dir)]
            && DurableCount(h) <= DurableCount(g) <= |Log(g)|
            && (mark >= |dir[h.w.cur]| ==> DurableCount(g) == |Log(g)|)
  {
    hide CleanTail, CleanDir, InKeyOrder;
    CrashReplay(c, h, dir);
    RestartClean(c, h, dir);
    OpenKeeps(c, h.w.config, dir, mark);
    RestartDurable(c, h, dir, mark);
  }

  lemma RestartDurable<E>(c: Codec<E>, h: Hist<E>, dir: map<int, seq<byte>>, mark: nat)
    requires Inv(c, h) && AllCodable(c, Log(h)) && IsCrash(h.w, dir) && h.w.segs[h.w.cur].synced <= mark
    requires Greatest(dir.Keys) == h.w.cur
    ensures var g := HistOpen(c, h.w.config, dir, mark);
            g.w.cur in g.ents && DurableCount(h) <= DurableCount(g) <= |Log(g)|
  {
    var cur, g := h.w.cur, HistOpen(c, h.w.config, dir, mark);
    CrashedSegments(c, h, dir);
    LastInKeyOrder(h.ents, cur);
    LastInKeyOrder(g.ents, cur);
    var es, k := h.ents[cur], Fit(c, h.ents[cur], |dir[cur]|);
    assert g.ents[cur] == es[..k];
    assert es[..k][..h.durable] == es[..h.durable];
    FitCovers(c, g.ents[cur], h.durable, g.w.segs[cur].synced);
  }

  /* ---------- whole runs, across sessions ---------- */

  datatype Op<E> =
    | AppendOp(e: E, elapsed: bool)
    | SyncOp
    | RestartOp(dir: map<int, seq<byte>>, mark: nat)

  ghost predicate Next<E>(c: Codec<E>, h: Hist<E>, op: Op<E>, g: Hist<E>) {
    h.w.Valid() && h.w.cur in h.ents &&
    match op
    case AppendOp(e, elapsed) => g == HistAppend(c, h, e, elapsed)
    case SyncOp => g == HistSync(h)
    case RestartOp(dir, mark) =>
      && IsCrash(h.w, dir) && h.w.segs[h.w.cur].synced <= mark && CleanTail(c, dir[h.w.cur])
      && g == HistOpen(c, h.w.config, dir, mark)
  }

  lemma FreshFromZero<E>(c: Codec<E>, config: Config)
    ensures FromZero(Fresh(c, config).w)
  {
  }

  /** A log that starts on an empty directory. */
  function Fresh<E>(c: Codec<E>, config: Config): Hist<E> {
    HistOpen(c, config, map[], 0)
  }

  lemma FreshInv<E>(c: Codec<E>, config: Config)
    ensures Inv(c, Fresh(c, config)) && Log(Fresh(c, config)) == []
  {
    EmptyDirOpens(c, config, 0);
  }

  /** Every entry the run appends is codable. */
  ghost predicate CodableOps<E>(c: Codec<E>, ops: seq<Op<E>>) {
    forall i :: 0 <= i < |ops| && ops[i].AppendOp? ==> Codable(c, ops[i].e)
  }

  ghost predicate IsRun<E>(c: Codec<E>, config: Config, hs: seq<Hist<E>>, ops: seq<Op<E>>) {
    && |hs| == |ops| + 1 && hs[0] == Fresh(c, config)
    && forall i :: 0 <= i < |ops| ==> Next(c, hs[i], ops[i], hs[i + 1])
  }

  /** From `h` to `g` no durable entry is lost. */
  ghost predicate Progress<E>(h: Hist<E>, g: Hist<E>)
    requires h.w.cur in h.ents && g.w.cur in g.ents
  {
    && 0 <= DurableCount(h) <= |Log(h)| && DurableCount(h) <= DurableCount(g) <= |Log(g)|
    && Log(g)[..DurableCount(h)] == Log(h)[..DurableCount(h)]
  }

  lemma DurableBounds<E>(c: Codec<E>, h: Hist<E>)
    requires Inv(c, h)
    ensures 0 <= DurableCount(h) <= |Log(h)|
  {
    LastInKeyOrder(h.ents, h.w.cur);
  }

  lemma AppendProgress<E>(c: Codec<E>, h: Hist<E>, e: E, elapsed: bool)
    requires Inv(c, h)
    ensures var g := HistAppend(c, h, e, elapsed);
            && Inv(c, g) && Progress(h, g) && g.w.config == h.w.config
            && (h.w.config.policy == EveryWrite || (h.w.config.policy == Interval && elapsed) ==> DurableCount(g) == |Log(g)|)
  {
    hide Frames, HistAppend, InKeyOrder;
    AppendKeeps(c, h, e, elapsed);
    DurableBounds(c, h);
  }

  lemma SyncProgress<E>(c: Codec<E>, h: Hist<E>)
    requires Inv(c, h)
    ensures var g := HistSync(h);
            Inv(c, g) && Progress(h, g) && g.w.config == h.w.config && DurableCount(g) == |Log(g)|
  {
    SyncKeeps(c, h);
    DurableBounds(c, h);
  }

  lemma RestartProgress<E>(c: Codec<E>, h: Hist<E>, dir: map<int, seq<byte>>, mark: nat)
    requires Inv(c, h) && AllCodable(c, Log(h)) && IsCrash(h.w, dir) && CleanTail(c, dir[h.w.cur])
    requires h.w.segs[h.w.cur].synced <= mark
    ensures var g := HistOpen(c, h.w.config, dir, mark);
            Inv(c, g) && Progress(h, g) && g.w.config == h.w.config && AllCodable(c, Log(g))
  {
    hide Frames, Parse, Fit, HistOpen, Replay, CleanTail, Codable;
    RestartKeeps(c, h, dir, mark);
    CrashReplay(c, h, dir);
    var n, k := DurableCount(h), Survivors(c, h, dir);
    assert Log(h)[..k][..n] == Log(h)[..n];
  }

  /** One step never loses a durable entry, whatever it is. */
  lemma NextProgress<E>(c: Codec<E>, h: Hist<E>, op: Op<E>, g: Hist<E>)
    requires Inv(c, h) && AllCodable(c, Log(h)) && Next(c, h, op, g) && (op.AppendOp? ==> Codable(c, op.e))
    ensures Inv(c, g) && AllCodable(c, Log(g)) && Progress(h, g) && g.w.config == h.w.config
    ensures op.SyncOp? || (op.AppendOp? && (h.w.config.policy == EveryWrite || (h.w.config.policy == Interval && op.elapsed))) ==>
              DurableCount(g) == |Log(g)|
  {
    match op {
      case AppendOp(e, elapsed) =>
        AppendKeeps(c, h, e, elapsed);
        AppendProgress(c, h, e, elapsed);
      case SyncOp =>
        SyncKeeps(c, h);
        SyncProgress(c, h);
      case RestartOp(dir, mark) => RestartProgress(c, h, dir, mark);
    }
  }

  /** Logs that only ever change behind their durable part keep every durable prefix. */
  lemma {:induction false} PrefixesPersist<E>(logs: seq<seq<E>>, durable: seq<nat>, i: nat, j: nat)
    requires |logs| == |durable| && i <= j < |logs|
    requires forall k :: 0 <= k < |logs| ==> durable[k] <= |logs[k]|
    requires forall k :: 0 <= k < |logs| - 1 ==>
               durable[k] <= durable[k + 1] && logs[k + 1][..durable[k]] == logs[k][..durable[k]]
    ensures durable[i] <= durable[j] && logs[j][..durable[i]] == logs[i][..durable[i]]
    decreases j - i
  {
    if i < j {
      PrefixesPersist(logs, durable, i, j - 1);
      var n, m := durable[i], durable[j - 1];
      assert logs[j - 1 + 1][..m] == logs[j - 1][..m];
      assert logs[j][..n] == logs[j][..m][..n] && logs[j - 1][..n] == logs[j - 1][..m][..n];
    }
  }

  /** Every state of a run satisfies the invariant, and its configuration never changes. */
  lemma {:induction false} RunInv<E>(c: Codec<E>, config: Config, hs: seq<Hist<E>>, ops: seq<Op<E>>, i: nat)
    requires IsRun(c, config, hs, ops) && CodableOps(c, ops) && i < |hs|
    ensures Inv(c, hs[i]) && AllCodable(c, Log(hs[i])) && hs[i].w.config == config
  {
    hide Inv, Next;
    if i == 0 {
      FreshInv(c, config);
    } else {
      RunInv(c, config, hs, ops, i - 1);
      NextProgress(c, hs[i - 1], ops[i - 1], hs[i]);
    }
  }

  ghost predicate ProgressAt<E>(hs: seq<Hist<E>>, k: nat) {
    k + 1 < |hs| && hs[k].w.cur in hs[k].ents && hs[k + 1].w.cur in hs[k + 1].ents && Progress(hs[k], hs[k + 1])
  }

  lemma RunProgress<E>(c: Codec<E>, config: Config, hs: seq<Hist<E>>, ops: seq<Op<E>>, k: nat)
    requires IsRun(c, config, hs, ops) && CodableOps(c, ops) && k < |ops|
    ensures ProgressAt(hs, k)
    ensures ops[k].SyncOp? || (ops[k].AppendOp? && (config.policy == EveryWrite || (config.policy == Interval && ops[k].elapsed))) ==>
              DurableCount(hs[k + 1]) == |Log(hs[k + 1])|
  {
    hide Next, InKeyOrder, Codable;
    RunInv(c, config, hs, ops, k);
    NextProgress(c, hs[k], ops[k], hs[k + 1]);
  }

  lemma DurableGrows<E>(hs: seq<Hist<E>>, i: nat, j: nat)
    requires i <= j < |hs| && |hs| > 1
    requires forall k: nat :: k + 1 < |hs| ==> ProgressAt(hs, k)
    ensures hs[i].w.cur in hs[i].ents && hs[j].w.cur in hs[j].ents
    ensures 0 <= DurableCount(hs[i]) <= |Log(hs[i])| && DurableCount(hs[i]) <= DurableCount(hs[j]) <= |Log(hs[j])|
    ensures Log(hs[j])[..DurableCount(hs[i])] == Log(hs[i])[..DurableCount(hs[i])]
  {
    forall k: nat | k < |hs|
      ensures hs[k].w.cur in hs[k].ents && 0 <= DurableCount(hs[k]) <= |Log(hs[k])|
    {
      if k + 1 < |hs| {
        assert ProgressAt(hs, k);
      } else {
        assert ProgressAt(hs, k - 1);
      }
    }
    var logs := seq(|hs|, k requires 0 <= k < |hs| => Log(hs[k]));
    var durable: seq<nat> :=
      seq(|hs|, k requires 0 <= k < |hs| && hs[k].w.cur in hs[k].ents && DurableCount(hs[k]) >= 0 => DurableCount(hs[k]));
    forall k | 0 <= k < |logs| - 1
      ensures durable[k] <= durable[k + 1] && logs[k + 1][..durable[k]] == logs[k][..durable[k]]
    {
      assert ProgressAt(hs, k);
    }
    PrefixesPersist(logs, durable, i, j);
  }

  /** What was durable at moment `i` is still the front of the final log, and durable there. */
  lemma DurableAtEnd<E>(c: Codec<E>, config: Config, hs: seq<Hist<E>>, ops: seq<Op<E>>, i: nat)
    requires IsRun(c, config, hs, ops) && CodableOps(c, ops) && 0 < i < |hs|
    requires ops[i - 1].SyncOp?
             || (ops[i - 1].AppendOp? && (config.policy == EveryWrite || (config.policy == Interval && ops[i - 1].elapsed)))
    ensures var end := hs[|ops|];
            && end.w.cur in end.ents && |Log(hs[i])| <= DurableCount(end) <= |Log(end)|
            && Log(end)[..|Log(hs[i])|] == Log(hs[i])
  {
    hide CodableOps, Next, InKeyOrder;
    forall k: nat | k + 1 < |hs|
      ensures ProgressAt(hs, k)
    {
      RunProgress(c, config, hs, ops, k);
    }
    RunProgress(c, config, hs, ops, i - 1);
    DurableGrows(hs, i, |ops|);
    assert Log(hs[i])[..|Log(hs[i])|] == Log(hs[i]);
  }

  lemma ReplayAtEnd<E>(c: Codec<E>, config: Config, hs: seq<Hist<E>>, ops: seq<Op<E>>, dir: map<int, seq<byte>>)
    returns (n: nat)
    requires IsRun(c, config, hs, ops) && CodableOps(c, ops) && IsCrash(hs[|ops|].w, dir)
    ensures var end := hs[|ops|];
            end.w.cur in end.ents && DurableCount(end) <= n <= |Log(end)| && Replay(c, dir) == Log(end)[..n]
  {
    RunInv(c, config, hs, ops, |ops|);
    n := CrashPrefix(c, hs[|ops|], dir);
  }

  /** In every run of appends, syncs, rotations and clean-tail restarts, a crash at any later moment
      still replays everything that was durable at moment `i`: all entries up to the last sync, and
      every append under `EveryWrite`, and under `Interval` once the interval has elapsed. */
  lemma CrashSafety<E>(c: Codec<E>, config: Config, hs: seq<Hist<E>>, ops: seq<Op<E>>, i: nat, dir: map<int, seq<byte>>)
    requires IsRun(c, config, hs, ops) && CodableOps(c, ops) && 0 < i < |hs|
    requires ops[i - 1].SyncOp?
             || (ops[i - 1].AppendOp? && (config.policy == EveryWrite || (config.policy == Interval && ops[i - 1].elapsed)))
    requires IsCrash(hs[|ops|].w, dir)
    ensures Log(hs[i]) <= Replay(c, dir) <= Log(hs[|ops|])
  {
    DurableAtEnd(c, config, hs, ops, i);
    var n := ReplayAtEnd(c, config, hs, ops, dir);
    PrefixOfCut(Log(hs[i]), Log(hs[|ops|]), n);
  }

  lemma PrefixOfCut<E>(a: seq<E>, b: seq<E>, k: nat)
    requires |a| <= k <= |b| && b[..|a|] == a
    ensures a <= b[..k] <= b
  {
    assert b[..k][..|a|] == b[..|a|];
  }

  /* ---------- the writer, updated in place ---------- */

  class WalWriter {
    const config: Config
    var segs: map<int, File>
    var cur: int
    var buffer: seq<byte>
    var segBytes: nat

    ghost function View(): Writer
      reads this
    {
      Writer(config, segs, cur, buffer, segBytes)
    }

    constructor Open(config: Config, dir: map<int, seq<byte>>, mark: nat)
      ensures View() == OpenDir(config, dir, mark)
    {
      this.config := config;
      var latest := if dir.Keys == {} then 0 else Greatest(dir.Keys);
      var files := map id | id in dir :: Found(dir[id], if id == latest then mark else |dir[id]|);
      if latest !in files {
        files := files[latest := File([], 0)];
      }
      segs, cur, buffer := files, latest, [];
      segBytes := |files[latest].content|;
    }

    method WriteAll(data: seq<byte>)
      requires cur in segs
      modifies this`segs, this`buffer
      ensures View() == old(View()).WriteAll(data)
    {
      if |data| > BUFFER_CAPACITY - |buffer| {
        segs := segs[cur := File(segs[cur].content + buffer, segs[cur].synced)];
        buffer := [];
      }
      if |data| >= BUFFER_CAPACITY {
        segs := segs[cur := File(segs[cur].content + data, segs[cur].synced)];
      } else {
        buffer := buffer + data;
      }
    }

    method Sync()
      requires cur in segs
      modifies this`segs, this`buffer
      ensures View() == old(View()).Sync()
    {
      segs := segs[cur := File(segs[cur].content + buffer, segs[cur].synced)];
      buffer := [];
      segs := segs[cur := File(segs[cur].content, |segs[cur].content|)];
    }

    method Rotate()
      requires cur in segs
      modifies this
      ensures View() == old(View()).Rotate()
    {
      Sync();
      cur := cur + 1;
      if cur !in segs {
        segs := segs[cur := File([], 0)];
      }
      segBytes := 0;
    }

    method Append<E>(c: Codec<E>, e: E, elapsed: bool)
      requires cur in segs
      modifies this
      ensures View() == old(View()).Append(c, e, elapsed)
    {
      var payload := c.encode(e);
      WriteAll(ToLe(|payload| % U32, 4));
      WriteAll(ToLe(c.crc(payload), 4));
      WriteAll(payload);
      segBytes := segBytes + HEADER + |payload|;
      if config.policy == EveryWrite {
        Sync();
      } else if config.policy == Interval && elapsed {
        Sync();
      }
      if segBytes >= config.maxSegment {
        Rotate();
      }
    }
  }

  /* ---------- a torn tail is not cleaned ---------- */

  /** The bytes the files hold. */
  function Contents(segs: map<int, File>): map<int, seq<byte>> {
    map id | id in segs :: segs[id].content
  }

  lemma {:induction false} NothingInKeyOrder<E>(ents: map<int, seq<E>>)
    requires forall id :: id in ents ==> ents[id] == []
    ensures InKeyOrder(ents) == []
    decreases |ents|
  {
    if ents.Keys != {} {
      NothingInKeyOrder(ents - {Greatest(ents.Keys)});
    }
  }

  /** What a synced append leaves in the file of a freshly opened single segment. */
  lemma SyncedAppend<E>(c: Codec<E>, config: Config, torn: seq<byte>, mark: nat, e: E, elapsed: bool)
    requires OpenDir(config, map[0 := torn], mark).Syncs(elapsed)
    ensures var w := OpenDir(config, map[0 := torn], mark).Append(c, e, elapsed);
            && 0 in w.segs && w.segs[0] == File(torn + Frame(c, e), |torn| + |Frame(c, e)|)
            && forall id :: id in w.segs && id != 0 ==> w.segs[id].content == []
  {
    hide Frame, Writer.WriteFrame;
    var w := OpenDir(config, map[0 := torn], mark);
    assert map[0 := torn].Keys == {0};
    assert w.cur == 0 && w.segs.Keys == {0} && w.Written() == torn;
    WriteFrameAppends(w, c, e);
    var v := w.WriteFrame(c, e);
    assert v.segs.Keys == {0} && v.Written() == torn + Frame(c, e);
  }

  /** For every codec: a crash tears the frame of a long entry; the writer reopens behind the torn
      bytes and syncs a shorter entry; replay delivers nothing, not even the synced entry. */
  lemma TornTailLosesSynced<E>(c: Codec<E>, config: Config, long: E, n: nat, mark: nat, short: E, elapsed: bool)
    requires |c.encode(long)| < U32 && HEADER <= n && n + |Frame(c, short)| < |Frame(c, long)|
    requires OpenDir(config, map[0 := Frame(c, long)[..n]], mark).Syncs(elapsed)
    ensures var torn := Frame(c, long)[..n];
            var w := OpenDir(config, map[0 := torn], mark).Append(c, short, elapsed);
            && 0 in w.segs && w.segs[0] == File(torn + Frame(c, short), |torn| + |Frame(c, short)|)
            && Replay(c, Contents(w.segs)) == []
  {
    hide Frame, Writer.Append;
    var torn := Frame(c, long)[..n];
    var w := OpenDir(config, map[0 := torn], mark).Append(c, short, elapsed);
    SyncedAppend(c, config, torn, mark, short, elapsed);
    SwallowedFrame(c, long, n, Frame(c, short));
    var ents := Parsed(c, Contents(w.segs));
    forall id | id in ents
      ensures ents[id] == []
    {
      if id != 0 {
        ParseShort(c, w.segs[id].content);
      }
    }
    NothingInKeyOrder(ents);
  }

  lemma SwallowedFrame<E>(c: Codec<E>, long: E, n: nat, more: seq<byte>)
    requires |c.encode(long)| < U32 && HEADER <= n <= |Frame(c, long)| && n + |more| < |Frame(c, long)|
    ensures Parse(c, Frame(c, long)[..n] + more) == []
  {
    var whole, bytes := Frame(c, long), Frame(c, long)[..n] + more;
    FrameFields(c, c.encode(long), []);
    assert whole + [] == whole;
    assert bytes[..4] == whole[..4];
  }

  /** Such a tail does arise: an entry at least as large as the buffer goes past it into the file,
      unsynced under `Never`, and a crash may cut it anywhere. */
  lemma TornTailArises<E>(c: Codec<E>, config: Config, long: E, n: nat)
    requires config.policy == Never && 65536 <= |c.encode(long)| && |Frame(c, long)| < config.maxSegment
    requires n <= |Frame(c, long)|
    ensures IsCrash(Fresh(c, config).w.Append(c, long, false), map[0 := Frame(c, long)[..n]])
  {
    var w, p := Fresh(c, config).w, c.encode(long);
    assert w.segs == map[0 := File([], 0)];
    var len, crc := ToLe(|p| % U32, 4), ToLe(c.crc(p), 4);
    var v := w.WriteAll(len).WriteAll(crc);
    assert v.segs == w.segs && v.buffer == len + crc;
    assert v.WriteAll(p).segs[0] == File([] + (len + crc) + p, 0);
  }
}
