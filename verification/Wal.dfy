/** The write-ahead log of `src/storage/wal.rs`: framing, the replay parser, the buffered and
    rotating writer, and what survives a crash. */
module Wal {
  import opened Collections
  import opened Bytes

  const HEADER := 8
  const MAX_ENTRY := 128 * 1024 * 1024
  const U32 := 0x1_0000_0000

  type u32 = n: int | 0 <= n < U32

  /** Serialisation and checksum, which this model leaves open. */
  datatype Codec<!E> = Codec(encode: E -> seq<byte>, decode: seq<byte> -> Option<E>, crc: seq<byte> -> u32)

  /** Decoding undoes encoding for this entry, and it is not larger than replay accepts.  Nothing is
      asked of entries that are never written. */
  ghost predicate Codable<E>(c: Codec<E>, e: E) {
    c.decode(c.encode(e)) == Some(e) && |c.encode(e)| <= MAX_ENTRY
  }

  ghost predicate AllCodable<E>(c: Codec<E>, es: seq<E>) {
    forall i :: 0 <= i < |es| ==> Codable(c, es[i])
  }

  /* ---------- frames ---------- */

  /** Length, checksum, payload: no type byte, whatever the format comment says. */
  function FrameOf<E>(c: Codec<E>, payload: seq<byte>): seq<byte> {
    ToLe(|payload| % U32, 4) + ToLe(c.crc(payload), 4) + payload
  }

  function Frame<E>(c: Codec<E>, e: E): (f: seq<byte>)
    ensures |f| == HEADER + |c.encode(e)|
  {
    FrameOf(c, c.encode(e))
  }

  function Frames<E>(c: Codec<E>, es: seq<E>): seq<byte> {
    if es == [] then [] else Frame(c, es[0]) + Frames(c, es[1..])
  }

  lemma FramesCons<E>(c: Codec<E>, e: E, rest: seq<E>)
    ensures Frames(c, [e] + rest) == Frame(c, e) + Frames(c, rest)
  {
    assert ([e] + rest)[1..] == rest;
  }

  lemma {:induction false} FramesConcat<E>(c: Codec<E>, a: seq<E>, b: seq<E>)
    ensures Frames(c, a + b) == Frames(c, a) + Frames(c, b)
  {
    if a == [] {
      assert a + b == b && Frames(c, a) == [];
    } else {
      hide Frames, Frame;
      var e, rest := a[0], a[1..];
      assert a == [e] + rest && a + b == [e] + (rest + b);
      FramesCons(c, e, rest);
      FramesCons(c, e, rest + b);
      FramesConcat(c, rest, b);
      Associative(Frame(c, e), Frames(c, rest), Frames(c, b));
    }
  }

  lemma FramesSnoc<E>(c: Codec<E>, es: seq<E>, e: E)
    ensures Frames(c, es + [e]) == Frames(c, es) + Frame(c, e)
  {
    FramesConcat(c, es, [e]);
    assert [e][1..] == [];
    assert Frames(c, [e]) == Frame(c, e);
  }

  /* ---------- the parser ---------- */

  /** The entry at the front of `bytes`, if a whole valid frame stands there. */
  function Head<E>(c: Codec<E>, bytes: seq<byte>): (r: Option<(E, nat)>)
    ensures r.Some? ==> HEADER <= r.value.1 <= |bytes|
  {
    if |bytes| < HEADER then None
    else
      var len, crc := FromLe(bytes[..4]), FromLe(bytes[4..8]);
      if len > MAX_ENTRY || HEADER + len > |bytes| then None
      else
        var payload := bytes[HEADER..HEADER + len];
        if c.crc(payload) != crc || c.decode(payload).None? then None
        else Some((c.decode(payload).value, HEADER + len))
  }

  /** All entries up to the first bad frame. */
  function Parse<E>(c: Codec<E>, bytes: seq<byte>): seq<E>
    decreases |bytes|
  {
    var h := Head(c, bytes);
    if h.None? then [] else [h.value.0] + Parse(c, bytes[h.value.1..])
  }

  lemma U32Bytes()
    ensures Pow256(4) == U32
  {
    assert Pow256(1) == 256 && Pow256(2) == 65536 && Pow256(3) == 16777216;
  }

  lemma Slices(a: seq<byte>, b: seq<byte>, p: seq<byte>, rest: seq<byte>)
    requires |a| == 4 && |b| == 4
    ensures var bytes := a + b + p + rest;
            bytes[..4] == a && bytes[4..8] == b && bytes[8..8 + |p|] == p && bytes[8 + |p|..] == rest
  {
    var bytes := a + b + p + rest;
    assert bytes[4..8] == b;
  }

  lemma FrameFields<E>(c: Codec<E>, payload: seq<byte>, rest: seq<byte>)
    requires |payload| < U32
    ensures var bytes := FrameOf(c, payload) + rest;
            && |bytes| == HEADER + |payload| + |rest|
            && FromLe(bytes[..4]) == |payload| && FromLe(bytes[4..8]) == c.crc(payload)
            && bytes[HEADER..HEADER + |payload|] == payload
            && bytes[HEADER + |payload|..] == rest
  {
    hide ToLe, FromLe;
    U32Bytes();
    LeRoundTrip(|payload|, 4);
    LeRoundTrip(c.crc(payload), 4);
    Slices(ToLe(|payload| % U32, 4), ToLe(c.crc(payload), 4), payload, rest);
  }

  /** A frame that fits the limits is read back. */
  lemma HeadOfFrame<E>(c: Codec<E>, payload: seq<byte>, rest: seq<byte>)
    requires |payload| < U32
    ensures Head(c, FrameOf(c, payload) + rest) ==
            if |payload| <= MAX_ENTRY && c.decode(payload).Some?
            then Some((c.decode(payload).value, HEADER + |payload|)) else None
  {
    FrameFields(c, payload, rest);
  }

  lemma ParseFrame<E>(c: Codec<E>, e: E, rest: seq<byte>)
    requires Codable(c, e)
    ensures Parse(c, Frame(c, e) + rest) == [e] + Parse(c, rest)
  {
    HeadOfFrame(c, c.encode(e), rest);
    assert (Frame(c, e) + rest)[|Frame(c, e)|..] == rest;
  }

  /** Print and parse: whole frames in front of anything are read back in order, and the parser
      then continues on the remainder. */
  lemma {:induction false} ParseFrames<E>(c: Codec<E>, es: seq<E>, junk: seq<byte>)
    requires AllCodable(c, es)
    ensures Parse(c, Frames(c, es) + junk) == es + Parse(c, junk)
  {
    if es == [] {
      assert Frames(c, es) + junk == junk;
    } else {
      assert Frames(c, es) + junk == Frame(c, es[0]) + (Frames(c, es[1..]) + junk);
      ParseFrame(c, es[0], Frames(c, es[1..]) + junk);
      ParseFrames(c, es[1..], junk);
      Prepended(Parse(c, Frames(c, es) + junk), Parse(c, Frames(c, es[1..]) + junk), es, Parse(c, junk));
    }
  }

  lemma ParseClean<E>(c: Codec<E>, es: seq<E>)
    requires AllCodable(c, es)
    ensures Parse(c, Frames(c, es)) == es
  {
    ParseFrames(c, es, []);
    assert Frames(c, es) + [] == Frames(c, es);
  }

  /** An entry is replayed exactly when its encoding respects the 128 MiB limit of the parser,
      which the writer does not check.  From 4 GiB on the stored length wraps, and the parser takes
      the front of the encoding for the payload. */
  lemma OversizedIff<E>(c: Codec<E>, e: E, rest: seq<byte>)
    requires c.decode(c.encode(e)) == Some(e)
    ensures |c.encode(e)| < U32 ==> (Parse(c, Frame(c, e) + rest) == [e] + Parse(c, rest) <==> |c.encode(e)| <= 134_217_728)
    ensures |c.encode(e)| >= U32 ==>
              var p, len := c.encode(e), |c.encode(e)| % U32;
              Head(c, Frame(c, e) + rest) ==
              if len > MAX_ENTRY || c.crc(p[..len]) != c.crc(p) || c.decode(p[..len]).None? then None
              else Some((c.decode(p[..len]).value, HEADER + len))
  {
    if |c.encode(e)| < U32 {
      HeadOfFrame(c, c.encode(e), rest);
      assert (Frame(c, e) + rest)[|Frame(c, e)|..] == rest;
    } else {
      WrappedFields(c, c.encode(e), rest);
    }
  }

  lemma WrappedFields<E>(c: Codec<E>, payload: seq<byte>, rest: seq<byte>)
    requires |payload| >= U32
    ensures var bytes, len := FrameOf(c, payload) + rest, |payload| % U32;
            && HEADER + len <= |bytes| && FromLe(bytes[..4]) == len && FromLe(bytes[4..8]) == c.crc(payload)
            && bytes[HEADER..HEADER + len] == payload[..len]
  {
    hide ToLe, FromLe;
    var len := |payload| % U32;
    U32Bytes();
    LeRoundTrip(len, 4);
    LeRoundTrip(c.crc(payload), 4);
    Slices(ToLe(len, 4), ToLe(c.crc(payload), 4), payload, rest);
    var bytes := FrameOf(c, payload) + rest;
    assert bytes[HEADER..HEADER + len] == bytes[HEADER..HEADER + |payload|][..len];
  }

  /* ---------- torn tails ---------- */

  /** How many whole frames of `es` lie within the first `n` bytes. */
  function Fit<E>(c: Codec<E>, es: seq<E>, n: nat): (k: nat)
    ensures k <= |es|
  {
    if es == [] || |Frame(c, es[0])| > n then 0 else 1 + Fit(c, es[1..], n - |Frame(c, es[0])|)
  }

  lemma HeadOfTorn<E>(c: Codec<E>, e: E, more: seq<byte>, n: nat)
    requires |c.encode(e)| < U32 && n < |Frame(c, e)|
    ensures Head(c, (Frame(c, e) + more)[..n]) == None
  {
    hide FrameOf;
    if n >= HEADER {
      FrameFields(c, c.encode(e), more);
      assert (Frame(c, e) + more)[..n][..4] == (Frame(c, e) + more)[..4];
    }
  }

  lemma ParseNone<E>(c: Codec<E>, bytes: seq<byte>)
    requires Head(c, bytes).None?
    ensures Parse(c, bytes) == []
  {
  }

  /** Cutting a clean segment anywhere makes replay deliver exactly the frames that are whole. */
  lemma {:induction false} ParseCut<E>(c: Codec<E>, es: seq<E>, n: nat)
    requires AllCodable(c, es) && n <= |Frames(c, es)|
    ensures Parse(c, Frames(c, es)[..n]) == es[..Fit(c, es, n)]
  {
    hide Parse, Head, FrameOf;
    if es == [] {
      ParseShort(c, []);
    } else {
      var f, rest := Frame(c, es[0]), Frames(c, es[1..]);
      if n < |f| {
        HeadOfTorn(c, es[0], rest, n);
        ParseNone(c, Frames(c, es)[..n]);
      } else {
        var m := n - |f|;
        ParseCut(c, es[1..], m);
        assert Frames(c, es)[..n] == f + rest[..m];
        ParseFrame(c, es[0], rest[..m]);
        assert es[..Fit(c, es, n)] == [es[0]] + es[1..][..Fit(c, es[1..], m)];
      }
    }
  }

  lemma {:induction false} FitCovers<E>(c: Codec<E>, es: seq<E>, k: nat, n: nat)
    requires k <= |es| && |Frames(c, es[..k])| <= n
    ensures k <= Fit(c, es, n)
  {
    if k > 0 {
      assert es[..k][1..] == es[1..][..k - 1];
      FitCovers(c, es[1..], k - 1, n - |Frame(c, es[0])|);
    }
  }

  lemma {:induction false} FitBound<E>(c: Codec<E>, es: seq<E>, n: nat)
    ensures |Frames(c, es[..Fit(c, es, n)])| <= n
  {
    if es != [] && |Frame(c, es[0])| <= n {
      var m := n - |Frame(c, es[0])|;
      FitBound(c, es[1..], m);
      assert es[..Fit(c, es, n)][1..] == es[1..][..Fit(c, es[1..], m)];
    }
  }

  /** The segment ends exactly at the end of its last valid frame. */
  ghost predicate CleanTail<E>(c: Codec<E>, bytes: seq<byte>) {
    bytes == Frames(c, Parse(c, bytes))
  }

  lemma CutTailIff<E>(c: Codec<E>, es: seq<E>, n: nat)
    requires AllCodable(c, es) && n <= |Frames(c, es)|
    ensures CleanTail(c, Frames(c, es)[..n]) <==> exists k :: 0 <= k <= |es| && n == |Frames(c, es[..k])|
  {
    hide Fit, Parse;
    var tail := Frames(c, es)[..n];
    ParseCut(c, es, n);
    assert CleanTail(c, tail) ==> n == |Frames(c, es[..Fit(c, es, n)])|;
    if k :| 0 <= k <= |es| && n == |Frames(c, es[..k])| {
      FramesConcat(c, es[..k], es[k..]);
      assert es[..k] + es[k..] == es;
      assert tail == Frames(c, es[..k]);
      ParseClean(c, es[..k]);
    }
  }

  /** The number of bytes the parser consumes. */
  function Consumed<E>(c: Codec<E>, bytes: seq<byte>): (n: nat)
    ensures n <= |bytes|
    decreases |bytes|
  {
    var h := Head(c, bytes);
    if h.None? then 0 else h.value.1 + Consumed(c, bytes[h.value.1..])
  }

  /** A valid frame at the front stays valid whatever follows. */
  lemma HeadExtends<E>(c: Codec<E>, bytes: seq<byte>, more: seq<byte>)
    requires Head(c, bytes).Some?
    ensures Head(c, bytes + more) == Head(c, bytes)
  {
    var n := Head(c, bytes).value.1;
    assert (bytes + more)[..4] == bytes[..4] && (bytes + more)[4..8] == bytes[4..8];
    assert (bytes + more)[HEADER..n] == bytes[HEADER..n];
  }

  lemma {:induction false} ParseContinues<E>(c: Codec<E>, bytes: seq<byte>, more: seq<byte>)
    ensures Parse(c, bytes + more) == Parse(c, bytes) + Parse(c, bytes[Consumed(c, bytes)..] + more)
    decreases |bytes|
  {
    hide Head;
    var h := Head(c, bytes);
    if h.None? {
      assert bytes[0..] == bytes;
    } else {
      var n := h.value.1;
      HeadExtends(c, bytes, more);
      assert (bytes + more)[n..] == bytes[n..] + more;
      ParseContinues(c, bytes[n..], more);
      assert bytes[n..][Consumed(c, bytes[n..])..] == bytes[Consumed(c, bytes)..];
      Prepended(Parse(c, bytes + more), Parse(c, bytes[n..] + more), Parse(c, bytes),
                Parse(c, bytes[Consumed(c, bytes)..] + more));
    }
  }

  /** The parser's guards: no whole valid frame stands at the front of `bytes`. */
  predicate Rejects<E>(c: Codec<E>, bytes: seq<byte>) {
    || |bytes| < HEADER
    || FromLe(bytes[..4]) > MAX_ENTRY
    || HEADER + FromLe(bytes[..4]) > |bytes|
    || c.crc(bytes[HEADER..HEADER + FromLe(bytes[..4])]) != FromLe(bytes[4..8])
    || c.decode(bytes[HEADER..HEADER + FromLe(bytes[..4])]).None?
  }

  /** Reopening appends behind whatever the segment holds.  For every codec and all bytes, what is
      appended is lost altogether if and only if the parser rejects the frame that the leftover
      bytes form together with it. */
  lemma AppendIsLostIff<E>(c: Codec<E>, bytes: seq<byte>, more: seq<byte>)
    ensures Parse(c, bytes + more) == Parse(c, bytes) <==> Rejects(c, bytes[Consumed(c, bytes)..] + more)
  {
    ParseContinues(c, bytes, more);
    var rest := bytes[Consumed(c, bytes)..] + more;
    assert Rejects(c, rest) <==> Head(c, rest).None?;
    assert |Parse(c, bytes + more)| == |Parse(c, bytes)| + |Parse(c, rest)|;
  }

  /** Where every byte belongs to a valid frame, every appended entry is replayed. */
  lemma AppendBehindClean<E>(c: Codec<E>, bytes: seq<byte>, es: seq<E>)
    requires Consumed(c, bytes) == |bytes| && AllCodable(c, es)
    ensures Parse(c, bytes + Frames(c, es)) == Parse(c, bytes) + es
  {
    ParseContinues(c, bytes, Frames(c, es));
    assert bytes[|bytes|..] + Frames(c, es) == Frames(c, es);
    ParseClean(c, es);
  }

  /** A clean tail of codable entries leaves the parser nothing. */
  lemma CleanTailIsConsumed<E>(c: Codec<E>, bytes: seq<byte>)
    requires CleanTail(c, bytes) && AllCodable(c, Parse(c, bytes))
    ensures Consumed(c, bytes) == |bytes|
  {
    FramesConsumed(c, Parse(c, bytes));
  }

  /** A segment written frame by frame has no leftover bytes. */
  lemma {:induction false} FramesConsumed<E>(c: Codec<E>, es: seq<E>)
    requires AllCodable(c, es)
    ensures Consumed(c, Frames(c, es)) == |Frames(c, es)|
  {
    if es != [] {
      HeadOfFrame(c, c.encode(es[0]), Frames(c, es[1..]));
      assert Frames(c, es)[|Frame(c, es[0])|..] == Frames(c, es[1..]);
      FramesConsumed(c, es[1..]);
    }
  }

  /** The bytes left after the last valid frame hold a complete but invalid frame: too long a
      length, a checksum mismatch or an undecodable payload. */
  predicate CorruptTail<E>(c: Codec<E>, tail: seq<byte>) {
    |tail| >= HEADER
    && (FromLe(tail[..4]) > MAX_ENTRY || HEADER + FromLe(tail[..4]) <= |tail|)
    && Head(c, tail).None?
  }

  /** Behind a corrupt tail every appended entry is lost, synced or not. */
  lemma AppendBehindCorrupt<E>(c: Codec<E>, bytes: seq<byte>, es: seq<E>)
    requires CorruptTail(c, bytes[Consumed(c, bytes)..])
    ensures Parse(c, bytes + Frames(c, es)) == Parse(c, bytes)
  {
    var tail, more := bytes[Consumed(c, bytes)..], Frames(c, es);
    AppendIsLostIff(c, bytes, more);
    assert (tail + more)[..4] == tail[..4] && (tail + more)[4..8] == tail[4..8];
    var len := FromLe(tail[..4]);
    if len <= MAX_ENTRY {
      assert (tail + more)[HEADER..HEADER + len] == tail[HEADER..HEADER + len];
    }
  }

  /** The payload a torn frame gets when `more` is appended behind it. */
  function Completed(tail: seq<byte>, more: seq<byte>): seq<byte>
    requires |tail| >= HEADER && HEADER + FromLe(tail[..4]) <= |tail| + |more|
  {
    (tail + more)[HEADER..HEADER + FromLe(tail[..4])]
  }

  /** What the parser delivers behind the valid frames once `more` stands behind the torn one. */
  function BehindTorn<E>(c: Codec<E>, tail: seq<byte>, more: seq<byte>): seq<E>
    requires HEADER <= |tail| < HEADER + FromLe(tail[..4])
  {
    var missing := HEADER + FromLe(tail[..4]) - |tail|;
    if |more| < missing then []
    else
      var payload := Completed(tail, more);
      if c.crc(payload) != FromLe(tail[4..8]) || c.decode(payload).None? then []
      else [c.decode(payload).value] + Parse(c, more[missing..])
  }

  lemma ParseTorn<E>(c: Codec<E>, tail: seq<byte>, more: seq<byte>)
    requires HEADER <= |tail| < HEADER + FromLe(tail[..4]) <= HEADER + MAX_ENTRY
    ensures Parse(c, tail + more) == BehindTorn(c, tail, more)
  {
    var len, rest := FromLe(tail[..4]), tail + more;
    assert rest[..4] == tail[..4] && rest[4..8] == tail[4..8];
    if HEADER + len <= |rest| {
      assert rest[HEADER + len..] == more[HEADER + len - |tail|..];
    }
  }

  /** Behind a torn frame whose header is whole: while the appended bytes do not complete it, or
      complete it to a payload that fails the checksum or does not decode, everything appended is
      lost, and only then.  Otherwise replay makes up an entry from the torn bytes and the appended
      ones, and goes on behind it. */
  lemma AppendBehindTorn<E>(c: Codec<E>, bytes: seq<byte>, more: seq<byte>)
    requires var tail := bytes[Consumed(c, bytes)..];
             HEADER <= |tail| < HEADER + FromLe(tail[..4]) <= HEADER + MAX_ENTRY
    ensures var tail := bytes[Consumed(c, bytes)..];
            && Parse(c, bytes + more) == Parse(c, bytes) + BehindTorn(c, tail, more)
            && (Parse(c, bytes + more) == Parse(c, bytes) <==>
                  || |tail| + |more| < HEADER + FromLe(tail[..4])
                  || c.crc(Completed(tail, more)) != FromLe(tail[4..8])
                  || c.decode(Completed(tail, more)).None?)
  {
    hide Parse, Completed;
    var tail := bytes[Consumed(c, bytes)..];
    ParseContinues(c, bytes, more);
    ParseTorn(c, tail, more);
    assert |Parse(c, bytes + more)| == |Parse(c, bytes)| + |BehindTorn(c, tail, more)|;
  }

  /* ---------- the replay loop ---------- */

  /** Parsing from `pos` on, in the terms of a cursor into the whole segment. */
  lemma ParseAt<E>(c: Codec<E>, bytes: seq<byte>, pos: nat)
    requires pos + HEADER <= |bytes|
    ensures var len := FromLe(bytes[pos..pos + 4]);
            Parse(c, bytes[pos..]) ==
            if len > MAX_ENTRY || pos + HEADER + len > |bytes| then []
            else
              var payload := bytes[pos + HEADER..pos + HEADER + len];
              if c.crc(payload) != FromLe(bytes[pos + 4..pos + 8]) || c.decode(payload).None? then []
              else [c.decode(payload).value] + Parse(c, bytes[pos + HEADER + len..])
  {
    var rest, len := bytes[pos..], FromLe(bytes[pos..pos + 4]);
    assert rest[..4] == bytes[pos..pos + 4] && rest[4..8] == bytes[pos + 4..pos + 8];
    if len <= MAX_ENTRY && pos + HEADER + len <= |bytes| {
      assert rest[HEADER..HEADER + len] == bytes[pos + HEADER..pos + HEADER + len];
      assert rest[HEADER + len..] == bytes[pos + HEADER + len..];
    }
  }

  lemma ParseShort<E>(c: Codec<E>, bytes: seq<byte>)
    requires |bytes| < HEADER
    ensures Parse(c, bytes) == []
  {
  }

  /** Replay of one segment: a cursor moving from frame to frame until one is bad. */
  method ReplaySegment<E>(c: Codec<E>, bytes: seq<byte>) returns (entries: seq<E>)
    ensures entries == Parse(c, bytes)
  {
    hide Parse, FromLe;
    entries := [];
    var pos := 0;
    while pos + HEADER <= |bytes|
      invariant 0 <= pos <= |bytes|
      invariant entries + Parse(c, bytes[pos..]) == Parse(c, bytes)
      decreases |bytes| - pos
    {
      var len := FromLe(bytes[pos..pos + 4]);
      var expected := FromLe(bytes[pos + 4..pos + 8]);
      ParseAt(c, bytes, pos);
      if len > MAX_ENTRY {
        break;
      }
      if pos + HEADER + len > |bytes| {
        break;
      }
      var payload := bytes[pos + HEADER..pos + HEADER + len];
      if c.crc(payload) != expected {
        break;
      }
      var decoded := c.decode(payload);
      if decoded.None? {
        break;
      }
      MovedOver(entries, decoded.value, Parse(c, bytes[pos + HEADER + len..]));
      entries := entries + [decoded.value];
      pos := pos + HEADER + len;
    }
    if pos + HEADER > |bytes| {
      ParseShort(c, bytes[pos..]);
    }
  }

  /** The valid entries of each segment. */
  function Parsed<E>(c: Codec<E>, dir: map<int, seq<byte>>): map<int, seq<E>> {
    map id | id in dir :: Parse(c, dir[id])
  }

  /** What replaying a log directory delivers. */
  function Replay<E>(c: Codec<E>, dir: map<int, seq<byte>>): seq<E> {
    InKeyOrder(Parsed(c, dir))
  }

  /** The segment loop of `replay`, over a given list of ids. */
  method ReplayAlong<E>(c: Codec<E>, dir: map<int, seq<byte>>, ids: seq<int>, ghost parsed: map<int, seq<E>>)
    returns (entries: seq<E>, count: nat)
    requires parsed == Parsed(c, dir)
    requires forall i :: 0 <= i < |ids| ==> ids[i] in dir && ids[i] in parsed
    ensures entries == Along(parsed, ids) && count == |entries|
  {
    entries, count := [], 0;
    for i := 0 to |ids|
      invariant entries == Along(parsed, ids[..i]) && count == |entries|
    {
      var es := ReplaySegment(c, dir[ids[i]]);
      AlongStep(parsed, ids, i);
      entries := entries + es;
      count := count + |es|;
    }
    assert ids[..|ids|] == ids;
  }

  /** `replay`: all segments in ascending order, a bad frame ending only its own segment. */
  method ReplayAll<E>(c: Codec<E>, dir: map<int, seq<byte>>) returns (entries: seq<E>, count: nat)
    ensures entries == Replay(c, dir) && count == |entries|
  {
    ghost var parsed := Parsed(c, dir);
    assert parsed.Keys == dir.Keys;
    AlongAscending(parsed);
    entries, count := ReplayAlong(c, dir, Ascending(dir.Keys), parsed);
  }

  /** `truncate_before`: one pass over the directory, in any order. */
  method TruncateBefore(dir: map<int, seq<byte>>, keepFrom: int) returns (kept: map<int, seq<byte>>, removed: nat)
    ensures kept == From(dir, keepFrom)
    ensures forall id :: (id in kept <==> id in dir && keepFrom <= id) && (id in kept ==> kept[id] == dir[id])
    ensures removed == |Below(dir, keepFrom)| == |set id | id in dir && id < keepFrom|
  {
    kept, removed := dir, 0;
    var todo := dir.Keys;
    ghost var gone: set<int> := {};
    while todo != {}
      invariant todo <= dir.Keys && gone <= dir.Keys - todo
      invariant forall id :: id in dir.Keys - todo ==> (id in gone <==> id < keepFrom)
      invariant kept == dir - gone && removed == |gone|
      decreases |todo|
    {
      // The directory lists its remaining segments in any order: there is one to take.
      ghost var next := Pick(todo);
      var id :| id in todo;
      if id < keepFrom {
        kept := kept - {id};
        gone := gone + {id};
        removed := removed + 1;
      }
      todo := todo - {id};
    }
    assert gone == Below(dir, keepFrom).Keys == set id | id in dir && id < keepFrom;
    assert kept == From(dir, keepFrom);
  }

  /** After truncation replay yields exactly the entries of the kept segments: the full replay is
      the dropped part followed by the kept part. */
  lemma TruncationKeepsSuffix<E>(c: Codec<E>, dir: map<int, seq<byte>>, keepFrom: int)
    ensures Replay(c, dir) == Replay(c, Below(dir, keepFrom)) + Replay(c, From(dir, keepFrom))
  {
    KeyOrderSplits(Parsed(c, dir), keepFrom);
    assert Below(Parsed(c, dir), keepFrom) == Parsed(c, Below(dir, keepFrom));
    assert From(Parsed(c, dir), keepFrom) == Parsed(c, From(dir, keepFrom));
  }
}
