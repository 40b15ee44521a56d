/** The growable, length-prefixed mapped file of `src/storage/mmap.rs` against a plain sequence of
    bytes and of fixed-size records. */
module Mmap {
  import opened Collections
  import opened Bytes

  const HEADER := 8
  const INITIAL := 4 * 1024 * 1024
  const U64_MAX := 0xffff_ffff_ffff_ffff

  /* ---------- records ---------- */

  /** The first `count` records of `size` bytes each. */
  function Chunks(data: seq<byte>, size: nat, count: nat): (rs: seq<seq<byte>>)
    requires size > 0 && count * size <= |data|
    ensures |rs| == count
  {
    if count == 0 then []
    else
      assert (count - 1) * size + size == count * size;
      Chunks(data, size, count - 1) + [data[(count - 1) * size..count * size]]
  }

  function Concat(rs: seq<seq<byte>>): seq<byte> {
    if rs == [] then [] else Concat(rs[..|rs| - 1]) + rs[|rs| - 1]
  }

  predicate AllSized(rs: seq<seq<byte>>, size: nat) {
    forall i :: 0 <= i < |rs| ==> |rs[i]| == size
  }

  lemma {:induction false} ConcatLength(rs: seq<seq<byte>>, size: nat)
    requires AllSized(rs, size)
    ensures |Concat(rs)| == |rs| * size
  {
    if rs != [] {
      ConcatLength(rs[..|rs| - 1], size);
      assert (|rs| - 1) * size + size == |rs| * size;
    }
  }

  /** Chunks look at the front only. */
  lemma {:induction false} ChunksOfFront(data: seq<byte>, more: seq<byte>, size: nat, count: nat)
    requires size > 0 && count * size <= |data|
    ensures Chunks(data + more, size, count) == Chunks(data, size, count)
  {
    if count > 0 {
      assert (count - 1) * size + size == count * size;
      ChunksOfFront(data, more, size, count - 1);
      assert (data + more)[(count - 1) * size..count * size] == data[(count - 1) * size..count * size];
    }
  }

  /** Cutting a concatenation of records gives the records back. */
  lemma {:induction false} ChunksOfConcat(rs: seq<seq<byte>>, size: nat)
    requires size > 0 && AllSized(rs, size)
    ensures |Concat(rs)| == |rs| * size && Chunks(Concat(rs), size, |rs|) == rs
  {
    ConcatLength(rs, size);
    if rs != [] {
      var init, last := rs[..|rs| - 1], rs[|rs| - 1];
      ChunksOfConcat(init, size);
      ChunksOfFront(Concat(init), last, size, |init|);
      assert |init| * size + size == |rs| * size;
      assert Concat(rs)[|init| * size..|rs| * size] == last;
    }
  }

  lemma {:induction false} ChunkAt(data: seq<byte>, size: nat, count: nat, i: nat)
    requires size > 0 && count * size <= |data| && i < count
    ensures 0 <= i * size <= i * size + size <= |data|
    ensures Chunks(data, size, count)[i] == data[i * size..i * size + size]
  {
    assert (count - 1) * size + size == count * size;
    if i < count - 1 {
      ChunkAt(data, size, count - 1, i);
    }
  }

  /* ---------- growth ---------- */

  /** One doubling: `saturating_mul(2).max(INITIAL)`. */
  function Doubled(capacity: nat): nat {
    var twice := if 2 * capacity > U64_MAX then U64_MAX else 2 * capacity;
    if twice < INITIAL then INITIAL else twice
  }

  /** The doubling loop of `grow` ends, with room for what is needed, and with less than twice that
      unless it stopped at the initial size. */
  method GrownCapacity(capacity: nat, needed: nat) returns (grown: nat)
    requires capacity < needed <= U64_MAX
    ensures needed <= grown <= U64_MAX
    ensures grown < 2 * needed || grown == 4_194_304
  {
    grown := capacity;
    while grown < needed
      invariant grown <= U64_MAX && (grown == capacity || grown < 2 * needed || grown == INITIAL)
      decreases needed - grown
    {
      grown := Doubled(grown);
    }
  }

  /* ---------- the file ---------- */

  /** Overwriting behind the header, inside the logical region, leaves the header and splices the
      contents. */
  lemma Overwritten(before: seq<byte>, after: seq<byte>, at: nat, data: seq<byte>, end: nat)
    requires HEADER <= at && at + |data| <= end <= |before| == |after|
    requires after[..at] == before[..at] && after[at..at + |data|] == data && after[at + |data|..] == before[at + |data|..]
    ensures after[..HEADER] == before[..HEADER]
    ensures var was := before[HEADER..end];
            after[HEADER..end] == was[..at - HEADER] + data + was[at - HEADER + |data|..]
  {
    assert after[..HEADER] == after[..at][..HEADER];
    assert before[..HEADER] == before[..at][..HEADER];
    forall i | 0 <= i < |after|
      ensures after[i] == if at <= i < at + |data| then data[i - at] else before[i]
    {
      if i < at {
        assert after[i] == after[..at][i] && before[i] == before[..at][i];
      } else if i < at + |data| {
        assert after[i] == after[at..at + |data|][i - at];
      } else {
        assert after[i] == after[at + |data|..][i - at - |data|];
        assert before[i] == before[at + |data|..][i - at - |data|];
      }
    }
  }

  class MmapFile {
    var mmap: array<byte>
    var len: nat
    var capacity: nat

    /** The header stores the logical length, which fits the capacity. */
    ghost predicate Valid()
      reads this, mmap
    {
      && mmap.Length == HEADER + capacity && len <= capacity <= U64_MAX
      && mmap[..HEADER] == ToLe(len, 8)
    }

    /** The logical contents. */
    ghost function Data(): seq<byte>
      requires Valid()
      reads this, mmap
    {
      mmap[HEADER..HEADER + len]
    }

    /** What is on disk: the whole mapping. */
    ghost function Image(): seq<byte>
      reads this, mmap
    {
      mmap[..]
    }

    /** Open a file with the given bytes; an empty one is allocated and zeroed first.  The stored
        length is believed as it stands: the file is usable exactly when it fits the bytes. */
    constructor Open(image: seq<byte>)
      requires image == [] || HEADER <= |image| <= HEADER + U64_MAX
      ensures fresh(mmap)
      ensures image == [] ==> Valid() && Data() == [] && capacity == INITIAL
      ensures image != [] ==> Image() == image && capacity == |image| - HEADER && len == FromLe(image[..HEADER])
      ensures image != [] ==> (Valid() <==> FromLe(image[..HEADER]) <= |image| - HEADER)
      ensures image != [] && Valid() ==> Data() == image[HEADER..HEADER + len]
    {
      var total := if image == [] then HEADER + INITIAL else |image|;
      var bytes := new byte[total](i => if 0 <= i < |image| then image[i] else 0);
      mmap := bytes;
      len := if image == [] then 0 else FromLe(image[..HEADER]);
      capacity := total - HEADER;
      new;
      if image == [] {
        ZeroHeader();
        assert mmap[..HEADER] == seq(8, _ => 0);
      } else {
        assert mmap[..] == image;
        assert mmap[..HEADER] == image[..HEADER];
        LeInverse(image[..HEADER]);
      }
    }

    /** Remap at a larger size; nothing already stored changes. */
    method Grow(needed: nat)
      requires Valid() && capacity < needed <= U64_MAX
      modifies this`mmap, this`capacity
      ensures Valid() && fresh(mmap) && Data() == old(Data())
      ensures needed <= capacity && (capacity < 2 * needed || capacity == INITIAL)
    {
      var newCapacity := GrownCapacity(capacity, needed);
      var bytes := new byte[HEADER + newCapacity](i => 0);
      forall i | 0 <= i < mmap.Length {
        bytes[i] := mmap[i];
      }
      ghost var before := mmap[..];
      mmap := bytes;
      capacity := newCapacity;
      assert forall i :: 0 <= i < |before| ==> mmap[i] == before[i];
      assert mmap[..|before|] == before;
      assert mmap[..HEADER] == mmap[..|before|][..HEADER];
      assert mmap[HEADER..HEADER + len] == mmap[..|before|][HEADER..HEADER + len];
    }

    /** Copy bytes into the mapping. */
    method CopyIn(offset: nat, data: seq<byte>)
      requires offset + |data| <= mmap.Length
      modifies mmap
      ensures mmap[..offset] == old(mmap[..offset])
      ensures mmap[offset..offset + |data|] == data
      ensures mmap[offset + |data|..] == old(mmap[offset + |data|..])
    {
      forall i | 0 <= i < |data| {
        mmap[offset + i] := data[i];
      }
    }

    /** The write of an append that fits: the data behind the old contents, then the header. */
    method AppendInPlace(data: seq<byte>)
      requires Valid() && len + |data| <= capacity
      modifies this`len, mmap
      ensures Valid() && Data() == old(Data()) + data && len == old(len) + |data|
    {
      ghost var before := mmap[..];
      var end := HEADER + len;
      CopyIn(end, data);
      assert mmap[HEADER..end] == mmap[..end][HEADER..] == before[HEADER..end];
      assert mmap[HEADER..end + |data|] == mmap[HEADER..end] + mmap[end..end + |data|];
      ghost var copied := mmap[..];
      var newLen := len + |data|;
      CopyIn(0, ToLe(newLen, 8));
      assert mmap[HEADER..end + |data|] == mmap[HEADER..][..newLen] == copied[HEADER..][..newLen] == copied[HEADER..end + |data|];
      assert mmap[..HEADER] == mmap[0..HEADER] == ToLe(newLen, 8);
      len := newLen;
    }

    /** Append raw bytes, growing if necessary: earlier bytes never change. */
    method Append(data: seq<byte>) returns (newLen: nat)
      requires Valid() && len + |data| <= U64_MAX
      modifies this, mmap
      ensures Valid() && (mmap == old(mmap) || fresh(mmap))
      ensures Data() == old(Data()) + data && newLen == len == old(len) + |data|
    {
      if data == [] {
        return len;
      }
      var needed := len + |data|;
      if needed > capacity {
        Grow(needed);
      }
      AppendInPlace(data);
      newLen := len;
    }

    method ReadAt(offset: nat, n: nat) returns (slice: Option<seq<byte>>)
      requires Valid()
      ensures slice == if offset + n > len then None else Some(Data()[offset..offset + n])
    {
      if offset + n > len {
        return None;
      }
      assert Data()[offset..offset + n] == mmap[HEADER + offset..HEADER + offset + n];
      slice := Some(mmap[HEADER + offset..HEADER + offset + n]);
    }

    /** Overwrite inside the logical region; out of range is refused and changes nothing. */
    method WriteAt(offset: nat, data: seq<byte>) returns (ok: bool)
      requires Valid()
      modifies mmap
      ensures Valid() && (ok <==> offset + |data| <= len)
      ensures Data() == if ok then old(Data())[..offset] + data + old(Data())[offset + |data|..] else old(Data())
    {
      if offset + |data| > len {
        return false;
      }
      ghost var before := mmap[..];
      CopyIn(HEADER + offset, data);
      Overwritten(before, mmap[..], HEADER + offset, data, HEADER + len);
      ok := true;
    }

    /** The typed slice: whole records only, trailing bytes left out. */
    method AsSlice(size: nat) returns (records: seq<seq<byte>>)
      requires Valid()
      ensures if size == 0 then records == []
              else CountFits(len, size) && records == Chunks(Data(), size, len / size)
    {
      if size == 0 {
        return [];
      }
      WholeRecords(len, size);
      if len == 0 {
        Quotient(0, size, 0);
        return [];
      }
      var count := len / size;
      var usable := count * size;
      var slice := mmap[HEADER..HEADER + usable];
      records := Chunks(slice, size, count);
      assert Data() == slice + mmap[HEADER + usable..HEADER + len];
      ChunksOfFront(slice, mmap[HEADER + usable..HEADER + len], size, count);
    }

    /** Draining the record iterator: an offset advanced until a read falls off the end. */
    method IterRecords(size: nat) returns (records: seq<seq<byte>>)
      requires Valid() && size > 0
      ensures CountFits(len, size) && records == Chunks(Data(), size, len / size)
    {
      records := [];
      var iter := new RecordIter(this, size);
      ghost var n := 0;
      while true
        invariant iter.offset == n * size && iter.offset <= len && records == Chunks(Data(), size, n)
        decreases len - iter.offset
      {
        var record := iter.Next();
        if record.None? {
          break;
        }
        assert (n + 1) * size == iter.offset;
        records := records + [record.value];
        n := n + 1;
      }
      Quotient(len, size, n);
    }

    /** `append_record`: the record behind the old contents, at the offset returned.  Where the file
        held whole records of this size, it afterwards holds those and the new one. */
    method AppendRecord(record: seq<byte>, ghost records: seq<seq<byte>>) returns (offset: nat)
      requires Valid() && len + |record| <= U64_MAX
      modifies this, mmap
      ensures Valid() && (mmap == old(mmap) || fresh(mmap))
      ensures offset == old(len) && Data() == old(Data()) + record
      ensures AllSized(records, |record|) && old(Data()) == Concat(records) ==>
                offset == |records| * |record| && Data() == Concat(records + [record])
    {
      offset := len;
      if AllSized(records, |record|) && Data() == Concat(records) {
        ConcatLength(records, |record|);
      }
      assert (records + [record])[..|records|] == records;
      var _ := Append(record);
    }
  }

  /** `RecordIter`: a position in a file, moved by one record at a time. */
  class RecordIter {
    const file: MmapFile
    const size: nat
    var offset: nat

    constructor (file: MmapFile, size: nat)
      ensures this.file == file && this.size == size && offset == 0
    {
      this.file, this.size, offset := file, size, 0;
    }

    /** `next`: the record at the position, if it is whole; at the end nothing moves.  A record of
        size zero is always there, so such an iterator never ends. */
    method Next() returns (record: Option<seq<byte>>)
      requires file.Valid()
      modifies this
      ensures file.Valid() && file.Data() == old(file.Data())
      ensures if old(offset) + size <= file.len
              then record == Some(file.Data()[old(offset)..old(offset) + size]) && offset == old(offset) + size
              else record == None && offset == old(offset)
    {
      record := file.ReadAt(offset, size);
      if record.Some? {
        offset := offset + size;
      }
    }
  }

  /** Closing and reopening a file gives the same contents. */
  method Reopen(f: MmapFile) returns (g: MmapFile)
    requires f.Valid()
    ensures fresh(g) && fresh(g.mmap) && g.Valid() && g.Data() == f.Data() && g.capacity == f.capacity
  {
    HeaderReadsBack(f.len);
    ghost var image := f.Image();
    g := new MmapFile.Open(f.mmap[..]);
    assert image[..HEADER] == f.mmap[..HEADER];
    assert image[HEADER..HEADER + f.len] == f.Data();
  }

  predicate CountFits(len: nat, size: nat)
    requires size > 0
  {
    len / size * size <= len
  }

  lemma WholeRecords(len: nat, size: nat)
    requires size > 0
    ensures CountFits(len, size)
  {
    assert len == len / size * size + len % size;
  }

  lemma ZeroHeader()
    ensures ToLe(0, 8) == seq(8, _ => 0)
  {
    assert ToLe(0, 4) == [0, 0, 0, 0] by {
      assert ToLe(0, 2) == [0, 0];
    }
    assert ToLe(0, 6) == [0, 0] + ToLe(0, 4);
  }

  lemma Times(a: nat, b: nat, size: nat)
    ensures a <= b ==> a * size <= b * size
  {
    assert b - a >= 0 ==> (b - a) * size >= 0;
    assert (b - a) * size == b * size - a * size;
  }

  lemma Quotient(len: nat, size: nat, n: nat)
    requires size > 0 && n * size <= len < n * size + size
    ensures len / size == n
  {
    var q := len / size;
    assert len == q * size + len % size;
    Times(n + 1, q, size);
    Times(q + 1, n, size);
    assert (n + 1) * size == n * size + size && (q + 1) * size == q * size + size;
  }

  /** Whatever records were appended to an empty file, every reader returns exactly those: the slice
      and the iterator all of them, and a read at offset `i * size` the `i`-th. */
  lemma RecordsReadBack(records: seq<seq<byte>>, size: nat, i: nat)
    requires size > 0 && AllSized(records, size) && i < |records|
    ensures var data := Concat(records);
            && |data| / size == |records| && CountFits(|data|, size)
            && Chunks(data, size, |data| / size) == records
            && i * size + size <= |data| && data[i * size..i * size + size] == records[i]
  {
    ChunksOfConcat(records, size);
    Quotient(|Concat(records)|, size, |records|);
    ChunkAt(Concat(records), size, |records|, i);
  }

  /** Reopening finds the length the header holds. */
  lemma HeaderReadsBack(len: nat)
    requires len <= U64_MAX
    ensures FromLe(ToLe(len, 8)) == len
  {
    assert Pow256(8) == U64_MAX + 1 by {
      assert Pow256(2) == 65536 && Pow256(4) == 4294967296;
      assert Pow256(6) == 65536 * Pow256(4);
    }
    LeRoundTrip(len, 8);
  }
}
