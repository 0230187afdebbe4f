/** Copying values between chunked items: slabs_curd/memcached.c and do_item_alloc_chunk of slabs_curd/items.c. */
module ChunkCopy {
  import opened Common
  import opened Store

  /** A chunk with room for `size` bytes, `data` of which are used. */
  datatype Chunk = Chunk(size: nat, data: Bytes)

  /** A value in one piece, or in a chain of chunks. */
  datatype Source = Flat(data: Bytes) | Chunked(chunks: seq<Chunk>)

  function Data(chunks: seq<Chunk>): Bytes {
    if chunks == [] then [] else Data(chunks[..|chunks| - 1]) + chunks[|chunks| - 1].data
  }

  function Value(s: Source): Bytes {
    match s
    case Flat(d) => d
    case Chunked(c) => Data(c)
  }

  lemma {:induction false} DataSplit(a: seq<Chunk>, b: seq<Chunk>)
    ensures Data(a + b) == Data(a) + Data(b)
  {
    if b == [] {
      assert a + b == a;
    } else {
      assert (a + b)[..|a + b| - 1] == a + b[..|b| - 1];
      DataSplit(a, b[..|b| - 1]);
    }
  }

  lemma DataOne(c: Chunk)
    ensures Data([c]) == c.data
  {
    assert Data([c][..0]) == [];
  }

  predicate Fits(c: Chunk) {
    |c.data| <= c.size
  }

  predicate Full(c: Chunk) {
    |c.data| == c.size
  }

  /** No chunk overflows, and all but the last are full. */
  predicate Packed(chunks: seq<Chunk>) {
    && chunks != [] && Fits(chunks[|chunks| - 1])
    && forall i | 0 <= i < |chunks| - 1 :: Full(chunks[i])
  }

  function Min(a: nat, b: nat): nat {
    if a < b then a else b
  }

  /** A copy: what was there, allocations asked for, room in the last chunk, what the largest chunk holds, and
      the bytes to append. */
  datatype Job = Job(before: Bytes, calls: nat, room: nat, most: nat, bytes: Bytes)

  /** Allocations asked for from when a chunk has filled up with `remain` bytes to go: each new chunk has the
      size of what remains, as far as possible, and so fills up as well, down to one of size 0. */
  function After(remain: nat, most: nat): nat
    requires most > 0
  {
    if remain == 0 then 0 else 1 + After(remain - Min(remain, most), most)
  }

  /** The number of allocations a copy asks for when all are granted: none if the bytes leave room in the last
      chunk, else one for each chunk's worth of the rest, and one for nothing. */
  function Needed(j: Job): nat
    requires j.most > 0
  {
    if j.bytes == [] || |j.bytes| < j.room then 0 else 1 + After(|j.bytes| - j.room, j.most)
  }

  lemma {:induction false} AfterIsCeiling(remain: nat, most: nat)
    requires most > 0
    ensures After(remain, most) * most >= remain && (remain > 0 ==> (After(remain, most) - 1) * most < remain)
  {
    if remain > most { AfterIsCeiling(remain - most, most); }
  }

  /** The bytes in place when allocation number `k` is asked for, the first being number 1. */
  function Filled(j: Job, k: nat): nat {
    if k <= 1 then j.room else Min(Filled(j, k - 1) + j.most, |j.bytes|)
  }

  /** After `done` bytes and `k` allocations there is `room` in the last chunk. */
  predicate OnTrack(j: Job, k: nat, done: nat, room: nat) {
    && j.most > 0 && done <= |j.bytes|
    && (k == 0 ==> done + room == j.room && (done > 0 ==> room > 0))
    && (k > 0 ==>
          && 0 < |j.bytes| && j.room <= |j.bytes| && done + room == Filled(j, k + 1) && (room > 0 <==> done < |j.bytes|)
          && done + room <= |j.bytes|
          && Needed(j) == k + if room > 0 then 1 + After(|j.bytes| - done - room, j.most) else 0)
  }

  lemma TrackTurn(j: Job, k: nat, done: nat, room: nat, m: nat)
    requires OnTrack(j, k, done, room) && done < |j.bytes| && m <= room && done + m <= |j.bytes|
    ensures m < room ==> OnTrack(j, k, done + m, room - m)
    ensures m == room ==>
      && done + m == Filled(j, k + 1) && k < Needed(j)
      && OnTrack(j, k + 1, done + m, Min(|j.bytes| - done - m, j.most))
  {
  }

  lemma TrackEnds(j: Job, k: nat, room: nat)
    requires OnTrack(j, k, |j.bytes|, room)
    ensures k == Needed(j)
  {
  }

  /** When the last of the needed allocations is asked for everything has been copied. */
  lemma {:induction false} LastForNothing(j: Job, k: nat)
    requires j.most > 0 && 0 < k <= Needed(j)
    ensures Filled(j, k) <= |j.bytes|
    ensures Needed(j) == k + After(|j.bytes| - Filled(j, k), j.most)
    ensures Filled(j, k) == |j.bytes| <==> k == Needed(j)
    decreases k
  {
    if k > 1 { LastForNothing(j, k - 1); }
  }

  class Destination {
    var chunks: seq<Chunk>
    /** Allocations asked for so far. */
    var calls: nat
    const header: nat       // sizeof(item_chunk)
    const sizeMax: nat      // slab_chunk_size_max

    constructor (first: nat, header: nat, sizeMax: nat)
      requires header < sizeMax
      ensures Valid() && chunks == [Chunk(first, [])] && Data(chunks) == [] && calls == 0
      ensures this.header == header && this.sizeMax == sizeMax
    {
      chunks := [Chunk(first, [])];
      calls := 0;
      this.header := header;
      this.sizeMax := sizeMax;
      new;
      DataOne(chunks[0]);
    }

    /** The largest chunk has room for data, which is what makes the copy loops end. */
    predicate Valid()
      reads this
    {
      Packed(chunks) && header < sizeMax
    }

    function Last(): Chunk
      requires chunks != []
      reads this
    {
      chunks[|chunks| - 1]
    }

    function Room(): nat
      requires chunks != [] && Fits(Last())
      reads this
    {
      Last().size - |Last().data|
    }

    /** do_item_alloc_chunk behind the last chunk, for `remain` more bytes. */
    method AllocChunk(remain: nat, alloc: nat -> bool) returns (ok: bool)
      requires Valid() && Full(Last())
      modifies this
      ensures Valid() && Data(chunks) == old(Data(chunks)) && calls == old(calls) + 1 && ok == alloc(old(calls))
      ensures ok ==> |chunks| == old(|chunks|) + 1 && Last() == Chunk(Min(remain, sizeMax - header), [])
      ensures !ok ==> chunks == old(chunks)
    {
      ok := alloc(calls);
      calls := calls + 1;
      if ok {
        var size := remain + header;
        if size > sizeMax { size := sizeMax; }
        var nch := Chunk(size - header, []);
        DataSplit(chunks, [nch]);
        DataOne(nch);
        chunks := chunks + [nch];
      }
    }

    /** memcpy into the last chunk. */
    method Fill(bytes: Bytes)
      requires Valid() && |bytes| <= Room()
      modifies this`chunks
      ensures Valid() && Data(chunks) == old(Data(chunks)) + bytes
      ensures |chunks| == old(|chunks|) && Last() == old(Last()).(data := old(Last()).data + bytes)
    {
      var n := |chunks| - 1;
      ghost var init := chunks[..n];
      chunks := chunks[n := chunks[n].(data := chunks[n].data + bytes)];
      assert chunks[..n] == init;
    }

    /** One turn of either loop: fill, and get another chunk when the last one is full. */
    method Append(bytes: Bytes, remain: nat, alloc: nat -> bool) returns (ok: bool)
      requires Valid() && |bytes| <= Room()
      modifies this
      ensures Valid() && Data(chunks) == old(Data(chunks)) + bytes
      ensures calls == old(calls) + (if |bytes| == old(Room()) then 1 else 0)
      ensures ok <==> calls == old(calls) || alloc(old(calls))
      ensures ok ==> Room() == if |bytes| == old(Room()) then Min(remain, sizeMax - header) else old(Room()) - |bytes|
      ensures ok && |bytes| == old(Room()) ==> Last().data == []
    {
      Fill(bytes);
      ok := true;
      if Last().size == |Last().data| { ok := AllocChunk(remain, alloc); }
    }

    /** What a copy promises. It succeeds if and only if the allocations it needs are granted, and has then
        appended all bytes; when it had to allocate it leaves a chunk of size 0 behind. Else it ends with the
        first allocation that is refused and has appended what fitted before. */
    ghost predicate Copied(j: Job, ret: int, alloc: nat -> bool)
      reads this
    {
      && Valid() && j.most == sizeMax - header && (ret == 0 || ret == -1)
      && (ret == 0 <==> forall i | j.calls <= i < j.calls + Needed(j) :: alloc(i))
      && (ret == 0 ==>
            && Data(chunks) == j.before + j.bytes && calls == j.calls + Needed(j)
            && (calls > j.calls ==> Last() == Chunk(0, [])))
      && (ret == -1 ==>
            && j.calls < calls <= j.calls + Needed(j) && !alloc(calls - 1) && (forall i | j.calls <= i < calls - 1 :: alloc(i))
            && Filled(j, calls - j.calls) <= |j.bytes|
            && Data(chunks) == j.before + j.bytes[..Filled(j, calls - j.calls)])
    }

    /** A copy can fail with all bytes in place: exactly when it is the last allocation that is refused. */
    lemma FailsWithoutNeed(j: Job, ret: int, alloc: nat -> bool)
      requires Copied(j, ret, alloc) && ret == -1
      ensures Data(chunks) == j.before + j.bytes <==> calls == j.calls + Needed(j)
    {
      LastForNothing(j, calls - j.calls);
    }

    /** After `done` of the bytes, with all allocations granted so far. */
    ghost predicate Underway(j: Job, done: nat, alloc: nat -> bool)
      reads this
    {
      && Valid() && j.most == sizeMax - header && done <= |j.bytes| && Data(chunks) == j.before + j.bytes[..done]
      && j.calls <= calls && (forall i | j.calls <= i < calls :: alloc(i))
      && OnTrack(j, calls - j.calls, done, Room())
      && (calls > j.calls && done == |j.bytes| ==> Last() == Chunk(0, []))
    }

    ghost function Start(bytes: Bytes): Job
      requires Valid()
      reads this
    {
      Job(Data(chunks), calls, Room(), sizeMax - header, bytes)
    }

    static lemma Extends(before: Bytes, bytes: Bytes, done: nat, next: nat)
      requires done <= next <= |bytes|
      ensures before + bytes[..done] + bytes[done..next] == before + bytes[..next]
    {
    }

    /** A turn of a loop: the next bytes. */
    method Turn(piece: Bytes, remain: nat, alloc: nat -> bool, ghost j: Job, ghost done: nat, ghost next: nat)
      returns (ok: bool)
      requires Underway(j, done, alloc) && |piece| <= Room() && done < |j.bytes| && next == done + |piece| <= |j.bytes|
      requires j.bytes[done..next] == piece && remain == |j.bytes| - next
      modifies this
      ensures if ok then Underway(j, next, alloc) else Copied(j, -1, alloc)
      ensures ok ==> Room() == if |piece| == old(Room()) then Min(remain, sizeMax - header) else old(Room()) - |piece|
    {
      ghost var k, room := calls - j.calls, Room();
      ok := Append(piece, remain, alloc);
      Extends(j.before, j.bytes, done, next);
      TrackTurn(j, k, done, room, |piece|);
    }

    lemma Finished(j: Job, alloc: nat -> bool)
      requires Underway(j, |j.bytes|, alloc)
      ensures Copied(j, 0, alloc)
    {
      TrackEnds(j, calls - j.calls, Room());
      assert j.bytes[..|j.bytes|] == j.bytes;
    }

    /** The loop for a source in one piece. */
    method CopyFlat(data: Bytes, len: nat, alloc: nat -> bool) returns (ret: int)
      requires Valid() && len <= |data|
      modifies this
      ensures Copied(old(Start(data[..len])), ret, alloc)
    {
      ghost var j := Start(data[..len]);
      var done: nat := 0;
      while len > done
        invariant Underway(j, done, alloc)
        decreases len - done, if Room() == 0 then 1 else 0
      {
        var room := Last().size - |Last().data|;
        var todo := if room < len - done then room else len - done;
        SubSlice(data, 0, len, done, done + todo);
        var ok := Turn(data[done..done + todo], len - done - todo, alloc, j, done, done + todo);
        if !ok { return -1; }
        done := done + todo;
      }
      Finished(j, alloc);
      return 0;
    }

    /** The loop for a source in chunks, which need not be full and may be empty. */
    method CopyChunked(src: seq<Chunk>, len: nat, alloc: nat -> bool) returns (ret: int)
      requires Valid() && len <= |Data(src)|
      modifies this
      ensures Copied(old(Start(Data(src)[..len])), ret, alloc)
    {
      ghost var j := Start(Data(src)[..len]);
      var remain: nat, i: nat, copied: nat := len, 0, 0;
      ghost var done: nat := 0;
      while i < |src| && remain > 0
        invariant done + remain == len && At(src, i, copied, done) && Underway(j, done, alloc)
        decreases remain, |src| - i, if Room() == 0 then 1 else 0
      {
        var todo := Todo(src[i], copied, remain);
        ghost var next := done + todo;
        NextPiece(src, i, copied, done, todo, len);
        var ok := Turn(src[i].data[copied..copied + todo], remain - todo, alloc, j, done, next);
        if !ok { return -1; }
        copied := copied + todo;
        remain := remain - todo;
        done := next;
        if copied == |src[i].data| {
          DataNext(src, i);
          copied := 0;
          i := i + 1;
        }
      }
      AtEnd(src, i, copied, done);
      Finished(j, alloc);
      return 0;
    }

    /** As much as the source's chunk has, the last chunk has room for, and is still asked for. */
    function Todo(c: Chunk, copied: nat, remain: nat): (todo: nat)
      requires Valid() && copied <= |c.data|
      reads this
      ensures todo <= Room() && todo <= remain && copied + todo <= |c.data|
      ensures todo == Room() || todo == remain || copied + todo == |c.data|
    {
      var todo := if Room() < |c.data| - copied then Room() else |c.data| - copied;
      if remain < todo then remain else todo
    }

    /** _store_item_copy_chunks */
    method CopyChunks(src: Source, len: nat, alloc: nat -> bool) returns (ret: int)
      requires Valid() && len <= |Value(src)|
      modifies this
      ensures Copied(old(Start(Value(src)[..len])), ret, alloc)
    {
      match src
      case Flat(data) => ret := CopyFlat(data, len, alloc);
      case Chunked(c) => ret := CopyChunked(c, len, alloc);
    }

    /** _store_item_copy_data into a chunked item: the joined value, without the line end in the middle. */
    method CopyData(cmd: Command, was: Source, add: Source, alloc: nat -> bool) returns (ret: int)
      requires Valid() && Data(chunks) == [] && |Value(was)| >= 2 && |Value(add)| >= 2
      modifies this
      ensures Valid() && (ret == 0 || ret == -1)
      ensures ret == 0 ==> Data(chunks) == Joined(cmd, Value(was), Value(add))
      ensures ret == -1 ==> exists i :: old(calls) <= i < calls && !alloc(i)
    {
      if cmd == Store.Append {
        ret := CopyTwo(was, add, alloc);
      } else {
        ret := CopyTwo(add, was, alloc);
      }
    }

    method CopyTwo(first: Source, second: Source, alloc: nat -> bool) returns (ret: int)
      requires Valid() && Data(chunks) == [] && |Value(first)| >= 2
      modifies this
      ensures Valid() && (ret == 0 || ret == -1)
      ensures ret == 0 ==> Data(chunks) == Value(first)[..|Value(first)| - 2] + Value(second)
      ensures ret == -1 ==> exists i :: old(calls) <= i < calls && !alloc(i)
    {
      var n, m := Length(first), Length(second);
      ret := CopyAll(first, n - 2, alloc);
      if ret == 0 {
        ret := CopyAll(second, m, alloc);
        assert Value(second)[..m] == Value(second);
      }
    }

    method CopyAll(src: Source, len: nat, alloc: nat -> bool) returns (ret: int)
      requires Valid() && len <= |Value(src)|
      modifies this
      ensures Valid() && (ret == 0 || ret == -1) && old(calls) <= calls
      ensures ret == 0 ==> Data(chunks) == old(Data(chunks)) + Value(src)[..len]
      ensures ret == -1 ==> exists i :: old(calls) <= i < calls && !alloc(i)
    {
      ret := CopyChunks(src, len, alloc);
    }
  }

  /** nbytes of an item. */
  function Length(s: Source): (n: nat)
    ensures n == |Value(s)|
  {
    match s
    case Flat(d) => |d|
    case Chunked(c) => DataLength(c)
  }

  function DataLength(c: seq<Chunk>): (n: nat)
    ensures n == |Data(c)|
  {
    if c == [] then 0 else DataLength(c[..|c| - 1]) + |c[|c| - 1].data|
  }

  /** Byte `copied` of chunk `i` is byte `done` of the value. */
  predicate At(src: seq<Chunk>, i: nat, copied: nat, done: nat) {
    i <= |src| && done == |Data(src[..i])| + copied && if i < |src| then copied <= |src[i].data| else copied == 0
  }

  lemma NextPiece(src: seq<Chunk>, i: nat, copied: nat, done: nat, todo: nat, len: nat)
    requires At(src, i, copied, done) && i < |src| && copied + todo <= |src[i].data| && done + todo <= len <= |Data(src)|
    ensures Data(src)[..len][done..done + todo] == src[i].data[copied..copied + todo]
    ensures At(src, i, copied + todo, done + todo)
  {
    PieceOf(src, i, copied, todo);
    SubSlice(Data(src), 0, len, done, done + todo);
  }

  lemma AtEnd(src: seq<Chunk>, i: nat, copied: nat, done: nat)
    requires At(src, i, copied, done)
    ensures i == |src| ==> done == |Data(src)|
  {
    assert i == |src| ==> src[..i] == src;
  }

  lemma DataNext(src: seq<Chunk>, i: nat)
    requires i < |src|
    ensures Data(src[..i + 1]) == Data(src[..i]) + src[i].data
  {
    assert src[..i + 1][..i] == src[..i];
  }

  /** A piece of a chunk, seen in the whole value. */
  lemma PieceOf(src: seq<Chunk>, i: nat, at: nat, n: nat)
    requires i < |src| && at + n <= |src[i].data|
    ensures var o := |Data(src[..i])| + at;
      o + n <= |Data(src)| && Data(src)[o..o + n] == src[i].data[at..at + n]
  {
    DataNext(src, i);
    DataSplit(src[..i + 1], src[i + 1..]);
    assert src == src[..i + 1] + src[i + 1..];
    var o := |Data(src[..i])|;
    assert Data(src) == Data(src[..i]) + src[i].data + Data(src[i + 1..]);
    assert Data(src)[o..o + |src[i].data|] == src[i].data;
    SubSlice(Data(src), o, o + |src[i].data|, at, at + n);
  }

  /** Such a failure: 5 bytes into a chunk with room for 3, and memory for one more chunk. */
  method NeedlessFailure(bytes: Bytes, header: nat, sizeMax: nat) returns (d: Destination, ret: int)
    requires |bytes| == 5 && header + 2 <= sizeMax
    ensures ret == -1 && Data(d.chunks) == bytes && d.calls == 2
  {
    d := new Destination(3, header, sizeMax);
    ghost var j := d.Start(bytes[..5]);
    assert bytes[..5] == bytes;
    var alloc: nat -> bool := i => i == 0;
    ret := d.CopyFlat(bytes, 5, alloc);
    assert After(2, j.most) == 1 + After(0, j.most);
    assert alloc(0) && !alloc(1) && Filled(j, 2) == 5;
  }

  // ----- items in one piece -----------------------------------------------------------------

  /** memcpy */
  method Copy(dst: array<byte>, at: nat, src: Bytes)
    requires at + |src| <= dst.Length
    modifies dst
    ensures dst[..] == old(dst[..at]) + src + old(dst[at + |src|..])
  {
    forall i | 0 <= i < |src| { dst[at + i] := src[i]; }
  }

  /** _store_item_copy_data into an item in one piece: the second copy overwrites the first line end. */
  method CopyDataFlat(cmd: Command, data: array<byte>, was: Bytes, add: Bytes)
    requires |was| >= 2 && |add| >= 2 && data.Length == |was| + |add| - 2
    modifies data
    ensures data[..] == Joined(cmd, was, add)
  {
    if cmd == Store.Append {
      Copy(data, 0, was);
      Copy(data, |was| - 2, add);
    } else {
      Copy(data, 0, add);
      Copy(data, |add| - 2, was);
    }
  }

  // ----- into a write buffer ----------------------------------------------------------------

  /** The copy loop of storage_write: a chunked value goes into the buffer in one piece. */
  method Gather(buf: array<byte>, hdrTotal: nat, chunks: seq<Chunk>, total: nat)
    requires hdrTotal > 0 && total == hdrTotal + |Data(chunks)| <= buf.Length
    modifies buf
    ensures buf[..] == old(buf[..hdrTotal]) + Data(chunks) + old(buf[total..])
  {
    var remain, copied, i := total, hdrTotal, 0;
    ghost var before := buf[..];
    assert chunks[..0] == [];
    while i < |chunks| && remain > 0
      invariant i <= |chunks| && copied == hdrTotal + |Data(chunks[..i])| <= total && remain == total - |Data(chunks[..i])|
      invariant buf[..] == before[..hdrTotal] + Data(chunks[..i]) + before[copied..]
    {
      PieceOf(chunks, i, 0, |chunks[i].data|);
      DataNext(chunks, i);
      Copy(buf, copied, chunks[i].data);
      Gathered(before, buf[..], hdrTotal, Data(chunks[..i]), chunks[i].data);
      remain := remain - |chunks[i].data|;
      copied := copied + |chunks[i].data|;
      i := i + 1;
    }
    assert i == |chunks| ==> chunks[..i] == chunks;
  }

  lemma Gathered(before: Bytes, after: Bytes, hdr: nat, x: Bytes, y: Bytes)
    requires hdr + |x| + |y| <= |before|
    requires var was := before[..hdr] + x + before[hdr + |x|..];
      after == was[..hdr + |x|] + y + was[hdr + |x| + |y|..]
    ensures after == before[..hdr] + (x + y) + before[hdr + |x| + |y|..]
  {
    var was := before[..hdr] + x + before[hdr + |x|..];
    assert was[..hdr + |x|] == before[..hdr] + x;
    assert was[hdr + |x| + |y|..] == before[hdr + |x| + |y|..];
  }
}
