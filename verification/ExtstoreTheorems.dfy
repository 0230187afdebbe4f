/** Read-your-writes, conservation, page life cycle and the totals of extstore. */
module ExtstoreTheorems {
  import opened Common
  import opened ItemImage
  import opened Extstore
  import opened ExtstoreInv
  import opened ExtstoreSteps
  import opened ExtstorePages
  import opened ExtstoreRuns
  import opened ExtstoreSafety

  // ----- extstore_init ----------------------------------------------------------------------

  function PagesOf(fb: seq<nat>, f: nat, n: nat): (r: seq<nat>)
    requires n <= |fb|
    ensures NoDup(r) && forall i: nat :: i in r <==> 0 < i < n && fb[i] == f
  {
    if n <= 1 then []
    else
      var r := PagesOf(fb, f, n - 1);
      if fb[n - 1] == f then r + [n - 1] else r
  }

  ghost predicate Conf(g: Config, fb: seq<nat>) {
    Sizes(g) && g.pages > 0 && |fb| == g.pages && forall i | 0 <= i < |fb| :: fb[i] < g.buckets
  }

  /** The engine as extstore_init leaves it; page `i` belongs to free bucket `fb[i]`. */
  function Boot(g: Config, fb: seq<nat>): State
    requires |fb| == g.pages > 0
  {
    State(seq(g.pages, i requires 0 <= i < g.pages =>
                Page(0, false, false, true, 0, 0, 0, 0, fb[i], 0, 0, None, [])),
          seq(g.pages, i => Zeros(PageSize(g))),
          seq(g.wbufs, i requires 0 <= i => i), g.wbufs, [],
          seq(g.buckets, b => []), PagesOf(fb, 0, g.pages),
          seq(g.buckets, f requires 0 <= f => if f == 0 then [] else PagesOf(fb, f, g.pages)),
          g.pages - 1, 1, [], [], seq(g.buckets, b => Idle), Asleep, 0, 0)
  }

  lemma {:induction false} SumConst(pages: seq<Page>, f: Page -> nat, c: nat)
    requires forall i | 0 <= i < |pages| :: f(pages[i]) == c
    ensures Sum(pages, f) == c * |pages|
  {
    if pages != [] {
      SumConst(pages[..|pages| - 1], f, c);
      assert c * (|pages| - 1) + c == c * |pages|;
    }
  }

  lemma BootInv(g: Config, fb: seq<nat>)
    requires Conf(g, fb)
    ensures Inv(g, Boot(g, fb))
  {
    var s := Boot(g, fb);
    SumConst(s.pages, HasWbuf, 0);
    SumConst(s.pages, HasFull, 0);
    SumConst(s.pages, IsFree, 1);
    BootLists(g, fb);
  }

  lemma BootLists(g: Config, fb: seq<nat>)
    requires Conf(g, fb) && Sum(Boot(g, fb).pages, IsFree) == g.pages
    ensures ListsOk(g, Boot(g, fb))
  {
    var s := Boot(g, fb);
    forall f | 0 <= f < |s.freeBuckets| ensures FreeBucketOk(s, f) {
      if f > 0 { assert s.freeBuckets[f] == PagesOf(fb, f, g.pages); }
    }
  }

  lemma Reachable(g: Config, fb: seq<nat>, actions: seq<Action>)
    requires Conf(g, fb)
    ensures Inv(g, Run(g, Boot(g, fb), actions))
  {
    BootInv(g, fb);
    RunKeeps(g, Boot(g, fb), actions);
  }

  // ----- read your writes -------------------------------------------------------------------

  lemma ObjectInBlock(objs: seq<Bytes>, j: nat)
    requires j < |objs|
    ensures |Concat(objs[..j])| + |objs[j]| <= |Concat(objs)|
    ensures Concat(objs)[|Concat(objs[..j])|..|Concat(objs[..j])| + |objs[j]|] == objs[j]
  {
    assert objs == objs[..j] + ([objs[j]] + objs[j + 1..]);
    ConcatSplit(objs[..j], [objs[j]] + objs[j + 1..]);
    assert Concat([objs[j]] + objs[j + 1..]) == objs[j] + Concat(objs[j + 1..]);
  }

  lemma SliceOfSlice(d: Bytes, at: nat, n: nat, o: nat, l: nat, x: Bytes)
    requires at + n <= |d| && o + l <= |x| <= n && d[at..at + n][..|x|] == x
    ensures at + o + l <= |d| && d[at + o..at + o + l] == x[o..o + l]
  {
    SubSlice(d[at..at + n], 0, |x|, o, o + l);
    SubSlice(d, at, at + n, o, o + l);
  }

  /** An object of a packed block stands in the block at its place. */
  lemma ObjectInPage(d: Bytes, at: nat, n: nat, objs: seq<Bytes>, j: nat)
    requires j < |objs| && |Concat(objs)| <= n && at + n <= |d| && d[at..at + n] == Pack(objs, n)
    ensures var o := at + |Concat(objs[..j])|; o + |objs[j]| <= |d| && d[o..o + |objs[j]|] == objs[j]
  {
    ObjectInBlock(objs, j);
    assert Pack(objs, n)[..|Concat(objs)|] == Concat(objs);
    SliceOfSlice(d, at, n, |Concat(objs[..j])|, |objs[j]|, Concat(objs));
  }

  lemma ObjectAt(d: Bytes, at: nat, n: nat, objs: seq<Bytes>, j: nat, offset: nat, data: Bytes)
    requires j < |objs| && |Concat(objs)| <= n && at + n <= |d| && d[at..at + n] == Pack(objs, n)
    requires objs[j] == data && offset == at + |Concat(objs[..j])|
    ensures offset + |data| <= |d| && d[offset..offset + |data|] == data
  {
    ObjectInPage(d, at, n, objs, j);
  }

  /** An object in a block on disk is where its receipt says. */
  lemma ObjectOnDisk(g: Config, p: Page, d: Bytes, r: Receipt)
    requires Located(g, p, r) && BlockOnDisk(g, d, r.block, p.blocks[r.block])
    ensures r.offset + |r.data| <= |d| && d[r.offset..r.offset + |r.data|] == r.data
  {
    var at, objs := r.block * g.size, p.blocks[r.block];
    ObjectAt(d, at, g.size, objs, r.index, r.offset, r.data);
  }

  /** Which side of `written` an object lies on tells whether its block is on disk. */
  lemma Side(g: Config, p: Page, r: Receipt)
    requires Sizes(g) && WbufOk(g, p) && Located(g, p, r) && IsImage(r.data)
    requires |Concat(p.blocks[r.block])| <= g.size
    ensures r.offset < p.written <==> r.block < OnDiskCount(p)
  {
    ObjectInBlock(p.blocks[r.block], r.index);
    if r.block < OnDiskCount(p) {
      Step(r.block, OnDiskCount(p), g.size);
    } else if OnDiskCount(p) < r.block {
      Step(OnDiskCount(p), r.block, g.size);
    }
  }

  function ReadOf(r: Receipt): Read {
    Read(r.page, r.version, r.offset, |r.data|)
  }

  /** A read under a receipt misses exactly when its page was closed, freed or reused since. */
  lemma ReceiptRead(g: Config, s: State, r: Receipt)
    requires Inv(g, s) && r in s.receipts
    ensures match CheckRead(s, ReadOf(r))
            case Miss => r.page < |s.pages| && (s.pages[r.page].version != r.version || s.pages[r.page].closed)
            case FromBuffer(bytes) => bytes == r.data
            case FromDisk => DiskBytes(s, ReadOf(r)) == r.data
    ensures r.page < |s.pages| && (s.pages[r.page].version == r.version && !s.pages[r.page].closed ==>
              !CheckRead(s, ReadOf(r)).Miss?)
  {
    var k :| 0 <= k < |s.receipts| && s.receipts[k] == r;
    assert ReceiptOk(g, s, s.receipts[k]);
    assert PageOk(g, s.pages[r.page], s.disk[r.page], r.page, s.version);
    if s.pages[r.page].version == r.version && !s.pages[r.page].closed { LiveRead(g, s, r); }
  }

  lemma LiveRead(g: Config, s: State, r: Receipt)
    requires Sizes(g) && r.page < |s.pages| == |s.disk| && IsImage(r.data)
    requires PageOk(g, s.pages[r.page], s.disk[r.page], r.page, s.version) && Located(g, s.pages[r.page], r)
    requires s.pages[r.page].version == r.version > 0 && !s.pages[r.page].closed
    ensures match CheckRead(s, ReadOf(r))
            case Miss => false
            case FromBuffer(bytes) => bytes == r.data
            case FromDisk => DiskBytes(s, ReadOf(r)) == r.data
  {
    var p := s.pages[r.page];
    BlockServed(g, p, s.disk[r.page], r, s.version);
    if r.offset >= p.written { FromItsBuffer(g, p, r); }
  }

  /** Below `written` the disk has the object, from `written` on the buffer has it. */
  lemma BlockServed(g: Config, p: Page, d: Bytes, r: Receipt, version: nat)
    requires Sizes(g) && PageOk(g, p, d, r.page, version) && !p.free && Located(g, p, r) && IsImage(r.data)
    ensures r.offset >= p.written ==> p.active && p.wbuf.Some? && r.block == |p.blocks| - 1
    ensures r.offset < p.written ==> r.offset + |r.data| <= |d| && d[r.offset..r.offset + |r.data|] == r.data
  {
    Side(g, p, r);
    if r.block < OnDiskCount(p) { ObjectOnDisk(g, p, d, r); }
  }

  lemma FromItsBuffer(g: Config, p: Page, r: Receipt)
    requires Sizes(g) && WbufOk(g, p) && Located(g, p, r) && p.wbuf.Some? && r.block == |p.blocks| - 1
    ensures var w := p.wbuf.value;
      && w.offset <= r.offset && r.offset - w.offset + |r.data| <= |w.content|
      && w.content[r.offset - w.offset..r.offset - w.offset + |r.data|] == r.data
  {
    ObjectInBlock(p.blocks[r.block], r.index);
  }

  /** A pread that is under way keeps its page, and delivers the object whenever it happens. */
  lemma PinnedRead(g: Config, s: State, k: nat, r: Receipt)
    requires Inv(g, s) && k < |s.pinned| && s.pinned[k] == ReadOf(r) && r in s.receipts
    ensures DiskBytes(s, s.pinned[k]) == r.data
    ensures CanEndRead(s, k) && !s.pages[r.page].free
  {
    var l :| 0 <= l < |s.receipts| && s.receipts[l] == r;
    assert ReceiptOk(g, s, s.receipts[l]) && PinOk(g, s, s.pinned[k]);
    assert PageOk(g, s.pages[r.page], s.disk[r.page], r.page, s.version);
    PinCounts(s.pinned, k);
    BlockServed(g, s.pages[r.page], s.disk[r.page], r, s.version);
  }

  /** Read your writes: in every run, of every object ever written, a read either misses because its page
      was closed, freed or reused, or returns exactly the bytes written, from the buffer or from disk,
      and so does every read that is still waiting for the disk. */
  lemma ReadYourWrites(g: Config, fb: seq<nat>, actions: seq<Action>, r: Receipt)
    requires Conf(g, fb) && r in Run(g, Boot(g, fb), actions).receipts
    ensures var s := Run(g, Boot(g, fb), actions);
      && r.page < |s.pages|
      && (match CheckRead(s, ReadOf(r))
          case Miss => s.pages[r.page].version != r.version || s.pages[r.page].closed
          case FromBuffer(bytes) => bytes == r.data
          case FromDisk => DiskBytes(s, ReadOf(r)) == r.data)
      && forall k | 0 <= k < |s.pinned| && s.pinned[k] == ReadOf(r) :: DiskBytes(s, s.pinned[k]) == r.data
  {
    var s := Run(g, Boot(g, fb), actions);
    Reachable(g, fb, actions);
    ReceiptRead(g, s, r);
    forall k | 0 <= k < |s.pinned| && s.pinned[k] == ReadOf(r) ensures DiskBytes(s, s.pinned[k]) == r.data {
      PinnedRead(g, s, k, r);
    }
  }

  /** Where a write into page `p` finds room: behind what its buffer holds, or at the start of a new one. */
  function Grant(g: Config, s: State, p: Page, len: nat): Option<nat> {
    if p.active && p.wbuf.Some? && !p.wbuf.value.full && len <= Room(g, p.wbuf.value) then
      Some(p.wbuf.value.offset + |p.wbuf.value.content|)
    else if p.active && p.wbuf.None? && p.reserved < PageSize(g) && s.wbufStack != [] && len <= g.size then
      Some(p.reserved)
    else None
  }

  /** A write succeeds exactly when its page is active and has room, and then adds one receipt with the page,
      version and offset that extstore_write returns. */
  lemma WriteReceipt(g: Config, s: State, b: nat, data: Bytes)
    requires Inv(g, s) && CanWrite(g, s, b, data)
    ensures var i := s.writers[b].page; var t := Write(g, s, b, data);
      match Grant(g, s, s.pages[i], |data|)
      case None => t.receipts == s.receipts
      case Some(offset) =>
        && |t.receipts| == |s.receipts| + 1 && t.receipts[..|s.receipts|] == s.receipts
        && var r := t.receipts[|s.receipts|];
           r.page == i && r.version == s.pages[i].version && r.offset == offset && r.data == data
  {
    assert PageOk(g, s.pages[s.writers[b].page], s.disk[s.writers[b].page], s.writers[b].page, s.version);
  }

  /** No other step adds a receipt or takes one away. */
  lemma OthersKeepReceipts(g: Config, s: State, a: Action)
    requires Inv(g, s) && Enabled(g, s, a) && !a.AWrite?
    ensures Apply(g, s, a).receipts == s.receipts
  {
    match a
    case ABegin(b, fb) => if s.buckets[b] == [] { AllocateReceipts(g, s, b, fb); }
    case ATurn(b, fb) => AllocateReceipts(g, s, b, fb);
    case _ => RestReceipts(g, s, a);
  }

  lemma RestReceipts(g: Config, s: State, a: Action)
    requires Enabled(g, s, a) && !a.ABegin? && !a.ATurn? && !a.AWrite?
    ensures Apply(g, s, a).receipts == s.receipts
  {
  }

  lemma AllocateReceipts(g: Config, s: State, b: nat, fb: nat)
    requires HeadFull(g, s, b)
    ensures AllocatePage(g, s, b, fb).receipts == s.receipts
  {
  }

  // ----- unpacking --------------------------------------------------------------------------

  /** What the compactor reads back from any flushed buffer of any page in use is the list of the objects
      written into it, in order, each once. */
  lemma ReadbackBlock(g: Config, fb: seq<nat>, actions: seq<Action>, i: nat, b: nat)
    requires Conf(g, fb) && i < g.pages
    requires var s := Run(g, Boot(g, fb), actions);
      i < |s.pages| && !s.pages[i].free && b < OnDiskCount(s.pages[i])
    ensures var s := Run(g, Boot(g, fb), actions);
      && i < |s.disk| && b < |s.pages[i].blocks| && ReadsBack(g, s.disk[i], b, s.pages[i].blocks[b])
  {
    Reachable(g, fb, actions);
    ReadbackPage(g, Run(g, Boot(g, fb), actions), i, b);
  }

  /** Walking block `b` of a page file gives the objects `objs`. */
  ghost predicate ReadsBack(g: Config, d: Bytes, b: nat, objs: seq<Bytes>) {
    b * g.size + g.size <= |d| && Walk(d[b * g.size..b * g.size + g.size], 0) == objs
  }

  lemma ReadbackPage(g: Config, s: State, i: nat, b: nat)
    requires PagesOk(g, s) && i < |s.pages| && !s.pages[i].free && b < OnDiskCount(s.pages[i])
    ensures ReadsBack(g, s.disk[i], b, s.pages[i].blocks[b])
  {
    assert PageOk(g, s.pages[i], s.disk[i], i, s.version);
    assert BlockOnDisk(g, s.disk[i], b, s.pages[i].blocks[b]);
    RoundTrip(s.pages[i].blocks[b], g.size);
  }

  // ----- buffers, ios and assertions --------------------------------------------------------

  /** Buffers and ios are conserved, the coupling of a page with its buffer holds, and no step runs into
      an empty io stack or a failing assertion. */
  lemma Conservation(g: Config, fb: seq<nat>, actions: seq<Action>)
    requires Conf(g, fb)
    ensures var s := Run(g, Boot(g, fb), actions);
      && |s.wbufStack| + Sum(s.pages, HasWbuf) == g.wbufs && |s.ios| + s.ioFree == g.wbufs
      && (forall i | 0 <= i < |s.pages| ::
            var p := s.pages[i];
            && p.reserved <= PageSize(g)
            && (if p.wbuf.Some? then p.written == p.wbuf.value.offset && p.reserved == p.wbuf.value.offset + g.size
                else p.written == p.reserved))
      && (forall i | 0 <= i < |s.pages| && s.pages[i].wbuf.Some? && !s.pages[i].wbuf.value.full :: s.ioFree > 0)
      && (forall k | 0 <= k < |s.ios| :: FlushAsserts(s, s.ios[k]))
      && (forall b | 0 <= b < |s.writers| ::
            (s.writers[b].NeedPage? || (s.writers[b].Idle? && b < |s.buckets| && s.buckets[b] == [])) ==> HeadFull(g, s, b))
  {
    var s := Run(g, Boot(g, fb), actions);
    Reachable(g, fb, actions);
    forall i | 0 <= i < |s.pages| ensures var p := s.pages[i];
      && p.reserved <= PageSize(g)
      && (if p.wbuf.Some? then p.written == p.wbuf.value.offset && p.reserved == p.wbuf.value.offset + g.size
          else p.written == p.reserved)
    {
      PageCoupling(g, s, i);
    }
    forall i | 0 <= i < |s.pages| && s.pages[i].wbuf.Some? && !s.pages[i].wbuf.value.full ensures s.ioFree > 0 {
      IoAvailable(g, s, i);
    }
    forall k | 0 <= k < |s.ios| ensures FlushAsserts(s, s.ios[k]) { FlushAssertsHold(g, s, k); }
    forall b | 0 <= b < |s.writers| &&
      (s.writers[b].NeedPage? || (s.writers[b].Idle? && b < |s.buckets| && s.buckets[b] == []))
      ensures HeadFull(g, s, b)
    {
      assert WriterOk(g, s, b);
      HeadIsFull(g, s, b);
    }
  }

  lemma PageCoupling(g: Config, s: State, i: nat)
    requires Inv(g, s) && i < |s.pages|
    ensures var p := s.pages[i];
      && p.reserved <= PageSize(g)
      && (if p.wbuf.Some? then p.written == p.wbuf.value.offset && p.reserved == p.wbuf.value.offset + g.size
          else p.written == p.reserved)
  {
    var p := s.pages[i];
    assert PageOk(g, p, s.disk[i], i, s.version);
    if !p.free {
      RoomLeft(g, p);
      if p.wbuf.Some? { assert (|p.blocks| - 1) * g.size + g.size == |p.blocks| * g.size; }
    }
  }

  /** The assertion on top of _allocate_page needs the rule of one writing thread per bucket: right after a
      page was taken for a bucket, a second request for the same bucket would fail it. */
  lemma SecondWriterAsserts(g: Config, s: State, b: nat, fb: nat)
    requires Inv(g, s) && HeadFull(g, s, b) && PickFree(s, fb).Some?
    ensures !HeadFull(g, AllocatePage(g, s, b, fb), b)
  {
    Picked(g, s, fb);
    var p := PickFree(s, fb).value;
    FreshHead(g, s, b, fb);
    assert s.pages[p].reserved == 0 by { assert PageOk(g, s.pages[p], s.disk[p], p, s.version); }
    assert PageSize(g) > 0 by { Step(0, g.perPage, g.size); }
  }

  lemma FreshHead(g: Config, s: State, b: nat, fb: nat)
    requires HeadFull(g, s, b) && PickFree(s, fb).Some? && PickFree(s, fb).value < |s.pages| && s.pageFree > 0
    ensures var t := AllocatePage(g, s, b, fb); var p := PickFree(s, fb).value;
      b < |t.buckets| && t.buckets[b] != [] && t.buckets[b][0] == p && p < |t.pages| && t.pages[p].reserved == s.pages[p].reserved
  {
  }

  // ----- page life cycle --------------------------------------------------------------------

  /** Every page but 0 is on exactly one list: that of its bucket, or the free list of its kind. */
  lemma OneList(g: Config, fb: seq<nat>, actions: seq<Action>, i: nat)
    requires Conf(g, fb) && 0 < i < g.pages
    ensures var s := Run(g, Boot(g, fb), actions);
      && i < |s.pages| && s.pages[i].bucket < |s.buckets| && s.pages[i].freeBucket < |s.freeBuckets|
      && (i in s.freelist <==> s.pages[i].free && s.pages[i].freeBucket == 0)
      && (forall f | 0 <= f < |s.freeBuckets| :: i in s.freeBuckets[f] <==> s.pages[i].free && f > 0 && f == s.pages[i].freeBucket)
      && (forall b | 0 <= b < |s.buckets| :: i in s.buckets[b] <==> !s.pages[i].free && b == s.pages[i].bucket)
      && NoDup(s.freelist) && (forall f | 0 <= f < |s.freeBuckets| :: NoDup(s.freeBuckets[f]))
      && (forall b | 0 <= b < |s.buckets| :: NoDup(s.buckets[b]))
      && s.pageFree + 1 == Sum(s.pages, IsFree)
  {
    var s := Run(g, Boot(g, fb), actions);
    Reachable(g, fb, actions);
    assert PageOk(g, s.pages[i], s.disk[i], i, s.version);
    forall f | 0 <= f < |s.freeBuckets| ensures NoDup(s.freeBuckets[f])
      && (i in s.freeBuckets[f] <==> s.pages[i].free && f > 0 && f == s.pages[i].freeBucket) { assert FreeBucketOk(s, f); }
    forall b | 0 <= b < |s.buckets| ensures NoDup(s.buckets[b])
      && (i in s.buckets[b] <==> !s.pages[i].free && b == s.pages[i].bucket) { assert BucketOk(s, b); }
  }

  /** No page is freed while it is written to, buffered or being read, and only maintenance frees pages:
      one that is empty or closed, or the one with the lowest version among the candidates of the scan. */
  lemma FreedQuiet(g: Config, s: State, a: Action, i: nat)
    requires Inv(g, s) && Enabled(g, s, a) && i < |s.pages| && !s.pages[i].free
    requires var t := Apply(g, s, a); i < |t.pages| && t.pages[i].free
    ensures !s.pages[i].active && s.pages[i].wbuf.None? && s.pages[i].refcount == 0
    ensures forall k | 0 <= k < |s.pinned| :: s.pinned[k].page != i
    ensures if a.AScan? then s.pages[i].objCount == 0 || s.pages[i].closed
            else a.AEndScan? && s.maint.evict && s.pages[i].version in s.maint.seen
                 && forall x | x in s.maint.seen :: s.pages[i].version <= x
  {
    assert PageOk(g, s.pages[i], s.disk[i], i, s.version);
    FreedBy(g, s, a, i);
    forall k | 0 <= k < |s.pinned| ensures s.pinned[k].page != i { PinCounts(s.pinned, k); }
  }

  lemma FreedBy(g: Config, s: State, a: Action, i: nat)
    requires Inv(g, s) && Enabled(g, s, a) && i < |s.pages| && !s.pages[i].free
    requires var t := Apply(g, s, a); i < |t.pages| && t.pages[i].free
    ensures (a.AScan? && s.maint.pos == i && ScanFrees(s.pages[i]))
      || (a.AEndScan? && s.maint.evict && s.maint.victim == Some(i) && s.pages[i].refcount == 0)
  {
    match a
    case ABegin(b, fb) => AllocateFreesNone(g, s, b, fb, i);
    case ATurn(b, fb) => AllocateFreesNone(g, s, b, fb, i);
    case AWrite(b, data) => WriteFreesNone(g, s, b, data, i);
    case AScan => ScanFreesOnly(s, i);
    case AEndScan => EndScanFreesOnly(s, i);
    case _ => OthersFreeNone(g, s, a, i);
  }

  lemma ScanFreesOnly(s: State, i: nat)
    requires CanScan(s) && i < |s.pages| && !s.pages[i].free
    requires i < |Scan(s).pages| && Scan(s).pages[i].free
    ensures s.maint.pos == i && ScanFrees(s.pages[i])
  {
  }

  lemma EndScanFreesOnly(s: State, i: nat)
    requires CanEndScan(s) && i < |s.pages| && !s.pages[i].free
    requires i < |EndScan(s).pages| && EndScan(s).pages[i].free
    ensures s.maint.evict && s.maint.victim == Some(i) && s.pages[i].refcount == 0
  {
  }

  lemma OthersFreeNone(g: Config, s: State, a: Action, i: nat)
    requires Enabled(g, s, a) && i < |s.pages| && !s.pages[i].free
    requires !a.ABegin? && !a.ATurn? && !a.AWrite? && !a.AScan? && !a.AEndScan?
    ensures i < |Apply(g, s, a).pages| && !Apply(g, s, a).pages[i].free
  {
  }

  lemma AllocateFreesNone(g: Config, s: State, b: nat, fb: nat, i: nat)
    requires HeadFull(g, s, b) || (b < |s.buckets| && s.buckets[b] != [])
    requires i < |s.pages| && !s.pages[i].free
    ensures HeadFull(g, s, b) ==> i < |AllocatePage(g, s, b, fb).pages| && !AllocatePage(g, s, b, fb).pages[i].free
  {
  }

  lemma WriteFreesNone(g: Config, s: State, b: nat, data: Bytes, i: nat)
    requires CanWrite(g, s, b, data) && i < |s.pages| && !s.pages[i].free
    ensures i < |Write(g, s, b, data).pages| && !Write(g, s, b, data).pages[i].free
  {
    var j := s.writers[b].page;
    if !MustTurnPage(g, s.pages[j]) {
      var t := if MustSubmit(g, s.pages[j], |data|) then Submit(s, j) else s;
      assert i < |t.pages| && !t.pages[i].free;
    }
  }

  // ----- eviction ---------------------------------------------------------------------------

  /** What the scan may evict: a page in use for the default free bucket that is neither being written nor
      closed nor empty. */
  predicate Candidate(p: Page) {
    !p.active && !p.free && p.objCount > 0 && !p.closed && p.freeBucket == 0
  }

  /** The versions of the pages that were candidates when the scan came to them, over a run. */
  function Visited(g: Config, s: State, actions: seq<Action>): set<nat>
    decreases |actions|
  {
    if actions == [] then {}
    else
      var a := actions[0];
      var t := if Enabled(g, s, a) then Apply(g, s, a) else s;
      (if Enabled(g, s, a) && a.AScan? && Candidate(s.pages[s.maint.pos]) then {s.pages[s.maint.pos].version} else {})
      + Visited(g, t, actions[1..])
  }

  /** Whether a run has a scan step that frees a page, and whether it ends the scan. */
  predicate Frees(g: Config, s: State, actions: seq<Action>)
    decreases |actions|
  {
    actions != [] &&
    var a := actions[0];
    || (Enabled(g, s, a) && a.AScan? && ScanFrees(s.pages[s.maint.pos]))
    || Frees(g, if Enabled(g, s, a) then Apply(g, s, a) else s, actions[1..])
  }

  predicate EndsScan(g: Config, s: State, actions: seq<Action>)
    decreases |actions|
  {
    actions != [] &&
    var a := actions[0];
    || (Enabled(g, s, a) && a.AEndScan?)
    || EndsScan(g, if Enabled(g, s, a) then Apply(g, s, a) else s, actions[1..])
  }

  /** While a scan lasts it collects exactly the candidates it has visited, and it means to evict as long as
      it has found no page to free. */
  lemma {:induction false} SeenIs(g: Config, s: State, actions: seq<Action>)
    requires Inv(g, s) && s.maint.Scanning? && !EndsScan(g, s, actions)
    ensures Collects(g, s, actions, Run(g, s, actions))
    decreases |actions|
  {
    if actions != [] {
      var a := actions[0];
      if Enabled(g, s, a) {
        StepKeeps(g, s, a);
        SeenStep(g, s, a);
        SeenIs(g, Apply(g, s, a), actions[1..]);
        SeenFirst(g, s, actions, Run(g, s, actions));
      } else {
        SeenIs(g, s, actions[1..]);
      }
    }
  }

  ghost predicate Collects(g: Config, s: State, actions: seq<Action>, t: State)
    requires s.maint.Scanning?
  {
    && t.maint.Scanning? && t.maint.seen == s.maint.seen + Visited(g, s, actions)
    && (t.maint.evict <==> s.maint.evict && !Frees(g, s, actions))
  }

  lemma SeenFirst(g: Config, s: State, actions: seq<Action>, end: State)
    requires actions != [] && Enabled(g, s, actions[0]) && s.maint.Scanning? && StepCollects(g, s, actions[0])
    requires Collects(g, Apply(g, s, actions[0]), actions[1..], end)
    ensures Collects(g, s, actions, end)
  {
  }

  ghost predicate StepCollects(g: Config, s: State, a: Action)
    requires s.maint.Scanning? && Enabled(g, s, a)
  {
    var t := Apply(g, s, a);
    && t.maint.Scanning?
    && t.maint.seen == s.maint.seen +
         (if a.AScan? && Candidate(s.pages[s.maint.pos]) then {s.pages[s.maint.pos].version} else {})
    && (t.maint.evict <==> s.maint.evict && !(a.AScan? && ScanFrees(s.pages[s.maint.pos])))
  }

  lemma SeenStep(g: Config, s: State, a: Action)
    requires Inv(g, s) && s.maint.Scanning? && Enabled(g, s, a) && !a.AEndScan?
    ensures StepCollects(g, s, a)
  {
    match a
    case ABegin(b, fb) => if s.buckets[b] == [] { AllocateMaint(g, s, b, fb); }
    case ATurn(b, fb) => AllocateMaint(g, s, b, fb);
    case AWrite(b, data) => WriteMaint(g, s, b, data);
    case _ => OthersSeen(g, s, a);
  }

  lemma OthersSeen(g: Config, s: State, a: Action)
    requires s.maint.Scanning? && Enabled(g, s, a)
    requires !a.ABegin? && !a.ATurn? && !a.AWrite? && !a.AEndScan?
    ensures StepCollects(g, s, a)
  {
  }

  lemma AllocateMaint(g: Config, s: State, b: nat, fb: nat)
    requires HeadFull(g, s, b)
    ensures AllocatePage(g, s, b, fb).maint == s.maint
  {
  }

  lemma WriteMaint(g: Config, s: State, b: nat, data: Bytes)
    requires CanWrite(g, s, b, data)
    ensures Write(g, s, b, data).maint == s.maint
  {
  }

  /** Eviction closes one page at most: the one of the lowest version among the default pages that the scan
      found evictable. It is freed at once if nobody reads it. */
  lemma EvictionCloses(g: Config, s: State, i: nat)
    requires Inv(g, s) && CanEndScan(s) && i < |s.pages|
    requires i < |EndScan(s).pages| && EndScan(s).pages[i] != s.pages[i]
    ensures s.maint.evict && s.maint.victim == Some(i)
    ensures !s.pages[i].active && !s.pages[i].free && !s.pages[i].closed && s.pages[i].freeBucket == 0
    ensures s.pages[i].version in s.maint.seen && forall x | x in s.maint.seen :: s.pages[i].version <= x
    ensures if s.pages[i].refcount == 0 then EndScan(s).pages[i].free else EndScan(s).pages[i].closed
  {
  }

  /** A whole scan: from the moment maintenance wakes to the eviction at its end. */
  lemma ScanEvicts(g: Config, s: State, actions: seq<Action>, i: nat)
    requires Inv(g, s) && s.maint.Asleep? && !EndsScan(g, Wake(s), actions)
    requires var t := Run(g, Wake(s), actions);
      CanEndScan(t) && i < |t.pages| && i < |EndScan(t).pages| && EndScan(t).pages[i] != t.pages[i]
    ensures var t := Run(g, Wake(s), actions); var seen := Visited(g, Wake(s), actions);
      && (s.pageFree == 0 || s.freelist == []) && !Frees(g, Wake(s), actions)
      && t.pages[i].freeBucket == 0 && t.pages[i].version in seen && forall x | x in seen :: t.pages[i].version <= x
  {
    StepKeeps(g, s, AWake);
    SeenIs(g, Wake(s), actions);
    RunKeeps(g, Wake(s), actions);
    EvictionCloses(g, Run(g, Wake(s), actions), i);
  }

  // ----- totals -----------------------------------------------------------------------------

  ghost predicate Totals(s: State) {
    s.objectsUsed == Sum(s.pages, Objects) && s.bytesUsed == Sum(s.pages, Used)
  }

  lemma TotalsOne(s: State, t: State, i: nat)
    requires Totals(s) && i < |s.pages| == |t.pages| && t.pages == s.pages[i := t.pages[i]]
    ensures Totals(t) <==>
      && t.objectsUsed - s.objectsUsed == t.pages[i].objCount - s.pages[i].objCount
      && t.bytesUsed - s.bytesUsed == t.pages[i].bytesUsed - s.pages[i].bytesUsed
  {
    SumUpdate(s.pages, i, t.pages[i], Objects);
    SumUpdate(s.pages, i, t.pages[i], Used);
  }

  /** extstore_delete keeps the totals equal to the sums over the pages if and only if it does not take
      more from the page than the page has. */
  lemma DeleteTotals(g: Config, s: State, i: nat, version: nat, count: nat, bytes: nat)
    requires Totals(s)
    ensures Totals(DeleteObjects(s, i, version, count, bytes)) <==>
      !Deletes(s, i, version) || (count <= s.pages[i].objCount && bytes <= s.pages[i].bytesUsed)
  {
    if Deletes(s, i, version) {
      TotalsOne(s, DeleteObjects(s, i, version, count, bytes), i);
    }
  }

  /** Every other step keeps the totals. */
  lemma StepTotals(g: Config, s: State, a: Action)
    requires Inv(g, s) && Enabled(g, s, a) && Totals(s) && !a.ADelete?
    ensures Totals(Apply(g, s, a))
  {
    match a
    case ABegin(b, fb) => if s.buckets[b] == [] { AllocateTotals(g, s, b, fb); }
    case ATurn(b, fb) => AllocateTotals(g, s, b, fb);
    case AWrite(b, data) => WriteTotals(g, s, b, data);
    case AFlushed(k) => TotalsOne(s, Flushed(g, s, k), s.ios[k].page);
    case AStartRead(r) => if CheckRead(s, r).FromDisk? { TotalsOne(s, StartRead(s, r), r.page); }
    case AEndRead(k) => TotalsOne(s, EndRead(s, k), s.pinned[k].page);
    case AClose(i, v) => if Deletes(s, i, v) { TotalsOne(s, ClosePage(s, i, v), i); }
    case AScan => ScanTotals(s);
    case AEndScan => EndScanTotals(s);
    case _ =>
  }

  lemma ScanTotals(s: State)
    requires Totals(s) && CanScan(s)
    ensures Totals(Scan(s))
  {
    if ScanFrees(s.pages[s.maint.pos]) { TotalsOne(s, FreePage(s, s.maint.pos), s.maint.pos); }
  }

  lemma EndScanTotals(s: State)
    requires Totals(s) && CanEndScan(s)
    ensures Totals(EndScan(s))
  {
    if s.maint.evict && s.maint.victim.Some? && !s.pages[s.maint.victim.value].closed {
      var i := s.maint.victim.value;
      var u := s.(maint := Asleep, pages := s.pages[i := s.pages[i].(closed := true)]);
      TotalsOne(s, u, i);
      if u.pages[i].refcount == 0 { TotalsOne(u, FreePage(u, i), i); }
    }
  }

  lemma AllocateTotals(g: Config, s: State, b: nat, fb: nat)
    requires Totals(s) && HeadFull(g, s, b)
    ensures Totals(AllocatePage(g, s, b, fb))
  {
    match PickFree(s, fb)
    case None =>
    case Some(p) => if s.pageFree > 0 && p < |s.pages| { TotalsOne(s, AllocatePage(g, s, b, fb), p); }
  }

  lemma WriteTotals(g: Config, s: State, b: nat, data: Bytes)
    requires Inv(g, s) && CanWrite(g, s, b, data) && Totals(s)
    ensures Totals(Write(g, s, b, data))
  {
    var i := s.writers[b].page;
    if !MustTurnPage(g, s.pages[i]) {
      var t := if MustSubmit(g, s.pages[i], |data|) then Submit(s, i) else s;
      TotalsOne(s, t, i);
      var u := if t.pages[i].wbuf.None? && t.pages[i].reserved < PageSize(g) then AllocateWbuf(g, t, i) else t;
      TotalsOne(t, u, i);
      var w := u.pages[i].wbuf;
      if w.Some? && !w.value.full && Room(g, w.value) >= |data| { TotalsOne(u, Append(u, i, data), i); }
    }
  }
}
