/** The invariant of the page engine: buffers, ios, pages on disk, lists and the threads at work. */
module ExtstoreInv {
  import opened Common
  import opened ItemImage
  import opened Extstore

  // ----- sums over the pages ----------------------------------------------------------------

  function Sum(pages: seq<Page>, f: Page -> nat): nat {
    if pages == [] then 0 else Sum(pages[..|pages| - 1], f) + f(pages[|pages| - 1])
  }

  lemma {:induction false} SumUpdate(pages: seq<Page>, i: nat, p: Page, f: Page -> nat)
    requires i < |pages|
    ensures Sum(pages[i := p], f) + f(pages[i]) == Sum(pages, f) + f(p)
  {
    var n := |pages| - 1;
    if i == n {
      assert pages[i := p][..n] == pages[..n];
    } else {
      assert pages[i := p][..n] == pages[..n][i := p];
      SumUpdate(pages[..n], i, p, f);
    }
  }

  lemma {:induction false} SumLess(pages: seq<Page>, i: nat, f: Page -> nat, h: Page -> nat)
    requires i < |pages| && (forall j | 0 <= j < |pages| :: f(pages[j]) <= h(pages[j]))
    ensures Sum(pages, f) + h(pages[i]) <= Sum(pages, h) + f(pages[i])
  {
    var n := |pages| - 1;
    if i < n {
      SumLess(pages[..n], i, f, h);
    } else {
      SumLeq(pages[..n], f, h);
    }
  }

  lemma {:induction false} SumLeq(pages: seq<Page>, f: Page -> nat, h: Page -> nat)
    requires forall j | 0 <= j < |pages| :: f(pages[j]) <= h(pages[j])
    ensures Sum(pages, f) <= Sum(pages, h)
  {
    if pages != [] { SumLeq(pages[..|pages| - 1], f, h); }
  }

  function HasWbuf(p: Page): nat { if p.wbuf.Some? then 1 else 0 }
  function HasFull(p: Page): nat { if p.wbuf.Some? && p.wbuf.value.full then 1 else 0 }
  function IsFree(p: Page): nat { if p.free then 1 else 0 }
  function Objects(p: Page): nat { p.objCount }
  function Used(p: Page): nat { p.bytesUsed }

  // ----- one page ---------------------------------------------------------------------------

  /** Buffers' worth of the page that are on disk. */
  function OnDiskCount(p: Page): nat {
    if p.wbuf.Some? && |p.blocks| > 0 then |p.blocks| - 1 else |p.blocks|
  }

  /** Block `b` of a page file holds `objs` and zeros behind them. */
  ghost predicate BlockOnDisk(g: Config, d: Bytes, b: nat, objs: seq<Bytes>) {
    && |Concat(objs)| <= g.size && b * g.size + g.size <= |d|
    && d[b * g.size..b * g.size + g.size] == Pack(objs, g.size)
  }

  ghost predicate BlocksOk(g: Config, p: Page, d: Bytes) {
    && (forall b | 0 <= b < |p.blocks| :: Images(p.blocks[b]) && |Concat(p.blocks[b])| <= g.size)
    && (forall b | 0 <= b < OnDiskCount(p) :: BlockOnDisk(g, d, b, p.blocks[b]))
  }

  /** The coupling of a page with its write buffer. */
  ghost predicate WbufOk(g: Config, p: Page) {
    && p.reserved == |p.blocks| * g.size && |p.blocks| <= g.perPage
    && p.written == OnDiskCount(p) * g.size
    && (p.wbuf.Some? ==>
          && p.blocks != [] && p.wbuf.value.id < g.wbufs
          && p.wbuf.value.content == Concat(LastBlock(p)) && p.wbuf.value.offset == p.written)
  }

  ghost predicate PageOk(g: Config, p: Page, d: Bytes, i: nat, version: nat) {
    && |d| == PageSize(g) && p.freeBucket < g.buckets && p.bucket < g.buckets
    && if p.free then
         && p.version == 0 && p.reserved == 0 && p.written == 0 && p.wbuf.None? && p.refcount == 0
         && !p.active && !p.closed && p.blocks == [] && p.objCount == 0 && p.bytesUsed == 0
       else
         && i > 0 && 0 < p.version < version
         && WbufOk(g, p) && (p.active <==> OnDiskCount(p) < g.perPage) && BlocksOk(g, p, d)
  }

  ghost predicate PagesOk(g: Config, s: State) {
    && |s.pages| == |s.disk| == g.pages
    && forall i | 0 <= i < |s.pages| :: PageOk(g, s.pages[i], s.disk[i], i, s.version)
  }

  // ----- buffers and ios --------------------------------------------------------------------

  /** Every buffer is on the stack or attached to one page, and every io free or in flight. */
  ghost predicate WbufsOk(g: Config, s: State) {
    && NoDup(s.wbufStack) && (forall x | x in s.wbufStack :: x < g.wbufs)
    && (forall i | 0 <= i < |s.pages| && s.pages[i].wbuf.Some? :: s.pages[i].wbuf.value.id !in s.wbufStack)
    && (forall i, j | 0 <= i < j < |s.pages| && s.pages[i].wbuf.Some? && s.pages[j].wbuf.Some? ::
          s.pages[i].wbuf.value.id != s.pages[j].wbuf.value.id)
    && |s.wbufStack| + Sum(s.pages, HasWbuf) == g.wbufs
    && |s.ios| + s.ioFree == g.wbufs
    && |s.ios| == Sum(s.pages, HasFull)
  }

  ghost predicate IoOk(g: Config, s: State, k: nat)
    requires k < |s.ios|
  {
    var io := s.ios[k];
    && io.page < |s.pages| == |s.disk| && s.pages[io.page].wbuf.Some?
    && s.pages[io.page].wbuf.value.full && s.pages[io.page].wbuf.value.id == io.wbuf
    && s.pages[io.page].wbuf.value.offset == io.offset
    && (io.landed && |s.pages[io.page].blocks| > 0 ==>
          BlockOnDisk(g, s.disk[io.page], |s.pages[io.page].blocks| - 1, LastBlock(s.pages[io.page])))
  }

  ghost predicate IosOk(g: Config, s: State) {
    && (forall k | 0 <= k < |s.ios| :: IoOk(g, s, k))
    && (forall k, l | 0 <= k < l < |s.ios| :: s.ios[k].page != s.ios[l].page)
  }

  // ----- lists ------------------------------------------------------------------------------

  ghost predicate FreelistOk(g: Config, s: State) {
    && NoDup(s.freelist)
    && forall i: nat :: i in s.freelist <==> 0 < i < |s.pages| && s.pages[i].free && s.pages[i].freeBucket == 0
  }

  ghost predicate FreeBucketOk(s: State, f: nat)
    requires f < |s.freeBuckets|
  {
    && NoDup(s.freeBuckets[f])
    && forall i: nat :: i in s.freeBuckets[f] <==> 0 < i < |s.pages| && s.pages[i].free && f > 0 && s.pages[i].freeBucket == f
  }

  ghost predicate BucketOk(s: State, b: nat)
    requires b < |s.buckets|
  {
    && NoDup(s.buckets[b])
    && forall i: nat :: i in s.buckets[b] <==> i < |s.pages| && !s.pages[i].free && s.pages[i].bucket == b
  }

  /** Every page but 0 is on exactly one list, and page_free counts the free ones. */
  ghost predicate ListsOk(g: Config, s: State) {
    && |s.buckets| == |s.freeBuckets| == |s.writers| == g.buckets
    && FreelistOk(g, s)
    && (forall f | 0 <= f < |s.freeBuckets| :: FreeBucketOk(s, f))
    && (forall b | 0 <= b < |s.buckets| :: BucketOk(s, b))
    && |s.pages| > 0 && s.pages[0].free
    && s.pageFree + 1 == Sum(s.pages, IsFree)
  }

  // ----- threads ----------------------------------------------------------------------------

  predicate Full(g: Config, s: State, i: nat) {
    i < |s.pages| && s.pages[i].reserved == PageSize(g)
  }

  /** Only the page being written into may have room left. */
  ghost predicate TailFull(g: Config, s: State, b: nat)
    requires b < |s.buckets|
  {
    forall i | i in s.buckets[b] && i != s.buckets[b][0] :: Full(g, s, i)
  }

  ghost predicate AllFull(g: Config, s: State, b: nat)
    requires b < |s.buckets|
  {
    forall i | i in s.buckets[b] :: Full(g, s, i)
  }

  ghost predicate WriterOk(g: Config, s: State, b: nat)
    requires b < |s.writers| == |s.buckets|
  {
    match s.writers[b]
    case Idle => TailFull(g, s, b)
    case Chosen(p) =>
      && p < |s.pages|
      && (if s.buckets[b] != [] && s.buckets[b][0] == p then TailFull(g, s, b) else p !in s.buckets[b] && AllFull(g, s, b))
    case NeedPage => AllFull(g, s, b)
  }

  ghost predicate WritersOk(g: Config, s: State)
    requires |s.writers| == |s.buckets|
  {
    forall b | 0 <= b < |s.writers| :: WriterOk(g, s, b)
  }

  /** The victim of a scan cannot come back to life before the scan ends. */
  ghost predicate MaintOk(s: State) {
    match s.maint
    case Asleep => true
    case Scanning(pos, evict, victim, seen) =>
      match victim
      case None => seen == {}
      case Some(v) =>
        && v < |s.pages| && v < pos && !s.pages[v].free && !s.pages[v].active && s.pages[v].freeBucket == 0
        && s.pages[v].version in seen && forall x | x in seen :: s.pages[v].version <= x
  }

  // ----- reads and receipts -----------------------------------------------------------------

  function Pins(pinned: seq<Read>, i: nat): nat {
    if pinned == [] then 0 else Pins(pinned[..|pinned| - 1], i) + if pinned[|pinned| - 1].page == i then 1 else 0
  }

  ghost predicate PinOk(g: Config, s: State, r: Read) {
    && r.page < |s.pages| && !s.pages[r.page].free && s.pages[r.page].version == r.version
    && (!s.pages[r.page].active || r.offset < s.pages[r.page].written)
  }

  ghost predicate PinsOk(g: Config, s: State) {
    && (forall k | 0 <= k < |s.pinned| :: PinOk(g, s, s.pinned[k]))
    && (forall i | 0 <= i < |s.pages| :: s.pages[i].refcount == Pins(s.pinned, i))
  }

  /** Where the object of a receipt stands, as long as its page has not been freed since. */
  ghost predicate Located(g: Config, p: Page, r: Receipt) {
    && r.block < |p.blocks| && r.index < |p.blocks[r.block]|
    && p.blocks[r.block][r.index] == r.data
    && r.offset == r.block * g.size + |Concat(p.blocks[r.block][..r.index])|
  }

  ghost predicate ReceiptOk(g: Config, s: State, r: Receipt) {
    && r.page < |s.pages| && 0 < r.version < s.version && IsImage(r.data)
    && (s.pages[r.page].version == r.version ==> Located(g, s.pages[r.page], r))
  }

  ghost predicate ReceiptsOk(g: Config, s: State) {
    forall k | 0 <= k < |s.receipts| :: ReceiptOk(g, s, s.receipts[k])
  }

  ghost predicate Inv(g: Config, s: State) {
    && Sizes(g) && s.version > 0
    && PagesOk(g, s) && WbufsOk(g, s) && IosOk(g, s) && ListsOk(g, s) && WritersOk(g, s)
    && MaintOk(s) && PinsOk(g, s) && ReceiptsOk(g, s)
  }

  // ----- arithmetic -------------------------------------------------------------------------

  lemma Step(a: nat, b: nat, n: nat)
    requires a < b
    ensures a * n + n <= b * n
  {
    assert (b - a - 1) * n >= 0;
    assert b * n == a * n + n + (b - a - 1) * n;
  }

  /** Blocks do not overlap, and a page with fewer blocks than its share has room for one more. */
  lemma RoomLeft(g: Config, p: Page)
    requires Sizes(g) && p.reserved == |p.blocks| * g.size && |p.blocks| <= g.perPage
    ensures p.reserved < PageSize(g) <==> |p.blocks| < g.perPage
    ensures p.reserved <= PageSize(g)
  {
    if |p.blocks| < g.perPage { Step(|p.blocks|, g.perPage, g.size); }
  }
}
