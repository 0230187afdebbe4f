/** Every step of the page engine keeps its invariant. */
module ExtstoreSteps {
  import opened Common
  import opened ItemImage
  import opened Extstore
  import opened ExtstoreInv

  // ----- steps that change one page and no list ---------------------------------------------

  /** `t` is `s` with page `i` replaced, the page staying on its list under its version. */
  ghost predicate OnePage(g: Config, s: State, t: State, i: nat) {
    && i < |s.pages| == |t.pages| && t.pages == s.pages[i := t.pages[i]]
    && t.buckets == s.buckets && t.freelist == s.freelist && t.freeBuckets == s.freeBuckets
    && t.pageFree == s.pageFree && t.version == s.version && t.writers == s.writers && t.maint == s.maint
    && var p := s.pages[i]; var q := t.pages[i];
    && q.free == p.free && q.bucket == p.bucket && q.freeBucket == p.freeBucket && q.version == p.version
    && (q.active ==> p.active) && (p.reserved == PageSize(g) ==> q.reserved == PageSize(g))
  }

  lemma ListsFrame(g: Config, s: State, t: State, i: nat)
    requires ListsOk(g, s) && OnePage(g, s, t, i)
    ensures ListsOk(g, t)
  {
    SumUpdate(s.pages, i, t.pages[i], IsFree);
    forall f | 0 <= f < |t.freeBuckets| ensures FreeBucketOk(t, f) { assert FreeBucketOk(s, f); }
    forall b | 0 <= b < |t.buckets| ensures BucketOk(t, b) { assert BucketOk(s, b); }
  }

  lemma WritersFrame(g: Config, s: State, t: State, i: nat)
    requires |s.writers| == |s.buckets| && WritersOk(g, s) && OnePage(g, s, t, i)
    ensures WritersOk(g, t)
  {
    forall b | 0 <= b < |t.writers| ensures WriterOk(g, t, b) {
      assert WriterOk(g, s, b);
      assert forall j :: Full(g, s, j) ==> Full(g, t, j);
    }
  }

  /** Pins of pages whose counts, versions and flushed parts did not go back. */
  lemma PinsFrame(g: Config, s: State, t: State)
    requires PinsOk(g, s) && t.pinned == s.pinned && |t.pages| == |s.pages|
    requires forall i | 0 <= i < |s.pages| :: t.pages[i].refcount == s.pages[i].refcount
    requires forall i | 0 <= i < |s.pages| && !s.pages[i].free && Pins(s.pinned, i) > 0 ::
      && t.pages[i].free == s.pages[i].free && t.pages[i].version == s.pages[i].version
      && (t.pages[i].active ==> s.pages[i].active) && t.pages[i].written >= s.pages[i].written
    ensures PinsOk(g, t)
  {
    forall k | 0 <= k < |t.pinned| ensures PinOk(g, t, t.pinned[k]) {
      assert PinOk(g, s, s.pinned[k]);
      PinCounts(s.pinned, k);
    }
  }

  lemma {:induction false} PinCounts(pinned: seq<Read>, k: nat)
    requires k < |pinned|
    ensures Pins(pinned, pinned[k].page) > 0
  {
    if k < |pinned| - 1 { PinCounts(pinned[..|pinned| - 1], k); }
  }

  /** The page only grew: every object of `p` is where it was in `q`. */
  ghost predicate Grew(p: Page, q: Page) {
    |p.blocks| <= |q.blocks| && forall b | 0 <= b < |p.blocks| :: p.blocks[b] <= q.blocks[b]
  }

  lemma ReceiptsFrame(g: Config, s: State, t: State)
    requires ReceiptsOk(g, s) && t.receipts == s.receipts && |t.pages| == |s.pages| && t.version >= s.version
    requires forall i | 0 <= i < |s.pages| ::
      (t.pages[i].version == s.pages[i].version && Grew(s.pages[i], t.pages[i]))
      || t.pages[i].version == 0 || t.pages[i].version >= s.version
    ensures ReceiptsOk(g, t)
  {
    forall k | 0 <= k < |t.receipts| ensures ReceiptOk(g, t, t.receipts[k]) {
      assert ReceiptOk(g, s, s.receipts[k]);
      var r := s.receipts[k];
      if t.pages[r.page].version == r.version {
        assert t.pages[r.page].blocks[r.block][..r.index] == s.pages[r.page].blocks[r.block][..r.index];
      }
    }
  }

  lemma PagesFrame(g: Config, s: State, t: State, i: nat)
    requires PagesOk(g, s) && i < |s.pages| == |t.pages| && t.pages == s.pages[i := t.pages[i]] && |t.disk| == |s.disk|
    requires forall j | 0 <= j < |s.disk| && j != i :: t.disk[j] == s.disk[j]
    requires t.version >= s.version
    requires PageOk(g, t.pages[i], t.disk[i], i, t.version)
    ensures PagesOk(g, t)
  {
    forall j | 0 <= j < |t.pages| ensures PageOk(g, t.pages[j], t.disk[j], j, t.version) {
      assert PageOk(g, s.pages[j], s.disk[j], j, s.version);
    }
  }

  /** All but the buffers after a step on one page. */
  ghost predicate Rest(g: Config, s: State) {
    && Sizes(g) && s.version > 0 && PagesOk(g, s) && ListsOk(g, s) && WritersOk(g, s) && MaintOk(s)
    && PinsOk(g, s) && ReceiptsOk(g, s)
  }

  lemma PinsOne(g: Config, s: State, t: State, i: nat)
    requires PinsOk(g, s) && OnePage(g, s, t, i) && t.pinned == s.pinned
    requires t.pages[i].refcount == s.pages[i].refcount && t.pages[i].written >= s.pages[i].written
    ensures PinsOk(g, t)
  {
    PinsFrame(g, s, t);
  }

  lemma ReceiptsOne(g: Config, s: State, t: State, i: nat)
    requires ReceiptsOk(g, s) && OnePage(g, s, t, i) && t.receipts == s.receipts && Grew(s.pages[i], t.pages[i])
    ensures ReceiptsOk(g, t)
  {
    ReceiptsFrame(g, s, t);
  }

  lemma MaintOne(g: Config, s: State, t: State, i: nat)
    requires MaintOk(s) && OnePage(g, s, t, i)
    ensures MaintOk(t)
  {
  }

  lemma OnePageRest(g: Config, s: State, t: State, i: nat)
    requires Rest(g, s) && OnePage(g, s, t, i)
    requires t.receipts == s.receipts && t.pinned == s.pinned
    requires |t.disk| == |s.disk| && forall j | 0 <= j < |s.disk| && j != i :: t.disk[j] == s.disk[j]
    requires PageOk(g, t.pages[i], t.disk[i], i, t.version) && Grew(s.pages[i], t.pages[i])
    requires t.pages[i].refcount == s.pages[i].refcount && t.pages[i].written >= s.pages[i].written
    ensures Rest(g, t)
  {
    PagesFrame(g, s, t, i);
    ListsFrame(g, s, t, i);
    WritersFrame(g, s, t, i);
    MaintOne(g, s, t, i);
    PinsOne(g, s, t, i);
    ReceiptsOne(g, s, t, i);
  }

  // ----- _submit_wbuf -----------------------------------------------------------------------

  /** The io stack is never empty when a buffer is submitted. */
  lemma IoAvailable(g: Config, s: State, i: nat)
    requires WbufsOk(g, s) && i < |s.pages| && s.pages[i].wbuf.Some? && !s.pages[i].wbuf.value.full
    ensures s.ioFree > 0
  {
    SumLess(s.pages, i, HasFull, HasWbuf);
  }

  lemma SubmitIos(g: Config, s: State, i: nat)
    requires IosOk(g, s) && i < |s.pages| == |s.disk| && s.pages[i].wbuf.Some? && !s.pages[i].wbuf.value.full && s.ioFree > 0
    ensures IosOk(g, Submit(s, i))
  {
    var t := Submit(s, i);
    forall k | 0 <= k < |s.ios| ensures s.ios[k].page != i && IoOk(g, t, k) { assert IoOk(g, s, k); }
    assert IoOk(g, t, |s.ios|);
  }

  lemma SubmitWbufs(g: Config, s: State, i: nat)
    requires WbufsOk(g, s) && i < |s.pages| && s.pages[i].wbuf.Some? && !s.pages[i].wbuf.value.full && s.ioFree > 0
    ensures WbufsOk(g, Submit(s, i))
  {
    var t := Submit(s, i);
    SumUpdate(s.pages, i, t.pages[i], HasWbuf);
    SumUpdate(s.pages, i, t.pages[i], HasFull);
  }

  lemma KeepSubmit(g: Config, s: State, i: nat)
    requires Inv(g, s) && i < |s.pages| && s.pages[i].wbuf.Some? && !s.pages[i].wbuf.value.full && s.ioFree > 0
    ensures Inv(g, Submit(s, i))
  {
    SubmitPage(g, s, i);
    SubmitIos(g, s, i);
    SubmitWbufs(g, s, i);
    OnePageRest(g, s, Submit(s, i), i);
  }

  lemma SubmitPage(g: Config, s: State, i: nat)
    requires PagesOk(g, s) && i < |s.pages| && s.pages[i].wbuf.Some? && !s.pages[i].wbuf.value.full && s.ioFree > 0
    ensures var t := Submit(s, i);
      PageOk(g, t.pages[i], t.disk[i], i, t.version) && Grew(s.pages[i], t.pages[i])
  {
    assert PageOk(g, s.pages[i], s.disk[i], i, s.version);
  }

  // ----- _allocate_wbuf ---------------------------------------------------------------------

  lemma AllocateWbufPage(g: Config, s: State, i: nat)
    requires Inv(g, s) && i < |s.pages| && s.pages[i].wbuf.None? && s.pages[i].active
    requires s.pages[i].reserved < PageSize(g) && s.wbufStack != []
    ensures PageOk(g, AllocateWbuf(g, s, i).pages[i], s.disk[i], i, s.version) && Grew(s.pages[i], AllocateWbuf(g, s, i).pages[i])
  {
    assert PageOk(g, s.pages[i], s.disk[i], i, s.version);
    assert s.wbufStack[0] in s.wbufStack;
    NewBlock(g, s.pages[i], s.disk[i], i, s.version, s.wbufStack[0]);
  }

  lemma NewBlock(g: Config, p: Page, d: Bytes, i: nat, version: nat, id: nat)
    requires Sizes(g) && PageOk(g, p, d, i, version) && p.wbuf.None? && p.active && p.reserved < PageSize(g) && id < g.wbufs
    ensures var q := p.(wbuf := Some(Wbuf(id, [], p.reserved, false)), reserved := p.reserved + g.size, blocks := p.blocks + [[]]);
      PageOk(g, q, d, i, version) && Grew(p, q)
  {
    var q := p.(wbuf := Some(Wbuf(id, [], p.reserved, false)), reserved := p.reserved + g.size, blocks := p.blocks + [[]]);
    RoomLeft(g, p);
    NewBlocks(g, p, q, d);
    NewWbuf(g, p, q);
  }

  lemma NewBlocks(g: Config, p: Page, q: Page, d: Bytes)
    requires BlocksOk(g, p, d) && OnDiskCount(p) == |p.blocks| && q.blocks == p.blocks + [[]] && q.wbuf.Some?
    ensures BlocksOk(g, q, d) && OnDiskCount(q) == |p.blocks|
  {
    forall b | 0 <= b < |q.blocks| ensures Images(q.blocks[b]) && |Concat(q.blocks[b])| <= g.size {
      if b < |p.blocks| { assert q.blocks[b] == p.blocks[b]; } else { assert q.blocks[b] == []; }
    }
    forall b | 0 <= b < OnDiskCount(q) ensures BlockOnDisk(g, d, b, q.blocks[b]) { assert q.blocks[b] == p.blocks[b]; }
  }

  lemma NewWbuf(g: Config, p: Page, q: Page)
    requires WbufOk(g, p) && p.wbuf.None? && |p.blocks| < g.perPage && q.blocks == p.blocks + [[]] && q.written == p.written
    requires q.reserved == p.reserved + g.size && q.wbuf.Some? && q.wbuf.value.id < g.wbufs
    requires q.wbuf.value.content == [] && q.wbuf.value.offset == p.reserved
    ensures WbufOk(g, q)
  {
    assert (|p.blocks| + 1) * g.size == |p.blocks| * g.size + g.size;
    assert OnDiskCount(q) == |p.blocks| && LastBlock(q) == [];
  }

  lemma AllocateWbufIds(g: Config, s: State, i: nat)
    requires WbufsOk(g, s) && i < |s.pages| && s.pages[i].wbuf.None? && s.wbufStack != []
    ensures var t := AllocateWbuf(g, s, i);
      && |t.wbufStack| + Sum(t.pages, HasWbuf) == g.wbufs && |t.ios| == Sum(t.pages, HasFull)
  {
    var t := AllocateWbuf(g, s, i);
    SumUpdate(s.pages, i, t.pages[i], HasWbuf);
    SumUpdate(s.pages, i, t.pages[i], HasFull);
  }

  lemma AllocateWbufBuffers(g: Config, s: State, i: nat)
    requires WbufsOk(g, s) && i < |s.pages| && s.pages[i].wbuf.None? && s.wbufStack != []
    ensures WbufsOk(g, AllocateWbuf(g, s, i))
  {
    var id, rest := s.wbufStack[0], s.wbufStack[1..];
    AllocateWbufIds(g, s, i);
    assert id in s.wbufStack && id !in rest;
    assert forall x | x in rest :: x in s.wbufStack;
  }

  /** Ios look at pages with a full buffer only. */
  lemma IosFrame(g: Config, s: State, t: State)
    requires IosOk(g, s) && t.ios == s.ios && |t.pages| == |s.pages| && t.disk == s.disk
    requires forall i | 0 <= i < |s.pages| && s.pages[i].wbuf.Some? && s.pages[i].wbuf.value.full ::
      t.pages[i].wbuf == s.pages[i].wbuf && t.pages[i].blocks == s.pages[i].blocks
    ensures IosOk(g, t)
  {
    forall k | 0 <= k < |t.ios| ensures IoOk(g, t, k) { assert IoOk(g, s, k); }
  }

  lemma KeepAllocateWbuf(g: Config, s: State, i: nat)
    requires Inv(g, s) && i < |s.pages| && s.pages[i].wbuf.None? && s.pages[i].active
    requires s.pages[i].reserved < PageSize(g)
    ensures Inv(g, AllocateWbuf(g, s, i))
  {
    if s.wbufStack != [] {
      AllocateWbufPage(g, s, i);
      AllocateWbufBuffers(g, s, i);
      IosFrame(g, s, AllocateWbuf(g, s, i));
      OnePageRest(g, s, AllocateWbuf(g, s, i), i);
    }
  }

  // ----- extstore_write ---------------------------------------------------------------------

  lemma AppendPage(g: Config, s: State, i: nat, data: Bytes)
    requires Inv(g, s) && i < |s.pages| && s.pages[i].wbuf.Some? && s.pages[i].blocks != [] && IsImage(data)
    requires !s.pages[i].free && Room(g, s.pages[i].wbuf.value) >= |data|
    ensures PageOk(g, Append(s, i, data).pages[i], s.disk[i], i, s.version) && Grew(s.pages[i], Append(s, i, data).pages[i])
  {
    var p := s.pages[i];
    var q := Append(s, i, data).pages[i];
    var last := |p.blocks| - 1;
    assert PageOk(g, p, s.disk[i], i, s.version);
    ConcatSnoc(p.blocks[last], data);
    assert Images(p.blocks[last]);
    assert OnDiskCount(q) == last;
    forall b | 0 <= b < |q.blocks| ensures Images(q.blocks[b]) && |Concat(q.blocks[b])| <= g.size {
      if b < last { assert q.blocks[b] == p.blocks[b]; }
    }
  }

  lemma AppendReceipt(g: Config, s: State, i: nat, data: Bytes)
    requires Inv(g, s) && i < |s.pages| && s.pages[i].wbuf.Some? && s.pages[i].blocks != [] && IsImage(data)
    requires !s.pages[i].free && Room(g, s.pages[i].wbuf.value) >= |data|
    ensures ReceiptOk(g, Append(s, i, data), Append(s, i, data).receipts[|s.receipts|])
  {
    var t := Append(s, i, data);
    var p := s.pages[i];
    assert PageOk(g, p, s.disk[i], i, s.version);
    var last := |p.blocks| - 1;
    assert t.pages[i].blocks[last][..|p.blocks[last]|] == p.blocks[last];
  }

  lemma AppendBuffers(g: Config, s: State, i: nat, data: Bytes)
    requires Inv(g, s) && i < |s.pages| && s.pages[i].wbuf.Some? && s.pages[i].blocks != []
    requires !s.pages[i].wbuf.value.full
    ensures WbufsOk(g, Append(s, i, data)) && IosOk(g, Append(s, i, data))
  {
    var t := Append(s, i, data);
    SumUpdate(s.pages, i, t.pages[i], HasWbuf);
    SumUpdate(s.pages, i, t.pages[i], HasFull);
    IosFrame(g, s, t);
  }

  lemma KeepAppend(g: Config, s: State, i: nat, data: Bytes)
    requires Inv(g, s) && i < |s.pages| && s.pages[i].wbuf.Some? && s.pages[i].blocks != [] && IsImage(data)
    requires !s.pages[i].free && Room(g, s.pages[i].wbuf.value) >= |data| && !s.pages[i].wbuf.value.full
    ensures Inv(g, Append(s, i, data))
  {
    var t := Append(s, i, data);
    AppendPage(g, s, i, data);
    AppendReceipt(g, s, i, data);
    AppendBuffers(g, s, i, data);
    OnePageRest(g, s, t.(receipts := s.receipts), i);
    MoreReceipts(g, s, t);
  }

  lemma MoreReceipts(g: Config, s: State, t: State)
    requires |t.receipts| == |s.receipts| + 1 && t.receipts[..|s.receipts|] == s.receipts
    requires Rest(g, t.(receipts := s.receipts)) && ReceiptOk(g, t, t.receipts[|s.receipts|])
    ensures Rest(g, t)
  {
    var u := t.(receipts := s.receipts);
    forall k | 0 <= k < |t.receipts| ensures ReceiptOk(g, t, t.receipts[k]) {
      if k < |s.receipts| {
        assert t.receipts[k] == t.receipts[..|s.receipts|][k];
        assert ReceiptOk(g, u, s.receipts[k]);
      }
    }
    forall f | 0 <= f < |t.freeBuckets| ensures FreeBucketOk(t, f) { assert FreeBucketOk(u, f); }
    forall b | 0 <= b < |t.buckets| ensures BucketOk(t, b) { assert BucketOk(u, b); }
    forall b | 0 <= b < |t.writers| ensures WriterOk(g, t, b) { assert WriterOk(g, u, b); }
    forall k | 0 <= k < |t.pinned| ensures PinOk(g, t, t.pinned[k]) { assert PinOk(g, u, t.pinned[k]); }
  }
}
