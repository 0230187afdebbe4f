/** The steps of the writing, IO and maintenance threads, and whole runs. */
module ExtstoreRuns {
  import opened Common
  import opened ItemImage
  import opened Extstore
  import opened ExtstoreInv
  import opened ExtstoreSteps
  import opened ExtstorePages

  // ----- the writing thread -----------------------------------------------------------------

  /** Only the writer of bucket `b` moved. */
  lemma SetWriter(g: Config, s: State, b: nat, w: Writer)
    requires InvBut(g, s, b) && b < |s.writers| == |s.buckets|
    requires WriterOk(g, s.(writers := s.writers[b := w]), b)
    ensures Inv(g, s.(writers := s.writers[b := w]))
  {
    var t := s.(writers := s.writers[b := w]);
    forall f | 0 <= f < |t.freeBuckets| ensures FreeBucketOk(t, f) { assert FreeBucketOk(s, f); }
    forall c | 0 <= c < |t.buckets| ensures BucketOk(t, c) { assert BucketOk(s, c); }
    forall c | 0 <= c < |t.writers| ensures WriterOk(g, t, c) { if c != b { assert WriterOk(g, s, c); } }
    forall k | 0 <= k < |t.ios| ensures IoOk(g, t, k) { assert IoOk(g, s, k); }
    forall k | 0 <= k < |t.pinned| ensures PinOk(g, t, t.pinned[k]) { assert PinOk(g, s, s.pinned[k]); }
    forall k | 0 <= k < |t.receipts| ensures ReceiptOk(g, t, t.receipts[k]) { assert ReceiptOk(g, s, s.receipts[k]); }
  }

  lemma KeepBegin(g: Config, s: State, b: nat, fb: nat)
    requires Inv(g, s) && CanBegin(g, s, b)
    ensures Inv(g, Begin(g, s, b, fb))
  {
    assert WriterOk(g, s, b);
    if s.buckets[b] == [] { KeepAllocatePage(g, s, b, fb); }
    var t := if s.buckets[b] == [] then AllocatePage(g, s, b, fb) else s;
    if t.buckets[b] != [] {
      assert BucketOk(t, b) && t.buckets[b][0] in t.buckets[b];
      SetWriter(g, t, b, Chosen(t.buckets[b][0]));
    } else {
      SetWriter(g, t, b, Idle);
      assert t.writers[b := Idle] == t.writers;
    }
  }

  lemma KeepTurn(g: Config, s: State, b: nat, fb: nat)
    requires Inv(g, s) && CanTurn(g, s, b)
    ensures Inv(g, Turn(g, s, b, fb))
  {
    assert WriterOk(g, s, b);
    KeepAllocatePage(g, s, b, fb);
    SetWriter(g, AllocatePage(g, s, b, fb), b, Idle);
  }

  /** The page to write into is full, or gone: nothing in the bucket has room. */
  lemma MustTurnAllFull(g: Config, s: State, b: nat)
    requires Inv(g, s) && b < |s.writers| && s.writers[b].Chosen? && s.writers[b].page < |s.pages|
    requires MustTurnPage(g, s.pages[s.writers[b].page])
    ensures AllFull(g, s, b)
  {
    assert WriterOk(g, s, b) && BucketOk(s, b);
    var p := s.writers[b].page;
    if s.buckets[b] != [] && s.buckets[b][0] == p {
      assert p in s.buckets[b];
      assert PageOk(g, s.pages[p], s.disk[p], p, s.version);
      RoomLeft(g, s.pages[p]);
    }
  }

  lemma KeepWrite(g: Config, s: State, b: nat, data: Bytes)
    requires Inv(g, s) && CanWrite(g, s, b, data)
    ensures Inv(g, Write(g, s, b, data))
  {
    var i := s.writers[b].page;
    assert WriterOk(g, s, b);
    assert PageOk(g, s.pages[i], s.disk[i], i, s.version);
    if MustTurnPage(g, s.pages[i]) {
      MustTurnAllFull(g, s, b);
      SetWriter(g, s, b, NeedPage);
    } else if MustSubmit(g, s.pages[i], |data|) {
      KeepSubmitted(g, s, b, i);
    } else {
      var u := if s.pages[i].wbuf.None? && s.pages[i].reserved < PageSize(g) then AllocateWbuf(g, s, i) else s;
      if s.pages[i].wbuf.None? && s.pages[i].reserved < PageSize(g) { KeepAllocateWbuf(g, s, i); }
      KeepFill(g, u, b, i, data);
    }
  }

  lemma KeepSubmitted(g: Config, s: State, b: nat, i: nat)
    requires Inv(g, s) && b < |s.writers| && s.writers[b] == Chosen(i) && i < |s.pages|
    requires s.pages[i].wbuf.Some? && !s.pages[i].wbuf.value.full && s.ioFree > 0
    ensures Inv(g, Submit(s, i).(writers := s.writers[b := Idle]))
  {
    KeepSubmit(g, s, i);
    var t := Submit(s, i);
    assert WriterOk(g, s, b) && WriterOk(g, t, b);
    assert PageOk(g, s.pages[i], s.disk[i], i, s.version);
    SetWriter(g, t, b, Idle);
  }

  lemma KeepFill(g: Config, u: State, b: nat, i: nat, data: Bytes)
    requires Inv(g, u) && b < |u.writers| && u.writers[b] == Chosen(i) && i < |u.pages| && !u.pages[i].free && IsImage(data)
    ensures var w := u.pages[i].wbuf;
      && (w.Some? ==> u.pages[i].blocks != [])
      && var v := if w.Some? && !w.value.full && Room(g, w.value) >= |data| then Append(u, i, data) else u;
      Inv(g, v.(writers := u.writers[b := Idle]))
  {
    var w := u.pages[i].wbuf;
    assert PageOk(g, u.pages[i], u.disk[i], i, u.version);
    if w.Some? && !w.value.full && Room(g, w.value) >= |data| {
      KeepAppend(g, u, i, data);
      assert WriterOk(g, Append(u, i, data), b);
      SetWriter(g, Append(u, i, data), b, Idle);
    } else {
      assert WriterOk(g, u, b);
      SetWriter(g, u, b, Idle);
    }
  }

  // ----- the IO threads ---------------------------------------------------------------------

  /** Writing block `last` leaves the blocks before it alone. */
  lemma LandBlock(g: Config, d: Bytes, last: nat, x: Bytes, b: nat, objs: seq<Bytes>)
    requires |x| == g.size && last * g.size + g.size <= |d| && b < last && BlockOnDisk(g, d, b, objs)
    ensures BlockOnDisk(g, Splice(d, last * g.size, x), b, objs)
  {
    Step(b, last, g.size);
    SpliceApart(d, last * g.size, x, b * g.size, b * g.size + g.size);
  }

  lemma LandPage(g: Config, s: State, k: nat)
    requires Inv(g, s) && CanLand(g, s, k)
    ensures var i := s.ios[k].page; var t := Land(g, s, k);
      && PageOk(g, s.pages[i], t.disk[i], i, s.version)
      && BlockOnDisk(g, t.disk[i], |s.pages[i].blocks| - 1, LastBlock(s.pages[i]))
  {
    var i := s.ios[k].page;
    IoPage(g, s, k);
    LandedPage(g, s.pages[i], s.disk[i], i, s.version, Land(g, s, k).disk[i]);
  }

  /** What an io in flight writes, and where. */
  lemma IoPage(g: Config, s: State, k: nat)
    requires Inv(g, s) && CanLand(g, s, k)
    ensures var i := s.ios[k].page; var p := s.pages[i];
      && PageOk(g, p, s.disk[i], i, s.version) && !p.free && p.wbuf.Some? && |Concat(LastBlock(p))| <= g.size
      && p.written + g.size <= |s.disk[i]|
      && Land(g, s, k).disk[i] == Splice(s.disk[i], p.written, Pack(LastBlock(p), g.size))
  {
    var i := s.ios[k].page;
    assert IoOk(g, s, k) && PageOk(g, s.pages[i], s.disk[i], i, s.version);
  }

  lemma LandedPage(g: Config, p: Page, d: Bytes, i: nat, version: nat, e: Bytes)
    requires PageOk(g, p, d, i, version) && !p.free && p.wbuf.Some? && |Concat(LastBlock(p))| <= g.size
    requires p.written + g.size <= |d| && e == Splice(d, p.written, Pack(LastBlock(p), g.size))
    ensures PageOk(g, p, e, i, version) && BlockOnDisk(g, e, |p.blocks| - 1, LastBlock(p))
  {
    var last := |p.blocks| - 1;
    var x := Pack(LastBlock(p), g.size);
    assert e[last * g.size..last * g.size + g.size] == x;
    forall b | 0 <= b < OnDiskCount(p) ensures BlockOnDisk(g, e, b, p.blocks[b]) {
      LandBlock(g, d, last, x, b, p.blocks[b]);
    }
  }

  lemma KeepLand(g: Config, s: State, k: nat)
    requires Inv(g, s) && CanLand(g, s, k)
    ensures Inv(g, Land(g, s, k))
  {
    LandPage(g, s, k);
    LandIos(g, s, k);
    LandRest(g, s, Land(g, s, k), s.ios[k].page);
  }

  lemma LandIos(g: Config, s: State, k: nat)
    requires IosOk(g, s) && CanLand(g, s, k)
    requires var i := s.ios[k].page;
      |s.pages[i].blocks| > 0 ==>
        BlockOnDisk(g, Land(g, s, k).disk[i], |s.pages[i].blocks| - 1, LastBlock(s.pages[i]))
    ensures IosOk(g, Land(g, s, k))
  {
    var t := Land(g, s, k);
    forall l | 0 <= l < |t.ios| ensures IoOk(g, t, l) {
      assert IoOk(g, s, l);
      if l < k { assert s.ios[l].page != s.ios[k].page; }
      if k < l { assert s.ios[k].page != s.ios[l].page; }
    }
  }

  lemma LandRest(g: Config, s: State, t: State, i: nat)
    requires Inv(g, s) && i < |s.pages| && i < |s.disk| == |t.disk|
    requires t == s.(ios := t.ios, disk := s.disk[i := t.disk[i]]) && PageOk(g, s.pages[i], t.disk[i], i, s.version)
    requires |t.ios| == |s.ios| && IosOk(g, t)
    ensures Inv(g, t)
  {
    assert s.pages == s.pages[i := s.pages[i]];
    assert OnePage(g, s, t, i);
    OnePageRest(g, s, t, i);
    assert WbufsOk(g, t);
  }

  /** The assertions in the flush callback hold whenever a flush has landed. */
  lemma FlushAssertsHold(g: Config, s: State, k: nat)
    requires Inv(g, s) && k < |s.ios|
    ensures FlushAsserts(s, s.ios[k])
    ensures !s.ios[k].landed ==> CanLand(g, s, k)
    ensures s.ios[k].offset == s.pages[s.ios[k].page].written && s.pages[s.ios[k].page].active
  {
    assert IoOk(g, s, k);
    var i := s.ios[k].page;
    var p := s.pages[i];
    assert PageOk(g, p, s.disk[i], i, s.version);
    Step(|p.blocks| - 1, g.perPage, g.size);
  }

  lemma FlushedPage(g: Config, s: State, k: nat)
    requires Inv(g, s) && CanFlushed(s, k)
    ensures var i := s.ios[k].page; var t := Flushed(g, s, k);
      PageOk(g, t.pages[i], s.disk[i], i, s.version) && OnePage(g, s, t, i)
  {
    var i := s.ios[k].page;
    var p := s.pages[i];
    assert IoOk(g, s, k) && PageOk(g, p, s.disk[i], i, s.version);
    FlushedOk(g, p, s.disk[i], i, s.version);
  }

  lemma FlushedOk(g: Config, p: Page, d: Bytes, i: nat, version: nat)
    requires Sizes(g) && PageOk(g, p, d, i, version) && p.wbuf.Some?
    requires BlockOnDisk(g, d, |p.blocks| - 1, LastBlock(p))
    ensures PageOk(g, p.(written := p.written + g.size, wbuf := None, active := p.active && p.written + g.size != PageSize(g)),
                   d, i, version)
  {
    var q := p.(written := p.written + g.size, wbuf := None, active := p.active && p.written + g.size != PageSize(g));
    assert OnDiskCount(p) == |p.blocks| - 1 && OnDiskCount(q) == |p.blocks|;
    FlushedSizes(g, p);
    FlushedBlocks(g, p, q, d);
  }

  lemma FlushedSizes(g: Config, p: Page)
    requires Sizes(g) && WbufOk(g, p) && p.wbuf.Some?
    ensures p.written + g.size == |p.blocks| * g.size == p.reserved
    ensures p.written + g.size == PageSize(g) <==> |p.blocks| == g.perPage
  {
    var last := |p.blocks| - 1;
    assert (last + 1) * g.size == last * g.size + g.size;
    if last + 1 < g.perPage { Step(last + 1, g.perPage, g.size); }
  }

  lemma FlushedBlocks(g: Config, p: Page, q: Page, d: Bytes)
    requires BlocksOk(g, p, d) && p.wbuf.Some? && p.blocks != [] && BlockOnDisk(g, d, |p.blocks| - 1, LastBlock(p))
    requires q.blocks == p.blocks && q.wbuf.None?
    ensures BlocksOk(g, q, d)
  {
    forall b | 0 <= b < OnDiskCount(q) ensures BlockOnDisk(g, d, b, q.blocks[b]) {
      if b < |p.blocks| - 1 { assert BlockOnDisk(g, d, b, p.blocks[b]); }
    }
  }

  lemma FlushedBuffers(g: Config, s: State, k: nat)
    requires Inv(g, s) && CanFlushed(s, k)
    ensures WbufsOk(g, Flushed(g, s, k))
  {
    var t := Flushed(g, s, k);
    var i := s.ios[k].page;
    assert IoOk(g, s, k) && PageOk(g, s.pages[i], s.disk[i], i, s.version);
    SumUpdate(s.pages, i, t.pages[i], HasWbuf);
    SumUpdate(s.pages, i, t.pages[i], HasFull);
  }

  lemma RemoveIo(ios: seq<Io>, k: nat)
    requires k < |ios| && forall l, m | 0 <= l < m < |ios| :: ios[l].page != ios[m].page
    ensures var r := ios[..k] + ios[k + 1..];
      && (forall l, m | 0 <= l < m < |r| :: r[l].page != r[m].page)
      && (forall l | 0 <= l < |r| :: r[l].page != ios[k].page && r[l] == ios[if l < k then l else l + 1])
  {
    var r := ios[..k] + ios[k + 1..];
    forall l | 0 <= l < |r| ensures r[l].page != ios[k].page && r[l] == ios[if l < k then l else l + 1] {
      if l < k { assert ios[l].page != ios[k].page; } else { assert ios[k].page != ios[l + 1].page; }
    }
    forall l, m | 0 <= l < m < |r| ensures r[l].page != r[m].page {
      assert r[l] == ios[if l < k then l else l + 1] && r[m] == ios[if m < k then m else m + 1];
    }
  }

  lemma FlushedIos(g: Config, s: State, k: nat)
    requires IosOk(g, s) && CanFlushed(s, k)
    ensures IosOk(g, Flushed(g, s, k))
  {
    var t := Flushed(g, s, k);
    RemoveIo(s.ios, k);
    forall l | 0 <= l < |t.ios| ensures IoOk(g, t, l) {
      assert IoOk(g, s, if l < k then l else l + 1);
    }
  }

  lemma KeepFlushed(g: Config, s: State, k: nat)
    requires Inv(g, s) && CanFlushed(s, k)
    ensures Inv(g, Flushed(g, s, k))
  {
    FlushedPage(g, s, k);
    FlushedBuffers(g, s, k);
    FlushedIos(g, s, k);
    OnePageRest(g, s, Flushed(g, s, k), s.ios[k].page);
  }
}
