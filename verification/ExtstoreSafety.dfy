/** What extstore guarantees to its callers, in every run. */
module ExtstoreSafety {
  import opened Common
  import opened Extstore
  import opened ExtstoreInv
  import opened ExtstoreSteps
  import opened ExtstorePages
  import opened ExtstoreRuns

  // ----- reads ------------------------------------------------------------------------------

  lemma {:induction false} PinsSplit(a: seq<Read>, b: seq<Read>, i: nat)
    ensures Pins(a + b, i) == Pins(a, i) + Pins(b, i)
    decreases |b|
  {
    if b == [] {
      assert a + b == a;
    } else {
      assert (a + b)[..|a + b| - 1] == a + b[..|b| - 1];
      PinsSplit(a, b[..|b| - 1], i);
    }
  }

  lemma PinsRemove(pinned: seq<Read>, k: nat, i: nat)
    requires k < |pinned|
    ensures Pins(pinned, i) == Pins(pinned[..k] + pinned[k + 1..], i) + (if pinned[k].page == i then 1 else 0)
  {
    assert pinned == pinned[..k] + ([pinned[k]] + pinned[k + 1..]);
    PinsSplit(pinned[..k], [pinned[k]] + pinned[k + 1..], i);
    PinsSplit([pinned[k]], pinned[k + 1..], i);
    PinsSplit(pinned[..k], pinned[k + 1..], i);
    assert Pins([pinned[k]], i) == Pins([], i) + if pinned[k].page == i then 1 else 0;
  }

  /** A step that changes reference counts of pages only. */
  lemma CountsOnly(g: Config, s: State, t: State, i: nat)
    requires Inv(g, s) && i < |s.pages| == |t.pages|
    requires t == s.(pages := s.pages[i := s.pages[i].(refcount := t.pages[i].refcount)], pinned := t.pinned)
      && !s.pages[i].free && PinsOk(g, t)
    ensures Inv(g, t)
  {
    assert PageOk(g, s.pages[i], s.disk[i], i, s.version);
    assert OnePage(g, s, t, i);
    PagesFrame(g, s, t, i);
    ListsFrame(g, s, t, i);
    WritersFrame(g, s, t, i);
    MaintOne(g, s, t, i);
    ReceiptsOne(g, s, t, i);
    SameBuffers(g, s, t, i);
  }

  lemma SameBuffers(g: Config, s: State, t: State, i: nat)
    requires WbufsOk(g, s) && IosOk(g, s) && i < |s.pages| == |t.pages| && t.pages == s.pages[i := t.pages[i]]
    requires t.pages[i].wbuf == s.pages[i].wbuf && t.pages[i].blocks == s.pages[i].blocks
    requires t.disk == s.disk && t.wbufStack == s.wbufStack && t.ios == s.ios && t.ioFree == s.ioFree
    ensures WbufsOk(g, t) && IosOk(g, t)
  {
    SumUpdate(s.pages, i, t.pages[i], HasWbuf);
    SumUpdate(s.pages, i, t.pages[i], HasFull);
    IosFrame(g, s, t);
  }

  lemma KeepStartRead(g: Config, s: State, r: Read)
    requires Inv(g, s)
    ensures Inv(g, StartRead(s, r))
  {
    if CheckRead(s, r).FromDisk? {
      var t := StartRead(s, r);
      forall i | 0 <= i < |t.pages| ensures t.pages[i].refcount == Pins(t.pinned, i) {
        assert t.pinned[..|t.pinned| - 1] == s.pinned;
      }
      forall k | 0 <= k < |t.pinned| ensures PinOk(g, t, t.pinned[k]) {
        if k < |s.pinned| { assert PinOk(g, s, s.pinned[k]); }
      }
      CountsOnly(g, s, t, r.page);
    }
  }

  lemma KeepEndRead(g: Config, s: State, k: nat)
    requires Inv(g, s) && CanEndRead(s, k)
    ensures Inv(g, EndRead(s, k))
  {
    var t := EndRead(s, k);
    forall i | 0 <= i < |t.pages| ensures t.pages[i].refcount == Pins(t.pinned, i) { PinsRemove(s.pinned, k, i); }
    forall l | 0 <= l < |t.pinned| ensures PinOk(g, t, t.pinned[l]) {
      assert PinOk(g, s, s.pinned[if l < k then l else l + 1]);
    }
    assert PinOk(g, s, s.pinned[k]);
    CountsOnly(g, s, t, s.pinned[k].page);
  }

  // ----- delete and close -------------------------------------------------------------------

  lemma KeepDelete(g: Config, s: State, i: nat, version: nat, count: nat, bytes: nat)
    requires Inv(g, s) && version > 0
    ensures Inv(g, DeleteObjects(s, i, version, count, bytes))
  {
    if Deletes(s, i, version) {
      var t := DeleteObjects(s, i, version, count, bytes);
      assert PageOk(g, s.pages[i], s.disk[i], i, s.version);
      OnePageRest(g, s, t, i);
      SameBuffers(g, s, t, i);
    }
  }

  lemma KeepClose(g: Config, s: State, i: nat, version: nat)
    requires Inv(g, s) && version > 0
    ensures Inv(g, ClosePage(s, i, version))
  {
    if i < |s.pages| && !s.pages[i].closed && s.pages[i].version == version { CloseIt(g, s, i); }
  }

  lemma CloseIt(g: Config, s: State, i: nat)
    requires Inv(g, s) && i < |s.pages| && !s.pages[i].free
    ensures Inv(g, s.(pages := s.pages[i := s.pages[i].(closed := true)]))
  {
    var t := s.(pages := s.pages[i := s.pages[i].(closed := true)]);
    assert PageOk(g, s.pages[i], s.disk[i], i, s.version);
    OnePageRest(g, s, t, i);
    SameBuffers(g, s, t, i);
  }

  // ----- maintenance ------------------------------------------------------------------------

  /** Only the maintenance thread moved. */
  lemma SetMaint(g: Config, s: State, m: Maint)
    requires InvNoMaint(g, s) && MaintOk(s.(maint := m))
    ensures Inv(g, s.(maint := m))
  {
    var t := s.(maint := m);
    forall f | 0 <= f < |t.freeBuckets| ensures FreeBucketOk(t, f) { assert FreeBucketOk(s, f); }
    forall c | 0 <= c < |t.buckets| ensures BucketOk(t, c) { assert BucketOk(s, c); }
    forall c | 0 <= c < |t.writers| ensures WriterOk(g, t, c) { assert WriterOk(g, s, c); }
    forall k | 0 <= k < |t.ios| ensures IoOk(g, t, k) { assert IoOk(g, s, k); }
    forall k | 0 <= k < |t.pinned| ensures PinOk(g, t, t.pinned[k]) { assert PinOk(g, s, s.pinned[k]); }
    forall k | 0 <= k < |t.receipts| ensures ReceiptOk(g, t, t.receipts[k]) { assert ReceiptOk(g, s, s.receipts[k]); }
  }

  ghost predicate InvNoMaint(g: Config, s: State) {
    && Sizes(g) && s.version > 0
    && PagesOk(g, s) && WbufsOk(g, s) && IosOk(g, s) && ListsOk(g, s) && WritersOk(g, s)
    && PinsOk(g, s) && ReceiptsOk(g, s)
  }

  lemma KeepFreePage(g: Config, s: State, i: nat)
    requires InvNoMaint(g, s) && Quiet(g, s, i) && Freeable(s, i)
    ensures InvNoMaint(g, FreePage(s, i))
  {
    FreeLists(g, s, i);
    FreeWriters(g, s, i);
    FreeRest(g, s, i);
  }

  predicate ScanFrees(p: Page) {
    !p.active && !p.free && (p.objCount == 0 || p.closed) && p.refcount == 0
  }

  /** The victim so far is the page with the lowest version among the candidates seen. */
  lemma ScanVictim(g: Config, s: State)
    requires MaintOk(s) && CanScan(s)
    ensures ScanFrees(s.pages[s.maint.pos]) ==> MaintOk(FreePage(s, s.maint.pos).(maint := Scan(s).maint))
    ensures !ScanFrees(s.pages[s.maint.pos]) ==> MaintOk(s.(maint := Scan(s).maint))
  {
  }

  lemma KeepScan(g: Config, s: State)
    requires Inv(g, s) && CanScan(s)
    ensures Inv(g, Scan(s))
  {
    var i := s.maint.pos;
    ScanVictim(g, s);
    if ScanFrees(s.pages[i]) {
      KeepFreePage(g, s, i);
      SetMaint(g, FreePage(s, i), Scan(s).maint);
    } else {
      SetMaint(g, s, Scan(s).maint);
    }
  }

  lemma KeepEndScan(g: Config, s: State)
    requires Inv(g, s) && CanEndScan(s)
    ensures Inv(g, EndScan(s))
  {
    SetMaint(g, s, Asleep);
    var t := s.(maint := Asleep);
    if s.maint.evict && s.maint.victim.Some? && !s.pages[s.maint.victim.value].closed {
      var i := s.maint.victim.value;
      CloseIt(g, t, i);
      var u := t.(pages := t.pages[i := t.pages[i].(closed := true)]);
      if u.pages[i].refcount == 0 {
        KeepFreePage(g, u, i);
        assert FreePage(u, i).(maint := Asleep) == FreePage(u, i);
        SetMaint(g, FreePage(u, i), Asleep);
      }
    }
  }

  // ----- whole runs -------------------------------------------------------------------------

  lemma StepKeeps(g: Config, s: State, a: Action)
    requires Inv(g, s) && Enabled(g, s, a)
    ensures Inv(g, Apply(g, s, a))
  {
    match a
    case ABegin(b, fb) => KeepBegin(g, s, b, fb);
    case AWrite(b, data) => KeepWrite(g, s, b, data);
    case ATurn(b, fb) => KeepTurn(g, s, b, fb);
    case ALand(k) => KeepLand(g, s, k);
    case AFlushed(k) => KeepFlushed(g, s, k);
    case AStartRead(r) => KeepStartRead(g, s, r);
    case AEndRead(k) => KeepEndRead(g, s, k);
    case ADelete(p, version, count, bytes) => KeepDelete(g, s, p, version, count, bytes);
    case AClose(p, version) => KeepClose(g, s, p, version);
    case AWake => SetMaint(g, s, Scanning(0, s.pageFree == 0 || s.freelist == [], None, {}));
    case AScan => KeepScan(g, s);
    case AEndScan => KeepEndScan(g, s);
  }

  lemma {:induction false} RunKeeps(g: Config, s: State, actions: seq<Action>)
    requires Inv(g, s)
    ensures Inv(g, Run(g, s, actions))
    decreases |actions|
  {
    if actions != [] {
      if Enabled(g, s, actions[0]) {
        StepKeeps(g, s, actions[0]);
        RunKeeps(g, Apply(g, s, actions[0]), actions[1..]);
      } else {
        RunKeeps(g, s, actions[1..]);
      }
    }
  }
}
