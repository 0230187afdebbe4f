/** Pages taken from and given back to the freelists. */
module ExtstorePages {
  import opened Common
  import opened Extstore
  import opened ExtstoreInv
  import opened ExtstoreSteps

  /** The invariant but for the writer of bucket `b`. */
  ghost predicate InvBut(g: Config, s: State, b: nat) {
    && Sizes(g) && s.version > 0
    && PagesOk(g, s) && WbufsOk(g, s) && IosOk(g, s) && ListsOk(g, s)
    && (forall c | 0 <= c < |s.writers| && c != b :: WriterOk(g, s, c))
    && MaintOk(s) && PinsOk(g, s) && ReceiptsOk(g, s)
  }

  // ----- _allocate_page ---------------------------------------------------------------------

  /** The page picked is a free one other than page 0, and page_free is positive then. */
  lemma Picked(g: Config, s: State, fb: nat)
    requires PagesOk(g, s) && ListsOk(g, s)
    ensures PickFree(s, fb).Some? ==> var p := PickFree(s, fb).value;
      && 0 < p < |s.pages| && s.pages[p].free && s.pageFree > 0
      && (if fb != 0 && fb < |s.freeBuckets| && s.freeBuckets[fb] != [] then s.freeBuckets[fb][0] == p && s.pages[p].freeBucket == fb
          else s.freelist != [] && s.freelist[0] == p && s.pages[p].freeBucket == 0)
  {
    if PickFree(s, fb).Some? {
      var p := PickFree(s, fb).value;
      if fb != 0 && fb < |s.freeBuckets| && s.freeBuckets[fb] != [] {
        assert FreeBucketOk(s, fb) && p in s.freeBuckets[fb];
      } else {
        assert p in s.freelist;
      }
      TwoFree(s.pages, p);
    }
  }

  lemma TwoFree(pages: seq<Page>, p: nat)
    requires 0 < p < |pages| && pages[0].free && pages[p].free
    ensures Sum(pages, IsFree) >= 2
  {
    var none := (q: Page) => 0;
    SumLess(pages[..p], 0, none, IsFree);
    SumLess(pages, p, none, IsFree);
    SumSplit(pages, p);
  }

  lemma {:induction false} SumSplit(pages: seq<Page>, p: nat)
    requires p < |pages| && pages[p].free
    ensures Sum(pages, IsFree) >= Sum(pages[..p], IsFree) + 1
    decreases |pages|
  {
    var n := |pages| - 1;
    if p < n {
      assert pages[..n][..p] == pages[..p];
      SumSplit(pages[..n], p);
    }
  }

  lemma PopHead(s: seq<nat>)
    requires s != [] && NoDup(s)
    ensures NoDup(s[1..]) && forall x :: x in s[1..] <==> x in s && x != s[0]
  {
    assert s == [s[0]] + s[1..];
  }

  predicate FromBucket(s: State, fb: nat) {
    fb != 0 && fb < |s.freeBuckets| && s.freeBuckets[fb] != []
  }

  lemma AllocateFreelist(g: Config, s: State, b: nat, fb: nat)
    requires PagesOk(g, s) && ListsOk(g, s) && HeadFull(g, s, b) && PickFree(s, fb).Some?
    ensures FreelistOk(g, AllocatePage(g, s, b, fb))
  {
    Picked(g, s, fb);
    if !FromBucket(s, fb) { PopHead(s.freelist); }
  }

  lemma AllocateFreeBucket(g: Config, s: State, b: nat, fb: nat, f: nat)
    requires PagesOk(g, s) && ListsOk(g, s) && HeadFull(g, s, b) && PickFree(s, fb).Some? && f < |s.freeBuckets|
    ensures var t := AllocatePage(g, s, b, fb); |t.freeBuckets| == |s.freeBuckets| && FreeBucketOk(t, f)
  {
    Picked(g, s, fb);
    assert FreeBucketOk(s, f);
    if FromBucket(s, fb) && f == fb { PopHead(s.freeBuckets[fb]); }
  }

  lemma AllocateBucket(g: Config, s: State, b: nat, fb: nat, c: nat)
    requires PagesOk(g, s) && ListsOk(g, s) && HeadFull(g, s, b) && PickFree(s, fb).Some? && c < |s.buckets|
    ensures var t := AllocatePage(g, s, b, fb); |t.buckets| == |s.buckets| && BucketOk(t, c)
  {
    Picked(g, s, fb);
    assert BucketOk(s, c);
    var p := PickFree(s, fb).value;
    assert p !in s.buckets[c];
    if c == b {
      var list := [p] + s.buckets[b];
      forall i: nat ensures i in list <==> i == p || i in s.buckets[b] { }
    }
  }

  lemma AllocateLists(g: Config, s: State, b: nat, fb: nat)
    requires PagesOk(g, s) && ListsOk(g, s) && HeadFull(g, s, b) && PickFree(s, fb).Some?
    ensures ListsOk(g, AllocatePage(g, s, b, fb))
  {
    var t := AllocatePage(g, s, b, fb);
    var p := PickFree(s, fb).value;
    Picked(g, s, fb);
    SumUpdate(s.pages, p, t.pages[p], IsFree);
    AllocateFreelist(g, s, b, fb);
    forall f | 0 <= f < |t.freeBuckets| ensures FreeBucketOk(t, f) { AllocateFreeBucket(g, s, b, fb, f); }
    forall c | 0 <= c < |t.buckets| ensures BucketOk(t, c) { AllocateBucket(g, s, b, fb, c); }
  }

  lemma AllocateWriters(g: Config, s: State, b: nat, fb: nat)
    requires InvBut(g, s, b) && HeadFull(g, s, b) && AllFull(g, s, b) && PickFree(s, fb).Some?
    ensures var t := AllocatePage(g, s, b, fb);
      && |t.writers| == |t.buckets| && b < |t.buckets| && TailFull(g, t, b)
      && forall c | 0 <= c < |t.writers| && c != b :: WriterOk(g, t, c)
  {
    var t := AllocatePage(g, s, b, fb);
    var p := PickFree(s, fb).value;
    Picked(g, s, fb);
    forall c | 0 <= c < |t.writers| && c != b ensures WriterOk(g, t, c) {
      assert WriterOk(g, s, c) && BucketOk(s, c);
      assert p !in s.buckets[c];
      assert forall j | j != p :: Full(g, s, j) ==> Full(g, t, j);
    }
    assert BucketOk(s, b);
  }

  lemma AllocateRest(g: Config, s: State, b: nat, fb: nat)
    requires InvBut(g, s, b) && HeadFull(g, s, b) && PickFree(s, fb).Some?
    ensures var t := AllocatePage(g, s, b, fb); PagesOk(g, t) && PinsOk(g, t) && ReceiptsOk(g, t) && MaintOk(t)
  {
    var t := AllocatePage(g, s, b, fb);
    var p := PickFree(s, fb).value;
    Picked(g, s, fb);
    assert PageOk(g, s.pages[p], s.disk[p], p, s.version);
    PagesFrame(g, s, t, p);
    AllocatePins(g, s, t, p);
    ReceiptsFrame(g, s, t);
  }

  lemma AllocatePins(g: Config, s: State, t: State, p: nat)
    requires PinsOk(g, s) && p < |s.pages| == |t.pages| && s.pages[p].free && t.pages == s.pages[p := t.pages[p]]
    requires t.pinned == s.pinned && t.pages[p].refcount == s.pages[p].refcount
    ensures PinsOk(g, t)
  {
    PinsFrame(g, s, t);
  }

  lemma AllocateBuffers(g: Config, s: State, b: nat, fb: nat)
    requires InvBut(g, s, b) && HeadFull(g, s, b) && PickFree(s, fb).Some?
    ensures var t := AllocatePage(g, s, b, fb); WbufsOk(g, t) && IosOk(g, t)
  {
    var p := PickFree(s, fb).value;
    Picked(g, s, fb);
    assert s.pages[p].wbuf.None? by { assert PageOk(g, s.pages[p], s.disk[p], p, s.version); }
    IdleBuffers(g, s, AllocatePage(g, s, b, fb), p);
  }

  lemma KeepAllocatePage(g: Config, s: State, b: nat, fb: nat)
    requires InvBut(g, s, b) && HeadFull(g, s, b) && AllFull(g, s, b)
    ensures var t := AllocatePage(g, s, b, fb); InvBut(g, t, b) && TailFull(g, t, b)
  {
    if PickFree(s, fb).Some? {
      Picked(g, s, fb);
      AllocateLists(g, s, b, fb);
      AllocateWriters(g, s, b, fb);
      AllocateRest(g, s, b, fb);
      AllocateBuffers(g, s, b, fb);
    }
  }

  lemma HeadIsFull(g: Config, s: State, b: nat)
    requires b < |s.buckets| && AllFull(g, s, b)
    ensures HeadFull(g, s, b)
  {
    if s.buckets[b] != [] { assert s.buckets[b][0] in s.buckets[b]; }
  }

  // ----- _free_page -------------------------------------------------------------------------

  /** A page that may be freed: closed to writing, flushed and unread. */
  predicate Quiet(g: Config, s: State, i: nat) {
    i < |s.pages| && !s.pages[i].free && !s.pages[i].active && s.pages[i].refcount == 0
  }

  lemma IdlePage(g: Config, s: State, i: nat)
    requires Sizes(g) && PagesOk(g, s) && Quiet(g, s, i)
    ensures i > 0 && s.pages[i].wbuf.None? && Freeable(s, i) == (s.pages[i].bucket < |s.buckets| && s.pages[i].freeBucket < |s.freeBuckets|)
    ensures s.pages[i].reserved == PageSize(g) == s.pages[i].written
    ensures s.pages[i].bucket < g.buckets && s.pages[i].freeBucket < g.buckets
  {
    assert PageOk(g, s.pages[i], s.disk[i], i, s.version);
  }

  lemma FreeFreelist(g: Config, s: State, i: nat)
    requires Sizes(g) && PagesOk(g, s) && ListsOk(g, s) && Quiet(g, s, i) && Freeable(s, i)
    ensures FreelistOk(g, FreePage(s, i))
  {
    IdlePage(g, s, i);
    assert i !in s.freelist;
    if s.pages[i].freeBucket == 0 {
      forall j: nat ensures j in [i] + s.freelist <==> j == i || j in s.freelist { }
    }
  }

  lemma FreeFreeBucket(g: Config, s: State, i: nat, f: nat)
    requires Sizes(g) && PagesOk(g, s) && ListsOk(g, s) && Quiet(g, s, i) && Freeable(s, i) && f < |s.freeBuckets|
    ensures var t := FreePage(s, i); |t.freeBuckets| == |s.freeBuckets| && FreeBucketOk(t, f)
  {
    IdlePage(g, s, i);
    assert FreeBucketOk(s, f);
    assert i !in s.freeBuckets[f];
    forall j: nat ensures j in [i] + s.freeBuckets[f] <==> j == i || j in s.freeBuckets[f] { }
  }

  lemma FreeBucketList(g: Config, s: State, i: nat, c: nat)
    requires Sizes(g) && PagesOk(g, s) && ListsOk(g, s) && Quiet(g, s, i) && Freeable(s, i) && c < |s.buckets|
    ensures var t := FreePage(s, i); |t.buckets| == |s.buckets| && BucketOk(t, c)
  {
    assert BucketOk(s, c);
    if c == s.pages[i].bucket { WithoutMembers(s.buckets[c], i); }
  }

  lemma FreeLists(g: Config, s: State, i: nat)
    requires Sizes(g) && PagesOk(g, s) && ListsOk(g, s) && Quiet(g, s, i) && Freeable(s, i)
    ensures ListsOk(g, FreePage(s, i))
  {
    var t := FreePage(s, i);
    IdlePage(g, s, i);
    SumUpdate(s.pages, i, t.pages[i], IsFree);
    FreeFreelist(g, s, i);
    forall f | 0 <= f < |t.freeBuckets| ensures FreeBucketOk(t, f) { FreeFreeBucket(g, s, i, f); }
    forall c | 0 <= c < |t.buckets| ensures BucketOk(t, c) { FreeBucketList(g, s, i, c); }
  }

  lemma FreeWriters(g: Config, s: State, i: nat)
    requires Sizes(g) && PagesOk(g, s) && ListsOk(g, s) && WritersOk(g, s) && Quiet(g, s, i) && Freeable(s, i)
    ensures var t := FreePage(s, i); |t.writers| == |t.buckets| && WritersOk(g, t)
  {
    var t := FreePage(s, i);
    forall c | 0 <= c < |t.writers| ensures WriterOk(g, t, c) {
      assert WriterOk(g, s, c) && BucketOk(s, c);
      WithoutMembers(s.buckets[c], i);
      assert forall j | j != i :: Full(g, s, j) ==> Full(g, t, j);
      if c == s.pages[i].bucket {
        assert i in s.buckets[c];
      }
    }
  }

  lemma FreeRest(g: Config, s: State, i: nat)
    requires Sizes(g) && PagesOk(g, s) && PinsOk(g, s) && ReceiptsOk(g, s) && Quiet(g, s, i) && Freeable(s, i)
    requires WbufsOk(g, s) && IosOk(g, s)
    ensures var t := FreePage(s, i);
      PagesOk(g, t) && PinsOk(g, t) && ReceiptsOk(g, t) && WbufsOk(g, t) && IosOk(g, t)
  {
    var t := FreePage(s, i);
    IdlePage(g, s, i);
    assert PageOk(g, s.pages[i], s.disk[i], i, s.version);
    PagesFrame(g, s, t, i);
    PinsFrame(g, s, t);
    ReceiptsFrame(g, s, t);
    IdleBuffers(g, s, t, i);
  }

  /** A page without a buffer may change without an effect on buffers and ios. */
  lemma IdleBuffers(g: Config, s: State, t: State, i: nat)
    requires WbufsOk(g, s) && IosOk(g, s) && i < |s.pages| && s.pages[i].wbuf.None?
    requires |t.pages| == |s.pages| && t.pages == s.pages[i := t.pages[i]] && t.pages[i].wbuf.None?
    requires t.disk == s.disk && t.wbufStack == s.wbufStack && t.ios == s.ios && t.ioFree == s.ioFree
    ensures WbufsOk(g, t) && IosOk(g, t)
  {
    SumUpdate(s.pages, i, t.pages[i], HasWbuf);
    SumUpdate(s.pages, i, t.pages[i], HasFull);
    IosFrame(g, s, t);
  }
}
