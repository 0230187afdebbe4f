/**
 * What each step of the page engine does to the fields of page, buffer and lists, told from the fields alone:
 * when a buffer is submitted, which page is taken, what a flush, a read, a delete and the maintenance do.
 */
module ExtstoreExact {
  import opened Common
  import opened ItemImage
  import opened Extstore
  import opened ExtstoreInv
  import opened ExtstoreSteps
  import opened ExtstorePages
  import opened ExtstoreSafety
  import opened ExtstoreTheorems

  // ----- writing ----------------------------------------------------------------------------

  /** All pages but `i` are as they were, and so are the lists, the file and the reads. */
  ghost predicate OnlyPage(s: State, t: State, i: nat) {
    && |t.pages| == |s.pages| && (forall j | 0 <= j < |s.pages| && j != i :: t.pages[j] == s.pages[j])
    && t.disk == s.disk && t.buckets == s.buckets && t.freelist == s.freelist && t.freeBuckets == s.freeBuckets
    && t.pageFree == s.pageFree && t.version == s.version && t.pinned == s.pinned && t.maint == s.maint
  }

  /** A write that does not fit into the buffer of its active page submits the buffer: it is full with what it
      holds, and an io for it is in flight. No other write submits anything. */
  lemma WriteSubmits(g: Config, s: State, b: nat, data: Bytes)
    requires Inv(g, s) && CanWrite(g, s, b, data)
    ensures var i := s.writers[b].page; var p, t := s.pages[i], Write(g, s, b, data);
      && OnlyPage(s, t, i)
      && if p.active && p.wbuf.Some? && !p.wbuf.value.full && |p.wbuf.value.content| + |data| > g.size then
           var w := p.wbuf.value;
           && t.ios == s.ios + [Io(i, w.id, w.offset, false)] && t.ioFree + 1 == s.ioFree
           && t.pages[i] == p.(wbuf := Some(w.(full := true))) && t.wbufStack == s.wbufStack
         else t.ios == s.ios && t.ioFree == s.ioFree
  {
    assert PageOk(g, s.pages[s.writers[b].page], s.disk[s.writers[b].page], s.writers[b].page, s.version);
  }

  /** A write to an active page that has no buffer but room leaves one attached, if there is one: the top of
      the stack, behind what is allocated of the page, with the object if it fits. */
  lemma WriteAttaches(g: Config, s: State, b: nat, data: Bytes)
    requires Inv(g, s) && CanWrite(g, s, b, data)
    ensures var i := s.writers[b].page; var p, t := s.pages[i], Write(g, s, b, data);
      if p.active && p.wbuf.None? && p.reserved < g.perPage * g.size && s.wbufStack != [] then
        && t.pages[i].wbuf == Some(Wbuf(s.wbufStack[0], if |data| <= g.size then data else [], p.reserved, false))
        && t.wbufStack == s.wbufStack[1..] && t.pages[i].reserved == p.reserved + g.size
      else t.wbufStack == s.wbufStack && t.pages[i].reserved == p.reserved && (p.wbuf.None? ==> t.pages[i].wbuf.None?)
  {
    assert PageOk(g, s.pages[s.writers[b].page], s.disk[s.writers[b].page], s.writers[b].page, s.version);
    assert [] + data == data;
  }

  /** What is written goes behind what the buffer holds, and counts once. */
  lemma WriteAppends(g: Config, s: State, b: nat, data: Bytes)
    requires Inv(g, s) && CanWrite(g, s, b, data)
    ensures var i := s.writers[b].page; var p, t := s.pages[i], Write(g, s, b, data);
      && (p.active && p.wbuf.Some? && !p.wbuf.value.full && |p.wbuf.value.content| + |data| <= g.size ==>
            t.pages[i].wbuf == Some(p.wbuf.value.(content := p.wbuf.value.content + data)))
      && (var n := if t.receipts == s.receipts then 0 else 1;
          && t.pages[i].objCount == p.objCount + n && t.objectsUsed == s.objectsUsed + n
          && t.pages[i].bytesUsed == p.bytesUsed + n * |data| && t.bytesUsed == s.bytesUsed + n * |data|)
      && t.pages[i].active == p.active && t.pages[i].closed == p.closed && t.pages[i].refcount == p.refcount
  {
    assert PageOk(g, s.pages[s.writers[b].page], s.disk[s.writers[b].page], s.writers[b].page, s.version);
    WriteReceipt(g, s, b, data);
  }

  /** The writer asks for a new page if and only if the one it chose is not active any more, or is allocated to
      its end without a buffer that takes more. */
  lemma WriteTurns(g: Config, s: State, b: nat, data: Bytes)
    requires CanWrite(g, s, b, data)
    ensures var p, t := s.pages[s.writers[b].page], Write(g, s, b, data);
      && |t.writers| == |s.writers| && (forall c | 0 <= c < |s.writers| && c != b :: t.writers[c] == s.writers[c])
      && t.writers[b] == if !p.active || ((p.wbuf.None? || p.wbuf.value.full) && p.reserved >= g.perPage * g.size) then NeedPage else Idle
  {
  }

  // ----- taking a page ----------------------------------------------------------------------

  /** A request for a page takes the head of the free bucket asked for, if that is not the default and has one,
      else the head of the default freelist; the page becomes the head of its bucket, with a version of its own.
      Without such a page nothing changes. */
  lemma PageTaken(g: Config, s: State, b: nat, fb: nat)
    requires Inv(g, s) && HeadFull(g, s, b)
    ensures var t := AllocatePage(g, s, b, fb);
      if fb != 0 && fb < |s.freeBuckets| && s.freeBuckets[fb] != [] then
        TakesPage(s, t, b, s.freeBuckets[fb][0]) && t.freelist == s.freelist
        && t.freeBuckets == s.freeBuckets[fb := s.freeBuckets[fb][1..]]
      else if s.freelist != [] then
        TakesPage(s, t, b, s.freelist[0]) && t.freelist == s.freelist[1..] && t.freeBuckets == s.freeBuckets
      else t == s
  {
    TakenIsFree(g, s, fb);
  }

  lemma TakenIsFree(g: Config, s: State, fb: nat)
    requires Inv(g, s)
    ensures fb != 0 && fb < |s.freeBuckets| && s.freeBuckets[fb] != [] ==>
      s.freeBuckets[fb][0] < |s.pages| && s.pages[s.freeBuckets[fb][0]].free && s.pageFree > 0
    ensures s.freelist != [] ==> s.freelist[0] < |s.pages| && s.pages[s.freelist[0]].free && s.pageFree > 0
  {
    if fb != 0 && fb < |s.freeBuckets| && s.freeBuckets[fb] != [] {
      assert FreeBucketOk(s, fb) && s.freeBuckets[fb][0] in s.freeBuckets[fb];
      TwoFree(s.pages, s.freeBuckets[fb][0]);
    }
    if s.freelist != [] {
      assert s.freelist[0] in s.freelist;
      TwoFree(s.pages, s.freelist[0]);
    }
  }

  ghost predicate TakesPage(s: State, t: State, b: nat, p: nat) {
    && p < |s.pages| == |t.pages| && b < |s.buckets|
    && t.pages == s.pages[p := s.pages[p].(active := true, free := false, closed := false, version := s.version, bucket := b)]
    && t.buckets == s.buckets[b := [p] + s.buckets[b]] && t.version == s.version + 1 && t.pageFree + 1 == s.pageFree
    && t.disk == s.disk && t.ios == s.ios && t.ioFree == s.ioFree && t.wbufStack == s.wbufStack && t.writers == s.writers
  }

  /** The first lock of a write request chooses the head of the bucket, a new page if there is none. */
  lemma BeginChooses(g: Config, s: State, b: nat, fb: nat)
    requires CanBegin(g, s, b)
    ensures var t := Begin(g, s, b, fb);
      && |t.writers| == |s.writers| && b < |t.buckets| && (forall c | 0 <= c < |s.writers| && c != b :: t.writers[c] == s.writers[c])
      && t.writers[b] == (if t.buckets[b] != [] then Chosen(t.buckets[b][0]) else Idle)
      && t.(writers := s.writers) == if s.buckets[b] == [] then AllocatePage(g, s, b, fb) else s
  {
  }

  /** After the second lock a full page has been replaced at the head of its bucket, if a page was free. */
  lemma TurnTakes(g: Config, s: State, b: nat, fb: nat)
    requires Inv(g, s) && CanTurn(g, s, b)
    ensures var t := Turn(g, s, b, fb);
      && |t.writers| == |s.writers| && (forall c | 0 <= c < |s.writers| && c != b :: t.writers[c] == s.writers[c])
      && t.writers[b] == Idle && t.(writers := s.writers) == AllocatePage(g, s, b, fb)
  {
    PageTaken(g, s, b, fb);
  }

  // ----- flushing ---------------------------------------------------------------------------

  /** A pwrite puts the content of the buffer and zeros behind it into the page file, at the place of the
      buffer, and nothing else. */
  lemma LandWrites(g: Config, s: State, k: nat)
    requires CanLand(g, s, k)
    ensures var t := Land(g, s, k); var io := s.ios[k]; var c := s.pages[io.page].wbuf.value.content; var d := s.disk[io.page];
      && t == s.(ios := s.ios[k := io.(landed := true)], disk := s.disk[io.page := t.disk[io.page]])
      && |t.disk[io.page]| == |d| && t.disk[io.page][..io.offset] == d[..io.offset]
      && t.disk[io.page][io.offset..io.offset + |c|] == c
      && (forall j | io.offset + |c| <= j < io.offset + g.size :: t.disk[io.page][j] == 0)
      && t.disk[io.page][io.offset + g.size..] == d[io.offset + g.size..]
  {
    var io := s.ios[k];
    var c := s.pages[io.page].wbuf.value.content;
    Landed(s.disk[io.page], io.offset, c, g.size - |c|);
  }

  lemma Landed(d: Bytes, at: nat, c: Bytes, n: nat)
    requires at + |c| + n <= |d|
    ensures var t := Splice(d, at, c + Zeros(n));
      && |t| == |d| && t[..at] == d[..at] && t[at..at + |c|] == c
      && (forall j | at + |c| <= j < at + |c| + n :: t[j] == 0)
      && t[at + |c| + n..] == d[at + |c| + n..]
  {
  }

  /** The flush callback: the page has one more buffer's worth written and gives up its buffer, which comes on
      top of the stack, and the page is done with when it is written to its end. */
  lemma FlushReturns(g: Config, s: State, k: nat)
    requires CanFlushed(s, k)
    ensures var t := Flushed(g, s, k); var io := s.ios[k]; var p := s.pages[io.page];
      && OnlyPage(s, t, io.page) && t.ios == Cut(s.ios, k) && t.ioFree == s.ioFree + 1 && t.wbufStack == [io.wbuf] + s.wbufStack
      && t.pages[io.page] == p.(written := p.written + g.size, wbuf := None, active := t.pages[io.page].active)
      && (t.pages[io.page].active <==> p.active && p.written + g.size != g.perPage * g.size)
  {
  }

  // ----- reading ----------------------------------------------------------------------------

  /** A read holds its page if and only if the page has the version asked for and is neither free nor closed,
      and what is asked for is behind what the active page has written out. */
  lemma ReadPins(s: State, r: Read)
    requires r.page < |s.pages|
    ensures var t := StartRead(s, r); var p := s.pages[r.page];
      if !p.free && !p.closed && p.version == r.version && (!p.active || r.offset < p.written) then
        t == s.(pinned := s.pinned + [r], pages := s.pages[r.page := p.(refcount := p.refcount + 1)])
      else t == s
  {
  }

  lemma EndReadUnpins(g: Config, s: State, k: nat)
    requires CanEndRead(s, k)
    ensures var t := EndRead(s, k); var i := s.pinned[k].page;
      && t == s.(pinned := Cut(s.pinned, k), pages := s.pages[i := s.pages[i].(refcount := t.pages[i].refcount)])
      && t.pages[i].refcount + 1 == s.pages[i].refcount
  {
  }

  // ----- deleting and closing ---------------------------------------------------------------

  /** A delete takes effect if and only if the page still has the version and is not closed; the page's numbers
      go down to 0 at most, the totals by what was asked. */
  lemma DeleteTakesOff(s: State, i: nat, version: nat, count: nat, bytes: nat)
    requires i < |s.pages|
    ensures var t := DeleteObjects(s, i, version, count, bytes); var p := s.pages[i];
      if p.version == version && !p.closed then
        && t == s.(pages := s.pages[i := p.(objCount := t.pages[i].objCount, bytesUsed := t.pages[i].bytesUsed)],
                   objectsUsed := s.objectsUsed - count, bytesUsed := s.bytesUsed - bytes)
        && t.pages[i].objCount == (if count <= p.objCount then p.objCount - count else 0)
        && t.pages[i].bytesUsed == (if bytes <= p.bytesUsed then p.bytesUsed - bytes else 0)
      else t == s
  {
  }

  lemma CloseCloses(s: State, i: nat, version: nat)
    requires i < |s.pages|
    ensures ClosePage(s, i, version) ==
      if s.pages[i].version == version then s.(pages := s.pages[i := s.pages[i].(closed := true)]) else s
  {
  }

  // ----- maintenance ------------------------------------------------------------------------

  /** Page `i` of `t` is as it was in `s` except that it was given back: empty, on the list of its own free
      bucket, and with its numbers off the totals. */
  ghost predicate GivesBack(s: State, t: State, i: nat) {
    && i < |s.pages| == |t.pages| && (forall j | 0 <= j < |s.pages| && j != i :: t.pages[j] == s.pages[j])
    && t.pages[i].free && !t.pages[i].active && !t.pages[i].closed && t.pages[i].version == 0
    && t.pages[i].reserved == 0 && t.pages[i].written == 0 && t.pages[i].objCount == 0 && t.pages[i].bytesUsed == 0
    && t.pages[i].freeBucket == s.pages[i].freeBucket && t.pages[i].refcount == s.pages[i].refcount
    && t.objectsUsed == s.objectsUsed - s.pages[i].objCount && t.bytesUsed == s.bytesUsed - s.pages[i].bytesUsed
    && t.pageFree == s.pageFree + 1
    && (if s.pages[i].freeBucket == 0 then t.freelist == [i] + s.freelist && t.freeBuckets == s.freeBuckets
        else t.freelist == s.freelist && s.pages[i].freeBucket < |s.freeBuckets|
             && t.freeBuckets == s.freeBuckets[s.pages[i].freeBucket := [i] + s.freeBuckets[s.pages[i].freeBucket]])
  }

  /** A visit of the scan frees its page if and only if that is in use and not active, empty or closed, and not
      being read; nothing else of the engine changes. */
  lemma ScanFreesExactly(g: Config, s: State)
    requires Inv(g, s) && CanScan(s)
    ensures var t := Scan(s); var i := s.maint.pos; var p := s.pages[i];
      && t.maint.Scanning? && t.maint.pos == i + 1
      && if !p.free && !p.active && (p.objCount == 0 || p.closed) && p.refcount == 0 then GivesBack(s, t, i) && !t.maint.evict
         else t == s.(maint := t.maint) && t.maint.evict == s.maint.evict
  {
  }

  /** Maintenance that wakes up means to evict if and only if no page is free for the default. */
  lemma WakeMeans(s: State)
    ensures Wake(s) == s.(maint := Wake(s).maint)
    ensures Wake(s).maint.Scanning? && Wake(s).maint.pos == 0 && Wake(s).maint.seen == {} && Wake(s).maint.victim.None?
    ensures Wake(s).maint.evict <==> s.pageFree == 0 || s.freelist == []
  {
  }

  /** As long as candidates were seen there is a victim, and eviction happens: at the end of a scan which was to
      evict and has freed nothing, the page of the lowest version seen is closed, and given back if unread. */
  lemma EvictionHappens(g: Config, s: State, i: nat)
    requires Inv(g, s) && CanEndScan(s) && s.maint.evict && s.maint.victim == Some(i) && !s.pages[i].closed
    ensures var t := EndScan(s);
      && t.maint.Asleep?
      && if s.pages[i].refcount == 0 then GivesBack(s, t, i)
         else t == s.(maint := Asleep, pages := s.pages[i := s.pages[i].(closed := true)])
  {
  }

  lemma NoEviction(g: Config, s: State)
    requires CanEndScan(s)
    requires !s.maint.evict || s.maint.victim.None? || s.pages[s.maint.victim.value].closed
    ensures EndScan(s) == s.(maint := Asleep)
  {
  }

  /** Seen candidates and a victim go together over any run of a scan. */
  lemma {:induction false} VictimIffSeen(g: Config, s: State, actions: seq<Action>)
    requires Inv(g, s) && s.maint.Scanning? && !EndsScan(g, s, actions) && (s.maint.victim.Some? <==> s.maint.seen != {})
    ensures var m := Run(g, s, actions).maint; m.Scanning? && (m.victim.Some? <==> m.seen != {})
    decreases |actions|
  {
    if actions != [] {
      var a := actions[0];
      if Enabled(g, s, a) {
        StepKeeps(g, s, a);
        SeenStep(g, s, a);
        VictimStep(g, s, a);
        VictimIffSeen(g, Apply(g, s, a), actions[1..]);
      } else {
        VictimIffSeen(g, s, actions[1..]);
      }
    }
  }

  lemma VictimStep(g: Config, s: State, a: Action)
    requires Inv(g, s) && Enabled(g, s, a) && s.maint.Scanning? && !a.AEndScan? && (s.maint.victim.Some? <==> s.maint.seen != {})
    ensures var m := Apply(g, s, a).maint; m.Scanning? && (m.victim.Some? <==> m.seen != {})
  {
    match a
    case ABegin(b, fb) => if s.buckets[b] == [] { AllocateMaint(g, s, b, fb); }
    case ATurn(b, fb) => AllocateMaint(g, s, b, fb);
    case AWrite(b, data) => WriteMaint(g, s, b, data);
    case _ => OthersVictim(g, s, a);
  }

  lemma OthersVictim(g: Config, s: State, a: Action)
    requires Enabled(g, s, a) && !a.ABegin? && !a.ATurn? && !a.AWrite? && !a.AEndScan?
    requires s.maint.Scanning? && (s.maint.victim.Some? <==> s.maint.seen != {})
    ensures var m := Apply(g, s, a).maint; m.Scanning? && (m.victim.Some? <==> m.seen != {})
  {
  }

  /** A whole scan that found no page to free, while none was free, has a page to evict as soon as it visited a
      candidate. */
  lemma ScanHasVictim(g: Config, s: State, actions: seq<Action>)
    requires Inv(g, s) && s.maint.Asleep? && !EndsScan(g, Wake(s), actions) && !Frees(g, Wake(s), actions)
    requires (s.pageFree == 0 || s.freelist == []) && Visited(g, Wake(s), actions) != {}
    ensures var m := Run(g, Wake(s), actions).maint; m.Scanning? && m.evict && m.victim.Some?
  {
    StepKeeps(g, s, AWake);
    SeenIs(g, Wake(s), actions);
    VictimIffSeen(g, Wake(s), actions);
  }
}
