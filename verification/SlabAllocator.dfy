/** The allocator's operations over all classes and the global page pool, and the two ends of a page move. */
module SlabAllocator {
  import opened Common
  import opened Slabs
  import opened ItemImage

  const CHUNK_ALIGN_BYTES: nat := 8
  const MAX_NUMBER_OF_SLAB_CLASSES: nat := 64
  const ITEM_CHUNK_BYTES: nat := 48  // sizeof(item_chunk)
  const ITEM_HDR_BYTES: nat := 12    // sizeof(item_hdr)

  // ----- all classes ------------------------------------------------------------------------

  ghost predicate Books(cs: seq<SlabClass>) {
    forall c | 0 <= c < |cs| :: ClassOk(cs[c])
  }

  ghost predicate PagesOnce(cs: seq<SlabClass>) {
    forall x :: PageCount(cs, x) <= 1
  }

  lemma SetClass(cs: seq<SlabClass>, i: nat, p: SlabClass)
    requires i < |cs| && p.slabs == cs[i].slabs
    ensures forall x :: PageCount(cs[i := p], x) == PageCount(cs, x)
    ensures PageTotal(cs[i := p]) == PageTotal(cs)
  {
    PagesUpdate(cs, i, p, 0);
    forall x ensures PageCount(cs[i := p], x) == PageCount(cs, x) { PagesUpdate(cs, i, p, x); }
  }

  lemma AddPage(cs: seq<SlabClass>, i: nat, p: SlabClass, page: nat)
    requires i < |cs| && p.slabs == cs[i].slabs + [page]
    ensures forall x :: PageCount(cs[i := p], x) == PageCount(cs, x) + if x == page then 1 else 0
    ensures PageTotal(cs[i := p]) == PageTotal(cs) + 1
  {
    PagesUpdate(cs, i, p, 0);
    forall x ensures PageCount(cs[i := p], x) == PageCount(cs, x) + if x == page then 1 else 0 {
      PagesUpdate(cs, i, p, x);
      SnocCount(cs[i].slabs, page, x);
    }
  }

  lemma DropPage(cs: seq<SlabClass>, i: nat, p: SlabClass, k: nat)
    requires i < |cs| && k < |cs[i].slabs| && p.slabs == Cut(cs[i].slabs, k)
    ensures forall x :: PageCount(cs, x) == PageCount(cs[i := p], x) + if x == cs[i].slabs[k] then 1 else 0
    ensures PageTotal(cs) == PageTotal(cs[i := p]) + 1
  {
    PagesUpdate(cs, i, p, 0);
    forall x ensures PageCount(cs, x) == PageCount(cs[i := p], x) + if x == cs[i].slabs[k] then 1 else 0 {
      PagesUpdate(cs, i, p, x);
      CutCount(cs[i].slabs, k, x);
    }
  }

  lemma NotThere(cs: seq<SlabClass>, i: nat, page: nat)
    requires i < |cs| && PageCount(cs, page) == 0
    ensures page !in cs[i].slabs
  {
    PagesUpdate(cs, i, cs[i], page);
    assert page in multiset(cs[i].slabs) <==> page in cs[i].slabs;
  }

  /** What `n` pages of `size` bytes take. */
  function BytesOf(n: nat, size: nat): nat
  {
    if n == 0 then 0 else BytesOf(n - 1, size) + size
  }

  // ----- sizes ------------------------------------------------------------------------------

  /** Class sizes in ascending order; entry 0 is the pool. */
  predicate Ascending(sizes: seq<nat>) {
    forall i, j | 0 < i <= j < |sizes| :: sizes[i] <= sizes[j]
  }

  predicate Sorted(cs: seq<SlabClass>) {
    forall i, j | 0 < i <= j < |cs| :: cs[i].size <= cs[j].size
  }

  /** There is a class for chunks, and the last one has the largest chunks an item is cut into. */
  predicate LargestIs(cs: seq<SlabClass>, chunkSizeMax: nat) {
    |cs| > 1 && cs[|cs| - 1].size == chunkSizeMax
  }

  function FindLive(live: seq<Live>, ch: Chunk): (k: nat)
    ensures k <= |live| && (k < |live| ==> live[k].chunk == ch)
    ensures forall i | 0 <= i < k :: live[i].chunk != ch
  {
    if live == [] || live[0].chunk == ch then 0 else 1 + FindLive(live[1..], ch)
  }

  function FindFree(slots: seq<Chunk>, ch: Chunk): (k: nat)
    ensures k <= |slots| && (k < |slots| ==> slots[k] == ch) && (ch in slots ==> k < |slots|)
  {
    if slots == [] || slots[0] == ch then 0 else 1 + FindFree(slots[1..], ch)
  }

  function ItemTotal(nkey: nat, nsuffix: nat, nbytes: nat, cas: bool): nat {
    ITEM_SIZE + nkey + 1 + nsuffix + nbytes + if cas then 8 else 0
  }

  function HeaderTotal(nkey: nat, nsuffix: nat, cas: bool): nat {
    nkey + 1 + nsuffix + ITEM_SIZE + ITEM_CHUNK_BYTES + if cas then 8 else 0
  }

  /** A move of the first page of class `source` to class `dest`; `dest` may be the pool. */
  datatype Move = Move(source: nat, dest: nat, page: nat)

  /** The chunks in use and their requests are the same. */
  ghost predicate SameBooks(cs: seq<SlabClass>, ds: seq<SlabClass>) {
    && |ds| == |cs|
    && forall c | 0 <= c < |cs| :: ds[c].live == cs[c].live && ds[c].requested == cs[c].requested && ds[c].size == cs[c].size
  }

  /** Only the class a page is moved out of has cleared chunks, all in that page, its first. */
  ghost predicate MoveOk(cs: seq<SlabClass>, move: Option<Move>) {
    match move
    case None => forall c | 0 <= c < |cs| :: cs[c].cleared == []
    case Some(m) =>
      && 0 < m.source < |cs| && m.dest < |cs| && m.source != m.dest
      && cs[m.source].slabs != [] && cs[m.source].slabs[0] == m.page
      && (forall c | 0 <= c < |cs| && c != m.source :: cs[c].cleared == [])
      && forall i | 0 <= i < |cs[m.source].cleared| :: cs[m.source].cleared[i].page == m.page
  }

  /** The first `m` free chunks, all of the page on the move, have been cleared. */
  ghost predicate Reclaimed(p: SlabClass, q: SlabClass, page: nat, m: nat) {
    && m <= |p.slots| && (forall i | 0 <= i < m :: p.slots[i].page == page)
    && q == p.(slots := p.slots[m..], slCurr := q.slCurr, cleared := p.cleared + p.slots[..m])
    && q.slCurr + m == p.slCurr
  }

  lemma ReclaimedMore(p: SlabClass, q: SlabClass, page: nat, m: nat, size: nat)
    requires Reclaimed(p, q, page, m) && q.slots != [] && q.slCurr > 0 && q.slots[0].page == page
    ensures Reclaimed(p, ClearedLive(Popped(q, size), |q.live|), page, m + 1)
  {
    assert Cut(q.live + [Live(q.slots[0], size)], |q.live|) == q.live;
    assert p.slots[m..][1..] == p.slots[m + 1..];
    assert p.cleared + p.slots[..m] + [p.slots[m]] == p.cleared + p.slots[..m + 1];
  }

  /** What a rescue allocation does with the first `m` free chunks: cleared as long as they are of the page on
      the move, and the last one handed out if it is not. */
  ghost predicate Rebalanced(p: SlabClass, q: SlabClass, page: nat, size: nat, ret: Option<Chunk>, m: nat) {
    && m <= p.perslab
    && match ret
       case None => Reclaimed(p, q, page, m) && (m == p.perslab || q.slots == [])
       case Some(ch) =>
         && 0 < m <= |p.slots| && ch == p.slots[m - 1] && ch.page != page
         && exists r :: Reclaimed(p, r, page, m - 1) && r.slots != [] && r.slCurr > 0 && q == Popped(r, size)
  }

  /** Room for alignment is added below a boundary of CHUNK_ALIGN_BYTES. */
  function Align(size: nat): (r: nat)
    ensures r % CHUNK_ALIGN_BYTES == 0 && size <= r < size + CHUNK_ALIGN_BYTES
    ensures forall m: nat | m % CHUNK_ALIGN_BYTES == 0 && size <= m :: r <= m
  {
    if size % CHUNK_ALIGN_BYTES != 0 then size + (CHUNK_ALIGN_BYTES - size % CHUNK_ALIGN_BYTES) else size
  }

  /** Chunk sizes given by the user and ended by a zero, if they ascend up to the largest chunk. */
  predicate Given(sizes: seq<nat>, chunkSizeMax: nat) {
    && (forall i, j | 0 <= i <= j < |sizes| && sizes[i] != 0 && sizes[j] != 0 :: sizes[i] <= sizes[j])
    && forall i | 0 <= i < |sizes| :: sizes[i] <= chunkSizeMax
  }

  /** Settings that make the sizes ascend: an aligned largest chunk, and a factor of at least 1 or a proper list. */
  predicate Ascends(factor: real, slabSizes: Option<seq<nat>>, chunkSizeMax: nat) {
    && chunkSizeMax % CHUNK_ALIGN_BYTES == 0
    && match slabSizes case None => factor >= 1.0 case Some(sizes) => Given(sizes, chunkSizeMax)
  }

  lemma Grows(size: nat, factor: real)
    requires factor >= 1.0
    ensures (size as real * factor).Floor >= size
  {
    assert size as real * factor >= size as real;
  }

  lemma NotNegative(size: nat, factor: real)
    requires factor > 0.0
    ensures (size as real * factor).Floor >= 0
  {
    assert size as real * factor >= 0.0;
  }

  lemma BelowLimit(size: nat, factor: real, chunkSizeMax: nat)
    requires factor >= 1.0 && (size as real) < chunkSizeMax as real / factor
    ensures size <= chunkSizeMax
  {
    assert chunkSizeMax as real / factor <= chunkSizeMax as real;
  }

  /** What class `i` is sized by before alignment: the entry of the list, or the size of the class before it times
      the factor. */
  function Asked(first: nat, factor: real, slabSizes: Option<seq<nat>>, sizes: seq<nat>, i: nat): int {
    if slabSizes.Some? then (if 0 < i <= |slabSizes.value| then slabSizes.value[i - 1] else 0)
    else if i <= 1 || i > |sizes| then first
    else (sizes[i - 1] as real * factor).Floor
  }

  /** Whether there is to be a class of this size below the one of the largest chunks. */
  predicate Wanted(factor: real, slabSizes: Option<seq<nat>>, chunkSizeMax: nat, size: int)
    requires factor > 0.0
  {
    if slabSizes.Some? then size != 0 else (size as real) < chunkSizeMax as real / factor
  }

  predicate IsNext(first: nat, factor: real, slabSizes: Option<seq<nat>>, chunkSizeMax: nat, sizes: seq<nat>, i: nat)
    requires factor > 0.0 && i < |sizes|
  {
    var size := Asked(first, factor, slabSizes, sizes, i);
    Wanted(factor, slabSizes, chunkSizeMax, size) && size >= 0 && sizes[i] == Align(size)
  }

  lemma Grown(first: nat, factor: real, slabSizes: Option<seq<nat>>, chunkSizeMax: nat, sizes: seq<nat>, x: nat)
    requires factor > 0.0
    ensures forall j | 0 < j <= |sizes| :: Asked(first, factor, slabSizes, sizes + [x], j) == Asked(first, factor, slabSizes, sizes, j)
    ensures forall j | 0 < j < |sizes| ::
      IsNext(first, factor, slabSizes, chunkSizeMax, sizes, j) ==> IsNext(first, factor, slabSizes, chunkSizeMax, sizes + [x], j)
  {
  }

  /** The sizes follow the settings, from first to last but one, and stop only where the list ends, the factor
      leaves too little room, or the classes run out. */
  predicate Follow(first: nat, factor: real, slabSizes: Option<seq<nat>>, chunkSizeMax: nat, sizes: seq<nat>)
    requires factor > 0.0 && |sizes| > 1
  {
    var n := |sizes| - 1;
    && (forall i | 0 < i < n :: IsNext(first, factor, slabSizes, chunkSizeMax, sizes, i))
    && (n == MAX_NUMBER_OF_SLAB_CLASSES - 1
        || !Wanted(factor, slabSizes, chunkSizeMax, Asked(first, factor, slabSizes, sizes, n)))
  }

  /** Each size is at most the next one, and none is beyond the largest. */
  lemma NextIsLarger(first: nat, factor: real, slabSizes: Option<seq<nat>>, chunkSizeMax: nat, sizes: seq<nat>, i: nat)
    requires factor > 0.0 && Ascends(factor, slabSizes, chunkSizeMax) && 0 < i < |sizes| - 1
    requires Follow(first, factor, slabSizes, chunkSizeMax, sizes) && sizes[|sizes| - 1] == chunkSizeMax
    ensures sizes[i] <= sizes[i + 1]
  {
    assert IsNext(first, factor, slabSizes, chunkSizeMax, sizes, i);
    var size := Asked(first, factor, slabSizes, sizes, i);
    if slabSizes.None? {
      Grows(sizes[i], factor);
      BelowLimit(size, factor, chunkSizeMax);
    }
    if i + 1 < |sizes| - 1 {
      assert IsNext(first, factor, slabSizes, chunkSizeMax, sizes, i + 1);
      if slabSizes.Some? { AlignFits(size, Align(Asked(first, factor, slabSizes, sizes, i + 1))); }
    } else {
      AlignFits(size, chunkSizeMax);
    }
  }

  lemma AlignFits(size: nat, n: nat)
    requires size <= n && n % CHUNK_ALIGN_BYTES == 0
    ensures Align(size) <= n
  {
  }

  /** With proper settings sizes that follow them ascend. */
  lemma {:induction false} FollowAscends(first: nat, factor: real, slabSizes: Option<seq<nat>>, chunkSizeMax: nat, sizes: seq<nat>, n: nat)
    requires factor > 0.0 && Ascends(factor, slabSizes, chunkSizeMax) && 0 < n <= |sizes|
    requires |sizes| > 1 && Follow(first, factor, slabSizes, chunkSizeMax, sizes) && sizes[|sizes| - 1] == chunkSizeMax
    ensures Ascending(sizes[..n])
  {
    if n > 2 {
      FollowAscends(first, factor, slabSizes, chunkSizeMax, sizes, n - 1);
      NextIsLarger(first, factor, slabSizes, chunkSizeMax, sizes, n - 2);
      assert forall j | 0 < j < n - 1 :: sizes[..n][j] == sizes[..n - 1][j];
      assert forall j | 0 < j < n - 1 :: sizes[j] <= sizes[n - 2];
    }
  }

  /** The loop of slabs_init: aligned sizes, the last of them the largest chunk, ascending for proper settings. */
  method ClassSizes(first: nat, factor: real, slabSizes: Option<seq<nat>>, chunkSizeMax: nat) returns (sizes: seq<nat>)
    requires factor > 0.0
    ensures 1 < |sizes| <= MAX_NUMBER_OF_SLAB_CLASSES && sizes[|sizes| - 1] == chunkSizeMax
    ensures forall i | 0 < i < |sizes| - 1 :: sizes[i] % CHUNK_ALIGN_BYTES == 0
    ensures Ascends(factor, slabSizes, chunkSizeMax) ==> Ascending(sizes)
    ensures Follow(first, factor, slabSizes, chunkSizeMax, sizes)
  {
    var i, size: nat := 0, first;
    sizes := [0];
    while true
      invariant |sizes| == i + 1 <= MAX_NUMBER_OF_SLAB_CLASSES - 1
      invariant forall j | 0 < j < |sizes| :: IsNext(first, factor, slabSizes, chunkSizeMax, sizes, j)
      invariant slabSizes.None? ==> size == Asked(first, factor, slabSizes, sizes, i + 1)
      decreases MAX_NUMBER_OF_SLAB_CLASSES - i
    {
      i := i + 1;
      if i >= MAX_NUMBER_OF_SLAB_CLASSES - 1 { break; }
      if slabSizes.Some? {
        if i > |slabSizes.value| || slabSizes.value[i - 1] == 0 { break; }
        size := slabSizes.value[i - 1];
      } else {
        if size as real >= chunkSizeMax as real / factor { break; }
      }
      size := Align(size);
      Grown(first, factor, slabSizes, chunkSizeMax, sizes, size);
      sizes := sizes + [size];
      if slabSizes.None? {
        NotNegative(size, factor);
        size := (size as real * factor).Floor;
      }
    }
    Grown(first, factor, slabSizes, chunkSizeMax, sizes, chunkSizeMax);
    sizes := sizes + [chunkSizeMax];
    forall j | 0 < j < |sizes| - 1 ensures sizes[j] % CHUNK_ALIGN_BYTES == 0 {
      assert IsNext(first, factor, slabSizes, chunkSizeMax, sizes, j);
    }
    if Ascends(factor, slabSizes, chunkSizeMax) {
      FollowAscends(first, factor, slabSizes, chunkSizeMax, sizes, |sizes|);
      assert sizes[..|sizes|] == sizes;
    }
  }

  /** A class without pages. */
  function Unfilled(size: nat, pageSize: nat): SlabClass {
    SlabClass(size, if size == 0 then 0 else pageSize / size, [], 0, [], 0, [], [])
  }

  function UnfilledAll(sizes: seq<nat>, pageSize: nat): (r: seq<SlabClass>)
    ensures |r| == |sizes| && forall i | 0 <= i < |r| :: r[i] == Unfilled(if i == 0 then 0 else sizes[i], pageSize)
  {
    seq(|sizes|, i requires 0 <= i < |sizes| => Unfilled(if i == 0 then 0 else sizes[i], pageSize))
  }

  lemma UnfilledOk(sizes: seq<nat>, pageSize: nat)
    ensures var cs := UnfilledAll(sizes, pageSize); Books(cs) && PagesOnce(cs) && PageTotal(cs) == 0 && MoveOk(cs, None)
  {
    var cs := UnfilledAll(sizes, pageSize);
    NoPages(cs, 0);
    forall x ensures PageCount(cs, x) <= 1 { NoPages(cs, x); }
    forall c | 0 <= c < |cs| ensures ClassOk(cs[c]) { assert ChunksOf(cs[c].live) == []; }
  }

  lemma {:induction false} NoPages(cs: seq<SlabClass>, x: nat)
    requires forall i | 0 <= i < |cs| :: cs[i].slabs == []
    ensures PageCount(cs, x) == 0 && PageTotal(cs) == 0
  {
    if cs != [] { NoPages(cs[..|cs| - 1], x); }
  }

  class Allocator {
    var classes: seq<SlabClass>
    const powerLargest: nat
    const pageSize: nat
    const chunkSizeMax: nat
    const itemSizeMax: nat
    const memLimit: nat
    const preallocated: bool    // whether memory was taken in one piece at the start
    const slabReassign: bool
    var memMalloced: nat
    var memLimitReached: bool
    var move: Option<Move>

    /** slabs_init */
    constructor (first: nat, factor: real, slabSizes: Option<seq<nat>>, pageSize: nat, chunkSizeMax: nat, itemSizeMax: nat, limit: nat,
                 preallocated: bool, slabReassign: bool)
      requires factor > 0.0
      ensures Valid() && move == None && memMalloced == 0
      ensures forall c | 0 < c <= powerLargest ::
        && classes[c].perslab == (if classes[c].size == 0 then 0 else pageSize / classes[c].size)
        && classes[c].slots == [] && classes[c].slabs == []
      ensures Ascends(factor, slabSizes, chunkSizeMax) ==> Sorted(classes)
      ensures this.pageSize == pageSize && this.chunkSizeMax == chunkSizeMax && this.itemSizeMax == itemSizeMax && memLimit == limit
    {
      var sizes := ClassSizes(first, factor, slabSizes, chunkSizeMax);
      classes := UnfilledAll(sizes, pageSize);
      powerLargest := |sizes| - 1;
      this.pageSize, this.chunkSizeMax, this.itemSizeMax, memLimit := pageSize, chunkSizeMax, itemSizeMax, limit;
      this.preallocated, this.slabReassign := preallocated, slabReassign;
      memMalloced, memLimitReached, move := 0, false, None;
      new;
      UnfilledOk(sizes, pageSize);
    }

    ghost predicate Valid()
      reads this
    {
      && |classes| == powerLargest + 1 && classes[0].perslab == 0
      && Books(classes) && PagesOnce(classes) && MoveOk(classes, move)
      && LargestIs(classes, chunkSizeMax)
      && memMalloced == BytesOf(PageTotal(classes), pageSize)
    }

    /** A class changes its books but not its pages. */
    ghost predicate Keeps(p: SlabClass, q: SlabClass) {
      q.slabs == p.slabs && q.size == p.size && q.perslab == p.perslab
    }

    /** A change to the books of one class keeps everything else in order. */
    lemma Update(id: nat, q: SlabClass)
      requires Valid() && 0 < id < |classes| && Keeps(classes[id], q) && ClassOk(q)
      requires q.cleared == classes[id].cleared || (move.Some? && id == move.value.source
        && exists ch :: q.cleared == classes[id].cleared + [ch] && ch.page == move.value.page)
      ensures var cs := classes[id := q]; Before(cs) && MoveOk(cs, move) && PageTotal(cs) == PageTotal(classes)
      ensures forall x :: PageCount(classes[id := q], x) == PageCount(classes, x)
    {
      var cs := classes[id := q];
      SetClass(classes, id, q);
      forall x ensures PageCount(cs, x) <= 1 { assert PageCount(classes, x) <= 1; }
    }

    // ----- sizes ----------------------------------------------------------------------------

    /** slabs_clsid: the first class that fits, which with ascending sizes is the smallest. When none fits it is
        the largest, so that what is allocated there fits if and only if some class does. */
    method ClsId(size: nat) returns (res: nat)
      requires Valid()
      ensures res == 0 <==> size == 0 || size > itemSizeMax
      ensures res > 0 ==>
        && res <= powerLargest && (forall i | 0 < i < res :: classes[i].size < size)
        && (size > classes[res].size ==> res == powerLargest)
        && (size <= classes[res].size <==> exists c :: 0 < c <= powerLargest && size <= classes[c].size)
      ensures res > 0 && Sorted(classes) ==>
        && (size <= classes[res].size <==> size <= chunkSizeMax)
        && forall c | 0 < c <= powerLargest && size <= classes[c].size :: classes[res].size <= classes[c].size
    {
      if size == 0 || size > itemSizeMax { return 0; }
      res := 1;
      while size > classes[res].size
        invariant 0 < res <= powerLargest && forall i | 0 < i < res :: classes[i].size < size
        decreases powerLargest - res
      {
        if res == powerLargest { return powerLargest; }
        res := res + 1;
      }
    }

    // ----- pages ----------------------------------------------------------------------------

    /** split_slab_page_into_freelist, and the page's entry in the list of the class. */
    method SplitPage(id: nat, page: nat)
      requires id < |classes|
      modifies this`classes
      ensures classes == old(classes)[id := WithPage(old(classes)[id], page)]
      ensures var p, q := old(classes)[id], classes[id];
        && q.slabs == p.slabs + [page] && |q.slots| == p.perslab + |p.slots| && q.slots[p.perslab..] == p.slots
        && forall i | 0 <= i < p.perslab :: q.slots[i] == Chunk(page, p.perslab - 1 - i)
    {
      var x := 0;
      var n := classes[id].perslab;
      assert Split(page, 0) + classes[id].slots == classes[id].slots;
      while x < n
        invariant x <= n
        invariant classes == old(classes)[id := old(classes)[id].(
          slots := Split(page, x) + old(classes)[id].slots, slCurr := old(classes)[id].slCurr + x)]
      {
        var p := classes[id];
        assert [Chunk(page, x)] + Split(page, x) == Split(page, x + 1);
        assert [Chunk(page, x)] + p.slots == Split(page, x + 1) + old(classes)[id].slots;
        classes := classes[id := p.(slots := [Chunk(page, x)] + p.slots, slCurr := p.slCurr + 1)];
        x := x + 1;
      }
      classes := classes[id := classes[id].(slabs := classes[id].slabs + [page])];
    }

    /** get_page_from_global_pool takes the page that came last. */
    method PoolPage() returns (page: Option<nat>)
      requires |classes| > 0
      modifies this`classes
      ensures page.None? <==> old(classes)[0].slabs == []
      ensures page.None? ==> classes == old(classes)
      ensures page.Some? ==>
        var k := |old(classes)[0].slabs| - 1;
        page.value == old(classes)[0].slabs[k]
        && classes == old(classes)[0 := old(classes)[0].(slabs := Cut(old(classes)[0].slabs, k))]
    {
      var g := classes[0];
      if |g.slabs| < 1 { return None; }
      page := Some(g.slabs[|g.slabs| - 1]);
      classes := classes[0 := g.(slabs := Cut(g.slabs, |g.slabs| - 1))];
    }

    /** One more page would go beyond the limit, which only a class without pages may. */
    ghost predicate LimitRefuses(id: nat)
      requires id < |classes|
      reads this
    {
      memLimit != 0 && memMalloced + pageSize > memLimit && classes[id].slabs != []
    }

    /** The pool has a page, or the system has one and the limit allows it. */
    ghost predicate PageToBeHad(id: nat, memory: Option<nat>)
      requires id < |classes|
      reads this
    {
      classes[0].slabs != [] || (memory.Some? && !LimitRefuses(id))
    }

    /** do_slabs_newslab, `memory` being what malloc would return. The class gets one page, from the pool if
        there is any; apart from a newly allocated page the pages are in all the same as before. */
    method NewSlab(id: nat, memory: Option<nat>) returns (ok: bool)
      requires Valid() && 0 < id <= powerLargest && (memory.Some? ==> PageCount(classes, memory.value) == 0)
      modifies this`classes, this`memMalloced, this`memLimitReached
      ensures Valid()
      ensures ok <==> old(PageToBeHad(id, memory))
      ensures !ok ==> classes == old(classes) && memMalloced == old(memMalloced)
      ensures ok ==> exists page :: NewPage(old(classes), classes, id, page, memory)
      ensures memMalloced == old(memMalloced) + if ok && old(classes)[0].slabs == [] then pageSize else 0
      ensures memLimitReached <==> old(memLimitReached) || old(LimitRefuses(id) && classes[0].slabs == [])
      ensures SameBooks(old(classes), classes)
    {
      var p := classes[id];
      if memLimit != 0 && memMalloced + pageSize > memLimit && |p.slabs| > 0 && classes[0].slabs == [] {
        memLimitReached := true;
        return false;
      }
      ghost var page;
      ok, page := AddSlab(id, memory);
    }

    method AddSlab(id: nat, memory: Option<nat>) returns (ok: bool, ghost page: nat)
      requires Valid() && 0 < id <= powerLargest && (memory.Some? ==> PageCount(classes, memory.value) == 0)
      modifies this`classes, this`memMalloced
      ensures Valid() && SameBooks(old(classes), classes)
      ensures ok <==> old(classes)[0].slabs != [] || memory.Some?
      ensures !ok ==> classes == old(classes)
      ensures memMalloced == old(memMalloced) + if ok && old(classes)[0].slabs == [] then pageSize else 0
      ensures ok ==> NewPage(old(classes), classes, id, page, memory)
    {
      ghost var cs := classes;
      var taken := TakePage(memory);
      if taken.None? { return false, 0; }
      ghost var mid := classes;
      SplitPage(id, taken.value);
      NewSlabOk(cs, mid, classes, id, taken.value, memory);
      return true, taken.value;
    }

    /** The pool's page or, when there is none, a new one. */
    method TakePage(memory: Option<nat>) returns (page: Option<nat>)
      requires |classes| > 0
      modifies this`classes, this`memMalloced
      ensures page.Some? <==> old(classes)[0].slabs != [] || memory.Some?
      ensures page.None? ==> classes == old(classes) && memMalloced == old(memMalloced)
      ensures page.Some? ==>
        && Taken(old(classes), classes, page.value, memory)
        && memMalloced == old(memMalloced) + if old(classes)[0].slabs == [] then pageSize else 0
    {
      page := PoolPage();
      if page.None? {
        page := memory;
        if memory.Some? { memMalloced := memMalloced + pageSize; }
      }
    }

    ghost predicate Taken(cs: seq<SlabClass>, mid: seq<SlabClass>, page: nat, memory: Option<nat>)
      requires |cs| > 0
    {
      if cs[0].slabs != [] then
        var k := |cs[0].slabs| - 1;
        page == cs[0].slabs[k] && mid == cs[0 := cs[0].(slabs := Cut(cs[0].slabs, k))]
      else memory == Some(page) && mid == cs
    }

    /** A class that gets a page keeps its part in a move. */
    lemma MoveFrame(cs: seq<SlabClass>, ds: seq<SlabClass>, id: nat, page: nat, memory: Option<nat>)
      requires |cs| > 0 && 0 < id < |cs| && MoveOk(cs, move) && NewPage(cs, ds, id, page, memory) && ds[0].cleared == cs[0].cleared
      ensures MoveOk(ds, move)
    {
      assert ds[id].cleared == cs[id].cleared;
    }

    lemma NewSlabOk(cs: seq<SlabClass>, mid: seq<SlabClass>, ds: seq<SlabClass>, id: nat, page: nat, memory: Option<nat>)
      requires Before(cs) && 0 < id < |cs| && Taken(cs, mid, page, memory) && MoveOk(cs, move)
      requires memory.Some? ==> PageCount(cs, memory.value) == 0
      requires |mid| == |cs| && ds == mid[id := WithPage(mid[id], page)]
      ensures Before(ds) && NewPage(cs, ds, id, page, memory) && MoveOk(ds, move) && SameBooks(cs, ds)
      ensures PageTotal(ds) == PageTotal(cs) + if cs[0].slabs == [] then 1 else 0
    {
      NewSlabShape(cs, mid, ds, id, page, memory);
      if cs[0].slabs != [] { PooledOk(cs, mid, ds, id, page); } else { FreshOk(cs, ds, id, page); }
      MoveFrame(cs, ds, id, page, memory);
    }

    lemma NewSlabShape(cs: seq<SlabClass>, mid: seq<SlabClass>, ds: seq<SlabClass>, id: nat, page: nat, memory: Option<nat>)
      requires 0 < id < |cs| && Taken(cs, mid, page, memory) && |mid| == |cs| && ds == mid[id := WithPage(mid[id], page)]
      ensures ds[id] == WithPage(cs[id], page) && SameBooks(cs, ds) && ds[0].cleared == cs[0].cleared
      ensures forall c | 0 < c < |cs| && c != id :: ds[c] == cs[c]
    {
    }

    /** The page comes from the pool, or is the one newly allocated. */
    ghost predicate NewPage(cs: seq<SlabClass>, ds: seq<SlabClass>, id: nat, page: nat, memory: Option<nat>)
      requires |cs| > 0 && id < |cs|
    {
      && |ds| == |cs| && ds[id] == WithPage(cs[id], page)
      && (forall c | 0 < c < |cs| && c != id :: ds[c] == cs[c])
      && (if cs[0].slabs != [] then page == cs[0].slabs[|cs[0].slabs| - 1] else memory == Some(page))
      && forall x :: PageCount(ds, x) == PageCount(cs, x) + if cs[0].slabs == [] && x == page then 1 else 0
    }

    ghost predicate Before(cs: seq<SlabClass>) {
      |cs| == powerLargest + 1 && Books(cs) && PagesOnce(cs) && LargestIs(cs, chunkSizeMax) && cs[0].perslab == 0
    }

    lemma FreshOk(cs: seq<SlabClass>, ds: seq<SlabClass>, id: nat, page: nat)
      requires Before(cs) && 0 < id < |cs| && PageCount(cs, page) == 0
      requires ds == cs[id := WithPage(cs[id], page)]
      ensures Before(ds) && PageTotal(ds) == PageTotal(cs) + 1
      ensures forall x :: PageCount(ds, x) == PageCount(cs, x) + if x == page then 1 else 0
    {
      NotThere(cs, id, page);
      WithPageOk(cs[id], page);
      AddPage(cs, id, WithPage(cs[id], page), page);
      forall x ensures PageCount(ds, x) <= 1 { assert PageCount(cs, x) <= 1; }
    }

    lemma PooledOk(cs: seq<SlabClass>, mid: seq<SlabClass>, ds: seq<SlabClass>, id: nat, page: nat)
      requires Before(cs) && 0 < id < |cs| && cs[0].slabs != []
      requires var k := |cs[0].slabs| - 1;
        page == cs[0].slabs[k] && mid == cs[0 := cs[0].(slabs := Cut(cs[0].slabs, k))]
      requires ds == mid[id := WithPage(mid[id], page)]
      ensures Before(ds) && PageTotal(ds) == PageTotal(cs) && forall x :: PageCount(ds, x) == PageCount(cs, x)
    {
      DropPage(cs, 0, mid[0], |cs[0].slabs| - 1);
      PoolBooks(cs[0], mid[0]);
      forall x ensures PageCount(mid, x) <= 1 && (x == page ==> PageCount(mid, x) == 0) { assert PageCount(cs, x) <= 1; }
      FreshOk(mid, ds, id, page);
    }

    lemma PoolBooks(g: SlabClass, h: SlabClass)
      requires ClassOk(g) && g.perslab == 0 && h == g.(slabs := h.slabs)
      ensures ClassOk(h)
    {
      assert |g.slabs| * g.perslab == 0 && |h.slabs| * h.perslab == 0;
      forall x ensures Count(h, x) == 0 { assert Count(g, x) == 0; }
    }

    // ----- chunks ---------------------------------------------------------------------------

    /** do_slabs_alloc, its assertion being the bound on `size`. The head of the freelist is handed out; an empty
        freelist gets a page first if one is to be had, unless the caller wants none. */
    method Alloc(size: nat, id: nat, noNewPage: bool, memory: Option<nat>) returns (ret: Option<Chunk>)
      requires Valid() && (1 <= id <= powerLargest ==> size <= classes[id].size)
      requires memory.Some? ==> PageCount(classes, memory.value) == 0
      modifies this`classes, this`memMalloced, this`memLimitReached
      ensures Valid() && |classes| == |old(classes)|
      ensures !(1 <= id <= powerLargest) ==> ret.None? && classes == old(classes)
      ensures 1 <= id <= powerLargest && old(classes)[id].slots != [] ==>
        && ret == Some(old(classes)[id].slots[0]) && classes == old(classes)[id := Popped(old(classes)[id], size)]
        && memMalloced == old(memMalloced) && memLimitReached == old(memLimitReached)
      ensures 1 <= id <= powerLargest && old(classes)[id].slots == [] && noNewPage ==> ret.None? && classes == old(classes)
      ensures 1 <= id <= powerLargest && old(classes)[id].slots == [] && !noNewPage ==>
        && (ret.Some? <==> old(classes)[id].perslab > 0 && old(PageToBeHad(id, memory)))
        && (ret.Some? ==> exists page :: FromNewPage(old(classes), classes, id, size, page, memory, ret.value))
        && (ret.None? && old(classes)[id].perslab > 0 ==> classes == old(classes))
      ensures forall c | 0 <= c < |classes| && (c != id || ret.None?) :: classes[c].live == old(classes)[c].live
      ensures ret.Some? ==>
        && classes[id].live == old(classes)[id].live + [Live(ret.value, size)]
        && classes[id].requested == old(classes)[id].requested + size
        && FindLive(old(classes)[id].live, ret.value) == |old(classes)[id].live|
    {
      if id < 1 || id > powerLargest { return None; }
      assert ClassOk(classes[id]);
      if classes[id].slCurr == 0 && !noNewPage {
        var ok := NewSlab(id, memory);
      }
      ghost var mid := classes;
      assert ClassOk(classes[id]);
      if classes[id].slCurr == 0 { return None; }
      var ch := Pop(id, size);
      if old(classes)[id].slots == [] { HandedFromPage(old(classes), mid, classes, id, size, memory, ch); }
      return Some(ch);
    }

    /** A page has come to class `id`, and its last chunk is handed out. */
    ghost predicate FromNewPage(cs: seq<SlabClass>, ds: seq<SlabClass>, id: nat, size: nat, page: nat, memory: Option<nat>, ch: Chunk)
      requires 0 < id < |cs|
    {
      && |ds| == |cs| && cs[id].perslab > 0 && ch == Chunk(page, cs[id].perslab - 1)
      && (if cs[0].slabs != [] then page == cs[0].slabs[|cs[0].slabs| - 1] else memory == Some(page))
      && ds[id].slabs == cs[id].slabs + [page] && ds[id].slots == Split(page, cs[id].perslab)[1..]
      && ds[id].live == cs[id].live + [Live(ch, size)]
      && forall c | 0 < c < |cs| && c != id :: ds[c] == cs[c]
    }

    lemma HandedFromPage(cs: seq<SlabClass>, mid: seq<SlabClass>, ds: seq<SlabClass>, id: nat, size: nat, memory: Option<nat>, ch: Chunk)
      requires 0 < id < |cs| && cs[id].slots == [] && |mid| == |cs| && mid[id].slots != [] && mid[id].slCurr > 0
      requires exists page :: NewPage(cs, mid, id, page, memory)
      requires ds == mid[id := Popped(mid[id], size)] && ch == mid[id].slots[0]
      ensures exists page :: FromNewPage(cs, ds, id, size, page, memory, ch)
    {
      var page :| NewPage(cs, mid, id, page, memory);
      assert mid[id].slots == Split(page, cs[id].perslab);
      assert FromNewPage(cs, ds, id, size, page, memory, ch);
    }

    /** The head of the freelist. */
    method Pop(id: nat, size: nat) returns (ch: Chunk)
      requires Valid() && 0 < id <= powerLargest && classes[id].slots != [] && size <= classes[id].size
      modifies this`classes
      ensures Valid() && ch == old(classes)[id].slots[0] && old(classes)[id].slCurr > 0
      ensures classes == old(classes)[id := Popped(old(classes)[id], size)]
      ensures FindLive(old(classes)[id].live, ch) == |old(classes)[id].live|
    {
      var p := classes[id];
      assert ClassOk(p);
      PoppedOk(p, size);
      Update(id, Popped(p, size));
      ch := p.slots[0];
      NotLive(p, ch);
      var q := p.(slots := p.slots[1..], slCurr := p.slCurr - 1, requested := p.requested + size,
                  live := p.live + [Live(ch, size)]);
      assert q == Popped(p, size);
      classes := classes[id := q];
    }

    lemma InLive(live: seq<Live>, ch: Chunk)
      ensures FindLive(live, ch) < |live| ==> multiset(ChunksOf(live))[ch] > 0
    {
      var k := FindLive(live, ch);
      if k < |live| { assert ChunksOf(live)[k] in multiset(ChunksOf(live)); }
    }

    lemma NotLive(p: SlabClass, ch: Chunk)
      requires ClassOk(p) && ch in p.slots
      ensures FindLive(p.live, ch) == |p.live|
    {
      InLive(p.live, ch);
      assert ch in multiset(p.slots) && Count(p, ch) <= 1;
    }

    /** A chunk that was freed is not in use any more. */
    lemma FreedGone(p: SlabClass, k: nat)
      requires ClassOk(p) && k < |p.live|
      ensures FindLive(Freed(p, k).live, p.live[k].chunk) == |Freed(p, k).live|
    {
      FreedOk(p, k);
      NotLive(Freed(p, k), p.live[k].chunk);
    }

    /** do_slabs_free of a chunk in use, for the size it was asked for; it becomes the head of the freelist. */
    method Free(ch: Chunk, size: nat, id: nat)
      requires Valid() && 0 < id <= powerLargest && FindLive(classes[id].live, ch) < |classes[id].live|
      requires size == classes[id].live[FindLive(classes[id].live, ch)].request
      modifies this`classes
      ensures Valid() && classes == old(classes)[id := Freed(old(classes)[id], FindLive(old(classes)[id].live, ch))]
      ensures classes[id].slots == [ch] + old(classes)[id].slots && classes[id].requested == old(classes)[id].requested - size
      ensures classes[id].live == Cut(old(classes)[id].live, FindLive(old(classes)[id].live, ch))
      ensures FindLive(classes[id].live, ch) == |classes[id].live|
    {
      FreedGone(classes[id], FindLive(classes[id].live, ch));
      Return(ch, size, id, FindLive(classes[id].live, ch));
    }

    method Return(ch: Chunk, size: nat, id: nat, k: nat)
      requires Valid() && 0 < id <= powerLargest && k < |classes[id].live| && classes[id].live[k] == Live(ch, size)
      modifies this`classes
      ensures Valid() && classes == old(classes)[id := Freed(old(classes)[id], k)]
    {
      var p := classes[id];
      assert ClassOk(p);
      FreedOk(p, k);
      Update(id, Freed(p, k));
      var q := p.(slots := [ch] + p.slots, slCurr := p.slCurr + 1, requested := p.requested - size, live := Cut(p.live, k));
      assert q == Freed(p, k);
      classes := classes[id := q];
    }

    // ----- moving a page --------------------------------------------------------------------

    /** slab_rebalance_start for a source other than the pool; `grown` says whether the list of pages of the
        destination could be made longer. */
    method StartMove(source: nat, dest: nat, grown: bool) returns (noGo: int)
      requires Valid() && move.None? && source != 0
      modifies this`move
      ensures Valid()
      ensures noGo == 0 <==> move.Some?
      ensures noGo == 0 <==>
        && source <= powerLargest && dest <= powerLargest && source != dest && grown && |classes[source].slabs| >= 2
      ensures noGo == 0 ==> move == Some(Move(source, dest, classes[source].slabs[0]))
    {
      noGo := 0;
      if source > powerLargest || dest > powerLargest || source == dest { noGo := -2; }
      if !grown { noGo := -1; }
      if source <= powerLargest && |classes[source].slabs| < 2 { noGo := -3; }
      if noGo == 0 { move := Some(Move(source, dest, classes[source].slabs[0])); }
    }

    /** slab_rebalance_cut_free and the mark of a cleared chunk. */
    method CutFree(ch: Chunk)
      requires Valid() && move.Some? && ch.page == move.value.page && ch in classes[move.value.source].slots
      modifies this`classes
      ensures Valid()
      ensures var id := move.value.source;
        classes == old(classes)[id := ClearedFree(old(classes)[id], FindFree(old(classes)[id].slots, ch))]
      ensures var p, q := old(classes)[move.value.source], classes[move.value.source];
        && q.slots == Cut(p.slots, FindFree(p.slots, ch)) && q.slCurr + 1 == p.slCurr
        && q.cleared == p.cleared + [ch] && q.live == p.live && q.requested == p.requested
    {
      var id := move.value.source;
      var p := classes[id];
      var k := FindFree(p.slots, ch);
      assert ClassOk(p);
      ClearedFreeOk(p, k);
      Update(id, ClearedFree(p, k));
      var q := p.(slots := Cut(p.slots, k), slCurr := p.slCurr - 1, cleared := p.cleared + [ch]);
      assert q == ClearedFree(p, k);
      classes := classes[id := q];
    }

    lemma RescuedLive(p: SlabClass, k: nat, j: nat)
      requires ClassOk(p) && k < |p.live| && j < |p.live| && k != j
      ensures FindLive(Rescued(p, k, j).live, p.live[k].chunk) == |Rescued(p, k, j).live|
      ensures Live(p.live[j].chunk, p.live[k].request) in Rescued(p, k, j).live
    {
      var q := Rescued(p, k, j);
      RescuedOk(p, k, j);
      assert Count(q, p.live[k].chunk) <= 1 && p.live[k].chunk in multiset(q.cleared);
      InLive(q.live, p.live[k].chunk);
      assert q.live[if j < k then j else j - 1] == Live(p.live[j].chunk, p.live[k].request);
    }

    /** A rescue: the content of chunk `was` has gone to `now`, which was allocated for `adjust` bytes. */
    method Rescue(was: Chunk, now: Chunk, adjust: nat)
      requires Valid() && move.Some? && was.page == move.value.page && was != now
      requires var l := classes[move.value.source].live;
        FindLive(l, was) < |l| && FindLive(l, now) < |l| && l[FindLive(l, now)].request == adjust
      modifies this`classes
      ensures Valid()
      ensures var id := move.value.source; var p := old(classes)[id];
        classes == old(classes)[id := Rescued(p, FindLive(p.live, was), FindLive(p.live, now))]
      ensures var p, q := old(classes)[move.value.source], classes[move.value.source];
        && q.requested == p.requested - adjust && q.cleared == p.cleared + [was] && q.slots == p.slots
        && FindLive(q.live, was) == |q.live| && Live(now, p.live[FindLive(p.live, was)].request) in q.live
    {
      var id := move.value.source;
      var p := classes[id];
      var k, j := FindLive(p.live, was), FindLive(p.live, now);
      assert ClassOk(p);
      RescuedOk(p, k, j);
      RescuedLive(p, k, j);
      Update(id, Rescued(p, k, j));
      var q := p.(requested := p.requested - adjust, cleared := p.cleared + [was],
                  live := Cut(p.live[j := Live(now, p.live[k].request)], k));
      assert q == Rescued(p, k, j);
      classes := classes[id := q];
    }

    /** slab_rebalance_alloc: at most perslab chunks come off the freelist. Those of the page on the move are
        cleared at once, and the first that lies elsewhere is handed out. */
    method RebalanceAlloc(size: nat) returns (ret: Option<Chunk>, ghost pulled: nat)
      requires Valid() && move.Some? && size <= classes[move.value.source].size
      modifies this`classes, this`memMalloced, this`memLimitReached
      ensures Valid()
      ensures var id := move.value.source; var p, q := old(classes)[id], classes[id];
        Rebalanced(p, q, move.value.page, size, ret, pulled) && classes == old(classes)[id := q]
    {
      var id := move.value.source;
      ghost var p := classes[id];
      ret, pulled := None, 0;
      var x := 0;
      while x < classes[id].perslab
        invariant Valid() && |classes| == |old(classes)| && classes == old(classes)[id := classes[id]]
        invariant ret.None? && pulled == x <= p.perslab && Reclaimed(p, classes[id], move.value.page, x)
        decreases p.perslab - x
      {
        ghost var q := classes[id];
        ret := AllocNoPage(size, id);
        if ret.None? { break; }
        pulled := pulled + 1;
        if ret.value.page != move.value.page { break; }
        Reclaim(ret.value, size);
        ReclaimedMore(p, q, move.value.page, x, size);
        ret := None;
        x := x + 1;
      }
    }

    /** do_slabs_alloc when no page is wanted. */
    method AllocNoPage(size: nat, id: nat) returns (ret: Option<Chunk>)
      requires Valid() && 1 <= id <= powerLargest && size <= classes[id].size
      modifies this`classes, this`memMalloced, this`memLimitReached
      ensures Valid()
      ensures if old(classes)[id].slots == [] then ret.None? && classes == old(classes)
              else ret == Some(old(classes)[id].slots[0]) && old(classes)[id].slCurr > 0
                   && classes == old(classes)[id := Popped(old(classes)[id], size)]
    {
      assert ClassOk(classes[id]);
      ret := Alloc(size, id, true, None);
    }

    /** The inline reclaim of slab_rebalance_alloc: the last chunk handed out is taken back and cleared. */
    method Reclaim(ch: Chunk, size: nat)
      requires Valid() && move.Some? && ch.page == move.value.page
      requires var l := classes[move.value.source].live;
        |l| > 0 && l[|l| - 1] == Live(ch, size)
      modifies this`classes
      ensures Valid()
      ensures var id := move.value.source; var p := old(classes)[id];
        classes == old(classes)[id := ClearedLive(p, |p.live| - 1)]
    {
      var id := move.value.source;
      var p := classes[id];
      assert ClassOk(p);
      ClearedLiveOk(p, |p.live| - 1);
      Update(id, ClearedLive(p, |p.live| - 1));
      var q := p.(requested := p.requested - size, cleared := p.cleared + [ch], live := Cut(p.live, |p.live| - 1));
      assert q == ClearedLive(p, |p.live| - 1);
      classes := classes[id := q];
    }

    // ----- the end of a move ----------------------------------------------------------------

    /** slab_rebalance_finish once all chunks of the page are cleared: the page goes to the destination, and
        the pages are in all the same, except for those of the pool that are given back to the system. */
    method FinishMove()
      requires Valid() && move.Some? && |classes[move.value.source].cleared| == classes[move.value.source].perslab
      modifies this`classes, this`move, this`memMalloced, this`memLimitReached
      ensures Valid() && move == None
      ensures var m := old(move).value;
        && (m.dest > 0 ==> PageMoved(old(classes), classes, m))
        && (m.dest == 0 ==>
              && classes[m.source] == WithoutPage(old(classes)[m.source])
              && (forall c | 0 < c < |classes| && c != m.source :: classes[c] == old(classes)[c])
              && classes[0].slabs <= old(classes)[0].slabs + [m.page]
              && (forall x :: PageCount(classes, x) <= PageCount(old(classes), x))
              && (preallocated || !slabReassign || memMalloced <= memLimit || classes[0].slabs == [])
              && (preallocated || !slabReassign || memMalloced + pageSize <= memLimit ==> classes[0].slabs == old(classes)[0].slabs + [m.page]))
    {
      var dest := move.value.dest;
      MovePage();
      if dest == 0 {
        memLimitReached := false;
        MemoryRelease();
      }
    }

    ghost predicate PageMoved(cs: seq<SlabClass>, ds: seq<SlabClass>, m: Move)
      requires m.source < |cs| && m.dest < |cs| && m.source != m.dest && cs[m.source].slabs != []
    {
      && ds == cs[m.source := WithoutPage(cs[m.source])][m.dest := WithPage(cs[m.dest], m.page)]
      && forall x :: PageCount(ds, x) == PageCount(cs, x)
    }

    method MovePage()
      requires Valid() && move.Some? && |classes[move.value.source].cleared| == classes[move.value.source].perslab
      modifies this`classes, this`move
      ensures Valid() && move == None && PageMoved(old(classes), classes, old(move).value)
    {
      var Move(source, dest, page) := move.value;
      ghost var cs := classes;
      TakeFirstPage(source);
      ghost var mid := classes;
      SplitPage(dest, page);
      MovedOk(cs, mid, classes);
      move := None;
    }

    lemma MovedOk(cs: seq<SlabClass>, mid: seq<SlabClass>, ds: seq<SlabClass>)
      requires Before(cs) && MoveOk(cs, move) && move.Some?
      requires var m := move.value;
        && |cs[m.source].cleared| == cs[m.source].perslab && mid == cs[m.source := WithoutPage(cs[m.source])]
        && ds == mid[m.dest := WithPage(mid[m.dest], m.page)]
      ensures Before(ds) && MoveOk(ds, None) && PageTotal(ds) == PageTotal(cs) && PageMoved(cs, ds, move.value)
    {
      var m := move.value;
      SourceOk(cs, mid, m.source);
      MoveClears(cs, mid, m.source);
      DestOk(mid, ds, m.dest, m.page);
      forall x ensures PageCount(ds, x) == PageCount(cs, x) {
        assert PageCount(cs, x) == PageCount(mid, x) + if x == m.page then 1 else 0;
      }
    }

    /** The list of pages is shuffled backwards over its first one. */
    method TakeFirstPage(id: nat)
      requires id < |classes| && classes[id].slabs != []
      modifies this`classes
      ensures classes == old(classes)[id := WithoutPage(old(classes)[id])]
    {
      var p := classes[id];
      var list, x := p.slabs, 0;
      var n := |p.slabs| - 1;
      while x < n
        invariant 0 <= x <= n && |list| == n + 1
        invariant forall i | 0 <= i < x :: list[i] == p.slabs[i + 1]
        invariant forall i | x <= i <= n :: list[i] == p.slabs[i]
      {
        list := list[x := list[x + 1]];
        x := x + 1;
      }
      assert list[..n] == p.slabs[1..];
      classes := classes[id := p.(slabs := list[..n], cleared := [])];
    }

    lemma SourceOk(cs: seq<SlabClass>, mid: seq<SlabClass>, source: nat)
      requires Before(cs) && MoveOk(cs, move) && move.Some? && source == move.value.source
      requires |cs[source].cleared| == cs[source].perslab && mid == cs[source := WithoutPage(cs[source])]
      ensures Before(mid) && PageTotal(cs) == PageTotal(mid) + 1 && PageCount(mid, move.value.page) == 0
      ensures forall x :: PageCount(cs, x) == PageCount(mid, x) + if x == move.value.page then 1 else 0
    {
      assert ClassOk(cs[source]);
      WithoutPageOk(cs[source]);
      assert cs[source].slabs[1..] == Cut(cs[source].slabs, 0);
      DropPage(cs, source, WithoutPage(cs[source]), 0);
      forall x ensures PageCount(mid, x) <= 1 && (x == move.value.page ==> PageCount(mid, x) == 0) {
        assert PageCount(cs, x) <= 1;
      }
    }

    lemma MoveClears(cs: seq<SlabClass>, mid: seq<SlabClass>, source: nat)
      requires MoveOk(cs, move) && move.Some? && source == move.value.source && mid == cs[source := WithoutPage(cs[source])]
      ensures MoveOk(mid, None)
    {
    }

    lemma DestOk(mid: seq<SlabClass>, ds: seq<SlabClass>, dest: nat, page: nat)
      requires Before(mid) && MoveOk(mid, None) && dest < |mid| && PageCount(mid, page) == 0
      requires ds == mid[dest := WithPage(mid[dest], page)]
      ensures Before(ds) && MoveOk(ds, None) && PageTotal(ds) == PageTotal(mid) + 1
      ensures forall x :: PageCount(ds, x) == PageCount(mid, x) + if x == page then 1 else 0
    {
      NotThere(mid, dest, page);
      WithPageOk(mid[dest], page);
      AddPage(mid, dest, WithPage(mid[dest], page), page);
      forall x ensures PageCount(ds, x) <= 1 { assert PageCount(mid, x) <= 1; }
    }

    /** memory_release: unless memory was taken in one piece, or pages are never moved, the pages that came last
        to the pool go back to the system until the limit is met. */
    method MemoryRelease()
      requires Valid()
      modifies this`classes, this`memMalloced
      ensures Valid() && Released(old(classes), classes)
      ensures if preallocated || !slabReassign then classes == old(classes) && memMalloced == old(memMalloced)
              else memMalloced <= memLimit || classes[0].slabs == []
      ensures |classes[0].slabs| < |old(classes)[0].slabs| ==> memMalloced + pageSize > memLimit
    {
      if preallocated { return; }
      if !slabReassign { return; }
      while memMalloced > memLimit && classes[0].slabs != []
        invariant Valid() && Released(old(classes), classes)
        invariant |classes[0].slabs| < |old(classes)[0].slabs| ==> memMalloced + pageSize > memLimit
        decreases |classes[0].slabs|
      {
        ReleaseOne();
      }
    }

    /** Pages have left the end of the pool, and nothing else has changed. */
    ghost predicate Released(cs: seq<SlabClass>, ds: seq<SlabClass>) {
      && |ds| == |cs| > 0 && ds[0].slabs <= cs[0].slabs && ds == cs[0 := cs[0].(slabs := ds[0].slabs)]
      && forall x :: PageCount(ds, x) <= PageCount(cs, x)
    }

    method ReleaseOne()
      requires Valid() && classes[0].slabs != []
      modifies this`classes, this`memMalloced
      ensures Valid() && Released(old(classes), classes) && |classes[0].slabs| < |old(classes)[0].slabs|
      ensures memMalloced + pageSize == old(memMalloced)
    {
      ghost var cs := classes;
      var p := PoolPage();
      ReleaseOk(cs, classes);
      memMalloced := memMalloced - pageSize;
    }

    lemma ReleaseOk(cs: seq<SlabClass>, ds: seq<SlabClass>)
      requires Before(cs) && MoveOk(cs, move) && cs[0].slabs != []
      requires ds == cs[0 := cs[0].(slabs := Cut(cs[0].slabs, |cs[0].slabs| - 1))]
      ensures Before(ds) && MoveOk(ds, move) && PageTotal(cs) == PageTotal(ds) + 1
      ensures forall x :: PageCount(ds, x) <= PageCount(cs, x)
    {
      DropPage(cs, 0, ds[0], |cs[0].slabs| - 1);
      PoolBooks(cs[0], ds[0]);
      forall x ensures PageCount(ds, x) <= 1 { assert PageCount(cs, x) <= 1; }
    }

    /** A move out of the pool: start and finish in one step, for its pages hold no chunks. */
    method MovePoolPage(dest: nat, grown: bool) returns (noGo: int)
      requires Valid() && move.None?
      modifies this`classes
      ensures Valid()
      ensures noGo == 0 <==> 0 < dest <= powerLargest && grown && |old(classes)[0].slabs| >= 2
      ensures noGo != 0 ==> classes == old(classes)
      ensures noGo == 0 ==>
        && classes[dest] == WithPage(old(classes)[dest], old(classes)[0].slabs[0]) && classes[0].slabs == old(classes)[0].slabs[1..]
        && (forall c | 0 < c < |classes| && c != dest :: classes[c] == old(classes)[c])
        && forall x :: PageCount(classes, x) == PageCount(old(classes), x)
    {
      if dest > powerLargest || dest == 0 { return -2; }
      if |classes[0].slabs| < 2 { return -3; }
      if !grown { return -1; }
      ghost var cs := classes;
      var page := classes[0].slabs[0];
      assert ClassOk(cs[0]);
      TakeFirstPage(0);
      ghost var mid := classes;
      PoolTaken(cs, mid);
      SplitPage(dest, page);
      DestOk(mid, classes, dest, page);
      return 0;
    }

    lemma PoolTaken(cs: seq<SlabClass>, mid: seq<SlabClass>)
      requires Before(cs) && MoveOk(cs, None) && cs[0].slabs != [] && mid == cs[0 := WithoutPage(cs[0])]
      ensures Before(mid) && MoveOk(mid, None) && PageTotal(cs) == PageTotal(mid) + 1 && PageCount(mid, cs[0].slabs[0]) == 0
      ensures forall x :: PageCount(cs, x) == PageCount(mid, x) + if x == cs[0].slabs[0] then 1 else 0
    {
      var h := WithoutPage(cs[0]);
      assert h == cs[0].(slabs := h.slabs) by { assert cs[0].cleared == []; }
      assert h.slabs == Cut(cs[0].slabs, 0);
      PoolBooks(cs[0], h);
      DropPage(cs, 0, h, 0);
      forall x ensures PageCount(mid, x) <= 1 && (x == cs[0].slabs[0] ==> PageCount(mid, x) == 0) {
        assert PageCount(cs, x) <= 1;
      }
    }

    // ----- items ----------------------------------------------------------------------------

    /** `id` is the first class whose chunks hold `size` bytes. */
    ghost predicate FirstFit(id: nat, size: nat)
      requires id < |classes|
      reads this
    {
      0 < id && size <= classes[id].size && forall i | 0 < i < id :: classes[i].size < size
    }

    /** A chunk of class `id` is to be had: one is free, or the class gets a page. */
    ghost predicate ChunkToBeHad(id: nat, memory: Option<nat>)
      requires id < |classes|
      reads this
    {
      classes[id].slots != [] || (classes[id].perslab > 0 && PageToBeHad(id, memory))
    }

    /** do_item_alloc down to its chunk: a large item gets a header from a class of its own. The assertion in
        the allocator holds, and the item has exactly the request on its class that freeing it takes off. It
        gets a chunk if and only if its sizes are in range and one is to be had. */
    method AllocItem(nkey: nat, nsuffix: nat, nbytes: nat, cas: bool, memory: Option<nat>)
      returns (ret: Option<Chunk>, id: nat, large: bool)
      requires Valid() && (memory.Some? ==> PageCount(classes, memory.value) == 0)
      requires ItemTotal(nkey, nsuffix, nbytes, cas) > chunkSizeMax && HeaderTotal(nkey, nsuffix, cas) <= itemSizeMax ==>
        HeaderTotal(nkey, nsuffix, cas) <= chunkSizeMax
      modifies this`classes, this`memMalloced, this`memLimitReached
      ensures Valid() && |classes| == |old(classes)| && id <= powerLargest
      ensures var total := ItemTotal(nkey, nsuffix, nbytes, cas);
        id > 0 <==> nbytes >= 2 && total <= itemSizeMax && (total > chunkSizeMax ==> HeaderTotal(nkey, nsuffix, cas) <= itemSizeMax)
      ensures id > 0 ==>
        && (large <==> ItemTotal(nkey, nsuffix, nbytes, cas) > chunkSizeMax)
        && old(FirstFit(id, if large then HeaderTotal(nkey, nsuffix, cas) else ItemTotal(nkey, nsuffix, nbytes, cas)))
      ensures ret.Some? <==> id > 0 && old(ChunkToBeHad(id, memory))
      ensures ret.Some? ==>
        && (old(classes)[id].slots != [] ==> ret.value == old(classes)[id].slots[0])
        && classes[id].live == old(classes)[id].live
             + [Live(ret.value, if large then HeaderTotal(nkey, nsuffix, cas) else ItemTotal(nkey, nsuffix, nbytes, cas))]
        && FindLive(old(classes)[id].live, ret.value) == |old(classes)[id].live|
    {
      ret, large := None, false;
      if nbytes < 2 { return None, 0, false; }
      var total := ItemTotal(nkey, nsuffix, nbytes, cas);
      id := ClsId(total);
      if id == 0 { return; }
      if total > chunkSizeMax {
        large := true;
        total := HeaderTotal(nkey, nsuffix, cas);
        id := ClsId(total);
      }
      assert LargestIs(classes, chunkSizeMax);
      ret := Alloc(total, id, false, memory);
    }

    /** do_item_alloc_chunk down to its chunk. */
    method AllocItemChunk(bytesRemain: nat, memory: Option<nat>) returns (ret: Option<Chunk>, id: nat, size: nat)
      requires Valid() && (memory.Some? ==> PageCount(classes, memory.value) == 0)
      modifies this`classes, this`memMalloced, this`memLimitReached
      ensures Valid() && |classes| == |old(classes)| && id <= powerLargest
      ensures size == (if bytesRemain + ITEM_CHUNK_BYTES > chunkSizeMax then chunkSizeMax else bytesRemain + ITEM_CHUNK_BYTES)
      ensures if 0 < size <= itemSizeMax then old(FirstFit(id, size)) else id == 0
      ensures ret.Some? <==> id > 0 && old(ChunkToBeHad(id, memory))
      ensures ret.Some? ==>
        && (old(classes)[id].slots != [] ==> ret.value == old(classes)[id].slots[0])
        && classes[id].live == old(classes)[id].live + [Live(ret.value, size)]
    {
      size := bytesRemain + ITEM_CHUNK_BYTES;
      if size > chunkSizeMax { size := chunkSizeMax; }
      id := ClsId(size);
      assert LargestIs(classes, chunkSizeMax);
      ret := Alloc(size, id, false, memory);
    }

    /** item_free of an item in one piece. A header of an item in external storage was allocated with a small
        value, but its nbytes is that of the stored item. */
    method FreeItem(ch: Chunk, id: nat, nkey: nat, nsuffix: nat, nbytes: nat, cas: bool, isHdr: bool)
      requires Valid() && 0 < id <= powerLargest && FindLive(classes[id].live, ch) < |classes[id].live|
      requires classes[id].live[FindLive(classes[id].live, ch)].request
        == ItemTotal(nkey, nsuffix, if isHdr then ITEM_HDR_BYTES else nbytes, cas)
      modifies this`classes
      ensures Valid() && classes == old(classes)[id := Freed(old(classes)[id], FindLive(old(classes)[id].live, ch))]
      ensures classes[id].slots == [ch] + old(classes)[id].slots && FindLive(classes[id].live, ch) == |classes[id].live|
      ensures classes[id].requested
        == old(classes)[id].requested - ItemTotal(nkey, nsuffix, if isHdr then ITEM_HDR_BYTES else nbytes, cas)
    {
      FreedGone(classes[id], FindLive(classes[id].live, ch));
      var size := ItemTotal(nkey, nsuffix, nbytes, cas);
      if isHdr { size := (size - nbytes) + ITEM_HDR_BYTES; }
      Free(ch, size, id);
    }

    /** do_slabs_free_chunked: the header and every chunk go back to their own classes, each for the size it
        was asked for, so the books stay right and none of them is in use any more. */
    method FreeChunked(header: Part, nkey: nat, nsuffix: nat, cas: bool, chunks: seq<Part>)
      requires Valid() && header.request == HeaderTotal(nkey, nsuffix, cas) && Held(classes, [header] + chunks)
      modifies this`classes
      ensures Valid() && classes == FreedAll(old(classes), [header] + chunks)
      ensures GivenBack(old(classes), classes, [header] + chunks)
    {
      FreedAllExact(classes, [header] + chunks);
      FreedAllFirst(classes, header, chunks);
      FreePart(header, chunks);
      FreeChunks(chunks);
    }

    method FreeChunks(chunks: seq<Part>)
      requires Valid() && Held(classes, chunks)
      modifies this`classes
      ensures Valid() && classes == FreedAll(old(classes), chunks)
    {
      var i := 0;
      ghost var rest := chunks;
      while i < |chunks|
        invariant i <= |chunks| && rest == chunks[i..] && Valid() && Held(classes, rest)
        invariant FreedAll(old(classes), chunks) == FreedAll(classes, rest)
      {
        assert rest == [chunks[i]] + rest[1..];
        FreedAllFirst(classes, chunks[i], rest[1..]);
        FreePart(chunks[i], rest[1..]);
        i := i + 1;
        rest := rest[1..];
      }
    }

    method FreePart(part: Part, ghost rest: seq<Part>)
      requires Valid() && Held(classes, [part] + rest)
      modifies this`classes
      ensures Valid() && classes == FreedOne(old(classes), part) && Held(classes, rest)
    {
      assert ([part] + rest)[0] == part && PartHeld(classes, [part] + rest, 0);
      ghost var cs := classes;
      HeldRecord(classes[part.id], part);
      Free(part.chunk, part.request, part.id);
      RestHeld(cs, part, rest);
    }

    lemma HeldRecord(p: SlabClass, part: Part)
      requires ClassOk(p) && Live(part.chunk, part.request) in p.live
      ensures var k := FindLive(p.live, part.chunk); k < |p.live| && p.live[k] == Live(part.chunk, part.request)
    {
      var k := FindLive(p.live, part.chunk);
      var i :| 0 <= i < |p.live| && p.live[i] == Live(part.chunk, part.request);
      assert Count(p, part.chunk) <= 1;
      NoDupMultiset(ChunksOf(p.live));
      forall x ensures multiset(ChunksOf(p.live))[x] <= 1 { assert Count(p, x) <= 1; }
    }

    lemma RestHeld(cs: seq<SlabClass>, part: Part, rest: seq<Part>)
      requires Held(cs, [part] + rest)
      ensures Held(FreedOne(cs, part), rest)
    {
      var parts := [part] + rest;
      forall i: nat | i < |rest| ensures PartHeld(FreedOne(cs, part), rest, i) {
        assert parts[i + 1] == rest[i] && PartHeld(cs, parts, i + 1) && parts[0] == part;
        if rest[i].id == part.id {
          var live := cs[part.id].live;
          var k := FindLive(live, part.chunk);
          if k < |live| {
            var n :| 0 <= n < |live| && live[n] == Live(rest[i].chunk, rest[i].request);
            assert Cut(live, k)[if n < k then n else n - 1] == live[n];
          }
        }
        forall j: nat | j < i ensures rest[j].chunk != rest[i].chunk { assert parts[j + 1] == rest[j]; }
      }
    }

    lemma {:induction false} FreedAllExact(cs: seq<SlabClass>, parts: seq<Part>)
      requires Held(cs, parts) && forall c | 0 <= c < |cs| :: ClassOk(cs[c])
      ensures GivenBack(cs, FreedAll(cs, parts), parts)
      decreases |parts|
    {
      if parts != [] {
        var part, rest := parts[0], parts[1..];
        var ds := FreedOne(cs, part);
        assert parts == [part] + rest && PartHeld(cs, parts, 0);
        RestHeld(cs, part, rest);
        HeldRecord(cs[part.id], part);
        FreedOk(cs[part.id], FindLive(cs[part.id].live, part.chunk));
        FreedAllExact(ds, rest);
        forall c: nat | c < |cs| ensures BackIn(cs[c], FreedAll(cs, parts)[c], parts, c) {
          assert BackIn(ds[c], FreedAll(ds, rest)[c], rest, c);
          if part.id == c { ThenBack(cs[c], FreedAll(ds, rest)[c], parts, c); } else { OthersBack(cs[c], FreedAll(ds, rest)[c], parts, c); }
        }
      }
    }

    lemma OthersBack(p: SlabClass, q: SlabClass, parts: seq<Part>, c: nat)
      requires parts != [] && parts[0].id != c && BackIn(p, q, parts[1..], c)
      ensures BackIn(p, q, parts, c)
    {
      assert Back(parts, c) == Back(parts[1..], c);
    }

    /** The first part goes back, then the rest. */
    lemma ThenBack(p: SlabClass, q: SlabClass, parts: seq<Part>, c: nat)
      requires parts != [] && parts[0].id == c && ClassOk(p)
      requires var k := FindLive(p.live, parts[0].chunk);
        k < |p.live| && p.live[k] == Live(parts[0].chunk, parts[0].request) && BackIn(Freed(p, k), q, parts[1..], c)
      ensures BackIn(p, q, parts, c)
    {
      FreedMembers(p, FindLive(p.live, parts[0].chunk));
      assert Back(parts, c) + p.slots == Back(parts[1..], c) + ([parts[0].chunk] + p.slots);
    }

    lemma FreedMembers(p: SlabClass, k: nat)
      requires ClassOk(p) && k < |p.live|
      ensures forall l :: l in Freed(p, k).live <==> l in p.live && l.chunk != p.live[k].chunk
    {
      var q := Freed(p, k);
      FreedGone(p, k);
      forall l | l in q.live ensures l in p.live {
        var i :| 0 <= i < |q.live| && q.live[i] == l;
        assert p.live[if i < k then i else i + 1] == l;
      }
      forall l | l in p.live && l.chunk != p.live[k].chunk ensures l in q.live {
        var i :| 0 <= i < |p.live| && p.live[i] == l;
        assert q.live[if i < k then i else i - 1] == l;
      }
    }
  }

  /** A chunk of a large item, its class, and what it was asked for. */
  datatype Part = Part(chunk: Chunk, id: nat, request: nat)

  ghost predicate PartHeld(cs: seq<SlabClass>, parts: seq<Part>, i: nat)
    requires i < |parts|
  {
    && 0 < parts[i].id < |cs| && Live(parts[i].chunk, parts[i].request) in cs[parts[i].id].live
    && forall j: nat | j < i :: parts[j].chunk != parts[i].chunk
  }

  ghost predicate Held(cs: seq<SlabClass>, parts: seq<Part>) {
    forall i: nat | i < |parts| :: PartHeld(cs, parts, i)
  }

  function FreedOne(cs: seq<SlabClass>, part: Part): (ds: seq<SlabClass>)
    ensures |ds| == |cs|
  {
    if part.id < |cs| && FindLive(cs[part.id].live, part.chunk) < |cs[part.id].live|
    then cs[part.id := Freed(cs[part.id], FindLive(cs[part.id].live, part.chunk))]
    else cs
  }

  function FreedAll(cs: seq<SlabClass>, parts: seq<Part>): seq<SlabClass>
    decreases |parts|
  {
    if parts == [] then cs else FreedAll(FreedOne(cs, parts[0]), parts[1..])
  }

  lemma FreedAllFirst(cs: seq<SlabClass>, part: Part, rest: seq<Part>)
    ensures FreedAll(cs, [part] + rest) == FreedAll(FreedOne(cs, part), rest)
  {
    assert ([part] + rest)[1..] == rest;
  }

  /** The chunks of class `c` among the parts, the last one first. */
  function Back(parts: seq<Part>, c: nat): seq<Chunk> {
    if parts == [] then [] else Back(parts[1..], c) + if parts[0].id == c then [parts[0].chunk] else []
  }

  function RequestOf(parts: seq<Part>, c: nat): nat {
    if parts == [] then 0 else RequestOf(parts[1..], c) + if parts[0].id == c then parts[0].request else 0
  }

  /** The parts are on the freelists of their classes, one by one in front of what was there, their requests are off
      the books, and they are in use no more, while whatever else is in use stays so. */
  ghost predicate GivenBack(cs: seq<SlabClass>, ds: seq<SlabClass>, parts: seq<Part>) {
    && |ds| == |cs|
    && forall c: nat | c < |cs| :: BackIn(cs[c], ds[c], parts, c)
  }

  ghost predicate BackIn(p: SlabClass, q: SlabClass, parts: seq<Part>, c: nat) {
    && q.slots == Back(parts, c) + p.slots && q.slabs == p.slabs && q.cleared == p.cleared
    && q.requested == p.requested - RequestOf(parts, c)
    && forall l :: l in q.live <==> l in p.live && l.chunk !in Back(parts, c)
  }
}
