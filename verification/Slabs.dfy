/**
 * The slab allocator of memory_lru/slabs.c: pages cut into chunks, one freelist a class, a global pool
 * of pages, and what the page mover does to these books.
 */
module Slabs {
  import opened Common

  /** A chunk by the page it is cut from. */
  datatype Chunk = Chunk(page: nat, index: nat)

  /** A chunk in use and the size it was asked for. */
  datatype Live = Live(chunk: Chunk, request: nat)

  /** `slots` is the freelist from its head; `live` and `cleared` are book-keeping. */
  datatype SlabClass = SlabClass(
    size: nat, perslab: nat, slots: seq<Chunk>, slCurr: nat, slabs: seq<nat>, requested: int,
    live: seq<Live>, cleared: seq<Chunk>)

  function Sum(live: seq<Live>): nat {
    if live == [] then 0 else live[0].request + Sum(live[1..])
  }

  function ChunksOf(live: seq<Live>): (r: seq<Chunk>)
    ensures |r| == |live| && forall i | 0 <= i < |r| :: r[i] == live[i].chunk
  {
    seq(|live|, i requires 0 <= i < |live| => live[i].chunk)
  }

  lemma {:induction false} SumSplit(a: seq<Live>, b: seq<Live>)
    ensures Sum(a + b) == Sum(a) + Sum(b)
  {
    if a == [] {
      assert a + b == b;
    } else {
      assert (a + b)[1..] == a[1..] + b;
      SumSplit(a[1..], b);
    }
  }

  lemma SumCut(live: seq<Live>, k: nat)
    requires k < |live|
    ensures Sum(live) == Sum(Cut(live, k)) + live[k].request
  {
    var x, rest := live[k], live[k + 1..];
    assert live == live[..k] + ([x] + rest);
    SumSplit(live[..k], [x] + rest);
    SumSplit([x], rest);
    SumSplit(live[..k], rest);
    assert Sum([x]) == x.request + Sum([]);
  }

  /** Permuting a list of chunks keeps it free of duplicates. */
  lemma NoDupMultiset<T>(s: seq<T>)
    ensures NoDup(s) <==> forall x :: multiset(s)[x] <= 1
  {
    if NoDup(s) {
      forall x ensures multiset(s)[x] <= 1 { CountOnce(s, x); }
    } else {
      var i, j :| 0 <= i < j < |s| && s[i] == s[j];
      assert s == s[..i] + [s[i]] + s[i + 1..j] + [s[j]] + s[j + 1..];
      assert multiset(s)[s[i]] >= 2;
    }
  }

  lemma {:induction false} CountOnce<T>(s: seq<T>, x: T)
    requires NoDup(s)
    ensures multiset(s)[x] <= 1
  {
    if s != [] {
      CountOnce(s[1..], x);
      assert s == [s[0]] + s[1..];
      assert s[0] !in s[1..];
    }
  }

  ghost predicate Placed(p: SlabClass, ch: Chunk) {
    ch.page in p.slabs && ch.index < p.perslab
  }

  /** How often a chunk occurs in the class. */
  function Count(p: SlabClass, x: Chunk): nat {
    multiset(p.slots)[x] + multiset(ChunksOf(p.live))[x] + multiset(p.cleared)[x]
  }

  ghost predicate Unique(p: SlabClass) {
    forall x :: Count(p, x) <= 1
  }

  ghost predicate AllPlaced(p: SlabClass) {
    forall x | Count(p, x) > 0 :: Placed(p, x)
  }

  ghost predicate Counted(p: SlabClass) {
    && p.slCurr == |p.slots|
    && |p.slots| + |p.live| + |p.cleared| == |p.slabs| * p.perslab
    && p.requested == Sum(p.live)
    && (forall i | 0 <= i < |p.live| :: p.live[i].request <= p.size)
  }

  /** The books of a class: chunks are free, in use or cleared and nothing else, and `requested` is what the
      chunks in use were asked for. */
  ghost predicate ClassOk(p: SlabClass) {
    Counted(p) && Unique(p) && AllPlaced(p)
  }

  // ----- changes to one class ---------------------------------------------------------------

  /** do_slabs_alloc off the freelist. */
  function Popped(p: SlabClass, request: nat): SlabClass
    requires p.slots != [] && p.slCurr > 0
  {
    p.(slots := p.slots[1..], slCurr := p.slCurr - 1, requested := p.requested + request,
       live := p.live + [Live(p.slots[0], request)])
  }

  /** do_slabs_free of the `k`-th chunk in use. */
  function Freed(p: SlabClass, k: nat): SlabClass
    requires k < |p.live|
  {
    p.(slots := [p.live[k].chunk] + p.slots, slCurr := p.slCurr + 1, requested := p.requested - p.live[k].request,
       live := Cut(p.live, k))
  }

  /** slab_rebalance_cut_free of the `k`-th free chunk, which is then marked as cleared. */
  function ClearedFree(p: SlabClass, k: nat): SlabClass
    requires k < |p.slots| && p.slCurr > 0
  {
    p.(slots := Cut(p.slots, k), slCurr := p.slCurr - 1, cleared := p.cleared + [p.slots[k]])
  }

  /** A chunk in use is cleared and its request taken off. */
  function ClearedLive(p: SlabClass, k: nat): SlabClass
    requires k < |p.live|
  {
    p.(requested := p.requested - p.live[k].request, live := Cut(p.live, k), cleared := p.cleared + [p.live[k].chunk])
  }

  /** Rescue of the `k`-th chunk into the `j`-th, allocated for `live[j].request` bytes: that amount is
      taken off again, for what the new chunk holds is what the old one was asked for. */
  function Rescued(p: SlabClass, k: nat, j: nat): SlabClass
    requires k < |p.live| && j < |p.live| && k != j
  {
    p.(requested := p.requested - p.live[j].request,
       live := Cut(p.live[j := Live(p.live[j].chunk, p.live[k].request)], k),
       cleared := p.cleared + [p.live[k].chunk])
  }

  lemma CutCount<T>(s: seq<T>, k: nat, x: T)
    requires k < |s|
    ensures multiset(s)[x] == multiset(Cut(s, k))[x] + if x == s[k] then 1 else 0
  {
    assert s == s[..k] + [s[k]] + s[k + 1..];
  }

  lemma CutChunks(live: seq<Live>, k: nat, x: Chunk)
    requires k < |live|
    ensures multiset(ChunksOf(live))[x] == multiset(ChunksOf(Cut(live, k)))[x] + if x == live[k].chunk then 1 else 0
  {
    CutCount(ChunksOf(live), k, x);
    assert ChunksOf(Cut(live, k)) == Cut(ChunksOf(live), k);
  }

  lemma SnocCount<T>(s: seq<T>, y: T, x: T)
    ensures multiset(s + [y])[x] == multiset(s)[x] + if x == y then 1 else 0
    ensures multiset([y] + s)[x] == multiset(s)[x] + if x == y then 1 else 0
  {
  }

  /** Enough for the books to stay right: the same chunks in all, in the same pages. */
  lemma SameChunks(p: SlabClass, q: SlabClass)
    requires ClassOk(p) && Counted(q) && q.slabs == p.slabs && q.perslab == p.perslab
    requires forall x :: Count(q, x) == Count(p, x)
    ensures ClassOk(q)
  {
    assert forall x | Placed(p, x) :: Placed(q, x);
  }

  lemma PoppedCount(p: SlabClass, request: nat, x: Chunk)
    requires p.slots != [] && p.slCurr > 0
    ensures Count(Popped(p, request), x) == Count(p, x)
  {
    var q := Popped(p, request);
    assert p.slots == [p.slots[0]] + q.slots;
    assert ChunksOf(q.live) == ChunksOf(p.live) + [p.slots[0]];
    SnocCount(ChunksOf(p.live), p.slots[0], x);
    SnocCount(q.slots, p.slots[0], x);
  }

  lemma PoppedOk(p: SlabClass, request: nat)
    requires ClassOk(p) && p.slots != [] && request <= p.size
    ensures ClassOk(Popped(p, request))
  {
    var q := Popped(p, request);
    forall x ensures Count(q, x) == Count(p, x) { PoppedCount(p, request, x); }
    SumSplit(p.live, [Live(p.slots[0], request)]);
    assert Sum([Live(p.slots[0], request)]) == request + Sum([]);
    SameChunks(p, q);
  }

  lemma FreedOk(p: SlabClass, k: nat)
    requires ClassOk(p) && k < |p.live|
    ensures ClassOk(Freed(p, k))
  {
    var q := Freed(p, k);
    forall x ensures Count(q, x) == Count(p, x) {
      CutChunks(p.live, k, x);
      SnocCount(p.slots, p.live[k].chunk, x);
    }
    SumCut(p.live, k);
    SameChunks(p, q);
  }

  lemma ClearedFreeOk(p: SlabClass, k: nat)
    requires ClassOk(p) && k < |p.slots|
    ensures ClassOk(ClearedFree(p, k))
  {
    var q := ClearedFree(p, k);
    forall x ensures Count(q, x) == Count(p, x) {
      CutCount(p.slots, k, x);
      SnocCount(p.cleared, p.slots[k], x);
    }
    SameChunks(p, q);
  }

  lemma ClearedLiveOk(p: SlabClass, k: nat)
    requires ClassOk(p) && k < |p.live|
    ensures ClassOk(ClearedLive(p, k))
  {
    var q := ClearedLive(p, k);
    forall x ensures Count(q, x) == Count(p, x) {
      CutChunks(p.live, k, x);
      SnocCount(p.cleared, p.live[k].chunk, x);
    }
    SumCut(p.live, k);
    SameChunks(p, q);
  }

  lemma RescuedSum(live: seq<Live>, k: nat, j: nat)
    requires k < |live| && j < |live| && k != j
    ensures Sum(Cut(live[j := Live(live[j].chunk, live[k].request)], k)) == Sum(live) - live[j].request
  {
    var moved := live[j := Live(live[j].chunk, live[k].request)];
    SumCut(moved, k);
    SumCut(live, j);
    SumCut(moved, j);
    assert Cut(moved, j) == Cut(live, j);
  }

  lemma RescuedOk(p: SlabClass, k: nat, j: nat)
    requires ClassOk(p) && k < |p.live| && j < |p.live| && k != j
    ensures ClassOk(Rescued(p, k, j))
  {
    var q := Rescued(p, k, j);
    var moved := p.live[j := Live(p.live[j].chunk, p.live[k].request)];
    assert ChunksOf(moved) == ChunksOf(p.live);
    forall x ensures Count(q, x) == Count(p, x) {
      CutChunks(moved, k, x);
      SnocCount(p.cleared, p.live[k].chunk, x);
    }
    RescuedSum(p.live, k, j);
    SameChunks(p, q);
  }

  // ----- pages ------------------------------------------------------------------------------

  /** The chunks of a page in the order in which they end up on the freelist. */
  function Split(page: nat, n: nat): (r: seq<Chunk>)
    ensures |r| == n && forall i | 0 <= i < n :: r[i] == Chunk(page, n - 1 - i)
  {
    seq(n, i requires 0 <= i < n => Chunk(page, n - 1 - i))
  }

  /** A page joins the class and is cut up. */
  function WithPage(p: SlabClass, page: nat): SlabClass {
    p.(slots := Split(page, p.perslab) + p.slots, slCurr := p.slCurr + p.perslab, slabs := p.slabs + [page])
  }

  /** The first page leaves the class. */
  function WithoutPage(p: SlabClass): SlabClass
    requires p.slabs != []
  {
    p.(slabs := p.slabs[1..], cleared := [])
  }

  lemma SplitOnce(page: nat, n: nat, x: Chunk)
    ensures multiset(Split(page, n))[x] <= 1
    ensures multiset(Split(page, n))[x] > 0 ==> x.page == page && x.index < n
  {
    NoDupMultiset(Split(page, n));
    assert x in multiset(Split(page, n)) ==> x in Split(page, n);
  }

  lemma WithPageCount(p: SlabClass, page: nat, x: Chunk)
    ensures Count(WithPage(p, page), x) == Count(p, x) + multiset(Split(page, p.perslab))[x]
  {
    assert multiset(Split(page, p.perslab) + p.slots) == multiset(Split(page, p.perslab)) + multiset(p.slots);
  }

  lemma WithPageOk(p: SlabClass, page: nat)
    requires ClassOk(p) && page !in p.slabs
    ensures ClassOk(WithPage(p, page))
  {
    var q := WithPage(p, page);
    WithPageCounted(p, page);
    forall x ensures Count(q, x) <= 1 && (Count(q, x) > 0 ==> Placed(q, x)) {
      WithPageCount(p, page, x);
      SplitOnce(page, p.perslab, x);
      assert Count(p, x) > 0 ==> Placed(p, x);
    }
  }

  lemma WithPageCounted(p: SlabClass, page: nat)
    requires Counted(p)
    ensures Counted(WithPage(p, page))
  {
    assert (|p.slabs| + 1) * p.perslab == |p.slabs| * p.perslab + p.perslab;
  }

  /** A page has no more than its share of chunks. */
  lemma {:induction false} Pigeon(s: seq<Chunk>, page: nat, n: nat)
    requires NoDup(s) && forall i | 0 <= i < |s| :: s[i].page == page && s[i].index < n
    ensures |s| <= n
  {
    if n == 0 {
      assert |s| == 0 || s[0].index < n;
    } else if k: nat :| k < |s| && s[k].index == n - 1 {
      var t := Cut(s, k);
      forall i | 0 <= i < |t| ensures t[i].page == page && t[i].index < n - 1 {
        assert t[i] == s[if i < k then i else i + 1];
      }
      Pigeon(t, page, n - 1);
    } else {
      Pigeon(s, page, n - 1);
    }
  }

  /** Once all chunks of the page are cleared nothing else of the class lies in it. */
  lemma ClearedPage(p: SlabClass, x: Chunk)
    requires ClassOk(p) && p.slabs != [] && |p.cleared| == p.perslab
    requires forall i | 0 <= i < |p.cleared| :: p.cleared[i].page == p.slabs[0]
    requires Count(WithoutPage(p), x) > 0
    ensures x.page != p.slabs[0]
  {
    assert Placed(p, x);
    var s := p.cleared + [x];
    forall y ensures multiset(s)[y] <= 1 {
      SnocCount(p.cleared, x, y);
      assert Count(p, y) <= 1;
    }
    NoDupMultiset(s);
    forall i | 0 <= i < |p.cleared| ensures s[i].index < p.perslab {
      assert s[i] in multiset(p.cleared) && Count(p, s[i]) > 0 && Placed(p, s[i]);
    }
    if x.page == p.slabs[0] { Pigeon(s, p.slabs[0], p.perslab); }
  }

  lemma WithoutPageOk(p: SlabClass)
    requires ClassOk(p) && p.slabs != [] && |p.cleared| == p.perslab
    requires forall i | 0 <= i < |p.cleared| :: p.cleared[i].page == p.slabs[0]
    ensures ClassOk(WithoutPage(p))
  {
    var q := WithoutPage(p);
    assert p.slabs == [p.slabs[0]] + q.slabs;
    assert |p.slabs| * p.perslab == |q.slabs| * p.perslab + p.perslab;
    forall x ensures Count(q, x) <= 1 && (Count(q, x) > 0 ==> Placed(q, x)) {
      assert Count(q, x) <= Count(p, x);
      if Count(q, x) > 0 {
        ClearedPage(p, x);
        assert Placed(p, x);
      }
    }
  }

  /** How often a page occurs in all classes and the pool. */
  function PageCount(cs: seq<SlabClass>, x: nat): nat {
    if cs == [] then 0 else PageCount(cs[..|cs| - 1], x) + multiset(cs[|cs| - 1].slabs)[x]
  }

  function PageTotal(cs: seq<SlabClass>): nat {
    if cs == [] then 0 else PageTotal(cs[..|cs| - 1]) + |cs[|cs| - 1].slabs|
  }

  lemma {:induction false} PagesUpdate(cs: seq<SlabClass>, i: nat, p: SlabClass, x: nat)
    requires i < |cs|
    ensures PageCount(cs[i := p], x) + multiset(cs[i].slabs)[x] == PageCount(cs, x) + multiset(p.slabs)[x]
    ensures PageTotal(cs[i := p]) + |cs[i].slabs| == PageTotal(cs) + |p.slabs|
    ensures multiset(cs[i].slabs)[x] <= PageCount(cs, x)
  {
    var n := |cs| - 1;
    if i == n {
      assert cs[i := p][..n] == cs[..n];
    } else {
      assert cs[i := p][..n] == cs[..n][i := p] && cs[i := p][n] == cs[n];
      PagesUpdate(cs[..n], i, p, x);
    }
  }
}
