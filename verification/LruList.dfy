/**
 * One LRU list of memory_lru/items.c, doubly linked through its items, and the crawler of
 * memory_lru/crawler.c, which swims through the list as a node of it.
 */
module LruList {
  import opened Common

  /** An item, or the crawler of the list; `bytes` is what the item adds to sizes_bytes. */
  class Node {
    var prev: Node?
    var next: Node?
    const isCrawler: bool
    const bytes: nat

    constructor (isCrawler: bool, bytes: nat)
      ensures prev == null && next == null && this.isCrawler == isCrawler && this.bytes == bytes
    {
      prev, next := null, null;
      this.isCrawler := isCrawler;
      this.bytes := bytes;
    }
  }

  ghost function At(s: seq<Node>, i: int): Node? {
    if 0 <= i < |s| then s[i] else null
  }

  /** The items among the nodes. */
  function Items(s: seq<Node>): seq<Node> {
    if s == [] then [] else (if s[0].isCrawler then [] else [s[0]]) + Items(s[1..])
  }

  function Weight(s: seq<Node>): nat {
    if s == [] then 0 else s[0].bytes + Weight(s[1..])
  }

  lemma {:induction false} ItemsSplit(a: seq<Node>, b: seq<Node>)
    ensures Items(a + b) == Items(a) + Items(b)
  {
    if a == [] {
      assert a + b == b;
    } else {
      assert (a + b)[1..] == a[1..] + b;
      ItemsSplit(a[1..], b);
    }
  }

  lemma {:induction false} WeightSplit(a: seq<Node>, b: seq<Node>)
    ensures Weight(a + b) == Weight(a) + Weight(b)
  {
    if a == [] {
      assert a + b == b;
    } else {
      assert (a + b)[1..] == a[1..] + b;
      WeightSplit(a[1..], b);
    }
  }

  lemma {:induction false} AllItems(s: seq<Node>)
    requires forall x | x in s :: !x.isCrawler
    ensures Items(s) == s
  {
    if s != [] { AllItems(s[1..]); }
  }

  /** Taking out node `k` takes it out of the items, if it is one, and keeps the rest in order. */
  lemma CutItems(s: seq<Node>, k: nat)
    requires k < |s|
    ensures Items(s) == Items(s[..k]) + (if s[k].isCrawler then [] else [s[k]]) + Items(s[k + 1..])
    ensures Items(Cut(s, k)) == Items(s[..k]) + Items(s[k + 1..])
    ensures Weight(Items(s)) == Weight(Items(Cut(s, k))) + (if s[k].isCrawler then 0 else s[k].bytes)
    ensures |Items(s)| == |Items(Cut(s, k))| + (if s[k].isCrawler then 0 else 1)
  {
    assert s == s[..k] + ([s[k]] + s[k + 1..]);
    ItemsSplit(s[..k], [s[k]] + s[k + 1..]);
    ItemsSplit([s[k]], s[k + 1..]);
    ItemsSplit(s[..k], s[k + 1..]);
    assert Items([s[k]]) == if s[k].isCrawler then [] else [s[k]];
    WeightSplit(Items(s[..k]), Items([s[k]]) + Items(s[k + 1..]));
    WeightSplit(Items([s[k]]), Items(s[k + 1..]));
    WeightSplit(Items(s[..k]), Items(s[k + 1..]));
  }

  /** Node `k` and the one in front of it change places. */
  function Swapped(s: seq<Node>, k: nat): seq<Node>
    requires 0 < k < |s|
  {
    s[k - 1 := s[k]][k := s[k - 1]]
  }

  lemma CutItem(s: seq<Node>, k: nat)
    requires k < |s| && !s[k].isCrawler
    ensures |Items(s)| == |Items(Cut(s, k))| + 1 && Weight(Items(s)) == Weight(Items(Cut(s, k))) + s[k].bytes
  {
    CutItems(s, k);
  }

  lemma CutCrawler(s: seq<Node>, k: nat)
    requires k < |s| && s[k].isCrawler
    ensures Items(Cut(s, k)) == Items(s)
  {
    CutItems(s, k);
    var x, y := Items(s[..k]), Items(s[k + 1..]);
    assert Items(s) == x + [] + y;
    assert x + [] == x;
  }

  /** When one of the two is the crawler, the order of the items is what it was. */
  lemma SwappedItems(s: seq<Node>, k: nat)
    requires 0 < k < |s| && s[k].isCrawler
    ensures Items(Swapped(s, k)) == Items(s)
  {
    CutCrawler(s, k);
    CutCrawler(Swapped(s, k), k - 1);
    SwappedCut(s, k);
  }

  lemma SwappedCut(s: seq<Node>, k: nat)
    requires 0 < k < |s|
    ensures Cut(Swapped(s, k), k - 1) == Cut(s, k)
  {
  }

  /** Node `i` of `s` points at its neighbours. */
  ghost predicate NodeOk(s: seq<Node>, i: nat)
    requires i < |s|
    reads s[i]
  {
    s[i].prev == At(s, i - 1) && s[i].next == At(s, i + 1)
  }

  /** The links of the nodes spell out `s`. */
  ghost predicate Linked(s: seq<Node>)
    reads s
  {
    NoDup(s) && forall i: nat | i < |s| :: NodeOk(s, i)
  }

  class LruList {
    var head: Node?
    var tail: Node?
    var size: nat
    var sizeBytes: nat
    /** All nodes from head to tail. */
    ghost var nodes: seq<Node>

    ghost predicate Structure()
      reads this`head, this`tail, this`nodes, nodes
    {
      Linked(nodes) && head == At(nodes, 0) && tail == At(nodes, |nodes| - 1)
    }

    ghost predicate Valid()
      reads this, nodes
    {
      Structure() && size == |Items(nodes)| && sizeBytes == Weight(Items(nodes))
    }

    /** A crawler that has run off the head of the list, while one of its links is still set. */
    ghost predicate Popped(c: Node)
      reads this, nodes, c
    {
      Structure() && c !in nodes && c.prev == null && c.next == head && head != null
    }

    constructor ()
      ensures Valid() && nodes == []
    {
      head, tail, size, sizeBytes, nodes := null, null, 0, 0, [];
    }

    // ----- the links ------------------------------------------------------------------------

    method LinkFront(it: Node)
      requires Structure() && it !in nodes
      modifies this`head, this`tail, this`nodes, it, nodes
      ensures Structure() && nodes == [it] + old(nodes)
    {
      assert forall i: nat | i < |nodes| :: NodeOk(nodes, i);
      it.prev := null;
      it.next := head;
      if it.next != null { it.next.prev := it; }
      head := it;
      if tail == null { tail := it; }
      nodes := [it] + nodes;
      forall i: nat | i < |nodes| ensures NodeOk(nodes, i) {
        if i > 0 { assert nodes[i] == old(nodes)[i - 1] && old(NodeOk(nodes, i - 1)); }
      }
    }

    method LinkBack(it: Node)
      requires Structure() && it !in nodes
      modifies this`head, this`tail, this`nodes, it, nodes
      ensures Structure() && nodes == old(nodes) + [it]
    {
      it.prev := tail;
      it.next := null;
      if it.prev != null { it.prev.next := it; }
      tail := it;
      if head == null { head := it; }
      nodes := nodes + [it];
      forall i: nat | i < |nodes| ensures NodeOk(nodes, i) {
        if i < |nodes| - 1 { assert nodes[i] == old(nodes)[i] && old(NodeOk(nodes, i)); }
      }
    }

    /** The relinking that do_item_unlink_q and do_item_unlinktail_q share; without effect on a crawler that
        has already left at the head. */
    method Bypass(it: Node, ghost k: nat)
      requires Structure() && (Popped(it) || (k < |nodes| && nodes[k] == it))
      modifies this`head, this`tail, this`nodes, nodes
      ensures Structure() && nodes == if old(Popped(it)) then old(nodes) else Cut(old(nodes), k)
    {
      ghost var s := nodes;
      ghost var popped := Popped(it);
      assert if popped then |s| > 0 && NodeOk(s, 0) else NodeOk(s, k);
      if head == it { head := it.next; }
      if tail == it { tail := it.prev; }
      if it.next != null { it.next.prev := it.prev; }
      if it.prev != null { it.prev.next := it.next; }
      if popped {
        forall i: nat | i < |nodes| ensures NodeOk(nodes, i) { assert old(NodeOk(nodes, i)); }
      } else {
        nodes := Cut(s, k);
        CutMembers(s, k);
        forall i: nat | i < |nodes| ensures NodeOk(nodes, i) {
          var j := if i < k then i else i + 1;
          assert nodes[i] == s[j] && old(NodeOk(nodes, j));
        }
      }
    }

    /** The shuffle at the end of do_item_crawl_q. */
    method Swim(it: Node, ghost k: nat)
      requires Structure() && 0 < k < |nodes| && nodes[k] == it && it.prev == nodes[k - 1]
      modifies this`head, this`tail, this`nodes, nodes
      ensures Structure() && nodes == Swapped(old(nodes), k) && it.next == old(nodes)[k - 1]
    {
      ghost var s := nodes;
      assert NodeOk(s, k) && NodeOk(s, k - 1);
      if head == it.prev { head := it; }
      if tail == it { tail := it.prev; }
      if it.next != null {
        it.prev.next := it.next;
        it.next.prev := it.prev;
      } else {
        it.prev.next := null;
      }
      it.next := it.prev;
      it.prev := it.next.prev;
      it.next.prev := it;
      if it.prev != null { it.prev.next := it; }
      nodes := Swapped(nodes, k);
      forall i: nat | i < |nodes| ensures NodeOk(nodes, i) {
        assert old(NodeOk(nodes, i));
      }
    }

    // ----- the operations -------------------------------------------------------------------

    /** do_item_link_q: `it` becomes the head. */
    method LinkQ(it: Node)
      requires Valid() && it !in nodes && !it.isCrawler
      modifies this, it, nodes
      ensures Valid() && nodes == [it] + old(nodes)
    {
      LinkFront(it);
      size := size + 1;
      sizeBytes := sizeBytes + it.bytes;
      CutItems(nodes, 0);
      assert Cut(nodes, 0) == old(nodes);
    }

    /** do_item_linktail_q: the crawler becomes the tail. */
    method LinkTailQ(it: Node)
      requires Valid() && it !in nodes && it.isCrawler
      modifies this, it, nodes
      ensures Valid() && nodes == old(nodes) + [it]
    {
      LinkBack(it);
      CutItems(nodes, |nodes| - 1);
      assert Cut(nodes, |nodes| - 1) == old(nodes);
    }

    /** do_item_unlink_q */
    method UnlinkQ(it: Node, ghost k: nat)
      requires Valid() && k < |nodes| && nodes[k] == it && !it.isCrawler
      modifies this, nodes
      ensures Valid() && nodes == Cut(old(nodes), k)
    {
      CutItem(nodes, k);
      assert it in nodes;
      Bypass(it, k);
      size := size - 1;
      sizeBytes := sizeBytes - it.bytes;
    }

    /** do_item_unlinktail_q takes the crawler out, also after it has run off the head. */
    method UnlinkTailQ(it: Node, ghost k: nat)
      requires Valid() && it.isCrawler
      requires Popped(it) || (k < |nodes| && nodes[k] == it)
      modifies this`head, this`tail, this`nodes, nodes
      ensures Valid() && nodes == if old(Popped(it)) then old(nodes) else Cut(old(nodes), k)
      ensures Items(nodes) == old(Items(nodes))
    {
      if !Popped(it) { CutCrawler(nodes, k); }
      Bypass(it, k);
    }

    /** do_item_crawl_q: the crawler goes one place towards the head and hands out the node it passed; from
        the head it leaves the list, unless it is alone there. */
    method CrawlQ(it: Node, ghost k: nat) returns (passed: Node?)
      requires Valid() && k < |nodes| && nodes[k] == it && it.isCrawler
      modifies this`head, this`tail, this`nodes, nodes
      ensures Valid() && Items(nodes) == old(Items(nodes))
      ensures if k == 0 then passed == null && (if |old(nodes)| > 1 then nodes == Cut(old(nodes), 0) && Popped(it) else nodes == old(nodes))
              else passed == old(nodes)[k - 1] && nodes == Swapped(old(nodes), k)
    {
      assert NodeOk(nodes, k);
      if it.prev == null {
        CutCrawler(nodes, 0);
        if it.next != null { PopFront(it); }
        return null;
      }
      SwappedItems(nodes, k);
      Swim(it, k);
      return it.next;
    }

    method PopFront(it: Node)
      requires Structure() && |nodes| > 1 && nodes[0] == it && it.next == nodes[1] && it.isCrawler
      modifies this`head, this`nodes, nodes
      ensures Structure() && nodes == Cut(old(nodes), 0) && Popped(it)
    {
      ghost var s := nodes;
      assert NodeOk(s, 0);
      head := it.next;
      it.next.prev := null;
      nodes := Cut(nodes, 0);
      assert nodes == s[1..];
      forall i: nat | i < |nodes| ensures NodeOk(nodes, i) {
        assert nodes[i] == s[i + 1] && old(NodeOk(nodes, i + 1));
      }
    }

    // ----- a crawl --------------------------------------------------------------------------

    /** do_lru_crawler_start, the crawl loop on a list that nobody else changes, and lru_crawler_class_done.
        The items from the tail on are considered, each once; those in `free`, whose lock and only
        reference the crawler gets, are shown to the module, which unlinks the `dead` ones among them. */
    method Crawl(c: Node, requested: nat, free: set<Node>, dead: set<Node>)
      returns (considered: seq<Node>, checked: seq<Node>)
      requires Valid() && c.isCrawler && c !in nodes && forall x | x in nodes :: !x.isCrawler
      modifies this, c, nodes
      ensures Valid()
      ensures considered == FromTail(old(nodes), if requested == 0 then |old(nodes)| else requested)
      ensures checked == Filter(considered, free, true)
      ensures nodes == After(old(nodes), |old(nodes)| - |considered|, free, dead)
    {
      ghost var s := nodes;
      Start(c, free, dead);
      considered, checked := CrawlLoop(c, s, requested, free, dead);
    }

    method Start(c: Node, ghost free: set<Node>, ghost dead: set<Node>)
      requires Valid() && c.isCrawler && c !in nodes && forall x | x in nodes :: !x.isCrawler
      modifies this, c, nodes
      ensures Crawling(c, old(nodes), |old(nodes)|, |old(nodes)|, free, dead)
    {
      ghost var s := nodes;
      LinkTailQ(c);
      assert s[|s|..] == [];
      assert After(s, |s|, free, dead) == s;
      assert nodes == With(s, |s|, c);
    }

    method ClassDone(c: Node, ghost l: seq<Node>, ghost k: nat)
      requires Valid() && c.isCrawler && k <= |l| && if nodes == l then Popped(c) else nodes == With(l, k, c)
      modifies this`head, this`tail, this`nodes, nodes
      ensures Valid() && nodes == l
    {
      if nodes != l { Members(l, k, c); }
      UnlinkTailQ(c, k);
    }

    /** The crawler stands at `k` in a list from which what it found dead behind it is gone. */
    ghost predicate Crawling(c: Node, s: seq<Node>, m: nat, k: nat, free: set<Node>, dead: set<Node>)
      requires k <= m <= |s|
      reads this, nodes
    {
      Valid() && c.isCrawler && c !in s && (forall x | x in s :: !x.isCrawler) && nodes == With(After(s, m, free, dead), k, c)
    }

    method CrawlLoop(c: Node, ghost s: seq<Node>, requested: nat, free: set<Node>, dead: set<Node>)
      returns (considered: seq<Node>, checked: seq<Node>)
      requires Crawling(c, s, |s|, |s|, free, dead)
      modifies this, s, c
      ensures considered == FromTail(s, if requested == 0 then |s| else requested) && checked == Filter(considered, free, true)
      ensures Valid() && nodes == After(s, |s| - |considered|, free, dead)
    {
      var remaining := if requested == 0 then 0 else requested + 1;
      ghost var k: nat := |s|;
      considered, checked := [], [];
      while true
        invariant k <= |s| && Crawling(c, s, k, k, free, dead)
        invariant considered == FromTail(s, |s| - k) && checked == Filter(considered, free, true)
        invariant remaining == if requested == 0 then 0 else requested + 1 - |considered|
        invariant requested > 0 ==> |considered| <= requested
        decreases k
      {
        var passed := Advance(c, remaining, s, k, free, dead);
        if passed == null { return; }
        if remaining > 0 { remaining := remaining - 1; }
        k := k - 1;
        StepBack(s, k, free, dead);
        FilterSplit(considered, passed, free, true);
        considered := considered + [passed];
        if passed !in free { continue; }
        checked := checked + [passed];
        Evaluate(c, passed, s, k, free, dead);
      }
    }

    /** The next item, unless the crawler has run off the head or considered what it was asked for. */
    method Advance(c: Node, remaining: nat, ghost s: seq<Node>, ghost k: nat, free: set<Node>, dead: set<Node>)
      returns (passed: Node?)
      requires k <= |s| && Crawling(c, s, k, k, free, dead)
      modifies this, s, c
      ensures if k == 0 || remaining == 1 then passed == null && Valid() && nodes == After(s, k, free, dead)
              else passed == s[k - 1] && Crawling(c, s, k, k - 1, free, dead)
    {
      ghost var l := After(s, k, free, dead);
      AfterMembers(s, k, free, dead);
      passed := CrawlOn(c, l, k);
      if passed == null || (remaining > 0 && remaining - 1 < 1) {
        ClassDone(c, l, if k == 0 then 0 else k - 1);
        passed := null;
      }
    }

    /** The evaluation of an item that the crawler, in front of it, has to itself. */
    method Evaluate(c: Node, it: Node, ghost s: seq<Node>, ghost k: nat, free: set<Node>, dead: set<Node>)
      requires k < |s| && it == s[k] && it in free && Crawling(c, s, k + 1, k, free, dead)
      modifies this, s, c
      ensures Crawling(c, s, k, k, free, dead)
    {
      ghost var l := After(s, k + 1, free, dead);
      StepBack(s, k, free, dead);
      AfterMembers(s, k + 1, free, dead);
      InFront(l, k, c);
      if it in dead { UnlinkQ(it, k + 1); }
    }

    /** A crawl step, seen from the list `s` without the crawler. */
    method CrawlOn(c: Node, ghost s: seq<Node>, ghost k: nat) returns (passed: Node?)
      requires Valid() && c.isCrawler && k <= |s| && nodes == With(s, k, c)
      modifies this`head, this`tail, this`nodes, s, c
      ensures Valid()
      ensures if k == 0 then passed == null && (if s == [] then nodes == With(s, 0, c) else nodes == s && Popped(c))
              else passed == s[k - 1] && nodes == With(s, k - 1, c)
    {
      Members(s, k, c);
      if k > 0 { Passed(s, k, c); }
      assert forall x | x in nodes :: x == c || x in s;
      passed := CrawlQ(c, k);
    }
  }

  /** The nodes of `s` that are in `which`, or those that are not. */
  function Filter(s: seq<Node>, which: set<Node>, inside: bool): seq<Node> {
    if s == [] then []
    else if s[0] in which <==> inside then [s[0]] + Filter(s[1..], which, inside)
    else Filter(s[1..], which, inside)
  }

  lemma {:induction false} FilterSplit(a: seq<Node>, x: Node, which: set<Node>, inside: bool)
    ensures Filter(a + [x], which, inside) == Filter(a, which, inside) + if x in which <==> inside then [x] else []
  {
    if a == [] {
      assert a + [x] == [x];
    } else {
      assert (a + [x])[0] == a[0] && (a + [x])[1..] == a[1..] + [x];
      FilterSplit(a[1..], x, which, inside);
    }
  }

  /** The list once everything from `m` on was considered. */
  function After(s: seq<Node>, m: nat, free: set<Node>, dead: set<Node>): seq<Node>
    requires m <= |s|
  {
    s[..m] + Filter(s[m..], free * dead, false)
  }

  lemma {:induction false} FilterMembers(s: seq<Node>, which: set<Node>, inside: bool)
    ensures forall x | x in Filter(s, which, inside) :: x in s && (x in which <==> inside)
  {
    if s != [] { FilterMembers(s[1..], which, inside); }
  }

  lemma AfterMembers(s: seq<Node>, m: nat, free: set<Node>, dead: set<Node>)
    requires m <= |s|
    ensures var l := After(s, m, free, dead); |l| >= m && forall i | 0 <= i < |l| :: l[i] in s
  {
    FilterMembers(s[m..], free * dead, false);
    var l := After(s, m, free, dead);
    forall i | 0 <= i < |l| ensures l[i] in s {
      if i >= m { assert l[i] in Filter(s[m..], free * dead, false); }
    }
  }

  /** What the crawler in front of node `k` sees behind it. */
  lemma InFront(l: seq<Node>, k: nat, c: Node)
    requires k < |l|
    ensures With(l, k, c)[k + 1] == l[k] && Cut(With(l, k, c), k + 1) == With(Cut(l, k), k, c)
    ensures var n := With(l, k, c); forall i | 0 <= i < |n| :: n[i] == c || n[i] in l
  {
  }

  lemma StepBack(s: seq<Node>, k: nat, free: set<Node>, dead: set<Node>)
    requires k < |s|
    ensures After(s, k + 1, free, dead)[k] == s[k]
    ensures After(s, k, free, dead) == if s[k] in free && s[k] in dead then Cut(After(s, k + 1, free, dead), k) else After(s, k + 1, free, dead)
    ensures FromTail(s, |s| - k) == FromTail(s, |s| - (k + 1)) + [s[k]]
  {
    assert s[k..][1..] == s[k + 1..];
  }

  /** A module that unlinks nothing leaves the list as it was. */
  lemma {:induction false} NobodyDead(s: seq<Node>, m: nat, free: set<Node>, dead: set<Node>)
    requires m <= |s| && forall x | x in s[m..] :: x !in free * dead
    ensures After(s, m, free, dead) == s
    decreases |s| - m
  {
    if m < |s| {
      assert s[m] in s[m..];
      assert forall x | x in s[m + 1..] :: x in s[m..];
      NobodyDead(s, m + 1, free, dead);
      StepBack(s, m, free, dead);
    }
  }

  /** The crawler `c` in front of the node that used to be number `k`. */
  function With(s: seq<Node>, k: nat, c: Node): seq<Node>
    requires k <= |s|
  {
    s[..k] + [c] + s[k..]
  }

  lemma Members(s: seq<Node>, k: nat, c: Node)
    requires k <= |s|
    ensures With(s, k, c)[k] == c && Cut(With(s, k, c), k) == s
    ensures forall x | x in With(s, k, c) :: x == c || x in s
  {
  }

  lemma Passed(s: seq<Node>, k: nat, c: Node)
    requires 0 < k <= |s|
    ensures Swapped(With(s, k, c), k) == With(s, k - 1, c) && With(s, k, c)[k - 1] == s[k - 1]
  {
  }

  /** At most `n` nodes, the last one first. */
  function FromTail(s: seq<Node>, n: nat): (r: seq<Node>)
    ensures |r| == (if n <= |s| then n else |s|) && forall i | 0 <= i < |r| :: r[i] == s[|s| - 1 - i]
  {
    seq(if n <= |s| then n else |s|, i requires 0 <= i < |s| => s[|s| - 1 - i])
  }
}
