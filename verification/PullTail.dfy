/**
 * lru_pull_tail of memory_lru/items.c: it walks an LRU list from the tail and reclaims, evicts or moves
 * what it finds. The lists are sequences here; module LruList has their links.
 */
module PullTail {
  import opened Common

  const HOT_LRU: nat := 0
  const WARM_LRU: nat := 64
  const COLD_LRU: nat := 128
  const TEMP_LRU: nat := 192
  const TRIES: nat := 5

  datatype Item = Item(
    isCrawler: bool, slabClass: nat, lru: nat, bytes: nat, exptime: nat, cas: nat,
    time: nat, active: bool, linked: bool, refcount: nat)

  /** Items, the lists from head to tail by id, and the items given back to the allocator. */
  datatype State = State(items: map<Ptr, Item>, lists: map<nat, seq<Ptr>>, freed: set<Ptr>)

  /** Arguments of the call, the settings it reads, and the time. */
  datatype Pull = Pull(
    slabClass: nat, lru: nat, totalBytes: nat, maxAge: nat, evict: bool, crawlBlocks: bool, returnItem: bool,
    hotPct: nat, warmPct: nat, evictToFree: bool, segmented: bool, now: nat, oldestLive: nat, oldestCas: nat)

  predicate IsLru(lru: nat) {
    lru == HOT_LRU || lru == WARM_LRU || lru == COLD_LRU || lru == TEMP_LRU
  }

  /** A slab class leaves the two bits of the segment alone. */
  predicate Placed(slabClass: nat, lru: nat) {
    slabClass < 64 && IsLru(lru)
  }

  function Id(c: Pull): nat { c.slabClass + c.lru }
  function IdOf(i: Item): nat { i.slabClass + i.lru }

  function List(s: State, id: nat): seq<Ptr> {
    if id in s.lists then s.lists[id] else []
  }

  predicate Flushed(c: Pull, i: Item) {
    && c.oldestLive != 0 && c.oldestLive <= c.now
    && (i.time <= c.oldestLive || (c.oldestCas != 0 && i.cas != 0 && i.cas < c.oldestCas))
  }

  predicate Dead(c: Pull, i: Item) {
    (i.exptime != 0 && i.exptime < c.now) || Flushed(c, i)
  }

  /** sizes_bytes: what the items of a list take. */
  function SizeBytes(items: map<Ptr, Item>, list: seq<Ptr>): nat {
    if list == [] then 0
    else (if list[0] in items && !items[list[0]].isCrawler then items[list[0]].bytes else 0) + SizeBytes(items, list[1..])
  }

  function Limit(c: Pull): nat {
    var hot := if c.lru == HOT_LRU then c.totalBytes * c.hotPct / 100 else 0;
    if hot == 0 then c.totalBytes * c.warmPct / 100 else hot
  }

  // ----- one visit --------------------------------------------------------------------------

  /** What becomes of the item visited. The last four end the walk. */
  datatype Fate = Skipped | Blocked | Busy | Reclaimed | Bumped | Moved(lru: nat) | Stays | Evicted | Handed

  predicate Ends(f: Fate) {
    f.Blocked? || f.Moved? || f.Stays? || f.Evicted? || f.Handed?
  }

  function HotOrWarm(c: Pull, s: State, x: Ptr): Fate
    requires x in s.items
  {
    var i := s.items[x];
    if i.active then (if c.lru == WARM_LRU then Bumped else Moved(WARM_LRU))
    else if SizeBytes(s.items, List(s, Id(c))) > Limit(c) || Sub32(c.now, i.time) > c.maxAge then Moved(COLD_LRU)
    else Stays
  }

  function Cold(c: Pull, s: State, x: Ptr): Fate
    requires x in s.items
  {
    if c.evict then (if c.evictToFree then Evicted else Stays)
    else if c.returnItem then Handed
    else if s.items[x].active && c.segmented then Moved(WARM_LRU)
    else Stays
  }

  function Decide(c: Pull, s: State, x: Ptr, granted: bool): Fate
    requires x in s.items
  {
    var i := s.items[x];
    if i.isCrawler then (if c.crawlBlocks then Blocked else Skipped)
    else if !granted then Busy
    else if Dead(c, i) then Reclaimed
    else if c.lru == HOT_LRU || c.lru == WARM_LRU then HotOrWarm(c, s, x)
    else if c.lru == COLD_LRU then Cold(c, s, x)
    else Stays
  }

  function SetItem(s: State, x: Ptr, i: Item): State {
    s.(items := s.items[x := i])
  }

  function Ref(s: State, x: Ptr): State
    requires x in s.items
  {
    SetItem(s, x, s.items[x].(refcount := s.items[x].refcount + 1))
  }

  /** do_item_remove: the last reference frees the item. */
  function Unref(s: State, x: Ptr): State
    requires x in s.items && s.items[x].refcount > 0
  {
    var i := s.items[x].(refcount := s.items[x].refcount - 1);
    SetItem(s, x, i).(freed := if i.refcount == 0 then s.freed + {x} else s.freed)
  }

  function UnlinkQ(s: State, id: nat, x: Ptr): State {
    s.(lists := s.lists[id := Without<Ptr>(List(s, id), x)])
  }

  function LinkQ(s: State, id: nat, x: Ptr): State {
    s.(lists := s.lists[id := [x] + List(s, id)])
  }

  /** do_item_unlink_nolock */
  function Unlink(s: State, x: Ptr): State
    requires x in s.items && s.items[x].refcount > 0
  {
    var i := s.items[x];
    if i.linked then Unref(UnlinkQ(SetItem(s, x, i.(linked := false)), IdOf(i), x), x) else s
  }

  function Update(c: Pull, s: State, x: Ptr): State
    requires x in s.items
  {
    var i := s.items[x];
    if i.time < Sub32(c.now, ITEM_UPDATE_INTERVAL) && i.linked then
      LinkQ(SetItem(UnlinkQ(s, IdOf(i), x), x, i.(time := c.now)), IdOf(i), x)
    else s
  }

  function Inactive(s: State, x: Ptr): State
    requires x in s.items
  {
    SetItem(s, x, s.items[x].(active := false))
  }

  /** A reference, and the mark of recent use off. */
  function Take(s: State, x: Ptr): State
    requires x in s.items
  {
    if s.items[x].active then Inactive(Ref(s, x), x) else Ref(s, x)
  }

  /** Off the list it was walked on, and onto the head of list `lru` of its slab class. */
  function Move(c: Pull, s: State, x: Ptr, lru: nat): State
    requires x in s.items
  {
    var i := s.items[x];
    LinkQ(SetItem(UnlinkQ(s, Id(c), x), x, i.(lru := lru)), i.slabClass + lru, x)
  }

  /** The end of the function: the walk's reference is dropped unless the caller asked to have the item. */
  function Finish(c: Pull, s: State, x: Ptr): State
    requires x in s.items && s.items[x].refcount > 0
  {
    if c.returnItem then s else Unref(s, x)
  }

  function Step(c: Pull, s: State, x: Ptr, f: Fate): State
    requires x in s.items && (s.items[x].linked ==> s.items[x].refcount > 0)
  {
    match f
    case Skipped | Blocked | Busy => s
    case Reclaimed => Unref(Unlink(Ref(s, x), x), x)
    case Bumped => Unref(Update(c, Inactive(Ref(s, x), x), x), x)
    case Moved(lru) => Finish(c, Move(c, Take(s, x), x, lru), x)
    case Stays => Finish(c, Ref(s, x), x)
    case Evicted => Finish(c, Unlink(Ref(s, x), x), x)
    case Handed => Ref(s, x)
  }

  // ----- the walk ---------------------------------------------------------------------------

  function IndexOf(list: seq<Ptr>, x: Ptr): (k: nat)
    ensures x in list ==> k < |list| && list[k] == x
    ensures x !in list ==> k == |list|
  {
    if list == [] || list[0] == x then 0 else 1 + IndexOf(list[1..], x)
  }

  /** The prev pointer of `x`. */
  function Before(list: seq<Ptr>, x: Ptr): Ptr {
    var k := IndexOf(list, x);
    if 0 < k < |list| then list[k - 1] else NULL
  }

  function Tail(list: seq<Ptr>): Ptr {
    if list == [] then NULL else list[|list| - 1]
  }

  datatype Visit = Visit(x: Ptr, granted: bool, fate: Fate)

  /** Visits that use up a try: all but those to the crawler. */
  function Tried(visits: seq<Visit>): nat {
    if visits == [] then 0
    else Tried(visits[..|visits| - 1]) + if visits[|visits| - 1].fate.Skipped? then 0 else 1
  }

  /** Visit `k` leads from `states[k]` to `states[k + 1]`. */
  ghost predicate VisitOk(c: Pull, states: seq<State>, visits: seq<Visit>, k: nat)
    requires k < |visits| && |states| == |visits| + 1
  {
    var s, v := states[k], visits[k];
    && v.x in s.items && (s.items[v.x].linked ==> s.items[v.x].refcount > 0)
    && v.x == (if k == 0 then Tail(List(s, Id(c))) else Before(List(states[k - 1], Id(c)), visits[k - 1].x))
    && v.fate == Decide(c, s, v.x, v.granted) && states[k + 1] == Step(c, s, v.x, v.fate)
    && (Ends(v.fate) ==> k == |visits| - 1)
  }

  ghost predicate Trace(c: Pull, states: seq<State>, visits: seq<Visit>) {
    && |states| == |visits| + 1
    && forall k: nat | k < |visits| :: VisitOk(c, states, visits, k)
  }

  /** The walk goes on to the head, or until it has run out of tries or come to an end. */
  ghost predicate Complete(c: Pull, states: seq<State>, visits: seq<Visit>)
    requires |states| == |visits| + 1
  {
    || (visits == [] && Tail(List(states[0], Id(c))) == NULL)
    || Tried(visits) == TRIES
    || (visits != [] && Ends(visits[|visits| - 1].fate))
    || (visits != [] && Before(List(states[|visits| - 1], Id(c)), visits[|visits| - 1].x) == NULL)
  }

  // ----- partition --------------------------------------------------------------------------

  ghost predicate OnList(s: State, id: nat, x: Ptr) {
    x in s.items && IdOf(s.items[x]) == id && Placed(s.items[x].slabClass, s.items[x].lru) && (s.items[x].isCrawler || (s.items[x].linked && s.items[x].refcount > 0))
  }

  ghost predicate ListOk(s: State, id: nat) {
    NoDup(List(s, id)) && NULL !in List(s, id) && forall x | x in List(s, id) :: OnList(s, id, x)
  }

  /** Every linked item is on exactly one list, that of its slab class and segment, and only there. */
  ghost predicate Partition(s: State) {
    && (forall id: nat :: ListOk(s, id))
    && (forall x: Ptr | x in s.items && s.items[x].linked :: !s.items[x].isCrawler && x in List(s, IdOf(s.items[x])))
  }

  /** Lists in order, a proper id, and no item accessed after now. */
  ghost predicate Ready(c: Pull, s: State) {
    && Partition(s) && Placed(c.slabClass, c.lru) && forall x | x in s.items :: s.items[x].time <= c.now
  }

  lemma WithoutOk(list: seq<Ptr>, x: Ptr)
    requires NoDup(list)
    ensures NoDup(Without<Ptr>(list, x)) && forall y :: y in Without<Ptr>(list, x) <==> y in list && y != x
  {
    WithoutMembers(list, x);
  }

  lemma FrontOk(list: seq<Ptr>, x: Ptr)
    requires NoDup(list) && x !in list
    ensures NoDup([x] + list) && forall y :: y in [x] + list <==> y in list || y == x
  {
  }

  /** The list of `x` and its item are all that changes. */
  ghost predicate OnlyAbout(s: State, t: State, x: Ptr) {
    && t.items.Keys == s.items.Keys && x in s.items
    && forall y | y in s.items && y != x :: t.items[y] == s.items[y]
  }

  function Kept(c: Pull, f: Fate): nat {
    if Ends(f) && !f.Blocked? && c.returnItem then 1 else 0
  }

  /** The item of `x` after reclaiming or evicting, moving, or neither. */
  function ItemAfter(c: Pull, i: Item, f: Fate): Item
    requires i.refcount > 0
  {
    match f
    case Reclaimed | Evicted => i.(linked := false, refcount := i.refcount - 1 + Kept(c, f))
    case Moved(lru) => i.(lru := lru, active := false, refcount := i.refcount + Kept(c, f))
    case Stays | Handed => i.(refcount := i.refcount + Kept(c, f))
    case _ => i
  }

  lemma FinishExact(c: Pull, s: State, x: Ptr)
    requires x in s.items && s.items[x].refcount > 0
    ensures var t := Finish(c, s, x); var n := s.items[x].refcount - if c.returnItem then 0 else 1;
      && t.lists == s.lists && OnlyAbout(s, t, x) && t.items[x] == s.items[x].(refcount := n)
      && t.freed == if n == 0 then s.freed + {x} else s.freed
  {
  }

  lemma UnlinkLinked(u: State, x: Ptr)
    requires x in u.items && u.items[x].linked && u.items[x].refcount > 1
    ensures var t := Unlink(u, x); var id := IdOf(u.items[x]);
      && t.lists == u.lists[id := Without<Ptr>(List(u, id), x)] && t.freed == u.freed
      && t.items == u.items[x := u.items[x].(linked := false, refcount := u.items[x].refcount - 1)]
  {
  }

  lemma UnlinkExact(s: State, x: Ptr)
    requires x in s.items && s.items[x].linked && s.items[x].refcount > 0
    ensures var u := Ref(s, x); var t := Unlink(u, x); var id := IdOf(s.items[x]);
      && t.lists == s.lists[id := Without<Ptr>(List(s, id), x)] && OnlyAbout(s, t, x)
      && t.items[x] == s.items[x].(linked := false) && t.freed == s.freed
  {
    UnlinkLinked(Ref(s, x), x);
  }

  lemma GoneExact(c: Pull, s: State, x: Ptr, f: Fate)
    requires x in s.items && s.items[x].linked && s.items[x].refcount > 0 && (f.Reclaimed? || f.Evicted?)
    ensures var t := Step(c, s, x, f); var id := IdOf(s.items[x]);
      && OnlyAbout(s, t, x) && t.items[x] == ItemAfter(c, s.items[x], f)
      && t.lists == s.lists[id := Without<Ptr>(List(s, id), x)]
      && t.freed == if t.items[x].refcount == 0 then s.freed + {x} else s.freed
  {
    UnlinkExact(s, x);
    if f.Evicted? { FinishExact(c, Unlink(Ref(s, x), x), x); }
  }

  lemma MoveExact(c: Pull, u: State, x: Ptr, lru: nat)
    requires x in u.items && u.items[x].slabClass + lru != Id(c)
    ensures var t := Move(c, u, x, lru); var to := u.items[x].slabClass + lru;
      && t.lists == u.lists[Id(c) := Without<Ptr>(List(u, Id(c)), x)][to := [x] + List(u, to)]
      && t.items == u.items[x := u.items[x].(lru := lru)] && t.freed == u.freed
  {
  }

  lemma TakeExact(s: State, x: Ptr)
    requires x in s.items
    ensures Take(s, x) == s.(items := s.items[x := s.items[x].(active := false, refcount := s.items[x].refcount + 1)])
  {
  }

  lemma TakenMove(c: Pull, s: State, x: Ptr, lru: nat)
    requires x in s.items && s.items[x].slabClass + lru != Id(c)
    ensures var t := Move(c, Take(s, x), x, lru); var to := s.items[x].slabClass + lru;
      && t.lists == s.lists[Id(c) := Without<Ptr>(List(s, Id(c)), x)][to := [x] + List(s, to)]
      && OnlyAbout(s, t, x) && t.freed == s.freed
      && t.items[x] == s.items[x].(lru := lru, active := false, refcount := s.items[x].refcount + 1)
  {
    TakeExact(s, x);
    MoveExact(c, Take(s, x), x, lru);
  }

  lemma MovedExact(c: Pull, s: State, x: Ptr, lru: nat)
    requires x in s.items && s.items[x].refcount > 0 && s.items[x].slabClass + lru != Id(c)
    ensures var t := Step(c, s, x, Moved(lru)); var to := s.items[x].slabClass + lru;
      && OnlyAbout(s, t, x) && t.items[x] == ItemAfter(c, s.items[x], Moved(lru)) && t.freed == s.freed
      && t.lists == s.lists[Id(c) := Without<Ptr>(List(s, Id(c)), x)][to := [x] + List(s, to)]
  {
    TakenMove(c, s, x, lru);
    FinishExact(c, Move(c, Take(s, x), x, lru), x);
  }

  lemma SameExact(c: Pull, s: State, x: Ptr, f: Fate)
    requires x in s.items && s.items[x].refcount > 0 && (f.Stays? || (f.Handed? && c.returnItem))
    ensures var t := Step(c, s, x, f);
      OnlyAbout(s, t, x) && t.lists == s.lists && t.items[x] == ItemAfter(c, s.items[x], f) && t.freed == s.freed
  {
    if f.Stays? { FinishExact(c, Ref(s, x), x); }
  }

  lemma StepKeepsPartition(c: Pull, s: State, x: Ptr, granted: bool)
    requires Partition(s) && Placed(c.slabClass, c.lru) && x in List(s, Id(c))
    requires x in s.items && (s.items[x].linked ==> s.items[x].refcount > 0)
    ensures var f := Decide(c, s, x, granted); Partition(Step(c, s, x, f)) && OnlyAbout(s, Step(c, s, x, f), x)
  {
    assert ListOk(s, Id(c)) && OnList(s, Id(c), x);
    var f := Decide(c, s, x, granted);
    if f.Bumped? {
      KeepBumped(c, s, x);
    } else if f.Reclaimed? || f.Evicted? {
      GoneExact(c, s, x, f);
      KeepGone(s, Step(c, s, x, f), Id(c), x);
    } else if f.Moved? {
      MovedExact(c, s, x, f.lru);
      KeepMoved(c, s, Step(c, s, x, f), x, f.lru);
    } else if f.Stays? || f.Handed? {
      SameExact(c, s, x, f);
      KeepSame(s, Step(c, s, x, f), x);
    }
  }

  lemma KeepSame(s: State, t: State, x: Ptr)
    requires Partition(s) && OnlyAbout(s, t, x) && t.lists == s.lists
    requires t.items[x].slabClass == s.items[x].slabClass && t.items[x].lru == s.items[x].lru && t.items[x].isCrawler == s.items[x].isCrawler
    requires t.items[x].linked == s.items[x].linked && (t.items[x].linked ==> t.items[x].refcount > 0)
    ensures Partition(t)
  {
    forall id: nat ensures ListOk(t, id) {
      assert ListOk(s, id);
      forall y | y in List(t, id) ensures OnList(t, id, y) { assert OnList(s, id, y); }
    }
  }

  lemma KeepGone(s: State, t: State, id: nat, x: Ptr)
    requires Partition(s) && OnlyAbout(s, t, x) && x in List(s, id) && !s.items[x].isCrawler
    requires t.lists == s.lists[id := Without<Ptr>(List(s, id), x)] && !t.items[x].linked
    ensures Partition(t)
  {
    assert ListOk(s, id) && OnList(s, id, x);
    WithoutOk(List(s, id), x);
    forall j: nat ensures ListOk(t, j) {
      assert ListOk(s, j);
      forall y | y in List(t, j) ensures OnList(t, j, y) { assert OnList(s, j, y); }
    }
  }

  lemma KeepBumped(c: Pull, s: State, x: Ptr)
    requires Partition(s) && x in List(s, Id(c)) && x in s.items && !s.items[x].isCrawler && s.items[x].refcount > 0
    ensures var t := Step(c, s, x, Bumped); Partition(t) && OnlyAbout(s, t, x)
  {
    var t := Step(c, s, x, Bumped);
    assert ListOk(s, Id(c)) && OnList(s, Id(c), x);
    if t.lists == s.lists {
      KeepSame(s, t, x);
    } else {
      WithoutOk(List(s, Id(c)), x);
      FrontOk(Without<Ptr>(List(s, Id(c)), x), x);
      KeepAtFront(s, t, Id(c), x);
    }
  }

  lemma KeepAtFront(s: State, t: State, id: nat, x: Ptr)
    requires Partition(s) && OnlyAbout(s, t, x) && x in List(s, id)
    requires t.lists == s.lists[id := List(t, id)] && NoDup(List(t, id))
    requires forall y :: y in List(t, id) <==> y in List(s, id)
    requires IdOf(t.items[x]) == id && Placed(t.items[x].slabClass, t.items[x].lru) && t.items[x].linked && t.items[x].refcount > 0 && !t.items[x].isCrawler
    ensures Partition(t)
  {
    assert ListOk(s, id);
    forall j: nat ensures ListOk(t, j) {
      assert ListOk(s, j);
      forall y | y in List(t, j) ensures OnList(t, j, y) { assert OnList(s, j, y); }
    }
  }

  lemma KeepMoved(c: Pull, s: State, t: State, x: Ptr, lru: nat)
    requires Partition(s) && x in List(s, Id(c)) && OnlyAbout(s, t, x) && lru != c.lru
    requires var from, to := Id(c), s.items[x].slabClass + lru;
      && IdOf(s.items[x]) == from && s.items[x].lru == c.lru && !s.items[x].isCrawler
      && t.lists == s.lists[from := Without<Ptr>(List(s, from), x)][to := [x] + List(s, to)]
      && IdOf(t.items[x]) == to && Placed(t.items[x].slabClass, t.items[x].lru) && t.items[x].linked && t.items[x].refcount > 0 && !t.items[x].isCrawler
    ensures Partition(t)
  {
    var from, to := Id(c), s.items[x].slabClass + lru;
    assert ListOk(s, from) && ListOk(s, to);
    assert x in List(s, to) ==> OnList(s, to, x);
    WithoutOk(List(s, from), x);
    FrontOk(List(s, to), x);
    forall j: nat ensures ListOk(t, j) {
      assert ListOk(s, j);
      forall y | y in List(t, j) ensures OnList(t, j, y) { if y != x { assert OnList(s, j, y); } }
    }
  }

  // ----- what becomes of an item ------------------------------------------------------------

  predicate Evicts(c: Pull) {
    c.lru == COLD_LRU && c.evict && c.evictToFree
  }

  /** `b` is what a call may make of an item that was `a`, `kept` the references it leaves behind. */
  predicate Outcome(c: Pull, a: Item, b: Item, kept: nat) {
    && b == a.(lru := b.lru, time := b.time, active := b.active, linked := b.linked, refcount := b.refcount)
    && (a.isCrawler ==> b == a)
    && (b.linked || !a.linked || Dead(c, a) || Evicts(c))
    && (b.linked ==> a.linked)
    && (b.linked && b.lru != a.lru ==> a.lru == c.lru && MoveOk(c, a, b.lru))
    && (b.active ==> a.active) && (b.time == a.time || (b.time == c.now && c.lru == WARM_LRU && a.active))
    && b.refcount + (if a.linked && !b.linked then 1 else 0) == a.refcount + kept
  }

  /** Active items flow to WARM, others from HOT and WARM to COLD. */
  predicate MoveOk(c: Pull, a: Item, lru: nat) {
    || (lru == WARM_LRU && a.active && (c.lru == HOT_LRU || (c.lru == COLD_LRU && c.segmented)))
    || (lru == COLD_LRU && (c.lru == HOT_LRU || c.lru == WARM_LRU))
  }

  lemma StepOutcome(c: Pull, s: State, x: Ptr, granted: bool)
    requires Partition(s) && Placed(c.slabClass, c.lru) && x in List(s, Id(c))
    requires x in s.items && (s.items[x].linked ==> s.items[x].refcount > 0) && s.items[x].time <= c.now
    ensures var f := Decide(c, s, x, granted); var t := Step(c, s, x, f);
      && x in t.items && Outcome(c, s.items[x], t.items[x], Kept(c, f))
      && (Dead(c, t.items[x]) ==> Dead(c, s.items[x])) && t.items[x].time <= c.now
      && t.freed == (if !s.items[x].isCrawler && t.items[x].refcount == 0 then s.freed + {x} else s.freed)
  {
    assert ListOk(s, Id(c)) && OnList(s, Id(c), x);
    var f := Decide(c, s, x, granted);
    var t := Step(c, s, x, f);
    if f.Reclaimed? || f.Evicted? { GoneExact(c, s, x, f); GoneOutcome(c, s, x, granted, t.items[x]); }
    else if f.Moved? { MovedExact(c, s, x, f.lru); MovedOutcome(c, s, x, granted, t.items[x]); }
    else if f.Stays? || f.Handed? { SameExact(c, s, x, f); }
    else if f.Bumped? { BumpedExact(c, s, x); BumpedOutcome(c, s.items[x], t.items[x]); }
  }

  lemma GoneOutcome(c: Pull, s: State, x: Ptr, granted: bool, b: Item)
    requires x in s.items && s.items[x].linked && s.items[x].refcount > 0
    requires var f := Decide(c, s, x, granted); (f.Reclaimed? || f.Evicted?) && b == ItemAfter(c, s.items[x], f)
    ensures Outcome(c, s.items[x], b, Kept(c, Decide(c, s, x, granted))) && (Dead(c, b) ==> Dead(c, s.items[x]))
  {
  }

  lemma MovedOutcome(c: Pull, s: State, x: Ptr, granted: bool, b: Item)
    requires x in s.items && s.items[x].linked && s.items[x].refcount > 0 && s.items[x].lru == c.lru
    requires var f := Decide(c, s, x, granted); f.Moved? && b == ItemAfter(c, s.items[x], f)
    ensures Outcome(c, s.items[x], b, Kept(c, Decide(c, s, x, granted))) && (Dead(c, b) ==> Dead(c, s.items[x]))
  {
  }

  lemma BumpedOutcome(c: Pull, a: Item, b: Item)
    requires a.linked && a.active && c.lru == WARM_LRU && !a.isCrawler && a.time <= c.now && !Dead(c, a)
    requires b == a.(active := false, time := if a.time < Sub32(c.now, ITEM_UPDATE_INTERVAL) then c.now else a.time)
    ensures Outcome(c, a, b, 0) && !Dead(c, b)
  {
  }

  lemma BumpedExact(c: Pull, s: State, x: Ptr)
    requires x in s.items && s.items[x].linked && s.items[x].refcount > 0
    ensures var t := Step(c, s, x, Bumped); var i := s.items[x];
      && OnlyAbout(s, t, x) && t.freed == s.freed
      && t.items[x] == i.(active := false, time := if i.time < Sub32(c.now, ITEM_UPDATE_INTERVAL) then c.now else i.time)
  {
  }

  /** Two visits to one item: only a bump is followed by a second visit. */
  lemma OutcomeTwice(c: Pull, a: Item, b: Item, d: Item, kept: nat)
    requires Outcome(c, a, b, 0) && Outcome(c, b, d, kept) && (Dead(c, b) ==> Dead(c, a))
    ensures Outcome(c, a, d, kept)
  {
  }
}
