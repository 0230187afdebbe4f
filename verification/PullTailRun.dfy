/** The loop of lru_pull_tail, and what a whole call does to the lists and to each item. */
module PullTailRun {
  import opened Common
  import opened PullTail
  import opened PullTailExact

  /** The visited item apart, the list keeps its members. */
  lemma OthersStay(c: Pull, s: State, x: Ptr, granted: bool)
    requires Ready(c, s) && x in List(s, Id(c)) && x in s.items && (s.items[x].linked ==> s.items[x].refcount > 0)
    ensures var t := Step(c, s, x, Decide(c, s, x, granted));
      forall y | y in List(s, Id(c)) && y != x :: y in List(t, Id(c))
  {
    assert ListOk(s, Id(c)) && OnList(s, Id(c), x);
    var f := Decide(c, s, x, granted);
    WithoutOk(List(s, Id(c)), x);
    if f.Reclaimed? || f.Evicted? { GoneExact(c, s, x, f); }
    else if f.Moved? { MovedExact(c, s, x, f.lru); }
    else if f.Stays? || f.Handed? { SameExact(c, s, x, f); }
  }

  lemma {:induction false} BeforeOk(list: seq<Ptr>, x: Ptr)
    requires NoDup(list) && x in list && NULL !in list
    ensures Before(list, x) == NULL <==> IndexOf(list, x) == 0
    ensures Before(list, x) != NULL ==>
      Before(list, x) in list && Before(list, x) != x && IndexOf(list, Before(list, x)) + 1 == IndexOf(list, x)
  {
    var k := IndexOf(list, x);
    if k > 0 { IndexUnique(list, k - 1); }
  }

  lemma {:induction false} IndexUnique(list: seq<Ptr>, k: nat)
    requires NoDup(list) && k < |list|
    ensures IndexOf(list, list[k]) == k
  {
    if k > 0 { IndexUnique(list[1..], k - 1); }
  }

  lemma StepReady(c: Pull, s: State, x: Ptr, granted: bool)
    requires Ready(c, s) && x in List(s, Id(c)) && x in s.items && (s.items[x].linked ==> s.items[x].refcount > 0)
    ensures Ready(c, Step(c, s, x, Decide(c, s, x, granted)))
  {
    StepKeepsPartition(c, s, x, granted);
    StepOutcome(c, s, x, granted);
  }

  // ----- the whole call ---------------------------------------------------------------------

  function KeptAt(c: Pull, visits: seq<Visit>, k: nat, x: Ptr): nat
    requires k <= |visits|
  {
    if k > 0 && visits[k - 1].x == x then Kept(c, visits[k - 1].fate) else 0
  }

  ghost predicate ItemOutcome(c: Pull, s: State, t: State, x: Ptr, kept: nat)
    requires x in s.items
  {
    x in t.items && Outcome(c, s.items[x], t.items[x], kept) && (Dead(c, t.items[x]) ==> Dead(c, s.items[x]))
  }

  ghost predicate Visits(c: Pull, s: State, x: Ptr) {
    x in List(s, Id(c)) && x in s.items && (s.items[x].linked ==> s.items[x].refcount > 0)
  }

  /** In every state of a walk the lists partition the linked items, and each item has come to one of the
      outcomes that its flags and the arguments allow. */
  lemma {:induction false} WalkOutcome(c: Pull, states: seq<State>, visits: seq<Visit>, k: nat)
    requires Trace(c, states, visits) && Ready(c, states[0]) && k <= |visits|
    requires forall j: nat | j < |visits| :: Visits(c, states[j], visits[j].x)
    ensures Ready(c, states[k]) && states[k].items.Keys == states[0].items.Keys
    ensures forall x | x in states[0].items :: ItemOutcome(c, states[0], states[k], x, KeptAt(c, visits, k, x))
  {
    if k > 0 {
      WalkOutcome(c, states, visits, k - 1);
      assert VisitOk(c, states, visits, k - 1) && Visits(c, states[k - 1], visits[k - 1].x);
      NotKeptBefore(c, states, visits, k - 1);
      VisitOutcome(c, states[0], states[k - 1], visits[k - 1]);
    }
  }

  /** One more visit, on top of outcomes reached before it. */
  lemma VisitOutcome(c: Pull, s0: State, s: State, v: Visit)
    requires Ready(c, s) && Visits(c, s, v.x) && v.fate == Decide(c, s, v.x, v.granted)
    requires s.items.Keys == s0.items.Keys && forall x | x in s0.items :: ItemOutcome(c, s0, s, x, 0)
    ensures var t := Step(c, s, v.x, v.fate);
      && Ready(c, t) && t.items.Keys == s0.items.Keys
      && forall x | x in s0.items :: ItemOutcome(c, s0, t, x, if x == v.x then Kept(c, v.fate) else 0)
  {
    var t := Step(c, s, v.x, v.fate);
    StepReady(c, s, v.x, v.granted);
    StepKeepsPartition(c, s, v.x, v.granted);
    StepOutcome(c, s, v.x, v.granted);
    OutcomeTwice(c, s0.items[v.x], s.items[v.x], t.items[v.x], Kept(c, v.fate));
  }

  lemma NotKeptBefore(c: Pull, states: seq<State>, visits: seq<Visit>, k: nat)
    requires Trace(c, states, visits) && k < |visits|
    ensures forall x :: KeptAt(c, visits, k, x) == 0
  {
    if k > 0 { assert VisitOk(c, states, visits, k - 1); }
  }

  /** A call that asks for an item and ends on one leaves a reference to it behind. The caller is handed that
      item if and only if the call was for a COLD list and not for an eviction; otherwise the reference leaks. */
  lemma KeptIsHanded(c: Pull, states: seq<State>, visits: seq<Visit>)
    requires Done(c, states, visits) && c.returnItem && Placed(c.slabClass, c.lru)
    requires visits != [] && Ends(visits[|visits| - 1].fate) && !visits[|visits| - 1].fate.Blocked?
    ensures var v := visits[|visits| - 1]; var s, t := states[0], states[|visits|];
      && v.x in s.items && v.x in t.items
      && t.items[v.x].refcount + (if s.items[v.x].linked && !t.items[v.x].linked then 1 else 0) == s.items[v.x].refcount + 1
      && (v.fate.Handed? <==> c.lru == COLD_LRU && !c.evict)
  {
    var k := |visits| - 1;
    assert VisitOk(c, states, visits, k);
    SameKeys(c, states, visits, k);
    assert ItemOutcome(c, states[0], states[k + 1], visits[k].x, KeptAt(c, visits, k + 1, visits[k].x));
  }

  lemma {:induction false} SameKeys(c: Pull, states: seq<State>, visits: seq<Visit>, k: nat)
    requires Trace(c, states, visits) && k <= |visits|
    ensures states[k].items.Keys == states[0].items.Keys
  {
    if k > 0 {
      SameKeys(c, states, visits, k - 1);
      assert VisitOk(c, states, visits, k - 1);
      StepSameKeys(c, states[k - 1], visits[k - 1].x, visits[k - 1].fate);
    }
  }

  lemma StepSameKeys(c: Pull, s: State, x: Ptr, f: Fate)
    requires x in s.items && (s.items[x].linked ==> s.items[x].refcount > 0)
    ensures Step(c, s, x, f).items.Keys == s.items.Keys
  {
  }

  function Counts(f: Fate): nat {
    if f.Reclaimed? || f.Bumped? || f.Moved? || f.Evicted? then 1 else 0
  }

  /** What the call returns; a crawler that blocks the walk makes it forget what it removed before. */
  function Removed(visits: seq<Visit>): nat {
    if visits == [] then 0
    else
      var n := |visits| - 1;
      if visits[n].fate.Blocked? then 0 else Removed(visits[..n]) + Counts(visits[n].fate)
  }

  /** The item the call returns. */
  function HandedOver(visits: seq<Visit>): Ptr {
    if visits != [] && visits[|visits| - 1].fate.Handed? then visits[|visits| - 1].x else NULL
  }

  lemma {:induction false} SameSize(a: map<Ptr, Item>, b: map<Ptr, Item>, list: seq<Ptr>)
    requires a.Keys == b.Keys && forall x | x in a :: a[x].isCrawler == b[x].isCrawler && a[x].bytes == b[x].bytes
    ensures SizeBytes(a, list) == SizeBytes(b, list)
  {
    if list != [] { SameSize(a, b, list[1..]); }
  }

  lemma RefDecides(c: Pull, s: State, x: Ptr)
    requires x in s.items
    ensures HotOrWarm(c, Ref(s, x), x) == HotOrWarm(c, s, x) && Cold(c, Ref(s, x), x) == Cold(c, s, x)
  {
    SameSize(s.items, Ref(s, x).items, List(s, Id(c)));
  }

  /** Where the walk stands: the visits so far, none of which ends it, and the item to look at next. */
  ghost predicate Walking(c: Pull, states: seq<State>, visits: seq<Visit>, tries: nat, search: Ptr) {
    && Trace(c, states, visits) && tries <= TRIES && tries == TRIES - Tried(visits)
    && (forall j: nat | j < |visits| :: Visits(c, states[j], visits[j].x))
    && Ready(c, states[|visits|])
    && (visits != [] ==> !Ends(visits[|visits| - 1].fate))
    && search == (if visits == [] then Tail(List(states[0], Id(c)))
                  else Before(List(states[|visits| - 1], Id(c)), visits[|visits| - 1].x))
    && (search != NULL ==> search in List(states[|visits|], Id(c)))
  }

  lemma Begins(c: Pull, s: State)
    requires Ready(c, s)
    ensures Walking(c, [s], [], TRIES, Tail(List(s, Id(c))))
  {
    assert ListOk(s, Id(c));
  }

  lemma Found(c: Pull, states: seq<State>, visits: seq<Visit>, tries: nat, search: Ptr)
    requires Walking(c, states, visits, tries, search) && search != NULL
    ensures var s := states[|visits|]; Visits(c, s, search) && Id(c) in s.lists
    ensures var l := List(states[|visits|], Id(c));
      Before(l, search) != NULL ==> IndexOf(l, Before(l, search)) < IndexOf(l, search)
  {
    var s := states[|visits|];
    assert ListOk(s, Id(c)) && OnList(s, Id(c), search);
    BeforeOk(List(s, Id(c)), search);
  }

  /** One more visit. */
  lemma Visited(c: Pull, states: seq<State>, visits: seq<Visit>, tries: nat, v: Visit, t: State)
    requires Walking(c, states, visits, tries, v.x) && v.x != NULL && tries > 0
    requires var s := states[|visits|]; Visits(c, s, v.x) && v.fate == Decide(c, s, v.x, v.granted) && t == Step(c, s, v.x, v.fate)
    ensures Trace(c, states + [t], visits + [v])
    ensures forall j: nat | j < |visits + [v]| :: Visits(c, (states + [t])[j], (visits + [v])[j].x)
    ensures Tried(visits + [v]) == Tried(visits) + if v.fate.Skipped? then 0 else 1
    ensures Removed(visits + [v]) == if v.fate.Blocked? then 0 else Removed(visits) + Counts(v.fate)
  {
    var states', visits' := states + [t], visits + [v];
    assert visits'[..|visits|] == visits;
    forall k: nat | k < |visits'| ensures VisitOk(c, states', visits', k) {
      if k < |visits| { assert VisitOk(c, states, visits, k); }
    }
  }

  lemma GoesOn(c: Pull, states: seq<State>, visits: seq<Visit>, tries: nat, v: Visit, t: State)
    requires Walking(c, states, visits, tries, v.x) && v.x != NULL && tries > 0 && !Ends(v.fate)
    requires var s := states[|visits|]; Visits(c, s, v.x) && v.fate == Decide(c, s, v.x, v.granted) && t == Step(c, s, v.x, v.fate)
    ensures Removed(visits + [v]) == Removed(visits) + Counts(v.fate)
    ensures Walking(c, states + [t], visits + [v], tries - (if v.fate.Skipped? then 0 else 1),
                    Before(List(states[|visits|], Id(c)), v.x))
  {
    var s := states[|visits|];
    Visited(c, states, visits, tries, v, t);
    assert ListOk(s, Id(c));
    BeforeOk(List(s, Id(c)), v.x);
    StepReady(c, s, v.x, v.granted);
    OthersStay(c, s, v.x, v.granted);
  }

  /** A finished call: a complete walk, the lists in order, and an allowed outcome for every item. */
  ghost predicate Done(c: Pull, states: seq<State>, visits: seq<Visit>) {
    && Trace(c, states, visits) && Complete(c, states, visits) && Tried(visits) <= TRIES
    && Ready(c, states[|visits|]) && states[|visits|].items.Keys == states[0].items.Keys
    && forall x | x in states[0].items :: ItemOutcome(c, states[0], states[|visits|], x, KeptAt(c, visits, |visits|, x))
  }

  lemma Exhausted(c: Pull, states: seq<State>, visits: seq<Visit>, tries: nat, search: Ptr)
    requires Walking(c, states, visits, tries, search) && Ready(c, states[0]) && (tries == 0 || search == NULL)
    ensures Done(c, states, visits)
  {
    WalkOutcome(c, states, visits, |visits|);
  }

  lemma Ended(c: Pull, states: seq<State>, visits: seq<Visit>, tries: nat, v: Visit, t: State)
    requires Walking(c, states, visits, tries, v.x) && v.x != NULL && tries > 0 && Ends(v.fate) && Ready(c, states[0])
    requires var s := states[|visits|]; Visits(c, s, v.x) && v.fate == Decide(c, s, v.x, v.granted) && t == Step(c, s, v.x, v.fate)
    ensures Done(c, states + [t], visits + [v])
    ensures Removed(visits + [v]) == if v.fate.Blocked? then 0 else Removed(visits) + Counts(v.fate)
  {
    Visited(c, states, visits, tries, v, t);
    WalkOutcome(c, states + [t], visits + [v], |visits| + 1);
  }

  // ----- eviction ---------------------------------------------------------------------------

  /** A call that evicts and may, on a COLD list whose tail is an item with its lock to be had. */
  ghost predicate EvictsTail(c: Pull, s: State, x: Ptr) {
    && Ready(c, s) && c.lru == COLD_LRU && c.evict && c.evictToFree
    && List(s, Id(c)) != [] && x == List(s, Id(c))[|List(s, Id(c))| - 1] && x in s.items && !s.items[x].isCrawler
  }

  /** The tail is unlinked. If it was not over this ends the walk, and the call returns 1; else it returns at
      least 1 unless a crawler that blocks the walk makes it forget. */
  lemma TailEvicted(c: Pull, states: seq<State>, visits: seq<Visit>, x: Ptr)
    requires Done(c, states, visits) && EvictsTail(c, states[0], x) && visits != [] && visits[0].granted
    ensures x in states[|visits|].items && !states[|visits|].items[x].linked
    ensures !Over(c, states[0].items[x]) ==> |visits| == 1 && Removed(visits) == 1
    ensures !c.crawlBlocks ==> Removed(visits) >= 1
  {
    Members(c, states[0], x);
    assert VisitOk(c, states, visits, 0);
    UnlinkedExactly(c, states[0], x);
    StaysUnlinked(c, states, visits, x, |visits|);
    RemovedFirst(c, states, visits);
    assert visits[..1] == [visits[0]];
    assert Over(c, states[0].items[x]) || visits[0].fate == Evicted;
    assert !Over(c, states[0].items[x]) ==> visits == [visits[0]];
    assert Removed([visits[0]]) == (if visits[0].fate.Blocked? then 0 else Removed([visits[0]][..0]) + Counts(visits[0].fate));
  }

  lemma {:induction false} StaysUnlinked(c: Pull, states: seq<State>, visits: seq<Visit>, x: Ptr, k: nat)
    requires Trace(c, states, visits) && 1 <= k <= |visits| && x in states[1].items && !states[1].items[x].linked
    ensures x in states[k].items && !states[k].items[x].linked
  {
    if k > 1 {
      StaysUnlinked(c, states, visits, x, k - 1);
      assert VisitOk(c, states, visits, k - 1);
      StepUnlinked(c, states[k - 1], visits[k - 1].x, visits[k - 1].fate, x);
    }
  }

  lemma StepUnlinked(c: Pull, s: State, y: Ptr, f: Fate, x: Ptr)
    requires y in s.items && (s.items[y].linked ==> s.items[y].refcount > 0) && x in s.items && !s.items[x].linked
    ensures var t := Step(c, s, y, f); x in t.items && !t.items[x].linked
  {
  }

  /** Unless a crawler blocks the walk, what the first visit counted stays counted. */
  lemma {:induction false} RemovedFirst(c: Pull, states: seq<State>, visits: seq<Visit>)
    requires Trace(c, states, visits) && visits != []
    ensures !c.crawlBlocks ==> Removed(visits) >= Counts(visits[0].fate)
  {
    RemovedUpTo(c, states, visits, |visits|);
    assert visits[..|visits|] == visits;
  }

  lemma {:induction false} RemovedUpTo(c: Pull, states: seq<State>, visits: seq<Visit>, k: nat)
    requires Trace(c, states, visits) && 1 <= k <= |visits|
    ensures !c.crawlBlocks ==> Removed(visits[..k]) >= Counts(visits[0].fate)
  {
    assert VisitOk(c, states, visits, k - 1);
    assert visits[..k][..k - 1] == visits[..k - 1];
    if k > 1 { RemovedUpTo(c, states, visits, k - 1); }
  }

  /** What a call does to every item that is such a tail. */
  ghost predicate TailsGone(c: Pull, s: State, t: State, visits: seq<Visit>, removed: nat) {
    forall x | EvictsTail(c, s, x) ::
      && x in t.items && !t.items[x].linked && (!c.crawlBlocks ==> removed >= 1)
      && (!Over(c, s.items[x]) ==> removed == 1 && |visits| == 1)
  }

  lemma EvictedTails(c: Pull, states: seq<State>, visits: seq<Visit>, granted: seq<bool>)
    requires Done(c, states, visits) && GrantedBy(visits, granted) && granted != [] && granted[0]
    ensures TailsGone(c, states[0], states[|visits|], visits, Removed(visits))
  {
    forall x | EvictsTail(c, states[0], x)
      ensures x in states[|visits|].items && !states[|visits|].items[x].linked && (!c.crawlBlocks ==> Removed(visits) >= 1)
      ensures !Over(c, states[0].items[x]) ==> Removed(visits) == 1 && |visits| == 1
    {
      Members(c, states[0], x);
      assert visits != [] by { assert ListOk(states[0], Id(c)); }
      assert visits[..0] == [];
      TailEvicted(c, states, visits, x);
    }
  }

  /** Each visit has the outcome of the trylock of its try. */
  ghost predicate GrantedBy(visits: seq<Visit>, granted: seq<bool>) {
    forall k: nat | k < |visits| :: Tried(visits[..k]) < |granted| && visits[k].granted == granted[Tried(visits[..k])]
  }

  lemma GrantedMore(visits: seq<Visit>, granted: seq<bool>, v: Visit)
    requires GrantedBy(visits, granted) && Tried(visits) < |granted| && v.granted == granted[Tried(visits)]
    ensures GrantedBy(visits + [v], granted)
  {
    forall k: nat | k < |visits + [v]|
      ensures Tried((visits + [v])[..k]) < |granted| && (visits + [v])[k].granted == granted[Tried((visits + [v])[..k])]
    {
      assert (visits + [v])[..k] == visits[..k];
      if k == |visits| { assert visits[..k] == visits; }
    }
  }

  /** Step, once the reference has been taken. */
  function AfterRef(c: Pull, u: State, x: Ptr, f: Fate): State
    requires x in u.items && u.items[x].refcount > 0 && (u.items[x].linked && f.Evicted? ==> u.items[x].refcount > 1)
  {
    match f
    case Bumped => Unref(Update(c, Inactive(u, x), x), x)
    case Moved(lru) => Finish(c, Move(c, if u.items[x].active then Inactive(u, x) else u, x, lru), x)
    case Stays => Finish(c, u, x)
    case Evicted => Finish(c, Unlink(u, x), x)
    case _ => u
  }

  class Lrus {
    var items: map<Ptr, Item>
    var lists: map<nat, seq<Ptr>>
    var freed: set<Ptr>

    ghost function View(): State
      reads this
    {
      State(items, lists, freed)
    }

    constructor ()
      ensures View() == State(map[], map[], {}) && Partition(View())
    {
      items, lists, freed := map[], map[], {};
    }

    method RefIncr(x: Ptr)
      requires x in items
      modifies this`items
      ensures View() == Ref(old(View()), x)
    {
      items := items[x := items[x].(refcount := items[x].refcount + 1)];
    }

    method ItemRemove(x: Ptr)
      requires x in items && items[x].refcount > 0
      modifies this`items, this`freed
      ensures View() == Unref(old(View()), x)
    {
      items := items[x := items[x].(refcount := items[x].refcount - 1)];
      if items[x].refcount == 0 { freed := freed + {x}; }
    }

    method ItemUnlinkQ(id: nat, x: Ptr)
      modifies this`lists
      ensures View() == UnlinkQ(old(View()), id, x)
    {
      lists := lists[id := Without<Ptr>(if id in lists then lists[id] else [], x)];
    }

    method ItemLinkQ(id: nat, x: Ptr)
      modifies this`lists
      ensures View() == LinkQ(old(View()), id, x)
    {
      lists := lists[id := [x] + if id in lists then lists[id] else []];
    }

    /** do_item_unlink_nolock */
    method ItemUnlink(x: Ptr)
      requires x in items && items[x].refcount > 0
      modifies this
      ensures View() == Unlink(old(View()), x)
    {
      if items[x].linked {
        items := items[x := items[x].(linked := false)];
        ItemUnlinkQ(IdOf(items[x]), x);
        ItemRemove(x);
      }
    }

    /** do_item_update_nolock */
    method ItemUpdate(c: Pull, x: Ptr)
      requires x in items
      modifies this
      ensures View() == Update(c, old(View()), x)
    {
      if items[x].time < Sub32(c.now, ITEM_UPDATE_INTERVAL) && items[x].linked {
        ItemUnlinkQ(IdOf(items[x]), x);
        items := items[x := items[x].(time := c.now)];
        ItemLinkQ(IdOf(items[x]), x);
      }
    }

    method Deactivate(x: Ptr)
      requires x in items
      modifies this`items
      ensures View() == Inactive(old(View()), x)
    {
      items := items[x := items[x].(active := false)];
    }

    /** The relinking and the last reference, after the loop. */
    method Conclude(c: Pull, x: Ptr, moveTo: nat)
      requires x in items && items[x].refcount > 0
      modifies this
      ensures View() == Finish(c,
        if moveTo != 0 then LinkQ(SetItem(old(View()), x, old(items[x]).(lru := moveTo)), old(items[x]).slabClass + moveTo, x)
        else old(View()), x)
    {
      if moveTo != 0 {
        items := items[x := items[x].(lru := moveTo)];
        ItemLinkQ(IdOf(items[x]), x);
      }
      if !c.returnItem { ItemRemove(x); }
    }

    /** The body of the loop under the item lock. */
    method VisitLocked(c: Pull, x: Ptr) returns (f: Fate)
      requires x in items && !items[x].isCrawler && (items[x].linked ==> items[x].refcount > 0)
      modifies this
      ensures f == Decide(c, old(View()), x, true) && View() == Step(c, old(View()), x, f)
    {
      RefDecides(c, View(), x);
      RefIncr(x);
      if (items[x].exptime != 0 && items[x].exptime < c.now) || Flushed(c, items[x]) {
        ItemUnlink(x);
        ItemRemove(x);
        return Reclaimed;
      }
      if c.lru == HOT_LRU || c.lru == WARM_LRU {
        f := VisitHotOrWarm(c, x);
      } else if c.lru == COLD_LRU {
        f := VisitCold(c, x);
      } else {
        Conclude(c, x, 0);
        f := Stays;
      }
    }

    /** Cases HOT_LRU and WARM_LRU. */
    method VisitHotOrWarm(c: Pull, x: Ptr) returns (f: Fate)
      requires x in items && items[x].refcount > 0 && (c.lru == HOT_LRU || c.lru == WARM_LRU)
      modifies this
      ensures f == HotOrWarm(c, old(View()), x) && View() == AfterRef(c, old(View()), x, f)
    {
      if items[x].active {
        Deactivate(x);
        if c.lru == WARM_LRU {
          ItemUpdate(c, x);
          ItemRemove(x);
          return Bumped;
        }
        ItemUnlinkQ(Id(c), x);
        Conclude(c, x, WARM_LRU);
        return Moved(WARM_LRU);
      }
      var sizeBytes := SizeBytes(items, if Id(c) in lists then lists[Id(c)] else []);
      if sizeBytes > Limit(c) || Sub32(c.now, items[x].time) > c.maxAge {
        ItemUnlinkQ(Id(c), x);
        Conclude(c, x, COLD_LRU);
        return Moved(COLD_LRU);
      }
      Conclude(c, x, 0);
      return Stays;
    }

    /** Case COLD_LRU: the walk ends whatever happens. */
    method VisitCold(c: Pull, x: Ptr) returns (f: Fate)
      requires x in items && items[x].refcount > 0 && c.lru == COLD_LRU && (items[x].linked ==> items[x].refcount > 1)
      modifies this
      ensures f == Cold(c, old(View()), x) && View() == AfterRef(c, old(View()), x, f)
    {
      f := Stays;
      var moveTo := 0;
      if c.evict {
        if c.evictToFree {
          ItemUnlink(x);
          f := Evicted;
        }
      } else if c.returnItem {
        return Handed;
      } else if items[x].active && c.segmented {
        Deactivate(x);
        ItemUnlinkQ(Id(c), x);
        moveTo := WARM_LRU;
        f := Moved(WARM_LRU);
      }
      Conclude(c, x, moveTo);
    }

    /** The body of the loop. */
    method VisitOne(c: Pull, x: Ptr, granted: bool) returns (f: Fate)
      requires x in items && (items[x].linked ==> items[x].refcount > 0)
      modifies this
      ensures f == Decide(c, old(View()), x, granted) && View() == Step(c, old(View()), x, f)
    {
      if items[x].isCrawler {
        f := if c.crawlBlocks then Blocked else Skipped;
      } else if !granted {
        f := Busy;
      } else {
        f := VisitLocked(c, x);
      }
    }

    method Advance(c: Pull, x: Ptr, granted: seq<bool>, ghost before: seq<State>, ghost done: seq<Visit>, tries: nat)
      returns (next: Ptr, f: Fate, ghost states: seq<State>, ghost visits: seq<Visit>)
      requires Walking(c, before, done, tries, x) && x != NULL && tries > 0 && Ready(c, before[0]) && View() == before[|done|]
      requires |granted| >= TRIES && GrantedBy(done, granted)
      modifies this
      ensures visits == done + [Visit(x, granted[TRIES - tries], f)] && states == before + [View()] && GrantedBy(visits, granted)
      ensures if Ends(f) then Done(c, states, visits)
              else Walking(c, states, visits, tries - (if f.Skipped? then 0 else 1), next)
      ensures Removed(visits) == if f.Blocked? then 0 else Removed(done) + Counts(f)
      ensures f.Skipped? ==> View() == old(View())
      ensures next != NULL ==> IndexOf(old(List(View(), Id(c))), next) < IndexOf(old(List(View(), Id(c))), x)
    {
      Found(c, before, done, tries, x);
      next := Before(lists[Id(c)], x);
      f := VisitOne(c, x, granted[TRIES - tries]);
      ghost var v := Visit(x, granted[TRIES - tries], f);
      GrantedMore(done, granted, v);
      if Ends(f) { Ended(c, before, done, tries, v, View()); } else { GoesOn(c, before, done, tries, v, View()); }
      states, visits := before + [View()], done + [v];
    }

    /** lru_pull_tail with tail repair off; `granted` says which of its trylocks succeed. */
    method LruPullTail(c: Pull, granted: seq<bool>)
      returns (removed: nat, ret: Ptr, ghost states: seq<State>, ghost visits: seq<Visit>)
      requires Ready(c, View()) && |granted| >= TRIES
      modifies this
      ensures Done(c, states, visits) && states[0] == old(View()) && View() == states[|visits|]
      ensures removed == Removed(visits) && GrantedBy(visits, granted)
      ensures granted[0] ==> TailsGone(c, old(View()), View(), visits, removed)
      ensures ret == HandedOver(visits)
    {
      removed, ret, states, visits := Walk(c, granted);
      if granted[0] { EvictedTails(c, states, visits, granted); }
    }

    /** Its loop. */
    method Walk(c: Pull, granted: seq<bool>)
      returns (removed: nat, ret: Ptr, ghost states: seq<State>, ghost visits: seq<Visit>)
      requires Ready(c, View()) && |granted| >= TRIES
      modifies this
      ensures Done(c, states, visits) && states[0] == old(View()) && View() == states[|visits|]
      ensures removed == Removed(visits) && GrantedBy(visits, granted)
      ensures ret == HandedOver(visits)
    {
      removed, ret, states, visits := 0, NULL, [View()], [];
      var tries: nat := TRIES;
      var search := Tail(if Id(c) in lists then lists[Id(c)] else []);
      Begins(c, View());
      while tries > 0 && search != NULL
        invariant Walking(c, states, visits, tries, search) && states[0] == old(View()) && View() == states[|visits|]
        invariant removed == Removed(visits) && ret == NULL == HandedOver(visits) && GrantedBy(visits, granted)
        decreases tries, if search == NULL then 0 else IndexOf(List(View(), Id(c)), search) + 1
      {
        var x := search;
        var f;
        search, f, states, visits := Advance(c, x, granted, states, visits, tries);
        if f.Blocked? { return 0, NULL, states, visits; }
        if f.Reclaimed? || f.Bumped? || f.Moved? || f.Evicted? { removed := removed + 1; }
        if f.Handed? { ret := x; }
        assert ret == HandedOver(visits);
        if Ends(f) { return; }
        if !f.Skipped? { tries := tries - 1; }
      }
      Exhausted(c, states, visits, tries, search);
    }
  }
}
