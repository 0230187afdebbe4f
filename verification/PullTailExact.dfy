/** When lru_pull_tail unlinks or moves an item, told from the fields of the item and the arguments of the call. */
module PullTailExact {
  import opened Common
  import opened PullTail

  /** The item has expired or was flushed. */
  predicate Over(c: Pull, i: Item) {
    || (i.exptime != 0 && i.exptime < c.now)
    || (c.oldestLive != 0 && c.oldestLive <= c.now && i.time <= c.oldestLive)
    || (c.oldestLive != 0 && c.oldestLive <= c.now && c.oldestCas != 0 && i.cas != 0 && i.cas < c.oldestCas)
  }

  /** What HOT, of whose share nothing may be left by rounding, and WARM may take. */
  function Share(c: Pull): nat {
    if c.lru == HOT_LRU && c.totalBytes * c.hotPct / 100 > 0 then c.totalBytes * c.hotPct / 100
    else c.totalBytes * c.warmPct / 100
  }

  /** The visit of an item whose lock was obtained. */
  ghost predicate Granted(c: Pull, s: State, x: Ptr) {
    Ready(c, s) && x in List(s, Id(c)) && x in s.items && !s.items[x].isCrawler
  }

  lemma Members(c: Pull, s: State, x: Ptr)
    requires Ready(c, s) && x in List(s, Id(c))
    ensures x in s.items && s.items[x].lru == c.lru && IdOf(s.items[x]) == Id(c) && NoDup(List(s, Id(c)))
    ensures !s.items[x].isCrawler ==> s.items[x].linked && s.items[x].refcount > 0
  {
    assert ListOk(s, Id(c)) && OnList(s, Id(c), x);
  }

  /** The item is unlinked if and only if it is over, or the call evicts from COLD and may. */
  lemma UnlinkedExactly(c: Pull, s: State, x: Ptr)
    requires Granted(c, s, x) && (s.items[x].linked ==> s.items[x].refcount > 0)
    ensures var t := Step(c, s, x, Decide(c, s, x, true));
      x in t.items && (!t.items[x].linked <==> Over(c, s.items[x]) || (c.lru == COLD_LRU && c.evict && c.evictToFree))
  {
    Members(c, s, x);
    StepOutcome(c, s, x, true);
    VisitFate(c, s, x);
  }

  /** It goes to COLD if and only if it is not over, from HOT or WARM, not active, and its list is beyond its
      share or the item too old. */
  lemma ToColdExactly(c: Pull, s: State, x: Ptr)
    requires Granted(c, s, x) && (s.items[x].linked ==> s.items[x].refcount > 0)
    ensures var t := Step(c, s, x, Decide(c, s, x, true)); var i := s.items[x];
      && x in t.items
      && (t.items[x].linked && t.items[x].lru == COLD_LRU && c.lru != COLD_LRU <==>
            && !Over(c, i) && (c.lru == HOT_LRU || c.lru == WARM_LRU) && !i.active
            && (SizeBytes(s.items, List(s, Id(c))) > Share(c) || c.now - i.time > c.maxAge))
  {
    Members(c, s, x);
    StepOutcome(c, s, x, true);
    VisitFate(c, s, x);
  }

  /** It goes to WARM if and only if it is not over, active, and on HOT, or on COLD with segments in use and a
      call that neither evicts nor asks for the item. */
  lemma ToWarmExactly(c: Pull, s: State, x: Ptr)
    requires Granted(c, s, x) && (s.items[x].linked ==> s.items[x].refcount > 0)
    ensures var t := Step(c, s, x, Decide(c, s, x, true)); var i := s.items[x];
      && x in t.items
      && (t.items[x].linked && t.items[x].lru == WARM_LRU && c.lru != WARM_LRU <==>
            && !Over(c, i) && i.active
            && (c.lru == HOT_LRU || (c.lru == COLD_LRU && c.segmented && !c.evict && !c.returnItem)))
  {
    Members(c, s, x);
    StepOutcome(c, s, x, true);
    VisitFate(c, s, x);
  }

  /** What the item, its lists and its reference count are after the visit. */
  lemma VisitFate(c: Pull, s: State, x: Ptr)
    requires Granted(c, s, x) && (s.items[x].linked ==> s.items[x].refcount > 0)
    ensures var t := Step(c, s, x, Decide(c, s, x, true)); var i, l := s.items[x], Without<Ptr>(List(s, Id(c)), x);
      && OnlyAbout(s, t, x) && x in t.items && i.refcount > 0
      && var kept := if c.returnItem then 1 else 0;
         if Over(c, i) then
           t.items[x] == i.(linked := false, refcount := i.refcount - 1) && t.lists == s.lists[Id(c) := l]
         else if c.lru == COLD_LRU && c.evict && c.evictToFree then
           t.items[x] == i.(linked := false, refcount := i.refcount - 1 + kept) && t.lists == s.lists[Id(c) := l]
         else if c.lru == WARM_LRU && i.active then
           && t.items[x] == i.(active := false, time := if i.time < Sub32(c.now, ITEM_UPDATE_INTERVAL) then c.now else i.time)
           && t.lists == if i.time < Sub32(c.now, ITEM_UPDATE_INTERVAL) then s.lists[Id(c) := [x] + l] else s.lists
         else if i.active && (c.lru == HOT_LRU || (c.lru == COLD_LRU && c.segmented && !c.evict && !c.returnItem)) then
           MovesTo(c, s, t, x, WARM_LRU, kept)
         else if !i.active && (c.lru == HOT_LRU || c.lru == WARM_LRU)
             && (SizeBytes(s.items, List(s, Id(c))) > Share(c) || c.now - i.time > c.maxAge) then
           MovesTo(c, s, t, x, COLD_LRU, kept)
         else t.items[x] == i.(refcount := i.refcount + kept) && t.lists == s.lists
  {
    Members(c, s, x);
    FateOf(c, s, x);
    FateDone(c, s, x, Decide(c, s, x, true));
  }

  /** The fate of an item whose lock was obtained. */
  lemma FateOf(c: Pull, s: State, x: Ptr)
    requires Granted(c, s, x)
    ensures var f := Decide(c, s, x, true); var i := s.items[x];
      if Over(c, i) then f == Reclaimed
      else if c.lru == COLD_LRU && c.evict && c.evictToFree then f == Evicted
      else if c.lru == WARM_LRU && i.active then f == Bumped
      else if i.active && (c.lru == HOT_LRU || (c.lru == COLD_LRU && c.segmented && !c.evict && !c.returnItem)) then f == Moved(WARM_LRU)
      else if !i.active && (c.lru == HOT_LRU || c.lru == WARM_LRU)
          && (SizeBytes(s.items, List(s, Id(c))) > Share(c) || c.now - i.time > c.maxAge) then f == Moved(COLD_LRU)
      else f == Stays || (f == Handed && c.returnItem)
  {
  }

  /** What each fate does. */
  ghost predicate DoneTo(c: Pull, s: State, x: Ptr, f: Fate)
    requires x in s.items && (s.items[x].linked ==> s.items[x].refcount > 0) && s.items[x].refcount > 0
  {
    var t := Step(c, s, x, f);
    var i, l, kept := s.items[x], Without<Ptr>(List(s, Id(c)), x), if c.returnItem then 1 else 0;
    && OnlyAbout(s, t, x) && x in t.items
    && (if f.Reclaimed? then t.items[x] == i.(linked := false, refcount := i.refcount - 1) && t.lists == s.lists[Id(c) := l]
        else if f.Evicted? then t.items[x] == i.(linked := false, refcount := i.refcount - 1 + kept) && t.lists == s.lists[Id(c) := l]
        else if f.Bumped? then
          && t.items[x] == i.(active := false, time := if i.time < Sub32(c.now, ITEM_UPDATE_INTERVAL) then c.now else i.time)
          && t.lists == if i.time < Sub32(c.now, ITEM_UPDATE_INTERVAL) then s.lists[Id(c) := [x] + l] else s.lists
        else if f.Moved? then MovesTo(c, s, t, x, f.lru, kept)
        else t.items[x] == i.(refcount := i.refcount + kept) && t.lists == s.lists)
  }

  lemma GoneDone(c: Pull, s: State, x: Ptr, f: Fate)
    requires x in s.items && s.items[x].linked && s.items[x].refcount > 0 && IdOf(s.items[x]) == Id(c) && (f.Reclaimed? || f.Evicted?)
    ensures DoneTo(c, s, x, f)
  {
    GoneExact(c, s, x, f);
  }

  lemma BumpDone(c: Pull, s: State, x: Ptr)
    requires x in s.items && s.items[x].linked && s.items[x].refcount > 0 && IdOf(s.items[x]) == Id(c)
    ensures DoneTo(c, s, x, Bumped)
  {
    BumpedExact(c, s, x);
    BumpedLists(c, s, x);
  }

  lemma MoveDone(c: Pull, s: State, x: Ptr, lru: nat)
    requires x in s.items && s.items[x].linked && s.items[x].refcount > 0 && s.items[x].slabClass + lru != Id(c)
    ensures DoneTo(c, s, x, Moved(lru))
  {
    MovedExact(c, s, x, lru);
  }

  lemma SameDone(c: Pull, s: State, x: Ptr, f: Fate)
    requires x in s.items && s.items[x].linked && s.items[x].refcount > 0 && (f.Stays? || (f.Handed? && c.returnItem))
    ensures DoneTo(c, s, x, f)
  {
    SameExact(c, s, x, f);
  }

  lemma FateDone(c: Pull, s: State, x: Ptr, f: Fate)
    requires x in s.items && s.items[x].linked && s.items[x].refcount > 0 && IdOf(s.items[x]) == Id(c)
    requires (f.Moved? ==> s.items[x].slabClass + f.lru != Id(c)) && (f.Handed? ==> c.returnItem)
    requires !f.Skipped? && !f.Blocked? && !f.Busy?
    ensures DoneTo(c, s, x, f)
  {
    if f.Reclaimed? || f.Evicted? { GoneDone(c, s, x, f); }
    else if f.Moved? { MoveDone(c, s, x, f.lru); }
    else if f.Stays? || f.Handed? { SameDone(c, s, x, f); }
    else { BumpDone(c, s, x); }
  }

  /** The item has left its list for the head of another one of its slab class. */
  ghost predicate MovesTo(c: Pull, s: State, t: State, x: Ptr, lru: nat, kept: nat)
    requires x in s.items && x in t.items
  {
    var i := s.items[x];
    && t.items[x] == i.(lru := lru, active := false, refcount := i.refcount + kept)
    && t.lists == s.lists[Id(c) := Without<Ptr>(List(s, Id(c)), x)][i.slabClass + lru := [x] + List(s, i.slabClass + lru)]
  }

  lemma BumpedLists(c: Pull, s: State, x: Ptr)
    requires x in s.items && s.items[x].linked && s.items[x].refcount > 0 && IdOf(s.items[x]) == Id(c)
    ensures Step(c, s, x, Bumped).lists ==
      if s.items[x].time < Sub32(c.now, ITEM_UPDATE_INTERVAL) then s.lists[Id(c) := [x] + Without<Ptr>(List(s, Id(c)), x)] else s.lists
  {
    UpdateLists(c, Inactive(Ref(s, x), x), x);
  }

  lemma UpdateLists(c: Pull, u: State, x: Ptr)
    requires x in u.items && u.items[x].linked && IdOf(u.items[x]) == Id(c)
    ensures Update(c, u, x).lists ==
      if u.items[x].time < Sub32(c.now, ITEM_UPDATE_INTERVAL) then u.lists[Id(c) := [x] + Without<Ptr>(List(u, Id(c)), x)] else u.lists
  {
    var l := Without<Ptr>(List(u, Id(c)), x);
    assert u.lists[Id(c) := l][Id(c) := [x] + l] == u.lists[Id(c) := [x] + l];
  }

  /** A crawler, or an item whose lock is not to be had, is left as it is. */
  lemma LeftAlone(c: Pull, s: State, x: Ptr, granted: bool)
    requires Ready(c, s) && x in List(s, Id(c)) && x in s.items && (s.items[x].linked ==> s.items[x].refcount > 0)
    requires s.items[x].isCrawler || !granted
    ensures Step(c, s, x, Decide(c, s, x, granted)) == s
  {
  }
}
