/** What single steps do, in terms of the cells and the mover's fields only. */
module SlabMoverExact {
  import opened Common
  import opened SlabMover
  import opened SlabMoverInv
  import opened SlabMoverSteps
  import opened SlabMoverSafety
  import opened SlabMoverMeaning

  // ----- the mover --------------------------------------------------------------------------

  /** The mover is past chunk `pos`.  Only a pass in which something was busy is followed by another, which
      counts. */
  ghost predicate Past(g: Config, m: Mover, pos: nat, busy: nat, loops: nat) {
    && (m.Scan? || m.Done?)
    && (m.Done? <==> pos + 1 >= |g.range| && busy == 0)
    && (m.Scan? && pos + 1 < |g.range| ==> m.pos == pos + 1 && m.busy == busy && m.loops == loops)
    && (m.Scan? && pos + 1 >= |g.range| ==> m.pos == 0 && m.busy == 0 && m.loops == loops + 1)
  }

  /** The item to which a chunk of the page belongs. */
  function Owner(s: State, c: Ptr): Ptr
    requires c < |s.cells|
  {
    if s.cells[c].role == Link then s.cells[c].head else c
  }

  /** What a chunk is decides what happens to it, although the program sees only flags: a free one is cleared, an
      item in the table is tried, a cleared one is passed, and whatever else is in use is busy. */
  lemma LookDecides(g: Config, s: State)
    requires Inv(g, s) && CanLook(g, s)
    ensures var m := s.mover; var c := g.range[m.pos]; var t := Look(g, s);
      var h := Owner(s, c); var linked := h < |s.cells| && s.cells[h].role == Item && Linked in s.cells[h].flags;
      && (if linked then t.mover == Trying(m.pos, m.busy, m.loops, h, h != c)
          else Past(g, t.mover, m.pos, if s.cells[c].role in {Free, Cleared} then m.busy else m.busy + 1, m.loops))
      && (if s.cells[c].role == Free then |t.cells| == |s.cells| && t.cells[c].role == Cleared && Cut(g, s, t, c)
          else t == s.(mover := t.mover))
  {
    var c := g.range[s.mover.pos];
    RoleFromFlags(g, s, c);
    assert CellOk(g, s, c);
    assert 0 < c < |s.cells|;
    RoleFromFlags(g, s, if Chunk in s.cells[c].flags then s.cells[c].head else c);
    if s.cells[c].role == Free { CutFreeCell(g, s, c); }
  }

  /** The chunk, and nothing else, is off the freelists, and every other cell is as it was. */
  ghost predicate Cut(g: Config, s: State, t: State, c: Ptr) {
    && t == s.(cells := t.cells, free := t.free, mover := t.mover) && |t.cells| == |s.cells| && |t.free| == |s.free|
    && (forall p | 0 <= p < |s.cells| && p != c :: t.cells[p] == s.cells[p])
    && (forall k | 0 <= k < |s.free| :: c !in t.free[k] && forall p | p != c :: p in t.free[k] <==> p in s.free[k])
  }

  lemma CutFreeCell(g: Config, s: State, c: Ptr)
    requires Inv(g, s) && CanLook(g, s) && c == g.range[s.mover.pos] && s.cells[c].role == Free
    ensures Cut(g, s, Look(g, s), c)
  {
    var t := Look(g, s);
    RoleFromFlags(g, s, c);
    forall k | 0 <= k < |s.free| ensures c !in t.free[k] && forall p | p != c :: p in t.free[k] <==> p in s.free[k] {
      assert FreeOk(g, s, k);
      WithoutMembers(s.free[k], c);
    }
  }

  /** With the item lock, the busy delete begins exactly for a linked item that somebody else refers to after
      more than the allowed number of passes, with the mover's own reference taken. */
  lemma BusyDeleted(g: Config, s: State, now: nat, flushed: bool)
    requires Inv(g, s) && CanTry(g, s, true)
    ensures var m := s.mover; var c := s.cells[m.it]; var t := Try(g, s, true, now, flushed);
      && (t.mover.Deleting? <==> Linked in c.flags && c.refcount >= 2 && m.loops > 1000)
      && (t.mover.Deleting? ==>
            t.mover == Deleting(m.pos, m.busy, m.loops, m.it) && t.cells == s.cells[m.it := c.(refcount := c.refcount + 1)])
  {
    assert CellOk(g, s, s.mover.it);
  }

  /** A lock that is not to be had, an item that is no longer linked, or one that is referred to: the mover takes
      the chunk for busy and leaves everything as it was. */
  lemma BusyPassed(g: Config, s: State, locked: bool, now: nat, flushed: bool)
    requires Inv(g, s) && CanTry(g, s, locked)
    ensures var m := s.mover; var c := s.cells[m.it]; var t := Try(g, s, locked, now, flushed);
      !locked || Linked !in c.flags || (c.refcount >= 2 && m.loops <= 1000) ==>
        t == s.(mover := t.mover) && Past(g, t.mover, m.pos, m.busy + 1, m.loops)
  {
    var it := s.mover.it;
    assert CellOk(g, s, it);
    assert s.cells[it := s.cells[it].(refcount := s.cells[it].refcount)] == s.cells;
  }

  /** An item that fell to the mover: it has its own reference to it, and a fresh chunk outside the page if and
      only if the item is to be saved. */
  lemma Falls(g: Config, s: State, now: nat, flushed: bool)
    requires Inv(g, s) && CanTry(g, s, true) && Linked in s.cells[s.mover.it].flags && s.cells[s.mover.it].refcount == 1
    ensures var m := s.mover; var t := Try(g, s, true, now, flushed);
      && t.mover.Window? && t.mover.it == m.it && t.mover.pos == m.pos && t.mover.busy == m.busy && t.mover.loops == m.loops
      && t.mover.ch == m.ch && m.it < |t.cells| && t.cells[m.it].refcount == 2
      && (t.mover.spare != NULL <==> t.mover.fate == Saved)
      && (t.mover.fate == Saved ==>
            && t.mover.spare !in g.range && t.mover.spare in s.free[g.src] && t.mover.spare < |t.cells|
            && t.cells[t.mover.spare].role == Spare)
  {
    var it, list := s.mover.it, s.free[g.src];
    assert CellOk(g, s, it);
    FreeCells(g, s, list);
    TryOnlyCounts(g, s, true, now, flushed);
    FateDecided(g, s, now, flushed);
    KeepTry(g, s, true, now, flushed);
    var t := Try(g, s, true, now, flushed);
    assert CellOk(g, t, it);
    Pulls(g, s.cells[it := s.cells[it].(refcount := s.cells[it].refcount + 1)], list, g.perslab);
  }

  /** The chunk the rescue allocation hands out comes from the freelist and does not lie in the page. */
  lemma {:induction false} Pulls(g: Config, cells: seq<Cell>, list: seq<Ptr>, n: nat)
    requires forall i | 0 <= i < |list| :: 0 < list[i] < |cells|
    ensures var (r, _, p) := RebalanceAlloc(g, cells, list, n);
      p != NULL ==> p in list && p !in g.range && p < |r| && r[p].role == Spare
    decreases n
  {
    if n != 0 && list != [] && list[0] in g.range {
      assert forall i | 0 <= i < |list[1..]| :: list[1..][i] == list[i + 1];
      Pulls(g, cells[list[0] := Emptied(cells[list[0]])], list[1..], n - 1);
    }
  }

  /** The end of a move of an item: the key of a saved whole item leads to the new header, any other key leads
      where it led, and only a dropped item makes the pass busy. */
  lemma Finishes(g: Config, s: State)
    requires Inv(g, s) && CanFinishWindow(g, s)
    ensures var m := s.mover; var key := s.cells[m.it].key; var t := FinishWindow(g, s);
      && Past(g, t.mover, m.pos, if m.fate == Saved then m.busy else m.busy + 1, m.loops)
      && t.hash == (if m.fate != Saved then s.hash - {key} else if m.ch then s.hash else s.hash[key := m.spare])
  {
    var it := s.mover.it;
    assert CellOk(g, s, it);
    if s.mover.spare == NULL {
      DropUnlink(g, s);
      FreeItemExact(g, UnlinkCell(s, it), it);
    } else if !s.mover.ch {
      RescueCells(g, s, s.mover.spare);
    }
  }

  /** The busy delete takes the key out of the table, and gives back the reference of the link and the mover's own;
      who else refers to the item keeps what was stored. */
  lemma Deletes(g: Config, s: State)
    requires Inv(g, s) && CanDelete(g, s)
    ensures var m := s.mover; var c := s.cells[m.it]; var t := Delete(g, s);
      && t.hash == s.hash - {c.key} && |t.cells| == |s.cells|
      && (forall p | 0 <= p < |s.cells| && p != m.it :: t.cells[p] == s.cells[p])
      && t.cells[m.it].refcount == c.refcount - 2 == c.held && t.cells[m.it].role == Item
      && Linked !in t.cells[m.it].flags && Stored(t.cells, m.it) == Stored(s.cells, m.it)
      && Past(g, t.mover, m.pos, m.busy + 1, m.loops)
  {
    var it := s.mover.it;
    assert CellOk(g, s, it);
    SameChain(g, s, Delete(g, s), it);
  }

  // ----- the other threads ------------------------------------------------------------------

  /** What a fresh item stores: nothing yet if it is to be chained, else its bytes. */
  lemma InitStores(g: Config, s: State, p: Ptr, flags: set<Flag>, k: Key, e: nat, f: nat, cas: nat, d: Bytes)
    requires Inv(g, s) && CanInit(s, p, flags)
    ensures var t := Init(s, p, flags, k, e, f, cas, d);
      && |t.cells| == |s.cells| && t.cells[p].role == Item && t.cells[p].key == k && t.cells[p].refcount == 1
      && t.cells[p].held == 1 && Linked !in t.cells[p].flags
      && Stored(t.cells, p) == Value(e, f, if Chunked in flags then [] else d)
  {
    assert CellOk(g, s, p);
  }

  lemma {:induction false} ChainDataMore(cells: seq<Cell>, ch: seq<Ptr>, p: Ptr)
    requires p < |cells|
    ensures ChainData(cells, ch + [p]) == ChainData(cells, ch) + cells[p].data
  {
    if ch == [] {
      assert ch + [p] == [p] && [p][1..] == [];
    } else {
      assert (ch + [p])[1..] == ch[1..] + [p];
      ChainDataMore(cells, ch[1..], p);
    }
  }

  /** Chaining a chunk appends its bytes to what the item stores. */
  lemma AttachStores(g: Config, s: State, h: Ptr, p: Ptr, d: Bytes)
    requires Inv(g, s) && CanAttach(s, h, p)
    ensures var t := Attach(s, h, p, d); var was := Stored(s.cells, h);
      && |t.cells| == |s.cells| && t.cells[h].chain == s.cells[h].chain + [p]
      && Stored(t.cells, h) == was.(payload := was.payload + d)
  {
    var t := Attach(s, h, p, d);
    var ch := s.cells[h].chain;
    AttachCells(g, s, h, p, d);
    assert CellOk(g, s, h) && t.cells[p].data == d;
    forall i | 0 <= i < |ch| ensures ch[i] < |s.cells| && t.cells[ch[i]].data == s.cells[ch[i]].data {
      assert ch[i] in ch;
      ChainMembers(g, s, h, ch[i]);
    }
    ChainDataSame(s.cells, t.cells, ch, ch);
    ChainDataMore(t.cells, ch, p);
  }

  /** An allocation hands out the chunk that was freed last, with a count of one. */
  lemma AllocHands(g: Config, s: State, k: nat)
    requires Inv(g, s) && CanAlloc(g, s, k)
    ensures var t := Alloc(g, s, k); var p := s.free[k][0];
      && [p] + t.free[k] == s.free[k] && |t.cells| == |s.cells|
      && t.cells[p].role == Raw && t.cells[p].refcount == 1 && t.cells[p].flags == {}
  {
    AllocFrees(g, s, k);
    KeepAlloc(g, s, k);
    assert CellOk(g, Alloc(g, s, k), s.free[k][0]);
  }

  /** How a step of another thread changes the count of an item: a get and a link add one, a release and an unlink
      take one off. */
  function Change(s: State, a: Action, p: Ptr): int {
    if a.AGet? && a.key in s.hash && s.hash[a.key] == p then 1
    else if a.ALink? && a.p == p then 1
    else if a.ARelease? && a.p == p then -1
    else if a.AUnlink? && a.p == p then -1
    else 0
  }

  /** The count of item `p`, whether it is linked, and on which list it is, after step `a` of another thread. */
  ghost predicate Follows(s: State, t: State, a: Action, p: Ptr)
    requires p < |s.cells|
  {
    var c := s.cells[p];
    && p < |t.cells| && t.cells[p].refcount == c.refcount + Change(s, a, p)
    && t.cells[p].role == (if t.cells[p].refcount == 0 then Zombie else Item)
    && (Linked in t.cells[p].flags <==> a == ALink(p) || (Linked in c.flags && a != AUnlink(p)))
    && (p in t.lru <==> a == ALink(p) || a == ASettle(p) || (p in s.lru && a != AUnlink(p) && a != ALift(p)))
    && (p in t.moving <==> a == ALift(p) || (p in s.moving && a != ASettle(p)))
  }

  /** Counts, links and lists follow the steps of the other threads exactly, and an item is up for freeing when and
      only when its count reaches 0. */
  lemma CountsFollow(g: Config, s: State, a: Action, p: Ptr)
    requires Inv(g, s) && Enabled(g, s, a) && !IsMoverAction(a) && ValidPtr(s, p) && s.cells[p].role == Item
    ensures Follows(s, Apply(g, s, a), a, p)
  {
    assert CellOk(g, s, p);
    if a.AFree? { CountsFree(g, s, a.p, p); }
    else if a.ANewPage? { NewPageExact(g, s, a.k, a.ps); }
    else if a.AAttach? { AttachCells(g, s, a.h, a.p, a.data); }
    else if a.AAlloc? { AllocFrees(g, s, a.k); }
    else if a.AUnlink? || a.ARelease? { CountsDrop(g, s, a, p); }
    else { CountsRest(g, s, a, p); }
  }

  lemma CountsDrop(g: Config, s: State, a: Action, p: Ptr)
    requires Enabled(g, s, a) && (a.AUnlink? || a.ARelease?) && ValidPtr(s, p) && CellOk(g, s, p) && s.cells[p].role == Item
    ensures Follows(s, Apply(g, s, a), a, p)
  {
  }

  lemma CountsRest(g: Config, s: State, a: Action, p: Ptr)
    requires Enabled(g, s, a) && ValidPtr(s, p) && CellOk(g, s, p) && s.cells[p].role == Item
    requires a.AInit? || a.ALink? || a.AGet? || a.ATouch? || a.AEdit? || a.ALift? || a.ASettle?
    ensures Follows(s, Apply(g, s, a), a, p)
  {
  }

  lemma CountsFree(g: Config, s: State, h: Ptr, p: Ptr)
    requires Inv(g, s) && CanFree(s, h) && ValidPtr(s, p) && s.cells[p].role == Item
    ensures var t := FreeItem(g, s, h);
      |t.cells| == |s.cells| && t.cells[p] == s.cells[p] && t.lru == s.lru && t.moving == s.moving
  {
    assert CellOk(g, s, h);
    FreeItemExact(g, s, h);
    if p in s.cells[h].chain { ChainMembers(g, s, h, p); }
  }
}
