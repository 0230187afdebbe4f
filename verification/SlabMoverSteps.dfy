/** The mover's own steps keep the invariant. */
module SlabMoverSteps {
  import opened Common
  import opened SlabMover
  import opened SlabMoverInv

  lemma AdvanceOk(g: Config, t: State, pos: nat, busy: nat, loops: nat)
    requires Layout(g) && pos < |g.range| && t.mover == Advance(g, pos, busy, loops)
    requires busy == 0 ==> ClearedUpTo(g, t, pos + 1)
    ensures MoverOk(g, t)
  {
    if pos + 1 == |g.range| && busy > 0 { assert ClearedUpTo(g, t, 0); }
  }

  /** A step that changes the mover's own position only. */
  lemma OnlyMover(g: Config, s: State, m: Mover)
    requires Inv(g, s) && (s.mover.Scan? || s.mover.Trying? || s.mover.Off?)
    requires m.Scan? || m.Trying? || m.Done?
    requires MoverOk(g, s.(mover := m))
    ensures Inv(g, s.(mover := m))
  {
    var t := s.(mover := m);
    forall q: Ptr | 0 < q < |t.cells| ensures CellOk(g, t, q) {
      assert CellOk(g, s, q);
      CellFrame(g, s, t, q);
    }
    FreeFrame(g, s, t);
  }

  lemma CutFree(g: Config, s: State, it: Ptr, m: Mover)
    requires Inv(g, s) && s.mover.Scan? && ValidPtr(s, it)
    requires s.cells[it].role == Free && g.cls[it] == g.src
    requires m.Scan? || m.Done?
    ensures var t := s.(free := s.free[g.src := Without<Ptr>(s.free[g.src], it)],
                        cells := s.cells[it := Emptied(s.cells[it])], mover := m);
      CellsOk(g, t) && FreesOk(g, t) && HashOk(t) && LruOk(t)
  {
    var t := s.(free := s.free[g.src := Without<Ptr>(s.free[g.src], it)],
                cells := s.cells[it := Emptied(s.cells[it])], mover := m);
    assert CellOk(g, s, it);
    forall q: Ptr | 0 < q < |t.cells| ensures CellOk(g, t, q) {
      assert CellOk(g, s, q);
      if q != it { CellFrame(g, s, t, q); }
    }
    forall k | 0 <= k < |t.free| ensures FreeOk(g, t, k) {
      assert FreeOk(g, s, k);
      WithoutMembers(s.free[k], it);
    }
  }

  /** The flags of the cell looked at tell its role. */
  lemma RoleFromFlags(g: Config, s: State, p: Ptr)
    requires Inv(g, s) && ValidPtr(s, p)
    ensures s.cells[p].flags == {Slabbed, Fetched} <==> s.cells[p].role == Cleared
    ensures Slabbed in s.cells[p].flags && s.cells[p].flags != {Slabbed, Fetched} <==> s.cells[p].role == Free
    ensures Chunk in s.cells[p].flags <==> s.cells[p].role == Link
    ensures Linked in s.cells[p].flags ==> s.cells[p].role == Item
  {
    assert CellOk(g, s, p);
    if s.cells[p].role == Free { assert Fetched !in s.cells[p].flags; }
  }

  lemma KeepLook(g: Config, s: State)
    requires Inv(g, s) && CanLook(g, s)
    ensures Inv(g, Look(g, s))
  {
    var Scan(pos, busy, loops) := s.mover;
    var t := Look(g, s);
    var c := g.range[pos];
    RoleFromFlags(g, s, c);
    var ch := Chunk in s.cells[c].flags;
    var it := if ch then s.cells[c].head else c;
    assert CellOk(g, s, c);
    RoleFromFlags(g, s, it);
    var flags := s.cells[it].flags;
    if flags == {Slabbed, Fetched} {
      AdvanceOk(g, t, pos, busy, loops);
      OnlyMover(g, s, t.mover);
    } else if Slabbed in flags {
      CutFree(g, s, it, t.mover);
      if busy == 0 {
        forall i | 0 <= i < pos + 1 ensures t.cells[g.range[i]].role == Cleared { }
      }
      AdvanceOk(g, t, pos, busy, loops);
    } else if Linked in flags {
      OnlyMover(g, s, t.mover);
    } else {
      AdvanceOk(g, t, pos, busy + 1, loops);
      OnlyMover(g, s, t.mover);
    }
  }

  // ----- taking the item lock ---------------------------------------------------------------

  /** What slab_rebalance_alloc does: the first `m` chunks leave the freelist, those of the page cleared,
      and the last one is handed out if it is not of the page. */
  ghost predicate Pulled(g: Config, a: seq<Cell>, list: seq<Ptr>, b: seq<Cell>, p: Ptr, m: nat) {
    && m <= |list| && |a| == |b|
    && (forall i | 0 <= i < m :: list[i] < |a|)
    && (p != NULL ==> m > 0 && p == list[m - 1] && p !in g.range)
    && (forall i | 0 <= i < m && list[i] != p :: list[i] in g.range)
    && (forall x | 0 <= x < |a| :: b[x] ==
          if x == p && p != NULL then a[x].(flags := a[x].flags - {Slabbed}, refcount := 1, role := Spare, held := 0)
          else if x in list[..m] then Emptied(a[x]) else a[x])
  }

  lemma {:induction false} RebalanceExact(g: Config, a: seq<Cell>, list: seq<Ptr>, n: nat) returns (m: nat)
    requires NoDup(list) && forall i | 0 <= i < |list| :: 0 < list[i] < |a|
    ensures var (b, rest, p) := RebalanceAlloc(g, a, list, n);
      m <= |list| && rest == list[m..] && Pulled(g, a, list, b, p, m)
      && (p == NULL <==> forall i | 0 <= i < n && i < |list| :: list[i] in g.range)
    decreases n
  {
    if n == 0 || list == [] {
      m := 0;
    } else if list[0] in g.range {
      var a' := a[list[0] := Emptied(a[list[0]])];
      var tail := list[1..];
      assert forall i | 0 <= i < |tail| :: tail[i] == list[i + 1];
      var m' := RebalanceExact(g, a', tail, n - 1);
      m := m' + 1;
      var (b, rest, p) := RebalanceAlloc(g, a', tail, n - 1);
      PulledStep(g, a, list, b, p, m');
      InRangeStep(g, list, n);
    } else {
      m := 1;
      assert list[..1] == [list[0]];
    }
  }

  lemma InRangeStep(g: Config, list: seq<Ptr>, n: nat)
    requires n > 0 && list != [] && list[0] in g.range
    ensures (forall i | 0 <= i < n && i < |list| :: list[i] in g.range) <==>
      forall i | 0 <= i < n - 1 && i < |list[1..]| :: list[1..][i] in g.range
  {
    var tail := list[1..];
    if forall i | 0 <= i < n - 1 && i < |tail| :: tail[i] in g.range {
      forall i | 0 <= i < n && i < |list| ensures list[i] in g.range {
        if i > 0 { assert tail[i - 1] in g.range; }
      }
    }
  }

  lemma PulledStep(g: Config, a: seq<Cell>, list: seq<Ptr>, b: seq<Cell>, p: Ptr, m: nat)
    requires NoDup(list) && list != [] && forall i | 0 <= i < |list| :: 0 < list[i] < |a|
    requires list[0] in g.range
    requires Pulled(g, a[list[0] := Emptied(a[list[0]])], list[1..], b, p, m)
    ensures Pulled(g, a, list, b, p, m + 1)
  {
    var tail := list[1..];
    assert list[..m + 1] == [list[0]] + tail[..m];
    assert list[0] !in tail[..m];
    forall i | 0 <= i < m + 1 && list[i] != p ensures list[i] in g.range {
      if i > 0 { assert tail[i - 1] == list[i]; }
    }
  }

  /** The cells after the mover took a reference to `it` and pulled `m` chunks off its class's freelist. */
  ghost predicate Taken(g: Config, s: State, t: State, it: Ptr, p: Ptr, m: nat) {
    && g.src < |s.free| && |s.cells| == |t.cells| && m <= |s.free[g.src]| && it < |s.cells|
    && t == s.(cells := t.cells, free := s.free[g.src := s.free[g.src][m..]], mover := t.mover)
    && Pulled(g, s.cells[it := s.cells[it].(refcount := s.cells[it].refcount + 1)], s.free[g.src], t.cells, p, m)
    && t.mover.Window? && t.mover.it == it && t.mover.spare == p
  }

  lemma TakenFrees(g: Config, s: State, t: State, it: Ptr, p: Ptr, m: nat)
    requires Inv(g, s) && Taken(g, s, t, it, p, m) && ValidPtr(s, it) && s.cells[it].role == Item
    ensures FreesOk(g, t)
    ensures forall x :: x in s.free[g.src][..m] ==> ValidPtr(s, x) && s.cells[x].role == Free
  {
    var list := s.free[g.src];
    assert FreeOk(g, s, g.src);
    assert list == list[..m] + list[m..];
    forall x | x in list[..m] ensures ValidPtr(s, x) && s.cells[x].role == Free { assert x in list; }
    forall k | 0 <= k < |t.free| ensures FreeOk(g, t, k) {
      assert FreeOk(g, s, k);
      if k == g.src {
        forall x: Ptr ensures x in list[m..] <==> ValidPtr(t, x) && t.cells[x].role == Free && g.cls[x] == k {
          assert x in list <==> x in list[..m] || x in list[m..];
          if p != NULL { assert p in list[..m]; }
        }
      }
    }
  }

  lemma TakenPulled(g: Config, s: State, t: State, it: Ptr, p: Ptr, m: nat, q: Ptr)
    requires Inv(g, s) && s.mover.Trying? && Taken(g, s, t, it, p, m) && ValidPtr(s, it)
    requires s.cells[it].role == Item && q in s.free[g.src][..m]
    ensures ValidPtr(s, q) && q != it && CellOk(g, t, q)
  {
    TakenFrees(g, s, t, it, p, m);
    assert CellOk(g, s, q);
  }

  lemma TakenItem(g: Config, s: State, t: State, it: Ptr, p: Ptr, m: nat)
    requires Inv(g, s) && s.mover.Trying? && Taken(g, s, t, it, p, m) && ValidPtr(s, it)
    requires s.cells[it].role == Item
    ensures CellOk(g, t, it)
  {
    TakenFrees(g, s, t, it, p, m);
    assert CellOk(g, s, it);
    assert LinksKept(s.cells, t.cells, it);
    if Chunked in s.cells[it].flags { ChainFrame(s.cells, t.cells, it); }
  }

  lemma TakenCells(g: Config, s: State, t: State, it: Ptr, p: Ptr, m: nat)
    requires Inv(g, s) && s.mover.Trying? && Taken(g, s, t, it, p, m) && ValidPtr(s, it)
    requires s.cells[it].role == Item
    ensures CellsOk(g, t)
  {
    TakenFrees(g, s, t, it, p, m);
    TakenItem(g, s, t, it, p, m);
    if p != NULL { assert p in s.free[g.src][..m]; }
    forall q: Ptr | 0 < q < |t.cells| ensures CellOk(g, t, q) {
      if q in s.free[g.src][..m] {
        TakenPulled(g, s, t, it, p, m, q);
      } else if q != it {
        assert CellOk(g, s, q);
        CellFrame(g, s, t, q);
      }
    }
  }

  lemma TakenMover(g: Config, s: State, t: State, it: Ptr, p: Ptr, m: nat)
    requires Inv(g, s) && s.mover.Trying? && Taken(g, s, t, it, p, m) && CanTry(g, s, true)
    requires s.mover.it == it && s.cells[it].role == Item && s.cells[it].held == 0 && Linked in s.cells[it].flags
    requires t.mover == Window(s.mover.pos, s.mover.busy, s.mover.loops, it, s.mover.ch, p, t.mover.fate)
    requires p == NULL <==> t.mover.fate != Saved
    ensures Inv(g, t)
  {
    TakenFrees(g, s, t, it, p, m);
    TakenCells(g, s, t, it, p, m);
    if p != NULL { assert p in s.free[g.src][..m]; }
    if s.mover.busy == 0 {
      forall i | 0 <= i < s.mover.pos ensures t.cells[g.range[i]].role == Cleared {
        assert s.cells[g.range[i]].role == Cleared;
      }
    }
  }

  lemma KeepTry(g: Config, s: State, locked: bool, now: nat, flushed: bool)
    requires Inv(g, s) && CanTry(g, s, locked)
    ensures Inv(g, Try(g, s, locked, now, flushed))
  {
    var Trying(pos, busy, loops, it, ch) := s.mover;
    var t := Try(g, s, locked, now, flushed);
    var c := s.cells[it];
    assert CellOk(g, s, it);
    if locked && c.refcount + 1 == 2 && Linked in c.flags {
      if (c.exptime != 0 && c.exptime < now) || flushed {
        assert s.free[g.src][0..] == s.free[g.src];
        assert Taken(g, s, t, it, NULL, 0);
        TakenMover(g, s, t, it, NULL, 0);
      } else {
        assert FreeOk(g, s, g.src);
        var list := s.free[g.src];
        forall i | 0 <= i < |list| ensures 0 < list[i] < |s.cells| { assert list[i] in list; }
        var m := RebalanceExact(g, s.cells[it := c.(refcount := c.refcount + 1)], list, g.perslab);
        TakenMover(g, s, t, it, t.mover.spare, m);
      }
    } else if locked && c.refcount + 1 > 2 && Linked in c.flags && loops > SLAB_MOVE_MAX_LOOPS {
      KeepCounted(g, s, t);
    } else {
      AdvanceOk(g, t, pos, busy + 1, loops);
      OnlyMover(g, s, t.mover);
    }
  }

  lemma KeepCounted(g: Config, s: State, t: State)
    requires Inv(g, s) && s.mover.Trying? && CanTry(g, s, true) && ValidPtr(s, s.mover.it)
    requires s.cells[s.mover.it].refcount + 1 > 2 && Linked in s.cells[s.mover.it].flags
    requires s.mover.loops > SLAB_MOVE_MAX_LOOPS
    requires t == s.(cells := s.cells[s.mover.it := s.cells[s.mover.it].(refcount := s.cells[s.mover.it].refcount + 1)],
                     mover := Deleting(s.mover.pos, s.mover.busy, s.mover.loops, s.mover.it))
    ensures Inv(g, t)
  {
    var it := s.mover.it;
    assert CellOk(g, s, it);
    if Chunked in s.cells[it].flags { ChainFrame(s.cells, t.cells, it); }
    forall q: Ptr | 0 < q < |t.cells| ensures CellOk(g, t, q) {
      assert CellOk(g, s, q);
      if q != it { CellFrame(g, s, t, q); }
    }
    FreeFrame(g, s, t);
    if s.mover.busy == 0 {
      forall i | 0 <= i < s.mover.pos ensures t.cells[g.range[i]].role == Cleared {
        assert s.cells[g.range[i]].role == Cleared;
      }
    }
  }

  // ----- the busy delete --------------------------------------------------------------------

  lemma KeepDelete(g: Config, s: State)
    requires Inv(g, s) && CanDelete(g, s)
    ensures Inv(g, Delete(g, s))
  {
    var Deleting(pos, busy, loops, it) := s.mover;
    DeleteCells(g, s);
    assert CellOk(g, s, it);
    FreeFrame(g, s, Delete(g, s));
    AdvanceOk(g, Delete(g, s), pos, busy + 1, loops);
  }

  lemma DeleteCells(g: Config, s: State)
    requires Inv(g, s) && CanDelete(g, s)
    ensures CellsOk(g, Delete(g, s))
  {
    var it, t := s.mover.it, Delete(g, s);
    assert CellOk(g, s, it);
    if Chunked in s.cells[it].flags { ChainFrame(s.cells, t.cells, it); }
    forall q: Ptr | 0 < q < |t.cells| ensures CellOk(g, t, q) {
      assert CellOk(g, s, q);
      if q != it { CellFrame(g, s, t, q); }
    }
  }

  // ----- the drop: the item is expired, flushed, or there is no memory to move it to ----------

  lemma KeepDrop(g: Config, s: State)
    requires Inv(g, s) && CanFinishWindow(g, s) && s.mover.spare == NULL
    ensures Inv(g, FinishWindow(g, s))
  {
    var Window(pos, busy, loops, it, ch, spare, fate) := s.mover;
    var u := UnlinkCell(s, it);
    var t := FinishWindow(g, s);
    DropUnlink(g, s);
    FreeItemExact(g, u, it);
    forall q | q in [it] + u.cells[it].chain ensures ValidPtr(u, q) {
      assert CellOk(g, u, it);
      if q != it { ChainMembers(g, u, it, q); }
    }
    FreedFrees(g, u, t.(mover := u.mover), [it] + u.cells[it].chain);
    FreeFrame(g, t.(mover := u.mover), t);
    forall q: Ptr | 0 < q < |u.cells| ensures u.cells[q].role != Spare { assert CellOk(g, u, q); }
    FreedCells(g, u, t, it);
    DropMaps(g, u, t, it);
    AdvanceOk(g, t, pos, busy + 1, loops);
  }

  lemma DropUnlink(g: Config, s: State)
    requires Inv(g, s) && CanFinishWindow(g, s)
    ensures var u := UnlinkCell(s, s.mover.it);
      CellsOk(g, u) && FreesOk(g, u) && HashOk(u) && LruOk(u)
      && u.cells[s.mover.it].role == Item && Linked !in u.cells[s.mover.it].flags
  {
    assert CellOk(g, s, s.mover.it);
    DropUnlinkCells(g, s);
    FreeFrame(g, s, UnlinkCell(s, s.mover.it));
  }

  lemma DropUnlinkCells(g: Config, s: State)
    requires Inv(g, s) && CanFinishWindow(g, s)
    ensures CellsOk(g, UnlinkCell(s, s.mover.it))
  {
    var it := s.mover.it;
    var u := UnlinkCell(s, it);
    assert CellOk(g, s, it);
    if Chunked in s.cells[it].flags { ChainFrame(s.cells, u.cells, it); }
    forall q: Ptr | 0 < q < |u.cells| ensures CellOk(g, u, q) {
      assert CellOk(g, s, q);
      if q != it { CellFrame(g, s, u, q); }
    }
  }

  lemma DropMaps(g: Config, u: State, t: State, it: Ptr)
    requires |g.cls| == |u.cells| && CellsOk(g, u) && HashOk(u) && LruOk(u)
    requires ValidPtr(u, it) && IsHeader(u.cells[it]) && Linked !in u.cells[it].flags
    requires FreedExactly(g, u, t.(mover := u.mover), [it] + u.cells[it].chain)
    ensures HashOk(t) && LruOk(t)
  {
    assert CellOk(g, u, it);
    forall q: Ptr | ValidPtr(u, q) && u.cells[q].role == Item && Linked in u.cells[q].flags
      ensures t.cells[q] == u.cells[q]
    {
      if q in u.cells[it].chain { ChainMembers(g, u, it, q); }
    }
  }

  // ----- the rescue of a whole item ---------------------------------------------------------

  /** `b` is `a` with the head of exactly the cells `ch` set to `h`. */
  ghost predicate Repointed(a: seq<Cell>, b: seq<Cell>, ch: seq<Ptr>, h: Ptr) {
    |b| == |a| && forall x | 0 <= x < |a| :: b[x] == if x in ch then a[x].(head := h) else a[x]
  }

  /** Along `ch` each cell's next pointer names the one behind it. */
  ghost predicate NextCells(cells: seq<Cell>, ch: seq<Ptr>) {
    (forall i: nat | i < |ch| :: NextOk(cells, ch, i)) && forall i | 0 <= i < |ch| :: 0 < ch[i] < |cells|
  }

  lemma NextBehind(cells: seq<Cell>, ch: seq<Ptr>, h: Ptr)
    requires ch != [] && NoDup(ch) && NextCells(cells, ch)
    ensures 0 < ch[0] < |cells| && NextOk(cells, ch, 0) && cells[ch[0]].next == At(ch[1..], 0) && ch[0] !in ch[1..] && NoDup(ch[1..])
    ensures NextCells(cells[ch[0] := cells[ch[0]].(head := h)], ch[1..])
  {
    assert NextOk(cells, ch, 0);
    var rest := ch[1..];
    var b := cells[ch[0] := cells[ch[0]].(head := h)];
    forall i: nat | i < |rest| ensures NextOk(b, rest, i) {
      assert NextOk(cells, ch, i + 1) && ch[0] != ch[i + 1];
    }
  }

  lemma RepointedFirst(a: seq<Cell>, c: seq<Cell>, ch: seq<Ptr>, h: Ptr)
    requires ch != [] && ch[0] < |a| && ch[0] !in ch[1..] && Repointed(a[ch[0] := a[ch[0]].(head := h)], c, ch[1..], h)
    ensures Repointed(a, c, ch, h)
  {
    assert ch == [ch[0]] + ch[1..];
  }

  lemma {:induction false} RepointExact(cells: seq<Cell>, ch: seq<Ptr>, h: Ptr, n: nat)
    requires NoDup(ch) && n >= |ch| && NextCells(cells, ch)
    ensures Repointed(cells, Repoint(cells, At(ch, 0), h, n), ch, h)
    decreases |ch|
  {
    if ch == [] {
      RepointNone(cells, h, n);
    } else {
      NextBehind(cells, ch, h);
      var b, rest := cells[ch[0] := cells[ch[0]].(head := h)], ch[1..];
      RepointExact(b, rest, h, n - 1);
      RepointStep(cells, ch, h, n);
    }
  }

  lemma RepointStep(cells: seq<Cell>, ch: seq<Ptr>, h: Ptr, n: nat)
    requires ch != [] && n > 0 && 0 < ch[0] < |cells| && cells[ch[0]].next == At(ch[1..], 0) && ch[0] !in ch[1..]
    requires var b := cells[ch[0] := cells[ch[0]].(head := h)]; Repointed(b, Repoint(b, At(ch[1..], 0), h, n - 1), ch[1..], h)
    ensures Repointed(cells, Repoint(cells, At(ch, 0), h, n), ch, h)
  {
    var b := cells[ch[0] := cells[ch[0]].(head := h)];
    RepointedFirst(cells, Repoint(b, At(ch[1..], 0), h, n - 1), ch, h);
    RepointOnce(cells, ch[0], h, n);
  }

  lemma RepointNone(cells: seq<Cell>, h: Ptr, n: nat)
    ensures Repointed(cells, Repoint(cells, NULL, h, n), [], h)
  {
  }

  lemma RepointOnce(cells: seq<Cell>, p: Ptr, h: Ptr, n: nat)
    requires n > 0 && 0 < p < |cells|
    ensures Repoint(cells, p, h, n) == Repoint(cells[p := cells[p].(head := h)], cells[p].next, h, n - 1)
  {
  }

  function Relinked(s: State, it: Ptr, q: Ptr): State
    requires it < |s.cells| && q < |s.cells| && it != q && s.cells[it].refcount > 0
  {
    LinkCell(UnlinkCell(CopyItem(s, it, q), it), q)
  }

  /** Copy, unlink and link, before the chunks are repointed. */
  lemma RelinkCells(g: Config, s: State, q: Ptr)
    requires Inv(g, s) && CanFinishWindow(g, s) && !s.mover.ch && s.mover.spare == q != NULL
    ensures var it := s.mover.it; var c := s.cells[it]; var a := Relinked(s, it, q);
      && a == s.(cells := a.cells, hash := s.hash[c.key := q], lru := s.lru - {it} + {q}, casId := LastCas(s))
      && |a.cells| == |s.cells| && c.refcount == 2 && c.held == 0 && it !in s.moving
      && a.cells[q] == c.(refcount := 1, cas := NewCas(s), held := 0, flags := c.flags)
      && (forall x | 0 <= x < |s.cells| && x != it && x != q :: a.cells[x] == s.cells[x])
  {
    var it := s.mover.it;
    var c := s.cells[it];
    assert CellOk(g, s, it) && CellOk(g, s, q);
    assert s.hash - {c.key} + map[c.key := q] == s.hash[c.key := q];
    assert c.flags - {Linked} + {Linked} == c.flags;
  }

  /** The walk over the chunks gives every one of them the new head. */
  lemma FixChainExact(a: State, q: Ptr, ch: seq<Ptr>)
    requires ValidPtr(a, q) && a.cells[q].chain == ch && NoDup(ch) && q !in ch
    requires Chunked in a.cells[q].flags ==> ch != [] && a.cells[q].next == ch[0]
    requires Chunked !in a.cells[q].flags ==> ch == []
    requires NextCells(a.cells, ch)
    ensures var b := FixChain(a, q);
      && b == a.(cells := b.cells) && |b.cells| == |a.cells|
      && b.cells[q] == a.cells[q].(head := if Chunked in a.cells[q].flags then q else a.cells[q].head)
      && forall x | 0 <= x < |a.cells| && x != q :: b.cells[x] ==
           if x in ch then a.cells[x].(head := q, prev := if x == ch[0] then q else a.cells[x].prev) else a.cells[x]
  {
    if Chunked in a.cells[q].flags {
      var b := a.cells[ch[0] := a.cells[ch[0]].(prev := q)];
      var d := b[q := b[q].(head := q)];
      forall i: nat | i < |ch| ensures NextOk(d, ch, i) {
        assert NextOk(a.cells, ch, i) && ch[i] in ch;
      }
      FitsBelow(ch, |d|);
      RepointExact(d, ch, q, |d|);
    }
  }

  /** What the cells are after the rescue of `it` into `q`. */
  lemma RescueCells(g: Config, s: State, q: Ptr)
    requires Inv(g, s) && CanFinishWindow(g, s) && !s.mover.ch && s.mover.spare == q != NULL
    ensures var it := s.mover.it; var c := s.cells[it]; var t := RescueItem(s, it, q);
      && t == s.(cells := t.cells, hash := s.hash[c.key := q], lru := s.lru - {it} + {q}, casId := LastCas(s))
      && |t.cells| == |s.cells| && it !in s.moving && it !in c.chain && q !in c.chain
      && t.cells[it].role == Cleared && t.cells[it].flags == {Slabbed, Fetched}
      && t.cells[it].refcount == 0 && t.cells[it].held == 0
      && t.cells[q] == c.(refcount := 1, cas := NewCas(s), held := 0,
                          head := if Chunked in c.flags then q else c.head)
      && (forall x | 0 <= x < |s.cells| && x != it && x != q :: t.cells[x] ==
            if x in c.chain then s.cells[x].(head := q, prev := if x == c.chain[0] then q else s.cells[x].prev)
            else s.cells[x])
  {
    var it := s.mover.it;
    RelinkCells(g, s, q);
    RelinkedChain(g, s, q);
    FixChainExact(Relinked(s, it, q), q, s.cells[it].chain);
  }

  /** The chunks of the item wait to be repointed. */
  lemma RelinkedChain(g: Config, s: State, q: Ptr)
    requires Inv(g, s) && CanFinishWindow(g, s) && !s.mover.ch && s.mover.spare == q != NULL
    ensures var it := s.mover.it; var c := s.cells[it]; var a := Relinked(s, it, q);
      && ValidPtr(s, q) && NoDup(c.chain) && q !in c.chain && it !in c.chain && |a.cells| == |s.cells|
      && (Chunked in c.flags ==> c.chain != [] && c.next == c.chain[0]) && (Chunked !in c.flags ==> c.chain == [])
      && forall i | 0 <= i < |c.chain| ::
           0 < c.chain[i] < |a.cells| && a.cells[c.chain[i]].next == At(c.chain, i + 1)
  {
    var it := s.mover.it;
    var ch := s.cells[it].chain;
    RelinkCells(g, s, q);
    assert CellOk(g, s, it) && CellOk(g, s, q);
    forall x | x in ch ensures ValidPtr(s, x) && s.cells[x].role == Link { ChainMembers(g, s, it, x); }
    forall i | 0 <= i < |ch|
      ensures 0 < ch[i] < |s.cells| && Relinked(s, it, q).cells[ch[i]].next == At(ch, i + 1)
    {
      assert LinkOk(s.cells, it, ch, i) && ch[i] in ch;
    }
  }

  lemma RescueChain(g: Config, s: State, q: Ptr)
    requires Inv(g, s) && CanFinishWindow(g, s) && !s.mover.ch && s.mover.spare == q != NULL
    ensures var t := RescueItem(s, s.mover.it, q);
      |t.cells| == |s.cells| && (Chunked in t.cells[q].flags ==> ChainOk(t.cells, q))
  {
    var it := s.mover.it;
    var t := RescueItem(s, it, q);
    RescueCells(g, s, q);
    assert CellOk(g, s, it);
    var ch := s.cells[it].chain;
    if Chunked in t.cells[q].flags {
      forall i | 0 <= i < |ch| ensures LinkOk(t.cells, q, ch, i) {
        assert LinkOk(s.cells, it, ch, i) && ch[i] in ch;
      }
    }
  }

  /** A cell outside the item, its chunks and the destination is left alone. */
  lemma RescueApart(g: Config, s: State, q: Ptr, x: Ptr)
    requires Inv(g, s) && CanFinishWindow(g, s) && !s.mover.ch && s.mover.spare == q != NULL
    requires ValidPtr(s, x) && x != q && x != s.mover.it && x !in s.cells[s.mover.it].chain
    ensures var it := s.mover.it; var t := RescueItem(s, it, q);
      && |t.cells| == |s.cells| && t.cells[x] == s.cells[x]
      && (IsHeader(s.cells[x]) ==> LinksKept(s.cells, t.cells, x))
      && (s.cells[x].role == Link ==> ValidPtr(s, s.cells[x].head) && t.cells[s.cells[x].head] == s.cells[s.cells[x].head])
  {
    var it := s.mover.it;
    RescueCells(g, s, q);
    assert CellOk(g, s, it) && CellOk(g, s, x) && CellOk(g, s, q);
    if IsHeader(s.cells[x]) {
      forall p: Ptr | 0 < p < |s.cells| && s.cells[p].role == Link && s.cells[p].head == x
        ensures p !in s.cells[it].chain
      {
        if p in s.cells[it].chain { ChainMembers(g, s, it, p); }
      }
    }
    if s.cells[x].role == Link {
      if s.cells[x].head in s.cells[it].chain { ChainMembers(g, s, it, s.cells[x].head); }
    }
  }

  lemma RescueFrame(g: Config, s: State, t: State, q: Ptr, x: Ptr)
    requires Inv(g, s) && CanFinishWindow(g, s) && !s.mover.ch && s.mover.spare == q != NULL
    requires ValidPtr(s, x) && x != q && x != s.mover.it
    requires t == RescueItem(s, s.mover.it, q).(mover := t.mover) && (t.mover.Scan? || t.mover.Done?)
    ensures |t.cells| == |s.cells| && CellOk(g, t, x)
  {
    RescueCells(g, s, q);
    if x in s.cells[s.mover.it].chain {
      RescueChained(g, s, t, q, x);
    } else {
      assert CellOk(g, s, s.mover.it) && CellOk(g, s, x);
      RescueApart(g, s, q, x);
      CellFrame(g, s, t, x);
    }
  }

  lemma RescueChained(g: Config, s: State, t: State, q: Ptr, x: Ptr)
    requires Inv(g, s) && CanFinishWindow(g, s) && !s.mover.ch && s.mover.spare == q != NULL
    requires ValidPtr(s, x) && x != q && x != s.mover.it && x in s.cells[s.mover.it].chain
    requires t == RescueItem(s, s.mover.it, q).(mover := t.mover) && (t.mover.Scan? || t.mover.Done?)
    ensures |t.cells| == |s.cells| && CellOk(g, t, x)
  {
    RescueCells(g, s, q);
    assert CellOk(g, s, s.mover.it) && CellOk(g, s, x);
    ChainMembers(g, s, s.mover.it, x);
  }

  /** Role, flags and key survive an item rescue in every cell but the two that trade places. */
  lemma RescueRoles(g: Config, s: State, q: Ptr)
    requires Inv(g, s) && CanFinishWindow(g, s) && !s.mover.ch && s.mover.spare == q != NULL
    ensures var it := s.mover.it; var t := RescueItem(s, it, q);
      && t == s.(cells := t.cells, hash := s.hash[s.cells[it].key := q], lru := s.lru - {it} + {q}, casId := t.casId)
      && |t.cells| == |s.cells| && it !in s.moving && s.cells[it].role == Item && s.cells[q].role == Spare
      && t.cells[it].role == Cleared && t.cells[q].role == Item && Linked in t.cells[q].flags
      && t.cells[q].key == s.cells[it].key && Linked in s.cells[it].flags
      && forall y: Ptr | 0 < y < |s.cells| && y != it && y != q ::
           t.cells[y].role == s.cells[y].role && t.cells[y].flags == s.cells[y].flags && t.cells[y].key == s.cells[y].key
  {
    RescueCells(g, s, q);
    assert CellOk(g, s, s.mover.it);
  }

  lemma RescueMaps(g: Config, s: State, t: State, q: Ptr)
    requires Inv(g, s) && CanFinishWindow(g, s) && !s.mover.ch && s.mover.spare == q != NULL
    requires t == RescueItem(s, s.mover.it, q).(mover := t.mover)
    ensures |t.cells| == |s.cells| && FreesOk(g, t) && HashOk(t) && LruOk(t)
  {
    RescueRoles(g, s, q);
    FreeFrame(g, s, t);
  }

  lemma KeepRescueItem(g: Config, s: State)
    requires Inv(g, s) && CanFinishWindow(g, s) && !s.mover.ch && s.mover.spare != NULL
    ensures Inv(g, FinishWindow(g, s))
  {
    var Window(pos, busy, loops, it, ch, q, fate) := s.mover;
    var t := FinishWindow(g, s);
    RescueMaps(g, s, t, q);
    RescueItemCells(g, s, t, q);
    RescueCleared(g, s, t, q);
    AdvanceOk(g, t, pos, busy, loops);
  }

  lemma RescueItemCells(g: Config, s: State, t: State, q: Ptr)
    requires Inv(g, s) && CanFinishWindow(g, s) && !s.mover.ch && s.mover.spare == q != NULL
    requires t == RescueItem(s, s.mover.it, q).(mover := t.mover) && (t.mover.Scan? || t.mover.Done?)
    ensures CellsOk(g, t)
  {
    RescueCells(g, s, q);
    RescueChain(g, s, q);
    assert CellOk(g, s, s.mover.it) && CellOk(g, s, q);
    forall x: Ptr | 0 < x < |t.cells| ensures CellOk(g, t, x) {
      if x != q && x != s.mover.it { RescueFrame(g, s, t, q, x); }
    }
  }

  lemma RescueCleared(g: Config, s: State, t: State, q: Ptr)
    requires Inv(g, s) && CanFinishWindow(g, s) && !s.mover.ch && s.mover.spare == q != NULL
    requires t == RescueItem(s, s.mover.it, q).(mover := t.mover)
    ensures s.mover.busy == 0 ==> ClearedUpTo(g, t, s.mover.pos + 1)
  {
    RescueRoles(g, s, q);
    if s.mover.busy == 0 {
      forall i | 0 <= i < s.mover.pos + 1 ensures g.range[i] < |t.cells| && t.cells[g.range[i]].role == Cleared {
        if i < s.mover.pos { assert s.cells[g.range[i]].role == Cleared; }
      }
    }
  }

  // ----- the rescue of one chunk ------------------------------------------------------------

  /** Where the chunk stands in its chain. */
  lemma ChunkIndex(g: Config, s: State, q: Ptr) returns (j: nat)
    requires Inv(g, s) && CanFinishWindow(g, s) && s.mover.ch && s.mover.spare == q != NULL
    ensures var it := s.mover.it; var c := g.range[s.mover.pos]; var x := s.cells[c]; var ch := s.cells[it].chain;
      && j < |ch| && ch[j] == c && x.role == Link && LinkOk(s.cells, it, ch, j) && NoDup(ch)
      && q != c && q != it && c != it && q !in ch && it !in ch
      && x.prev == (if j == 0 then it else ch[j - 1]) && x.next == At(ch, j + 1)
      && x.prev != c && x.prev != q && x.next != c && x.next != q && x.next != it
      && ValidPtr(s, x.prev) && (x.next != NULL ==> ValidPtr(s, x.next) && x.next != x.prev)
  {
    var it := s.mover.it;
    var c := g.range[s.mover.pos];
    var ch := s.cells[it].chain;
    assert CellOk(g, s, it) && CellOk(g, s, q) && CellOk(g, s, c);
    j :| 0 <= j < |ch| && ch[j] == c;
    assert LinkOk(s.cells, it, ch, j);
    if q in ch { ChainMembers(g, s, it, q); }
    if it in ch { ChainMembers(g, s, it, it); }
    if j > 0 { assert ch[j - 1] in ch && ch[j - 1] != ch[j] && LinkOk(s.cells, it, ch, j - 1); }
    if j + 1 < |ch| { assert ch[j + 1] in ch && ch[j] != ch[j + 1] && LinkOk(s.cells, it, ch, j + 1); }
    if j > 0 && j + 1 < |ch| { assert ch[j - 1] != ch[j + 1]; }
  }

  lemma SubstituteOne(ch: seq<Ptr>, j: nat, q: Ptr)
    requires j < |ch| && NoDup(ch)
    ensures Substitute(ch, ch[j], q) == ch[j := q]
  {
  }

  /** What RescueChunk writes: the two neighbours, the copy, the old chunk and the header. */
  lemma ChunkWrites(s: State, it: Ptr, c: Ptr, q: Ptr)
    requires it < |s.cells| && c < |s.cells| && q < |s.cells| && q != c && q != it && c != it
    requires s.cells[it].refcount > 0
    requires var x := s.cells[c];
      && x.prev < |s.cells| && x.prev != c && x.prev != q && x.next != c && x.next != q && x.next != it
      && (x.next != NULL ==> ValidPtr(s, x.next) && x.next != x.prev)
    ensures var x := s.cells[c]; var t := RescueChunk(s, it, c, q);
      && t == s.(cells := t.cells) && |t.cells| == |s.cells|
      && t.cells[c] == Emptied(x) && t.cells[q] == x
      && t.cells[it] == s.cells[it].(refcount := s.cells[it].refcount - 1, chain := Substitute(s.cells[it].chain, c, q),
                                     next := if x.prev == it then q else s.cells[it].next)
      && (x.prev != it ==> t.cells[x.prev] == s.cells[x.prev].(next := q))
      && (x.next != NULL ==> t.cells[x.next] == s.cells[x.next].(prev := q))
      && (forall y | 0 <= y < |s.cells| && y !in {c, q, it, x.prev, x.next} :: t.cells[y] == s.cells[y])
      && (x.next == NULL && 0 < |s.cells| && x.prev != NULL && it != NULL && c != NULL && q != NULL ==> t.cells[0] == s.cells[0])
  {
  }

  lemma ChunkChain(g: Config, s: State, q: Ptr)
    requires Inv(g, s) && CanFinishWindow(g, s) && s.mover.ch && s.mover.spare == q != NULL
    ensures var t := RescueChunk(s, s.mover.it, g.range[s.mover.pos], q);
      |t.cells| == |s.cells| && ChainOk(t.cells, s.mover.it)
  {
    var it := s.mover.it;
    var c := g.range[s.mover.pos];
    var t := RescueChunk(s, it, c, q);
    var j := ChunkIndex(g, s, q);
    ChunkWrites(s, it, c, q);
    var ch := s.cells[it].chain;
    SubstituteOne(ch, j, q);
    assert CellOk(g, s, it);
    var ch' := ch[j := q];
    forall i | 0 <= i < |ch'| ensures LinkOk(t.cells, it, ch', i) {
      ChunkLink(g, s, q, j, i);
    }
  }

  lemma ChunkLink(g: Config, s: State, q: Ptr, j: nat, i: nat)
    requires Inv(g, s) && CanFinishWindow(g, s) && s.mover.ch && s.mover.spare == q != NULL
    requires var ch := s.cells[s.mover.it].chain; j < |ch| && i < |ch| && ch[j] == g.range[s.mover.pos]
    ensures LinkOk(RescueChunk(s, s.mover.it, g.range[s.mover.pos], q).cells, s.mover.it,
                   s.cells[s.mover.it].chain[j := q], i)
  {
    var it := s.mover.it;
    var ch := s.cells[it].chain;
    assert CellOk(g, s, it);
    var j' := ChunkIndex(g, s, q);
    assert j' == j;
    assert LinkOk(s.cells, it, ch, i);
    LinkAfter(s, it, ch, q, j, i);
  }

  lemma LinkAfter(s: State, it: Ptr, ch: seq<Ptr>, q: Ptr, j: nat, i: nat)
    requires it < |s.cells| && 0 < q < |s.cells| && s.cells[it].refcount > 0 && NoDup(ch) && j < |ch| && i < |ch|
    requires q !in ch && it !in ch && q != it && LinkOk(s.cells, it, ch, j) && LinkOk(s.cells, it, ch, i)
    requires var x := s.cells[ch[j]];
      && x.prev != ch[j] && x.prev != q && x.next != ch[j] && x.next != q && x.next != it
      && ValidPtr(s, x.prev) && (x.next != NULL ==> ValidPtr(s, x.next) && x.next != x.prev)
    ensures LinkOk(RescueChunk(s, it, ch[j], q).cells, it, ch[j := q], i)
  {
    ChunkWrites(s, it, ch[j], q);
    if i != j { assert ch[i] != ch[j] && ch[i] in ch; }
    if i != j + 1 && j + 1 < |ch| { assert ch[i] != ch[j + 1]; }
    if i + 1 != j && j > 0 { assert ch[i] != ch[j - 1]; }
  }

  lemma ChunkFrame(g: Config, s: State, t: State, q: Ptr, x: Ptr)
    requires Inv(g, s) && CanFinishWindow(g, s) && s.mover.ch && s.mover.spare == q != NULL
    requires ValidPtr(s, x) && x != q && x != s.mover.it && x != g.range[s.mover.pos]
    requires t == RescueChunk(s, s.mover.it, g.range[s.mover.pos], q).(mover := t.mover)
    requires t.mover.Scan? || t.mover.Done?
    ensures |t.cells| == |s.cells| && CellOk(g, t, x)
  {
    ChunkRoles(g, s, q);
    assert CellOk(g, s, s.mover.it) && CellOk(g, s, x);
    if x in s.cells[s.mover.it].chain {
      ChunkFellow(g, s, q, x);
    } else {
      ChunkApart(g, s, q, x);
      CellFrame(g, s, t, x);
    }
  }

  /** A chunk of the same item other than the one rescued stays a chunk of it. */
  lemma ChunkFellow(g: Config, s: State, q: Ptr, x: Ptr)
    requires Inv(g, s) && CanFinishWindow(g, s) && s.mover.ch && s.mover.spare == q != NULL
    requires x in s.cells[s.mover.it].chain && x != g.range[s.mover.pos]
    ensures var it := s.mover.it; var t := RescueChunk(s, it, g.range[s.mover.pos], q);
      && ValidPtr(s, x) && |t.cells| == |s.cells| && s.cells[x].role == Link && Chunked in s.cells[it].flags
      && t.cells[x].head == it && t.cells[x].held == s.cells[x].held && x in t.cells[it].chain
  {
    var it := s.mover.it;
    var j := ChunkIndex(g, s, q);
    ChunkWrites(s, it, g.range[s.mover.pos], q);
    var ch := s.cells[it].chain;
    SubstituteOne(ch, j, q);
    assert CellOk(g, s, it);
    ChainMembers(g, s, it, x);
    var i :| 0 <= i < |ch| && ch[i] == x;
    assert ch[j := q][i] == x;
  }

  /** Every cell that is neither the header, the destination nor in the chain is as before. */
  lemma ChunkOutside(g: Config, s: State, q: Ptr, x: Ptr)
    requires Inv(g, s) && CanFinishWindow(g, s) && s.mover.ch && s.mover.spare == q != NULL
    requires ValidPtr(s, x) && x != q && x != s.mover.it && x !in s.cells[s.mover.it].chain
    ensures var t := RescueChunk(s, s.mover.it, g.range[s.mover.pos], q);
      |t.cells| == |s.cells| && t.cells[x] == s.cells[x]
  {
    var j := ChunkIndex(g, s, q);
    ChunkWrites(s, s.mover.it, g.range[s.mover.pos], q);
  }

  lemma ChunkApart(g: Config, s: State, q: Ptr, x: Ptr)
    requires Inv(g, s) && CanFinishWindow(g, s) && s.mover.ch && s.mover.spare == q != NULL
    requires ValidPtr(s, x) && x != q && x != s.mover.it && x !in s.cells[s.mover.it].chain
    ensures var t := RescueChunk(s, s.mover.it, g.range[s.mover.pos], q);
      && |t.cells| == |s.cells| && t.cells[x] == s.cells[x]
      && (IsHeader(s.cells[x]) ==> LinksKept(s.cells, t.cells, x))
      && (s.cells[x].role == Link ==> ValidPtr(s, s.cells[x].head) && t.cells[s.cells[x].head] == s.cells[s.cells[x].head])
  {
    var it := s.mover.it;
    var t := RescueChunk(s, it, g.range[s.mover.pos], q);
    var ch := s.cells[it].chain;
    ChunkOutside(g, s, q, x);
    assert CellOk(g, s, it) && CellOk(g, s, x) && CellOk(g, s, q);
    forall p: Ptr | 0 < p < |s.cells| && s.cells[p].role == Link && s.cells[p].head == x && x != it
      ensures t.cells[p] == s.cells[p]
    {
      if p in ch { ChainMembers(g, s, it, p); }
      ChunkOutside(g, s, q, p);
    }
    if s.cells[x].role == Link {
      if s.cells[x].head in ch { ChainMembers(g, s, it, s.cells[x].head); }
      ChunkOutside(g, s, q, s.cells[x].head);
    }
  }

  lemma ChunkAllCells(g: Config, s: State, t: State, q: Ptr)
    requires Inv(g, s) && CanFinishWindow(g, s) && s.mover.ch && s.mover.spare == q != NULL
    requires t == RescueChunk(s, s.mover.it, g.range[s.mover.pos], q).(mover := t.mover)
    requires t.mover.Scan? || t.mover.Done?
    ensures CellsOk(g, t)
  {
    var it := s.mover.it;
    var c := g.range[s.mover.pos];
    var j := ChunkIndex(g, s, q);
    ChunkWrites(s, it, c, q);
    SubstituteOne(s.cells[it].chain, j, q);
    ChunkChain(g, s, q);
    assert CellOk(g, s, it) && CellOk(g, s, q) && CellOk(g, s, c);
    assert s.cells[it].chain[j := q][j] == q;
    forall x: Ptr | 0 < x < |t.cells| ensures CellOk(g, t, x) {
      if x != q && x != it && x != c { ChunkFrame(g, s, t, q, x); }
    }
  }

  /** Role, flags and key survive a chunk rescue in every cell but the two that trade places. */
  lemma ChunkRoles(g: Config, s: State, q: Ptr)
    requires Inv(g, s) && CanFinishWindow(g, s) && s.mover.ch && s.mover.spare == q != NULL
    ensures var c := g.range[s.mover.pos]; var t := RescueChunk(s, s.mover.it, c, q);
      && t == s.(cells := t.cells) && |t.cells| == |s.cells|
      && t.cells[c].role == Cleared && t.cells[q].role == Link && s.cells[c].role == Link && s.cells[q].role == Spare
      && forall y: Ptr | 0 < y < |s.cells| && y != c && y != q ::
           t.cells[y].role == s.cells[y].role && t.cells[y].flags == s.cells[y].flags && t.cells[y].key == s.cells[y].key
  {
    var j := ChunkIndex(g, s, q);
    ChunkWrites(s, s.mover.it, g.range[s.mover.pos], q);
  }

  lemma ChunkMaps(g: Config, s: State, t: State, q: Ptr)
    requires Inv(g, s) && CanFinishWindow(g, s) && s.mover.ch && s.mover.spare == q != NULL
    requires t == RescueChunk(s, s.mover.it, g.range[s.mover.pos], q).(mover := t.mover)
    ensures |t.cells| == |s.cells| && FreesOk(g, t) && HashOk(t) && LruOk(t)
  {
    ChunkRoles(g, s, q);
    FreeFrame(g, s, t);
  }

  lemma ChunkCleared(g: Config, s: State, t: State, q: Ptr)
    requires Inv(g, s) && CanFinishWindow(g, s) && s.mover.ch && s.mover.spare == q != NULL
    requires t == RescueChunk(s, s.mover.it, g.range[s.mover.pos], q).(mover := t.mover)
    ensures s.mover.busy == 0 ==> ClearedUpTo(g, t, s.mover.pos + 1)
  {
    ChunkRoles(g, s, q);
    if s.mover.busy == 0 {
      forall i | 0 <= i < s.mover.pos + 1 ensures g.range[i] < |t.cells| && t.cells[g.range[i]].role == Cleared {
        if i < s.mover.pos { assert s.cells[g.range[i]].role == Cleared; }
      }
    }
  }

  lemma KeepRescueChunk(g: Config, s: State)
    requires Inv(g, s) && CanFinishWindow(g, s) && s.mover.ch && s.mover.spare != NULL
    ensures Inv(g, FinishWindow(g, s))
  {
    var Window(pos, busy, loops, it, ch, q, fate) := s.mover;
    var t := FinishWindow(g, s);
    ChunkAllCells(g, s, t, q);
    ChunkMaps(g, s, t, q);
    ChunkCleared(g, s, t, q);
    AdvanceOk(g, t, pos, busy, loops);
  }
}
