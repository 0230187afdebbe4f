/** What the page mover guarantees in every run. */
module SlabMoverSafety {
  import opened Common
  import opened SlabMover
  import opened SlabMoverInv
  import opened SlabMoverSteps

  lemma StepKeeps(g: Config, s: State, a: Action)
    requires Inv(g, s) && Enabled(g, s, a)
    ensures Inv(g, Apply(g, s, a))
  {
    match a
    case AAlloc(k) => KeepAlloc(g, s, k);
    case ANewPage(k, ps) => KeepNewPage(g, s, k, ps);
    case AInit(p, flags, k, e, f, c, d) => KeepInit(g, s, p, flags, k, e, f, c, d);
    case AAttach(h, p, d) => KeepAttach(g, s, h, p, d);
    case ALink(p) => KeepLink(g, s, p);
    case AGet(k, marks) => KeepGet(g, s, k, marks);
    case ATouch(k, e) => KeepTouch(g, s, k, e);
    case AEdit(k, d) => KeepEdit(g, s, k, d);
    case ARelease(p) => KeepRelease(g, s, p);
    case AUnlink(p) => KeepUnlink(g, s, p);
    case ALift(p) => KeepLift(g, s, p);
    case ASettle(p) => KeepSettle(g, s, p);
    case AFree(p) => KeepFree(g, s, p);
    case MStart => OnlyMover(g, s, Scan(0, 0, 0));
    case MLook => KeepLook(g, s);
    case MTry(locked, now, flushed) => KeepTry(g, s, locked, now, flushed);
    case MFinishWindow =>
      if s.mover.spare == NULL { KeepDrop(g, s); }
      else if s.mover.ch { KeepRescueChunk(g, s); }
      else { KeepRescueItem(g, s); }
    case MDelete => KeepDelete(g, s);
  }

  lemma {:induction false} RunKeeps(g: Config, s: State, actions: seq<Action>)
    requires Inv(g, s)
    ensures Inv(g, Run(g, s, actions))
    decreases |actions|
  {
    if actions != [] {
      if Enabled(g, s, actions[0]) {
        StepKeeps(g, s, actions[0]);
        RunKeeps(g, Apply(g, s, actions[0]), actions[1..]);
      } else {
        RunKeeps(g, s, actions[1..]);
      }
    }
  }

  // ----- the boot state ---------------------------------------------------------------------

  function CellsOf(g: Config, k: nat, n: nat): (r: seq<Ptr>)
    requires n <= |g.cls|
    ensures NoDup(r) && forall p: Ptr :: p in r <==> 0 < p < n && g.cls[p] == k && p !in g.later
  {
    if n <= 1 then []
    else
      var r := CellsOf(g, k, n - 1);
      if g.cls[n - 1] == k && n - 1 !in g.later then r + [n - 1] else r
  }

  /** The pages that the classes have are split into their freelists, nothing is stored, the mover is idle. */
  function Boot(g: Config, useCas: bool): State {
    State(seq(|g.cls|, i requires 0 <= i =>
                if i in g.later then Cell({}, 0, "", 0, 0, 0, [], NULL, NULL, NULL, Absent, 0, [])
                else Cell({Slabbed}, 0, "", 0, 0, 0, [], NULL, NULL, NULL, Free, 0, [])),
          seq(g.classes, k requires 0 <= k => CellsOf(g, k, |g.cls|)), map[], {}, {}, 0, useCas, Off)
  }

  lemma BootInv(g: Config, useCas: bool)
    requires Layout(g)
    ensures Inv(g, Boot(g, useCas))
  {
    var s := Boot(g, useCas);
    forall k | 0 <= k < |s.free| ensures FreeOk(g, s, k) {
      assert s.free[k] == CellsOf(g, k, |g.cls|);
    }
  }

  // ----- safety -----------------------------------------------------------------------------

  /** A chunk nobody can reach: marked by the mover, unreferenced, on no list, in no table, in no chain. */
  ghost predicate Unreachable(s: State, p: Ptr) {
    && ValidPtr(s, p)
    && s.cells[p].flags == {Slabbed, Fetched} && s.cells[p].refcount == 0 && s.cells[p].held == 0
    && (forall k | 0 <= k < |s.free| :: p !in s.free[k])
    && (forall k | k in s.hash :: s.hash[k] != p)
    && p !in s.lru && p !in s.moving
    && (forall h | 0 < h < |s.cells| && IsHeader(s.cells[h]) :: p !in s.cells[h].chain)
    && (forall q | 0 < q < |s.cells| && s.cells[q].role == Link :: s.cells[q].head != p && s.cells[q].prev != p && s.cells[q].next != p)
  }

  lemma ClearedUnreachable(g: Config, s: State, p: Ptr)
    requires Inv(g, s) && ValidPtr(s, p) && s.cells[p].role == Cleared
    ensures Unreachable(s, p)
  {
    assert CellOk(g, s, p);
    forall k | 0 <= k < |s.free| ensures p !in s.free[k] { assert FreeOk(g, s, k); }
    forall h | 0 < h < |s.cells| && IsHeader(s.cells[h]) ensures p !in s.cells[h].chain {
      assert CellOk(g, s, h);
      if p in s.cells[h].chain { ChainMembers(g, s, h, p); }
    }
    forall q | 0 < q < |s.cells| && s.cells[q].role == Link
      ensures s.cells[q].head != p && s.cells[q].prev != p && s.cells[q].next != p
    {
      NeighboursLive(g, s, q);
    }
  }

  /** A chunk's neighbours are its header or chunks of the same item. */
  lemma NeighboursLive(g: Config, s: State, q: Ptr)
    requires Inv(g, s) && ValidPtr(s, q) && s.cells[q].role == Link
    ensures ValidPtr(s, s.cells[q].head) && IsHeader(s.cells[s.cells[q].head])
    ensures ValidPtr(s, s.cells[q].prev) && (s.cells[q].prev == s.cells[q].head || s.cells[s.cells[q].prev].role == Link)
    ensures s.cells[q].next != NULL ==> ValidPtr(s, s.cells[q].next) && s.cells[s.cells[q].next].role == Link
  {
    assert CellOk(g, s, q);
    var h := s.cells[q].head;
    var ch := s.cells[h].chain;
    assert CellOk(g, s, h);
    var i :| 0 <= i < |ch| && ch[i] == q;
    assert LinkOk(s.cells, h, ch, i);
    if i > 0 { assert LinkOk(s.cells, h, ch, i - 1); }
    if i + 1 < |ch| { assert LinkOk(s.cells, h, ch, i + 1); }
  }

  /** Page mover safety: in every run from boot, with any interleaving of the other threads, when the
      mover has decided that the page is clear every chunk of the page is unreachable. */
  lemma PageClear(g: Config, useCas: bool, actions: seq<Action>)
    requires Layout(g)
    ensures var t := Run(g, Boot(g, useCas), actions);
      t.mover.Done? ==> forall i | 0 <= i < |g.range| :: Unreachable(t, g.range[i])
  {
    var t := Run(g, Boot(g, useCas), actions);
    BootInv(g, useCas);
    RunKeeps(g, Boot(g, useCas), actions);
    if t.mover.Done? {
      forall i | 0 <= i < |g.range| ensures Unreachable(t, g.range[i]) {
        ClearedUnreachable(g, t, g.range[i]);
      }
    }
  }

  /** One step leaves a cleared chunk exactly as it is. */
  lemma ClearedStays(g: Config, s: State, a: Action, p: Ptr)
    requires Inv(g, s) && Enabled(g, s, a) && ValidPtr(s, p) && s.cells[p].role == Cleared
    ensures var t := Apply(g, s, a); |t.cells| == |s.cells| && t.cells[p] == s.cells[p]
  {
    match a
    case AAlloc(k) => AllocFrees(g, s, k);
    case ANewPage(k, ps) => ClearedThroughPage(g, s, k, ps, p);
    case AAttach(h, q, d) => ClearedThroughAttach(g, s, h, q, d, p);
    case AFree(h) => ClearedThroughFree(g, s, h, p);
    case MLook => ClearedThroughLook(g, s, p);
    case MTry(locked, now, flushed) => ClearedThroughTry(g, s, locked, now, flushed, p);
    case MFinishWindow => ClearedThroughWindow(g, s, p);
    case _ => ClearedByOthers(g, s, a, p);
  }

  lemma ClearedByOthers(g: Config, s: State, a: Action, p: Ptr)
    requires Inv(g, s) && Enabled(g, s, a) && ValidPtr(s, p) && s.cells[p].role == Cleared
    requires a.AInit? || a.ALink? || a.AGet? || a.ATouch? || a.AEdit? || a.ARelease? || a.AUnlink? || a.ALift? || a.ASettle? || a.MStart? || a.MDelete?
    ensures var t := Apply(g, s, a); |t.cells| == |s.cells| && t.cells[p] == s.cells[p]
  {
  }

  lemma ClearedThroughPage(g: Config, s: State, k: nat, ps: seq<Ptr>, p: Ptr)
    requires Inv(g, s) && CanNewPage(g, s, k, ps) && ValidPtr(s, p) && s.cells[p].role == Cleared
    ensures var t := SplitPage(g, s, ps); |t.cells| == |s.cells| && t.cells[p] == s.cells[p]
  {
    NewPageExact(g, s, k, ps);
  }

  lemma ClearedThroughAttach(g: Config, s: State, h: Ptr, q: Ptr, data: Bytes, p: Ptr)
    requires Inv(g, s) && CanAttach(s, h, q) && ValidPtr(s, p) && s.cells[p].role == Cleared
    ensures var t := Attach(s, h, q, data); |t.cells| == |s.cells| && t.cells[p] == s.cells[p]
  {
    AttachCells(g, s, h, q, data);
    assert CellOk(g, s, h);
  }

  lemma ClearedThroughFree(g: Config, s: State, h: Ptr, p: Ptr)
    requires Inv(g, s) && CanFree(s, h) && ValidPtr(s, p) && s.cells[p].role == Cleared
    ensures var t := FreeItem(g, s, h); |t.cells| == |s.cells| && t.cells[p] == s.cells[p]
  {
    assert CellOk(g, s, h);
    if p in s.cells[h].chain { ChainMembers(g, s, h, p); }
    FreeItemExact(g, s, h);
  }

  lemma ClearedThroughLook(g: Config, s: State, p: Ptr)
    requires Inv(g, s) && CanLook(g, s) && ValidPtr(s, p) && s.cells[p].role == Cleared
    ensures var t := Look(g, s); |t.cells| == |s.cells| && t.cells[p] == s.cells[p]
  {
    var c := g.range[s.mover.pos];
    RoleFromFlags(g, s, c);
    assert CellOk(g, s, c);
    RoleFromFlags(g, s, if Chunk in s.cells[c].flags then s.cells[c].head else c);
  }

  lemma ClearedThroughTry(g: Config, s: State, locked: bool, now: nat, flushed: bool, p: Ptr)
    requires Inv(g, s) && CanTry(g, s, locked) && ValidPtr(s, p) && s.cells[p].role == Cleared
    ensures var t := Try(g, s, locked, now, flushed); |t.cells| == |s.cells| && t.cells[p] == s.cells[p]
  {
    var it := s.mover.it;
    var c := s.cells[it];
    var list := s.free[g.src];
    assert FreeOk(g, s, g.src);
    forall i | 0 <= i < |list| ensures 0 < list[i] < |s.cells| && list[i] != p { assert list[i] in list; }
    var m := RebalanceExact(g, s.cells[it := c.(refcount := c.refcount + 1)], list, g.perslab);
    assert p !in list[..m];
  }

  lemma ClearedThroughWindow(g: Config, s: State, p: Ptr)
    requires Inv(g, s) && CanFinishWindow(g, s) && ValidPtr(s, p) && s.cells[p].role == Cleared
    ensures var t := FinishWindow(g, s); |t.cells| == |s.cells| && t.cells[p] == s.cells[p]
  {
    var it := s.mover.it;
    assert CellOk(g, s, it);
    if p in s.cells[it].chain { ChainMembers(g, s, it, p); }
    if s.mover.spare == NULL {
      DropUnlink(g, s);
      FreeItemExact(g, UnlinkCell(s, it), it);
    } else if s.mover.ch {
      ChunkOutside(g, s, s.mover.spare, p);
    } else {
      RescueCells(g, s, s.mover.spare);
    }
  }

  /** A cleared chunk never becomes live again, whatever runs. */
  lemma {:induction false} ClearedForever(g: Config, s: State, actions: seq<Action>, p: Ptr)
    requires Inv(g, s) && ValidPtr(s, p) && s.cells[p].role == Cleared
    ensures var t := Run(g, s, actions); |t.cells| == |s.cells| && t.cells[p] == s.cells[p] && Unreachable(t, p)
    decreases |actions|
  {
    if actions == [] {
      ClearedUnreachable(g, s, p);
    } else if Enabled(g, s, actions[0]) {
      ClearedStays(g, s, actions[0], p);
      StepKeeps(g, s, actions[0]);
      ClearedForever(g, Apply(g, s, actions[0]), actions[1..], p);
    } else {
      ClearedForever(g, s, actions[1..], p);
    }
  }

  /** The mover is never stuck on a bad pointer: each of its phases can take its step, and the
      assertions the program makes on the way hold. */
  lemma NeverStuck(g: Config, s: State)
    requires Inv(g, s)
    ensures s.mover.Scan? ==> CanLook(g, s)
    ensures s.mover.Scan? ==> var c := s.cells[g.range[s.mover.pos]];
      && (Chunk in c.flags ==> Chunked in s.cells[c.head].flags && Slabbed !in s.cells[c.head].flags)
      && (Slabbed in c.flags && c.flags != {Slabbed, Fetched} ==> c.flags == {Slabbed} && g.range[s.mover.pos] in s.free[g.src])
    ensures s.mover.Trying? ==> CanTry(g, s, false) && Slabbed !in s.cells[s.mover.it].flags
    ensures s.mover.Window? ==> CanFinishWindow(g, s)
    ensures s.mover.Window? && s.mover.spare != NULL && !s.mover.ch ==>
      && Chunked !in s.cells[s.mover.spare].flags
      && (Chunked in s.cells[s.mover.it].flags ==> ValidPtr(s, s.cells[s.mover.it].next))
    ensures s.mover.Deleting? ==> CanDelete(g, s)
  {
    match s.mover
    case Scan(_, _, _) => ScanReady(g, s);
    case Trying(_, _, _, it, _) => assert CellOk(g, s, it);
    case Window(_, _, _, _, _, _, _) => WindowReady(g, s);
    case Deleting(_, _, _, it) => assert CellOk(g, s, it);
    case _ =>
  }

  lemma ScanReady(g: Config, s: State)
    requires Inv(g, s) && s.mover.Scan?
    ensures CanLook(g, s)
    ensures var c := s.cells[g.range[s.mover.pos]];
      && (Chunk in c.flags ==> Chunked in s.cells[c.head].flags && Slabbed !in s.cells[c.head].flags)
      && (Slabbed in c.flags && c.flags != {Slabbed, Fetched} ==> c.flags == {Slabbed} && g.range[s.mover.pos] in s.free[g.src])
  {
    var p := g.range[s.mover.pos];
    assert CellOk(g, s, p);
    RoleFromFlags(g, s, p);
    assert FreeOk(g, s, g.src);
    if Chunk in s.cells[p].flags { assert CellOk(g, s, s.cells[p].head); }
  }

  lemma WindowReady(g: Config, s: State)
    requires Inv(g, s) && s.mover.Window?
    ensures CanFinishWindow(g, s)
    ensures s.mover.spare != NULL && !s.mover.ch ==>
      && Chunked !in s.cells[s.mover.spare].flags
      && (Chunked in s.cells[s.mover.it].flags ==> ValidPtr(s, s.cells[s.mover.it].next))
  {
    var Window(pos, _, _, it, ch, spare, _) := s.mover;
    assert CellOk(g, s, it) && CellOk(g, s, g.range[pos]);
    if spare != NULL { assert CellOk(g, s, spare); }
    if ch { NeighboursLive(g, s, g.range[pos]); }
    if Chunked in s.cells[it].flags { assert LinkOk(s.cells, it, s.cells[it].chain, 0); }
  }
}
