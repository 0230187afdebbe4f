/** CAS ids beside the page mover: what a rescue does to the id that a client has read. */
module SlabMoverCas {
  import opened Common
  import opened SlabMover
  import opened SlabMoverInv
  import opened SlabMoverSteps
  import opened SlabMoverSafety
  import opened SlabMoverMeaning

  predicate IsLinked(s: State, p: Ptr) {
    ValidPtr(s, p) && Linked in s.cells[p].flags
  }

  /** The ids of linked items were all given out, each to one of them; with ids switched off they are 0. */
  ghost predicate CasOk(s: State) {
    && (forall p: Ptr | IsLinked(s, p) :: if s.useCas then 0 < s.cells[p].cas <= s.casId else s.cells[p].cas == 0)
    && (s.useCas ==> forall p: Ptr, q: Ptr | IsLinked(s, p) && IsLinked(s, q) && p != q :: s.cells[p].cas != s.cells[q].cas)
  }

  /** `t` has no linked item that `s` has not, but for `q`, and ids are as they were. */
  ghost predicate SameIds(s: State, t: State, q: Ptr) {
    && |t.cells| == |s.cells| && t.useCas == s.useCas
    && forall p: Ptr | IsLinked(t, p) && p != q :: IsLinked(s, p) && t.cells[p].cas == s.cells[p].cas
  }

  /** A step keeps the ids in order. */
  ghost predicate KeepsIds(s: State, t: State) {
    CasOk(t) && s.casId <= t.casId && t.useCas == s.useCas
  }

  lemma NoneIssued(s: State, t: State)
    requires CasOk(s) && SameIds(s, t, NULL) && t.casId == s.casId
    ensures KeepsIds(s, t)
  {
  }

  lemma OneIssued(s: State, t: State, q: Ptr)
    requires CasOk(s) && SameIds(s, t, q) && ValidPtr(t, q) && t.cells[q].cas == NewCas(s) && t.casId == LastCas(s)
    ensures KeepsIds(s, t)
  {
  }

  lemma SameByOthers(g: Config, s: State, a: Action)
    requires Enabled(g, s, a)
    requires !a.ANewPage? && !a.AInit? && !a.AFree? && !a.MTry? && !a.MFinishWindow? && !a.ALink? && !a.AEdit?
    ensures SameIds(s, Apply(g, s, a), NULL) && Apply(g, s, a).casId == s.casId
  {
  }

  lemma OthersIds(g: Config, s: State, t: State, a: Action)
    requires Enabled(g, s, a) && CasOk(s) && t == Apply(g, s, a)
    requires !a.ANewPage? && !a.AInit? && !a.AFree? && !a.MTry? && !a.MFinishWindow? && !a.ALink? && !a.AEdit?
    ensures KeepsIds(s, t)
  {
    SameByOthers(g, s, a);
    NoneIssued(s, t);
  }

  lemma SameByFree(g: Config, s: State, t: State, ps: seq<Ptr>)
    requires |g.cls| == |s.cells| && FreedExactly(g, s, t, ps)
    ensures SameIds(s, t, NULL) && t.casId == s.casId
  {
  }

  lemma InitIds(g: Config, s: State, a: Action)
    requires Inv(g, s) && Enabled(g, s, a) && a.AInit? && CasOk(s)
    ensures KeepsIds(s, Apply(g, s, a))
  {
    assert CellOk(g, s, a.p);
    NoneIssued(s, Apply(g, s, a));
  }

  lemma TryIds(g: Config, s: State, locked: bool, now: nat, flushed: bool)
    requires Inv(g, s) && CanTry(g, s, locked) && CasOk(s)
    ensures KeepsIds(s, Try(g, s, locked, now, flushed))
  {
    var it, list := s.mover.it, s.free[g.src];
    FreeCells(g, s, list);
    PulledUnlinked(g, s.cells[it := s.cells[it].(refcount := s.cells[it].refcount + 1)], list);
    NoneIssued(s, Try(g, s, locked, now, flushed));
  }

  /** Nothing that the rescue allocation takes off the freelist becomes linked by it. */
  lemma PulledUnlinked(g: Config, cells: seq<Cell>, list: seq<Ptr>)
    requires NoDup(list) && forall i | 0 <= i < |list| :: 0 < list[i] < |cells|
    ensures var r := RebalanceAlloc(g, cells, list, g.perslab).0;
      |r| == |cells| && forall x | 0 <= x < |cells| && Linked in r[x].flags :: Linked in cells[x].flags && r[x].cas == cells[x].cas
  {
    var m := RebalanceExact(g, cells, list, g.perslab);
  }

  lemma SameByDrop(g: Config, s: State)
    requires Inv(g, s) && CanFinishWindow(g, s) && s.mover.spare == NULL
    ensures SameIds(s, FinishWindow(g, s), NULL) && FinishWindow(g, s).casId == s.casId
  {
    var it := s.mover.it;
    var u := UnlinkCell(s, it);
    DropUnlink(g, s);
    FreeItemExact(g, u, it);
    SameByFree(g, u, FreeItem(g, u, it), [it] + u.cells[it].chain);
  }

  lemma SameByChunk(g: Config, s: State)
    requires Inv(g, s) && CanFinishWindow(g, s) && s.mover.spare != NULL && s.mover.ch
    ensures SameIds(s, FinishWindow(g, s), NULL) && FinishWindow(g, s).casId == s.casId
  {
    var it, q, c := s.mover.it, s.mover.spare, g.range[s.mover.pos];
    var j := ChunkIndex(g, s, q);
    ChunkIds(s, it, c, q);
    assert s.cells[c].role == Link && s.cells[c].flags == {Chunk} by { assert CellOk(g, s, c); }
  }

  /** Moving a chunk gives the cells no flags or ids but those that were there. */
  lemma ChunkIds(s: State, it: Ptr, c: Ptr, q: Ptr)
    requires it < |s.cells| && c < |s.cells| && q < |s.cells| && q != c && q != it && c != it
    requires s.cells[it].refcount > 0
    requires var x := s.cells[c];
      && x.prev < |s.cells| && x.prev != c && x.prev != q && x.next != c && x.next != q && x.next != it
      && (x.next != NULL ==> ValidPtr(s, x.next) && x.next != x.prev)
    ensures var t := RescueChunk(s, it, c, q);
      && |t.cells| == |s.cells| && t.casId == s.casId && t.useCas == s.useCas
      && t.cells[q].flags == s.cells[c].flags && t.cells[c].flags == {Slabbed, Fetched}
      && forall y | 0 <= y < |s.cells| && y != c && y != q :: t.cells[y].flags == s.cells[y].flags && t.cells[y].cas == s.cells[y].cas
  {
  }

  lemma NewByRescue(g: Config, s: State)
    requires Inv(g, s) && CanFinishWindow(g, s) && s.mover.spare != NULL && !s.mover.ch
    ensures var t := FinishWindow(g, s); var q := s.mover.spare;
      SameIds(s, t, q) && ValidPtr(t, q) && t.cells[q].cas == NewCas(s) && t.casId == LastCas(s)
  {
    RescueCells(g, s, s.mover.spare);
    WindowReady(g, s);
  }

  lemma StepCas(g: Config, s: State, a: Action)
    requires Inv(g, s) && Enabled(g, s, a) && CasOk(s)
    ensures KeepsIds(s, Apply(g, s, a))
  {
    match a
    case ANewPage(k, ps) => PageIds(g, s, k, ps);
    case AFree(h) => FreedIds(g, s, h);
    case ALink(p) => LinkedIds(g, s, p);
    case AEdit(k, d) => EditedIds(g, s, k, d);
    case MFinishWindow => WindowIds(g, s);
    case AInit(_, _, _, _, _, _, _) => InitIds(g, s, a);
    case MTry(locked, now, flushed) => TryIds(g, s, locked, now, flushed);
    case _ => OthersIds(g, s, Apply(g, s, a), a);
  }

  lemma LinkedIds(g: Config, s: State, p: Ptr)
    requires CanLink(g, s, p) && CasOk(s)
    ensures KeepsIds(s, LinkCell(s, p))
  {
    OneIssued(s, LinkCell(s, p), p);
  }

  lemma EditedIds(g: Config, s: State, k: Key, data: Bytes)
    requires Inv(g, s) && CanEdit(g, s, k, data) && CasOk(s)
    ensures KeepsIds(s, Edit(g, s, k, data))
  {
    OneIssued(s, Edit(g, s, k, data), s.hash[k]);
  }

  lemma PageIds(g: Config, s: State, k: nat, ps: seq<Ptr>)
    requires Inv(g, s) && CanNewPage(g, s, k, ps) && CasOk(s)
    ensures KeepsIds(s, SplitPage(g, s, ps))
  {
    NewPageExact(g, s, k, ps);
    SameByFree(g, s, SplitPage(g, s, ps), ps);
    NoneIssued(s, SplitPage(g, s, ps));
  }

  lemma FreedIds(g: Config, s: State, h: Ptr)
    requires Inv(g, s) && CanFree(s, h) && CasOk(s)
    ensures KeepsIds(s, FreeItem(g, s, h))
  {
    FreeItemExact(g, s, h);
    SameByFree(g, s, FreeItem(g, s, h), [h] + s.cells[h].chain);
    NoneIssued(s, FreeItem(g, s, h));
  }

  lemma WindowIds(g: Config, s: State)
    requires Inv(g, s) && CanFinishWindow(g, s) && CasOk(s)
    ensures KeepsIds(s, FinishWindow(g, s))
  {
    var t := FinishWindow(g, s);
    if s.mover.spare == NULL {
      SameByDrop(g, s);
      NoneIssued(s, t);
    } else if s.mover.ch {
      SameByChunk(g, s);
      NoneIssued(s, t);
    } else {
      NewByRescue(g, s);
      OneIssued(s, t, s.mover.spare);
    }
  }

  /** In every run the linked items have ids of their own, none beyond the last one given out. */
  lemma {:induction false} RunCas(g: Config, s: State, actions: seq<Action>)
    requires Inv(g, s) && CasOk(s)
    ensures var t := Run(g, s, actions); Inv(g, t) && CasOk(t) && s.casId <= t.casId && t.useCas == s.useCas
    decreases |actions|
  {
    if actions != [] {
      if Enabled(g, s, actions[0]) {
        StepKeeps(g, s, actions[0]);
        StepCas(g, s, actions[0]);
        RunCas(g, Apply(g, s, actions[0]), actions[1..]);
      } else {
        RunCas(g, s, actions[1..]);
      }
    }
  }

  /** The id a client reads with a key. */
  function IdOf(s: State, k: Key): nat
    requires k in s.hash && s.hash[k] < |s.cells|
  {
    s.cells[s.hash[k]].cas
  }

  /** A rescue changes the id of the key if and only if it moves a whole item, not a chunk, and ids are in use. */
  lemma RescueCas(g: Config, s: State)
    requires Inv(g, s) && CasOk(s) && CanFinishWindow(g, s) && s.mover.spare != NULL
    ensures var t := FinishWindow(g, s); var k := s.cells[s.mover.it].key;
      && k in s.hash && k in t.hash && t.hash[k] < |t.cells|
      && (IdOf(t, k) != IdOf(s, k) <==> !s.mover.ch && s.useCas)
  {
    assert CellOk(g, s, s.mover.it);
    if s.mover.ch {
      var j := ChunkIndex(g, s, s.mover.spare);
      ChunkWrites(s, s.mover.it, g.range[s.mover.pos], s.mover.spare);
    } else {
      RescueCells(g, s, s.mover.spare);
    }
  }

  /** Whatever id a client has read at any time, of whatever key: it is not the one a key has after the rescue
      of its item, so that a cas with it fails. */
  lemma RescueLosesCas(g: Config, xs: seq<Action>, ys: seq<Action>, j: Key)
    requires Layout(g) && j in Run(g, Boot(g, true), xs).hash
    requires var s := Run(g, Run(g, Boot(g, true), xs), ys);
      CanFinishWindow(g, s) && s.mover.spare != NULL && !s.mover.ch
    ensures var r := Run(g, Boot(g, true), xs); var s := Run(g, r, ys); var t := FinishWindow(g, s); var k := s.cells[s.mover.it].key;
      && r.hash[j] < |r.cells| && k in t.hash && t.hash[k] < |t.cells| && IdOf(r, j) < IdOf(t, k)
  {
    var r := Run(g, Boot(g, true), xs);
    var s := Run(g, r, ys);
    BootInv(g, true);
    RunCas(g, Boot(g, true), xs);
    RunCas(g, r, ys);
    assert IsLinked(r, r.hash[j]);
    RescueCells(g, s, s.mover.spare);
  }
}
