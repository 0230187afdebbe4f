/** What the mover does to the stored data, and what a reference count is worth. */
module SlabMoverMeaning {
  import opened Common
  import opened SlabMover
  import opened SlabMoverInv
  import opened SlabMoverSteps
  import opened SlabMoverSafety

  datatype Value = Value(exptime: nat, clientFlags: nat, payload: Bytes)

  function ChainData(cells: seq<Cell>, ch: seq<Ptr>): Bytes {
    if ch == [] then []
    else (if ch[0] < |cells| then cells[ch[0]].data else []) + ChainData(cells, ch[1..])
  }

  /** What the item at `p` stores: its own bytes, or those of its chunks one after the other. */
  function Stored(cells: seq<Cell>, p: Ptr): Value {
    if p < |cells| then
      Value(cells[p].exptime, cells[p].clientFlags,
            if Chunked in cells[p].flags then ChainData(cells, cells[p].chain) else cells[p].data)
    else Value(0, 0, [])
  }

  /** The cache as its clients see it. */
  function Meaning(s: State): map<Key, Value> {
    map k | k in s.hash :: Stored(s.cells, s.hash[k])
  }

  lemma {:induction false} ChainDataSame(a: seq<Cell>, b: seq<Cell>, c: seq<Ptr>, d: seq<Ptr>)
    requires |c| == |d|
    requires forall i | 0 <= i < |c| :: c[i] < |a| && d[i] < |b| && a[c[i]].data == b[d[i]].data
    ensures ChainData(a, c) == ChainData(b, d)
  {
    if c != [] {
      assert forall i | 0 <= i < |c[1..]| :: c[1..][i] == c[i + 1] && d[1..][i] == d[i + 1];
      ChainDataSame(a, b, c[1..], d[1..]);
    }
  }

  /** `t` has the same item at `p`, with the same chunks holding the same bytes, as `s`. */
  ghost predicate SameContent(s: State, t: State, p: Ptr) {
    && p < |s.cells| == |t.cells|
    && t.cells[p].exptime == s.cells[p].exptime && t.cells[p].clientFlags == s.cells[p].clientFlags
    && t.cells[p].data == s.cells[p].data && t.cells[p].chain == s.cells[p].chain
    && (Chunked in t.cells[p].flags <==> Chunked in s.cells[p].flags)
    && forall x: Ptr | 0 < x < |s.cells| && s.cells[x].role == Link && s.cells[x].head == p ::
         t.cells[x].data == s.cells[x].data
  }

  lemma StoredFrame(g: Config, s: State, t: State, p: Ptr)
    requires Inv(g, s) && ValidPtr(s, p) && IsHeader(s.cells[p]) && SameContent(s, t, p)
    ensures Stored(t.cells, p) == Stored(s.cells, p)
  {
    var ch := s.cells[p].chain;
    assert CellOk(g, s, p);
    forall i | 0 <= i < |ch| ensures ch[i] < |s.cells| && t.cells[ch[i]].data == s.cells[ch[i]].data {
      assert ch[i] in ch;
      ChainMembers(g, s, p, ch[i]);
    }
    ChainDataSame(s.cells, t.cells, ch, ch);
  }

  /** Same table, same content of every item in it: same meaning. */
  lemma MeaningFrame(g: Config, s: State, t: State)
    requires Inv(g, s) && t.hash == s.hash
    requires forall k | k in s.hash :: SameContent(s, t, s.hash[k])
    ensures Meaning(t) == Meaning(s)
  {
    forall k | k in s.hash ensures Stored(t.cells, t.hash[k]) == Stored(s.cells, s.hash[k]) {
      StoredFrame(g, s, t, s.hash[k]);
    }
  }

  lemma MeaningWithout(g: Config, s: State, t: State, key: Key)
    requires Inv(g, s) && t.hash == s.hash - {key}
    requires forall k | k in s.hash && k != key :: SameContent(s, t, s.hash[k])
    ensures Meaning(t) == Meaning(s) - {key}
  {
    forall k | k in t.hash ensures Stored(t.cells, t.hash[k]) == Stored(s.cells, s.hash[k]) {
      StoredFrame(g, s, t, s.hash[k]);
    }
  }

  // ----- the mover --------------------------------------------------------------------------

  lemma LookKeepsMeaning(g: Config, s: State)
    requires Inv(g, s) && CanLook(g, s)
    ensures Meaning(Look(g, s)) == Meaning(s)
  {
    var c := g.range[s.mover.pos];
    RoleFromFlags(g, s, c);
    assert CellOk(g, s, c);
    RoleFromFlags(g, s, if Chunk in s.cells[c].flags then s.cells[c].head else c);
    MeaningFrame(g, s, Look(g, s));
  }

  lemma TryKeepsMeaning(g: Config, s: State, locked: bool, now: nat, flushed: bool)
    requires Inv(g, s) && CanTry(g, s, locked)
    ensures Meaning(Try(g, s, locked, now, flushed)) == Meaning(s)
  {
    var t := Try(g, s, locked, now, flushed);
    TryOnlyCounts(g, s, locked, now, flushed);
    MeaningFrame(g, s, t);
  }

  lemma FreeCells(g: Config, s: State, list: seq<Ptr>)
    requires Inv(g, s) && list == s.free[g.src]
    ensures NoDup(list) && forall i | 0 <= i < |list| :: 0 < list[i] < |s.cells| && s.cells[list[i]].role == Free
  {
    assert FreeOk(g, s, g.src);
    forall i | 0 <= i < |list| ensures 0 < list[i] < |s.cells| && s.cells[list[i]].role == Free { assert list[i] in list; }
  }

  /** Of a cell in use the trylock step changes no more than the count. */
  lemma TryOnlyCounts(g: Config, s: State, locked: bool, now: nat, flushed: bool)
    requires Inv(g, s) && CanTry(g, s, locked)
    ensures var t := Try(g, s, locked, now, flushed);
      && t.hash == s.hash && |t.cells| == |s.cells|
      && forall x: Ptr | 0 < x < |s.cells| && s.cells[x].role != Free ::
           t.cells[x] == s.cells[x].(refcount := t.cells[x].refcount)
  {
    var it, list := s.mover.it, s.free[g.src];
    FreeCells(g, s, list);
    OnlyListed(g, s.cells[it := s.cells[it].(refcount := s.cells[it].refcount + 1)], list);
    assert forall x: Ptr | 0 < x < |s.cells| && s.cells[x].role != Free :: x !in list;
  }

  /** The rescue allocation touches cells of the freelist only. */
  lemma OnlyListed(g: Config, cells: seq<Cell>, list: seq<Ptr>)
    requires NoDup(list) && forall i | 0 <= i < |list| :: 0 < list[i] < |cells|
    ensures var r := RebalanceAlloc(g, cells, list, g.perslab).0;
      |r| == |cells| && forall x | 0 <= x < |cells| && x !in list :: r[x] == cells[x]
  {
    var m := RebalanceExact(g, cells, list, g.perslab);
    assert forall x | x !in list :: x !in list[..m];
  }

  lemma RescueKeepsMeaning(g: Config, s: State)
    requires Inv(g, s) && CanFinishWindow(g, s) && !s.mover.ch && s.mover.spare != NULL
    ensures Meaning(FinishWindow(g, s)) == Meaning(s)
  {
    var t := FinishWindow(g, s);
    RescuedTable(g, s, t);
    RescuedStored(g, s, t);
    forall k | k in s.hash ensures Stored(t.cells, t.hash[k]) == Stored(s.cells, s.hash[k]) {
      if s.hash[k] != s.mover.it { RescueOther(g, s, t, k); }
    }
  }

  lemma RescuedTable(g: Config, s: State, t: State)
    requires Inv(g, s) && CanFinishWindow(g, s) && !s.mover.ch && s.mover.spare != NULL && t == FinishWindow(g, s)
    ensures t.hash.Keys == s.hash.Keys
    ensures forall k | k in s.hash && s.hash[k] == s.mover.it :: t.hash[k] == s.mover.spare
  {
    RescueCells(g, s, s.mover.spare);
    assert CellOk(g, s, s.mover.it);
  }

  lemma RescuedStored(g: Config, s: State, t: State)
    requires Inv(g, s) && CanFinishWindow(g, s) && !s.mover.ch && s.mover.spare != NULL && t == FinishWindow(g, s)
    ensures Stored(t.cells, s.mover.spare) == Stored(s.cells, s.mover.it)
  {
    var it, q := s.mover.it, s.mover.spare;
    RescueCells(g, s, q);
    assert CellOk(g, s, it) && CellOk(g, s, q);
    var ch := s.cells[it].chain;
    forall i | 0 <= i < |ch| ensures ch[i] < |s.cells| && t.cells[ch[i]].data == s.cells[ch[i]].data {
      assert ch[i] in ch;
      ChainMembers(g, s, it, ch[i]);
    }
    ChainDataSame(s.cells, t.cells, ch, ch);
  }

  lemma RescueOther(g: Config, s: State, t: State, k: Key)
    requires Inv(g, s) && CanFinishWindow(g, s) && !s.mover.ch && s.mover.spare != NULL
    requires t == FinishWindow(g, s) && k in s.hash && s.hash[k] != s.mover.it
    ensures k in t.hash && t.hash[k] == s.hash[k] && Stored(t.cells, t.hash[k]) == Stored(s.cells, s.hash[k])
  {
    var p := s.hash[k];
    RescuedBeside(g, s, t, k);
    forall x: Ptr | 0 < x < |s.cells| && s.cells[x].role == Link && s.cells[x].head == p
      ensures t.cells[x].data == s.cells[x].data
    {
      RescueCells(g, s, s.mover.spare);
    }
    StoredFrame(g, s, t, p);
  }

  /** The item of another key is not touched by the rescue. */
  lemma RescuedBeside(g: Config, s: State, t: State, k: Key)
    requires Inv(g, s) && CanFinishWindow(g, s) && !s.mover.ch && s.mover.spare != NULL
    requires t == FinishWindow(g, s) && k in s.hash && s.hash[k] != s.mover.it
    ensures k in t.hash && t.hash[k] == s.hash[k] && |t.cells| == |s.cells| && t.cells[s.hash[k]] == s.cells[s.hash[k]]
  {
    var it, q, p := s.mover.it, s.mover.spare, s.hash[k];
    RescueCells(g, s, q);
    assert CellOk(g, s, it) && CellOk(g, s, p) && CellOk(g, s, q);
    if p in s.cells[it].chain { ChainMembers(g, s, it, p); }
    RescueApart(g, s, q, p);
  }

  lemma ChunkStored(g: Config, s: State, t: State)
    requires Inv(g, s) && CanFinishWindow(g, s) && s.mover.ch && s.mover.spare != NULL && t == FinishWindow(g, s)
    ensures Stored(t.cells, s.mover.it) == Stored(s.cells, s.mover.it)
  {
    var it, q, c := s.mover.it, s.mover.spare, g.range[s.mover.pos];
    var j := ChunkIndex(g, s, q);
    ChunkWrites(s, it, c, q);
    var ch := s.cells[it].chain;
    SubstituteOne(ch, j, q);
    assert CellOk(g, s, it);
    forall i | 0 <= i < |ch| ensures ch[i] < |s.cells| && ch[j := q][i] < |t.cells|
      && s.cells[ch[i]].data == t.cells[ch[j := q][i]].data
    {
      assert ch[i] in ch;
      ChainMembers(g, s, it, ch[i]);
      if i != j { assert ch[i] != ch[j]; }
    }
    ChainDataSame(s.cells, t.cells, ch, ch[j := q]);
  }

  lemma ChunkRescueKeepsMeaning(g: Config, s: State)
    requires Inv(g, s) && CanFinishWindow(g, s) && s.mover.ch && s.mover.spare != NULL
    ensures Meaning(FinishWindow(g, s)) == Meaning(s)
  {
    var t := FinishWindow(g, s);
    ChunkRoles(g, s, s.mover.spare);
    forall k | k in s.hash ensures Stored(t.cells, s.hash[k]) == Stored(s.cells, s.hash[k]) {
      if s.hash[k] != s.mover.it { ChunkOther(g, s, t, k); } else { ChunkStored(g, s, t); }
    }
  }

  lemma ChunkOther(g: Config, s: State, t: State, k: Key)
    requires Inv(g, s) && CanFinishWindow(g, s) && s.mover.ch && s.mover.spare != NULL
    requires t == FinishWindow(g, s) && k in s.hash && s.hash[k] != s.mover.it
    ensures Stored(t.cells, s.hash[k]) == Stored(s.cells, s.hash[k])
  {
    var it, q, p := s.mover.it, s.mover.spare, s.hash[k];
    assert CellOk(g, s, it) && CellOk(g, s, p) && CellOk(g, s, q);
    if p in s.cells[it].chain { ChainMembers(g, s, it, p); }
    ChunkApart(g, s, q, p);
    forall x: Ptr | 0 < x < |s.cells| && s.cells[x].role == Link && s.cells[x].head == p
      ensures t.cells[x].data == s.cells[x].data
    {
      if x in s.cells[it].chain { ChainMembers(g, s, it, x); }
      ChunkOutside(g, s, q, x);
    }
    StoredFrame(g, s, t, p);
  }

  lemma DropMeaning(g: Config, s: State)
    requires Inv(g, s) && CanFinishWindow(g, s) && s.mover.spare == NULL
    ensures Meaning(FinishWindow(g, s)) == Meaning(s) - {s.cells[s.mover.it].key}
  {
    var it := s.mover.it;
    var u := UnlinkCell(s, it);
    var t := FinishWindow(g, s);
    var key := s.cells[it].key;
    DropUnlink(g, s);
    FreeItemExact(g, u, it);
    assert CellOk(g, s, it);
    forall k | k in s.hash && k != key ensures SameContent(s, t, s.hash[k]) {
      var p := s.hash[k];
      if p in s.cells[it].chain { ChainMembers(g, s, it, p); }
      forall x: Ptr | 0 < x < |s.cells| && s.cells[x].role == Link && s.cells[x].head == p
        ensures t.cells[x].data == s.cells[x].data { }
    }
    MeaningWithout(g, s, t, key);
  }

  lemma DeleteMeaning(g: Config, s: State)
    requires Inv(g, s) && CanDelete(g, s)
    ensures Meaning(Delete(g, s)) == Meaning(s) - {s.cells[s.mover.it].key}
  {
    assert CellOk(g, s, s.mover.it);
    MeaningWithout(g, s, Delete(g, s), s.cells[s.mover.it].key);
  }

  predicate IsMoverAction(a: Action) {
    a.MStart? || a.MLook? || a.MTry? || a.MFinishWindow? || a.MDelete?
  }

  /** Rescue preserves meaning: no step of the mover changes what any key maps to, and a key leaves the
      map only when its item was expired or flushed, when there was no memory to rescue it to, or when
      it stayed busy for more than the allowed number of passes. */
  lemma MoverMeaning(g: Config, s: State, a: Action)
    requires Inv(g, s) && Enabled(g, s, a) && IsMoverAction(a)
    ensures var t := Apply(g, s, a);
      if a.MFinishWindow? && s.mover.fate != Saved then
        Meaning(t) == Meaning(s) - {s.cells[s.mover.it].key} && s.mover.fate in {Expired, NoMemory}
      else if a.MDelete? then
        Meaning(t) == Meaning(s) - {s.cells[s.mover.it].key} && s.mover.loops > SLAB_MOVE_MAX_LOOPS
      else Meaning(t) == Meaning(s)
  {
    match a
    case MLook => LookKeepsMeaning(g, s);
    case MTry(locked, now, flushed) => TryKeepsMeaning(g, s, locked, now, flushed);
    case MFinishWindow =>
      if s.mover.spare == NULL { DropMeaning(g, s); }
      else if s.mover.ch { ChunkRescueKeepsMeaning(g, s); }
      else { RescueKeepsMeaning(g, s); }
    case MDelete => DeleteMeaning(g, s);
    case _ =>
  }

  /** When the mover gets hold of an item it decides its fate for exactly these reasons. */
  lemma FateDecided(g: Config, s: State, now: nat, flushed: bool)
    requires Inv(g, s) && CanTry(g, s, true)
    ensures var t := Try(g, s, true, now, flushed); var c := s.cells[s.mover.it];
      && (t.mover.Window? <==> Linked in c.flags && c.refcount == 1)
      && (t.mover.Window? ==>
          && (t.mover.fate == Expired <==> (c.exptime != 0 && c.exptime < now) || flushed)
          && (t.mover.fate == NoMemory <==>
                (t.mover.fate != Expired
                 && forall i | 0 <= i < g.perslab && i < |s.free[g.src]| :: s.free[g.src][i] in g.range)))
  {
    var it := s.mover.it;
    var c := s.cells[it];
    var list := s.free[g.src];
    assert CellOk(g, s, it);
    assert FreeOk(g, s, g.src);
    forall i | 0 <= i < |list| ensures 0 < list[i] < |s.cells| { assert list[i] in list; }
    var m := RebalanceExact(g, s.cells[it := c.(refcount := c.refcount + 1)], list, g.perslab);
  }

  // ----- the other threads ------------------------------------------------------------------

  lemma AttachKeepsMeaning(g: Config, s: State, h: Ptr, p: Ptr, data: Bytes)
    requires Inv(g, s) && CanAttach(s, h, p)
    ensures Meaning(Attach(s, h, p, data)) == Meaning(s)
  {
    var t := Attach(s, h, p, data);
    AttachCells(g, s, h, p, data);
    forall k | k in s.hash ensures SameContent(s, t, s.hash[k]) {
      forall x: Ptr | 0 < x < |s.cells| && s.cells[x].role == Link && s.cells[x].head == s.hash[k]
        ensures t.cells[x].data == s.cells[x].data { }
    }
    MeaningFrame(g, s, t);
  }

  lemma FreeKeepsMeaning(g: Config, s: State, h: Ptr)
    requires Inv(g, s) && CanFree(s, h)
    ensures Meaning(FreeItem(g, s, h)) == Meaning(s)
  {
    var t := FreeItem(g, s, h);
    FreeItemExact(g, s, h);
    assert CellOk(g, s, h);
    forall k | k in s.hash ensures SameContent(s, t, s.hash[k]) {
      if s.hash[k] in s.cells[h].chain { ChainMembers(g, s, h, s.hash[k]); }
      forall x: Ptr | 0 < x < |s.cells| && s.cells[x].role == Link && s.cells[x].head == s.hash[k]
        ensures t.cells[x].data == s.cells[x].data { }
    }
    MeaningFrame(g, s, t);
  }

  /** Of the steps of the other threads only link, unlink, touch and the change of a number in place change
      what is stored, each for one key and nothing else of it. */
  lemma OthersMeaning(g: Config, s: State, a: Action)
    requires Inv(g, s) && Enabled(g, s, a) && !IsMoverAction(a)
    ensures var t := Apply(g, s, a);
      match a
      case ALink(p) => Meaning(t) == Meaning(s)[s.cells[p].key := Stored(s.cells, p)]
      case AUnlink(p) => Meaning(t) == Meaning(s) - {s.cells[p].key}
      case ATouch(k, e) => k in s.hash && Meaning(t) == Meaning(s)[k := Meaning(s)[k].(exptime := e)]
      case AEdit(k, d) => k in s.hash && Meaning(t) == Meaning(s)[k := Meaning(s)[k].(payload := d)]
      case _ => Meaning(t) == Meaning(s)
  {
    match a
    case AAlloc(k) => AllocFrees(g, s, k); MeaningFrame(g, s, Alloc(g, s, k));
    case ANewPage(k, ps) => NewPageKeepsMeaning(g, s, k, ps);
    case AAttach(h, p, d) => AttachKeepsMeaning(g, s, h, p, d);
    case AFree(h) => FreeKeepsMeaning(g, s, h);
    case ALink(p) => LinkMeaning(g, s, p);
    case AUnlink(p) => UnlinkMeaning(g, s, p);
    case ATouch(k, e) => OneKeyMeaning(g, s, Touch(g, s, k, e), k);
    case AEdit(k, d) => OneKeyMeaning(g, s, Edit(g, s, k, d), k);
    case _ => RestMeaning(g, s, a);
  }

  lemma RestMeaning(g: Config, s: State, a: Action)
    requires Inv(g, s) && Enabled(g, s, a)
    requires a.AInit? || a.AGet? || a.ARelease? || a.ALift? || a.ASettle?
    ensures Meaning(Apply(g, s, a)) == Meaning(s)
  {
    MeaningFrame(g, s, Apply(g, s, a));
  }

  lemma NewPageKeepsMeaning(g: Config, s: State, k: nat, ps: seq<Ptr>)
    requires Inv(g, s) && CanNewPage(g, s, k, ps)
    ensures Meaning(SplitPage(g, s, ps)) == Meaning(s)
  {
    NewPageExact(g, s, k, ps);
    MeaningFrame(g, s, SplitPage(g, s, ps));
  }

  lemma LinkMeaning(g: Config, s: State, p: Ptr)
    requires Inv(g, s) && CanLink(g, s, p)
    ensures Meaning(LinkCell(s, p)) == Meaning(s)[s.cells[p].key := Stored(s.cells, p)]
  {
    var t := LinkCell(s, p);
    forall q | q == p || (exists k :: k in s.hash && s.hash[k] == q) ensures Stored(t.cells, q) == Stored(s.cells, q) {
      StoredFrame(g, s, t, q);
    }
  }

  /** A step that changes the cell of one linked item only, and not its chain. */
  lemma OneKeyMeaning(g: Config, s: State, t: State, k: Key)
    requires Inv(g, s) && k in s.hash && t.hash == s.hash && |t.cells| == |s.cells| && ValidPtr(s, s.hash[k])
    requires var p := s.hash[k]; t.cells == s.cells[p := s.cells[p].(exptime := t.cells[p].exptime, cas := t.cells[p].cas, data := t.cells[p].data)]
    requires Chunked in s.cells[s.hash[k]].flags ==> t.cells[s.hash[k]].data == s.cells[s.hash[k]].data
    ensures Meaning(t) == Meaning(s)[k := Value(t.cells[s.hash[k]].exptime, Meaning(s)[k].clientFlags,
                            if Chunked in s.cells[s.hash[k]].flags then Meaning(s)[k].payload else t.cells[s.hash[k]].data)]
  {
    var p := s.hash[k];
    assert CellOk(g, s, p);
    forall j | j in s.hash && j != k ensures Stored(t.cells, t.hash[j]) == Stored(s.cells, s.hash[j]) {
      StoredFrame(g, s, t, s.hash[j]);
    }
    SameChain(g, s, t, p);
  }

  /** The chunks of an item that are untouched hold what they held. */
  lemma SameChain(g: Config, s: State, t: State, p: Ptr)
    requires ValidPtr(s, p) && CellOk(g, s, p) && IsHeader(s.cells[p]) && |t.cells| == |s.cells|
    requires forall x: Ptr | 0 < x < |s.cells| && x != p :: t.cells[x] == s.cells[x]
    ensures ChainData(t.cells, s.cells[p].chain) == ChainData(s.cells, s.cells[p].chain)
  {
    var ch := s.cells[p].chain;
    forall i | 0 <= i < |ch| ensures ch[i] < |s.cells| && t.cells[ch[i]].data == s.cells[ch[i]].data {
      assert ch[i] in ch;
      ChainMembers(g, s, p, ch[i]);
    }
    ChainDataSame(s.cells, t.cells, ch, ch);
  }

  lemma UnlinkMeaning(g: Config, s: State, p: Ptr)
    requires Inv(g, s) && CanUnlink(g, s, p)
    ensures Meaning(UnlinkCell(s, p)) == Meaning(s) - {s.cells[p].key}
  {
    assert CellOk(g, s, p);
    MeaningWithout(g, s, UnlinkCell(s, p), s.cells[p].key);
  }

  // ----- item life cycle --------------------------------------------------------------------

  /** In every run a count is the link plus the references out, a linked item is in the table under its
      key and on an LRU list or between two of them, and a free cell is on the list of its class, once. */
  lemma Lifecycle(g: Config, useCas: bool, actions: seq<Action>, p: Ptr)
    requires Layout(g) && 0 < p < |g.cls|
    ensures var t := Run(g, Boot(g, useCas), actions);
      && p < |t.cells| && |t.free| == g.classes
      && var c := t.cells[p];
      && (c.role == Item ==>
          && c.refcount == (if Linked in c.flags then 1 else 0) + c.held + MoverRef(t, p) && c.refcount > 0
          && (Linked in c.flags <==> c.key in t.hash && t.hash[c.key] == p)
          && (Linked in c.flags <==> p in t.lru || p in t.moving) && !(p in t.lru && p in t.moving))
      && (c.role == Zombie ==> c.refcount == 0 && c.held == 0 && Linked !in c.flags)
      && (c.role == Free <==> p in t.free[g.cls[p]])
      && (forall k | 0 <= k < |t.free| :: NoDup(t.free[k]) && (p in t.free[k] ==> k == g.cls[p]))
  {
    var t := Run(g, Boot(g, useCas), actions);
    BootInv(g, useCas);
    RunKeeps(g, Boot(g, useCas), actions);
    assert CellOk(g, t, p);
    forall k | 0 <= k < |t.free| ensures NoDup(t.free[k]) && (p in t.free[k] <==> t.cells[p].role == Free && k == g.cls[p]) {
      assert FreeOk(g, t, k);
    }
    assert t.cells[p].role == Free ==> p in t.free[g.cls[p]];
  }

  /** A cell goes to a freelist only as part of a new page, or with its item unreferenced and unlinked: at
      count 0, or by the mover's drop of an item to which only the link and the mover itself still refer. */
  lemma ReturnsUnreferenced(g: Config, s: State, a: Action, p: Ptr)
    requires Inv(g, s) && Enabled(g, s, a) && ValidPtr(s, p) && s.cells[p].role != Free
    requires var t := Apply(g, s, a); p < |t.cells| && t.cells[p].role == Free
    ensures a.ANewPage? ==> s.cells[p].role == Absent
    ensures var h := if s.cells[p].role == Link then s.cells[p].head else p;
      !a.ANewPage? ==>
      && ValidPtr(s, h) && IsHeader(s.cells[h]) && s.cells[h].held == 0
      && (if a.AFree? then s.cells[h].refcount == 0 && Linked !in s.cells[h].flags
          else a.MFinishWindow? && s.mover.it == h && s.cells[h].refcount == 2 && s.mover.fate != Saved)
  {
    match a
    case ANewPage(k, ps) => ReturnsByPage(g, s, k, ps, p);
    case AFree(h) => ReturnsByFree(g, s, h, p);
    case MTry(locked, now, flushed) => ReturnsNotByTry(g, s, locked, now, flushed, p);
    case MFinishWindow => ReturnsByWindow(g, s, p);
    case _ => ReturnsNot(g, s, a, p);
  }

  lemma ReturnsByPage(g: Config, s: State, k: nat, ps: seq<Ptr>, p: Ptr)
    requires Inv(g, s) && CanNewPage(g, s, k, ps) && ValidPtr(s, p) && s.cells[p].role != Free
    requires var t := SplitPage(g, s, ps); p < |t.cells| && t.cells[p].role == Free
    ensures s.cells[p].role == Absent
  {
    NewPageExact(g, s, k, ps);
  }

  lemma ReturnsByFree(g: Config, s: State, h: Ptr, p: Ptr)
    requires Inv(g, s) && CanFree(s, h) && ValidPtr(s, p) && s.cells[p].role != Free
    requires var t := FreeItem(g, s, h); p < |t.cells| && t.cells[p].role == Free
    ensures s.cells[h].held == 0 && s.cells[h].refcount == 0 && Linked !in s.cells[h].flags
    ensures if s.cells[p].role == Link then s.cells[p].head == h else p == h
  {
    assert CellOk(g, s, h);
    FreeItemExact(g, s, h);
    if p != h { ChainMembers(g, s, h, p); }
  }

  lemma ReturnsNot(g: Config, s: State, a: Action, p: Ptr)
    requires Enabled(g, s, a) && ValidPtr(s, p) && s.cells[p].role != Free
    requires !a.ANewPage? && !a.AFree? && !a.MTry? && !a.MFinishWindow?
    ensures var t := Apply(g, s, a); p < |t.cells| ==> t.cells[p].role != Free
  {
  }

  lemma ReturnsNotByTry(g: Config, s: State, locked: bool, now: nat, flushed: bool, p: Ptr)
    requires Inv(g, s) && CanTry(g, s, locked) && ValidPtr(s, p) && s.cells[p].role != Free
    ensures var t := Try(g, s, locked, now, flushed); p < |t.cells| && t.cells[p].role != Free
  {
    var it := s.mover.it;
    var c := s.cells[it];
    var list := s.free[g.src];
    assert FreeOk(g, s, g.src);
    forall i | 0 <= i < |list| ensures 0 < list[i] < |s.cells| && list[i] != p { assert list[i] in list; }
    var m := RebalanceExact(g, s.cells[it := c.(refcount := c.refcount + 1)], list, g.perslab);
    assert p !in list[..m];
  }

  lemma ReturnsByWindow(g: Config, s: State, p: Ptr)
    requires Inv(g, s) && CanFinishWindow(g, s) && ValidPtr(s, p) && s.cells[p].role != Free
    requires var t := FinishWindow(g, s); p < |t.cells| && t.cells[p].role == Free
    ensures s.mover.fate != Saved && s.cells[s.mover.it].held == 0 && s.cells[s.mover.it].refcount == 2
    ensures if s.cells[p].role == Link then s.cells[p].head == s.mover.it else p == s.mover.it
  {
    var it := s.mover.it;
    assert CellOk(g, s, it) && CellOk(g, s, p);
    if s.mover.spare == NULL {
      DropUnlink(g, s);
      var u := UnlinkCell(s, it);
      FreeItemExact(g, u, it);
      if p in u.cells[it].chain { ChainMembers(g, s, it, p); }
    } else if s.mover.ch {
      ChunkRoles(g, s, s.mover.spare);
    } else {
      RescueRoles(g, s, s.mover.spare);
    }
  }
}
