/** The invariant of the page mover and of the threads around it, kept by every step. */
module SlabMoverInv {
  import opened Common
  import opened SlabMover

  predicate IsHeader(c: Cell) {
    c.role == Item || c.role == Zombie
  }

  function At(s: seq<Ptr>, i: nat): Ptr {
    if i < |s| then s[i] else NULL
  }

  /** The reference the mover itself holds. */
  function MoverRef(s: State, p: Ptr): nat {
    match s.mover
    case Window(_, _, _, it, _, _, _) => if it == p then 1 else 0
    case Deleting(_, _, _, it) => if it == p then 1 else 0
    case _ => 0
  }

  /** Chunk `i` of the chain of header `h`: doubly linked, and pointing at its head. */
  predicate LinkOk(cells: seq<Cell>, h: Ptr, chain: seq<Ptr>, i: nat)
    requires i < |chain|
  {
    && 0 < chain[i] < |cells|
    && cells[chain[i]].role == Link
    && cells[chain[i]].head == h
    && cells[chain[i]].prev == (if i == 0 then h else chain[i - 1])
    && cells[chain[i]].next == At(chain, i + 1)
  }

  ghost predicate ChainOk(cells: seq<Cell>, h: Ptr)
    requires h < |cells|
  {
    var c := cells[h];
    && c.head == h && c.prev == NULL && c.next == At(c.chain, 0)
    && NoDup(c.chain)
    && forall i | 0 <= i < |c.chain| :: LinkOk(cells, h, c.chain, i)
  }

  /** What the flags, the count and the links of a cell are, given what the cell is used for. */
  ghost predicate CellOk(g: Config, s: State, p: Ptr)
    requires p < |s.cells|
  {
    var c := s.cells[p];
    match c.role
    case Absent => c.flags == {} && c.refcount == 0 && c.held == 0 && p !in g.range
    case Free => c.flags == {Slabbed} && c.held == 0
    case Cleared => c.flags == {Slabbed, Fetched} && c.refcount == 0 && c.held == 0
    case Raw => c.flags == {} && c.refcount == 1 && c.held == 1
    case Spare => c.flags == {} && s.mover.Window? && s.mover.spare == p
    case Item =>
      && c.flags !! {Slabbed, Chunk}
      && c.refcount == (if Linked in c.flags then 1 else 0) + c.held + MoverRef(s, p)
      && c.refcount > 0
      && (Linked in c.flags <==> c.key in s.hash && s.hash[c.key] == p)
      && (Linked in c.flags <==> p in s.lru || p in s.moving)
      && (if Chunked in c.flags then ChainOk(s.cells, p) && (Linked in c.flags ==> c.chain != []) else c.chain == [])
    case Zombie =>
      && c.flags !! {Slabbed, Chunk, Linked}
      && c.refcount == 0 && c.held == 0 && MoverRef(s, p) == 0
      && (if Chunked in c.flags then ChainOk(s.cells, p) else c.chain == [])
    case Link =>
      && c.flags == {Chunk} && c.held == 0
      && ValidPtr(s, c.head) && IsHeader(s.cells[c.head]) && Chunked in s.cells[c.head].flags
      && p in s.cells[c.head].chain
  }

  ghost predicate FreeOk(g: Config, s: State, k: nat)
    requires k < |s.free| && |g.cls| == |s.cells|
  {
    && NoDup(s.free[k])
    && forall p: Ptr :: p in s.free[k] <==> ValidPtr(s, p) && s.cells[p].role == Free && g.cls[p] == k
  }

  ghost predicate HashOk(s: State) {
    forall k | k in s.hash ::
      && ValidPtr(s, s.hash[k]) && s.cells[s.hash[k]].role == Item
      && Linked in s.cells[s.hash[k]].flags && s.cells[s.hash[k]].key == k
  }

  ghost predicate LruOk(s: State) {
    && s.lru !! s.moving
    && (forall p | p in s.lru :: ValidPtr(s, p) && s.cells[p].role == Item && Linked in s.cells[p].flags)
    && (forall p | p in s.moving :: ValidPtr(s, p) && s.cells[p].role == Item && Linked in s.cells[p].flags)
  }

  ghost predicate ClearedUpTo(g: Config, s: State, n: nat) {
    n <= |g.range| && forall i | 0 <= i < n :: g.range[i] < |s.cells| && s.cells[g.range[i]].role == Cleared
  }

  /** The chunk at `pos` leads to the header `it`. */
  ghost predicate Leads(g: Config, s: State, pos: nat, it: Ptr, ch: bool) {
    && pos < |g.range| && ValidPtr(s, g.range[pos]) && ValidPtr(s, it)
    && (if ch then s.cells[g.range[pos]].role == Link && s.cells[g.range[pos]].head == it else g.range[pos] == it)
  }

  ghost predicate MoverOk(g: Config, s: State) {
    match s.mover
    case Off => true
    case Scan(pos, busy, _) => pos < |g.range| && (busy == 0 ==> ClearedUpTo(g, s, pos))
    case Trying(pos, busy, _, it, ch) =>
      && (busy == 0 ==> ClearedUpTo(g, s, pos))
      && Leads(g, s, pos, it, ch) && IsHeader(s.cells[it])
    case Window(pos, busy, _, it, ch, spare, fate) =>
      && (busy == 0 ==> ClearedUpTo(g, s, pos))
      && Leads(g, s, pos, it, ch)
      && s.cells[it].role == Item && Linked in s.cells[it].flags && s.cells[it].held == 0
      && (spare == NULL <==> fate != Saved)
      && (spare != NULL ==> ValidPtr(s, spare) && s.cells[spare].role == Spare && spare !in g.range)
      && (forall p | p in s.moving :: p < |s.cells| && g.stripe(s.cells[p].key) != g.stripe(s.cells[it].key))
    case Deleting(pos, busy, loops, it) =>
      && pos < |g.range| && loops > SLAB_MOVE_MAX_LOOPS
      && (busy == 0 ==> ClearedUpTo(g, s, pos))
      && ValidPtr(s, it) && s.cells[it].role == Item && Linked in s.cells[it].flags && s.cells[it].held > 0
      && (forall p | p in s.moving :: p < |s.cells| && g.stripe(s.cells[p].key) != g.stripe(s.cells[it].key))
    case Done => ClearedUpTo(g, s, |g.range|)
  }

  ghost predicate Inv(g: Config, s: State) {
    && Layout(g) && |s.cells| == |g.cls| && |s.free| == g.classes
    && CellsOk(g, s) && FreesOk(g, s) && HashOk(s) && LruOk(s) && MoverOk(g, s)
  }

  ghost predicate CellsOk(g: Config, s: State) {
    forall p: Ptr | 0 < p < |s.cells| :: CellOk(g, s, p)
  }

  ghost predicate FreesOk(g: Config, s: State)
    requires |g.cls| == |s.cells|
  {
    forall k | 0 <= k < |s.free| :: FreeOk(g, s, k)
  }

  // ----- frames -----------------------------------------------------------------------------

  /** The chunks of header `h` look the same in `a` and `b`. */
  ghost predicate LinksKept(a: seq<Cell>, b: seq<Cell>, h: Ptr) {
    && h < |a| == |b|
    && a[h].chain == b[h].chain && a[h].head == b[h].head && a[h].next == b[h].next && a[h].prev == b[h].prev
    && forall p: Ptr | 0 < p < |a| && a[p].role == Link && a[p].head == h ::
         b[p].role == Link && b[p].head == h && b[p].next == a[p].next && b[p].prev == a[p].prev
  }

  lemma ChainFrame(a: seq<Cell>, b: seq<Cell>, h: Ptr)
    requires LinksKept(a, b, h) && ChainOk(a, h)
    ensures ChainOk(b, h)
  {
    forall i | 0 <= i < |b[h].chain| ensures LinkOk(b, h, b[h].chain, i) {
      assert LinkOk(a, h, a[h].chain, i);
    }
  }

  /** A cell that a step leaves alone stays as it should be. */
  lemma CellFrame(g: Config, s: State, t: State, q: Ptr)
    requires 0 < q < |s.cells| == |t.cells| && CellOk(g, s, q) && t.cells[q] == s.cells[q]
    requires IsHeader(s.cells[q]) ==> LinksKept(s.cells, t.cells, q)
    requires s.cells[q].role == Spare ==> t.mover.Window? && t.mover.spare == q
    requires IsHeader(s.cells[q]) ==>
      && MoverRef(t, q) == MoverRef(s, q)
      && (s.cells[q].key in s.hash && s.hash[s.cells[q].key] == q <==> s.cells[q].key in t.hash && t.hash[s.cells[q].key] == q)
      && (q in s.lru || q in s.moving <==> q in t.lru || q in t.moving)
    requires s.cells[q].role == Link && ValidPtr(s, s.cells[q].head) && IsHeader(s.cells[s.cells[q].head]) ==>
      && IsHeader(t.cells[s.cells[q].head]) && Chunked in t.cells[s.cells[q].head].flags
      && q in t.cells[s.cells[q].head].chain
    ensures CellOk(g, t, q)
  {
    if IsHeader(s.cells[q]) && Chunked in s.cells[q].flags {
      ChainFrame(s.cells, t.cells, q);
    }
  }

  /** The header the mover is working on. */
  function Target(m: Mover): Ptr {
    match m
    case Trying(_, _, _, it, _) => it
    case Window(_, _, _, it, _, _, _) => it
    case Deleting(_, _, _, it) => it
    case _ => NULL
  }

  lemma MoverFrame(g: Config, s: State, t: State)
    requires MoverOk(g, s) && t.mover == s.mover && |t.cells| == |s.cells|
    requires forall q: Ptr | 0 < q < |s.cells| && s.cells[q].role in {Cleared, Spare} :: t.cells[q].role == s.cells[q].role
    requires forall q: Ptr | 0 < q < |s.cells| && s.cells[q].role == Link && s.cells[q].head == Target(s.mover) ::
      t.cells[q].role == Link && t.cells[q].head == s.cells[q].head
    requires 0 < Target(s.mover) < |s.cells| && IsHeader(s.cells[Target(s.mover)]) ==>
      && IsHeader(t.cells[Target(s.mover)])
      && (!s.mover.Trying? ==> t.cells[Target(s.mover)] == s.cells[Target(s.mover)])
    requires (s.mover.Window? || s.mover.Deleting?) ==>
      && Target(s.mover) < |s.cells|
      && forall p | p in t.moving :: p < |t.cells| && g.stripe(t.cells[p].key) != g.stripe(t.cells[Target(s.mover)].key)
    requires Layout(g) && |s.cells| == |g.cls|
    ensures MoverOk(g, t)
  {
    assert forall n: nat | n <= |g.range| && ClearedUpTo(g, s, n) :: ClearedUpTo(g, t, n) by {
      forall n: nat | n <= |g.range| && ClearedUpTo(g, s, n) ensures ClearedUpTo(g, t, n) {
        forall i | 0 <= i < n ensures g.range[i] < |t.cells| && t.cells[g.range[i]].role == Cleared {
          assert s.cells[g.range[i]].role == Cleared;
        }
      }
    }
  }

  lemma ChainMembers(g: Config, s: State, h: Ptr, p: Ptr)
    requires 0 < h < |s.cells| && CellOk(g, s, h) && IsHeader(s.cells[h]) && p in s.cells[h].chain
    ensures ValidPtr(s, p) && s.cells[p].role == Link && s.cells[p].head == h && Chunked in s.cells[h].flags
  {
    var i :| 0 <= i < |s.cells[h].chain| && s.cells[h].chain[i] == p;
    assert LinkOk(s.cells, h, s.cells[h].chain, i);
  }

  // ----- the other threads ------------------------------------------------------------------

  lemma FreeFrame(g: Config, s: State, t: State)
    requires |g.cls| == |s.cells| == |t.cells| && t.free == s.free && FreesOk(g, s)
    requires forall q: Ptr | 0 < q < |s.cells| :: s.cells[q].role == Free <==> t.cells[q].role == Free
    ensures FreesOk(g, t)
  {
    forall j | 0 <= j < |t.free| ensures FreeOk(g, t, j) { assert FreeOk(g, s, j); }
  }

  lemma AllocFrees(g: Config, s: State, k: nat)
    requires Inv(g, s) && CanAlloc(g, s, k)
    ensures s.cells[s.free[k][0]].role == Free
    ensures FreesOk(g, Alloc(g, s, k))
  {
    var t := Alloc(g, s, k);
    var p := s.free[k][0];
    assert FreeOk(g, s, k) && p in s.free[k];
    assert s.free[k] == [p] + s.free[k][1..];
    forall j | 0 <= j < |t.free| ensures FreeOk(g, t, j) { assert FreeOk(g, s, j); }
  }

  lemma KeepAlloc(g: Config, s: State, k: nat)
    requires Inv(g, s) && CanAlloc(g, s, k)
    ensures Inv(g, Alloc(g, s, k))
  {
    var t := Alloc(g, s, k);
    var p := s.free[k][0];
    AllocFrees(g, s, k);
    forall q: Ptr | 0 < q < |t.cells| ensures CellOk(g, t, q) {
      assert CellOk(g, s, q);
      if q != p { CellFrame(g, s, t, q); }
    }
    MoverFrame(g, s, t);
  }

  lemma KeepInit(g: Config, s: State, p: Ptr, flags: set<Flag>, k: Key, e: nat, f: nat, c: nat, d: Bytes)
    requires Inv(g, s) && CanInit(s, p, flags)
    ensures Inv(g, Init(s, p, flags, k, e, f, c, d))
  {
    var t := Init(s, p, flags, k, e, f, c, d);
    assert CellOk(g, s, p);
    InitCells(g, s, p, flags, k, e, f, c, d);
    FreeFrame(g, s, t);
    MoverFrame(g, s, t);
  }

  lemma InitCells(g: Config, s: State, p: Ptr, flags: set<Flag>, k: Key, e: nat, f: nat, c: nat, d: Bytes)
    requires CellsOk(g, s) && HashOk(s) && LruOk(s) && MoverOk(g, s) && CanInit(s, p, flags)
    ensures CellsOk(g, Init(s, p, flags, k, e, f, c, d))
  {
    var t := Init(s, p, flags, k, e, f, c, d);
    assert CellOk(g, s, p);
    forall q: Ptr | 0 < q < |t.cells| ensures CellOk(g, t, q) {
      assert CellOk(g, s, q);
      if q != p { CellFrame(g, s, t, q); }
    }
  }

  /** A step that changes one header only, and the hash table and the LRU only for it. */
  ghost predicate OneHeader(s: State, t: State, p: Ptr) {
    && ValidPtr(s, p) && |t.cells| == |s.cells| && t.cells == s.cells[p := t.cells[p]]
    && t.free == s.free && t.mover == s.mover && t.moving == s.moving && p !in s.moving
    && IsHeader(s.cells[p]) && IsHeader(t.cells[p])
    && t.cells[p].key == s.cells[p].key && LinksKept(s.cells, t.cells, p)
    && (Chunked in t.cells[p].flags <==> Chunked in s.cells[p].flags)
    && (forall k | k != s.cells[p].key :: k in t.hash <==> k in s.hash)
    && (forall k | k != s.cells[p].key && k in s.hash :: t.hash[k] == s.hash[k])
    && (forall q | q != p :: q in t.lru <==> q in s.lru)
  }

  lemma HeaderCells(g: Config, s: State, t: State, p: Ptr)
    requires Inv(g, s) && OneHeader(s, t, p)
    requires t.hash == s.hash || Linked in s.cells[p].flags || s.cells[p].key !in s.hash
    requires t.hash == s.hash || (s.cells[p].key in t.hash ==> t.hash[s.cells[p].key] == p)
    requires Chunked in s.cells[p].flags ==> ChainOk(t.cells, p) ==> CellOk(g, t, p)
    requires Chunked !in s.cells[p].flags ==> CellOk(g, t, p)
    ensures CellsOk(g, t)
  {
    assert CellOk(g, s, p);
    if Chunked in s.cells[p].flags { ChainFrame(s.cells, t.cells, p); }
    forall q: Ptr | 0 < q < |t.cells| ensures CellOk(g, t, q) {
      assert CellOk(g, s, q);
      if q != p { CellFrame(g, s, t, q); }
    }
  }

  lemma HeaderFrame(g: Config, s: State, t: State, p: Ptr)
    requires Inv(g, s) && OneHeader(s, t, p) && !MoverLocks(g, s, s.cells[p].key)
    requires t.hash == s.hash || Linked in s.cells[p].flags || s.cells[p].key !in s.hash
    requires t.hash == s.hash || (s.cells[p].key in t.hash ==> t.hash[s.cells[p].key] == p)
    requires Chunked in s.cells[p].flags ==> ChainOk(t.cells, p) ==> CellOk(g, t, p)
    requires Chunked !in s.cells[p].flags ==> CellOk(g, t, p)
    requires HashOk(t) && LruOk(t)
    ensures Inv(g, t)
  {
    HeaderCells(g, s, t, p);
    FreeFrame(g, s, t);
    MoverFrame(g, s, t);
  }

  lemma KeepLink(g: Config, s: State, p: Ptr)
    requires Inv(g, s) && CanLink(g, s, p)
    ensures Inv(g, LinkCell(s, p))
  {
    assert CellOk(g, s, p);
    HeaderFrame(g, s, LinkCell(s, p), p);
  }

  lemma KeepGet(g: Config, s: State, k: Key, marks: set<Flag>)
    requires Inv(g, s) && CanGet(g, s, k, marks)
    ensures Inv(g, Get(g, s, k, marks))
  {
    assert CellOk(g, s, s.hash[k]);
    HeaderFrame(g, s, Get(g, s, k, marks), s.hash[k]);
  }

  lemma KeepTouch(g: Config, s: State, k: Key, exptime: nat)
    requires Inv(g, s) && CanTouch(g, s, k)
    ensures Inv(g, Touch(g, s, k, exptime))
  {
    assert CellOk(g, s, s.hash[k]);
    HeaderFrame(g, s, Touch(g, s, k, exptime), s.hash[k]);
  }

  lemma KeepEdit(g: Config, s: State, k: Key, data: Bytes)
    requires Inv(g, s) && CanEdit(g, s, k, data)
    ensures Inv(g, Edit(g, s, k, data))
  {
    assert CellOk(g, s, s.hash[k]);
    HeaderFrame(g, s, Edit(g, s, k, data), s.hash[k]);
  }

  lemma KeepRelease(g: Config, s: State, p: Ptr)
    requires Inv(g, s) && CanRelease(g, s, p)
    ensures Inv(g, Release(g, s, p))
  {
    assert CellOk(g, s, p);
    HeaderFrame(g, s, Release(g, s, p), p);
  }

  lemma KeepUnlink(g: Config, s: State, p: Ptr)
    requires Inv(g, s) && CanUnlink(g, s, p)
    ensures Inv(g, UnlinkCell(s, p))
  {
    assert CellOk(g, s, p);
    HeaderFrame(g, s, UnlinkCell(s, p), p);
  }

  lemma KeepLift(g: Config, s: State, p: Ptr)
    requires Inv(g, s) && CanLift(g, s, p)
    ensures Inv(g, Lift(s, p))
  {
    var t := Lift(s, p);
    forall q: Ptr | 0 < q < |t.cells| ensures CellOk(g, t, q) { CellFrame(g, s, t, q); }
    forall j | 0 <= j < |t.free| ensures FreeOk(g, t, j) { assert FreeOk(g, s, j); }
  }

  lemma KeepSettle(g: Config, s: State, p: Ptr)
    requires Inv(g, s) && p in s.moving
    ensures Inv(g, Settle(s, p))
  {
    var t := Settle(s, p);
    forall q: Ptr | 0 < q < |t.cells| ensures CellOk(g, t, q) { CellFrame(g, s, t, q); }
    forall j | 0 <= j < |t.free| ensures FreeOk(g, t, j) { assert FreeOk(g, s, j); }
  }

  lemma AttachCells(g: Config, s: State, h: Ptr, p: Ptr, data: Bytes)
    requires Inv(g, s) && CanAttach(s, h, p)
    ensures var t := Attach(s, h, p, data); var l := LastOf(h, s.cells[h].chain);
      && p != h && p != l && p !in s.cells[h].chain && h !in s.cells[h].chain
      && s.cells[l].head == h && (l != h ==> s.cells[l].role == Link)
      && t.cells[p].role == Link && t.cells[p].flags == {Chunk} && t.cells[p].head == h
      && t.cells[p].prev == l && t.cells[p].next == NULL && t.cells[p].held == 0
      && t.cells[l] == s.cells[l].(next := p, chain := t.cells[l].chain)
      && t.cells[h] == s.cells[h].(next := if l == h then p else s.cells[h].next, chain := s.cells[h].chain + [p])
      && (l != h ==> t.cells[l].chain == s.cells[l].chain)
      && forall q | 0 <= q < |s.cells| && q != p && q != h && q != l :: t.cells[q] == s.cells[q]
  {
    var ch := s.cells[h].chain;
    assert CellOk(g, s, h) && CellOk(g, s, p);
    if p in ch { ChainMembers(g, s, h, p); }
    if h in ch { ChainMembers(g, s, h, h); }
    if ch != [] { assert LinkOk(s.cells, h, ch, |ch| - 1); }
  }

  lemma AttachChain(g: Config, s: State, h: Ptr, p: Ptr, data: Bytes)
    requires Inv(g, s) && CanAttach(s, h, p)
    ensures ChainOk(Attach(s, h, p, data).cells, h)
  {
    var t := Attach(s, h, p, data);
    var old_ch, ch := s.cells[h].chain, s.cells[h].chain + [p];
    AttachCells(g, s, h, p, data);
    assert CellOk(g, s, h);
    forall i | 0 <= i < |ch| ensures LinkOk(t.cells, h, ch, i) {
      if i < |old_ch| { assert LinkOk(s.cells, h, old_ch, i); }
    }
  }

  lemma AttachOthers(g: Config, s: State, h: Ptr, p: Ptr, data: Bytes)
    requires Inv(g, s) && CanAttach(s, h, p)
    ensures CellsOk(g, Attach(s, h, p, data))
  {
    var t := Attach(s, h, p, data);
    var l := LastOf(h, s.cells[h].chain);
    AttachCells(g, s, h, p, data);
    AttachChain(g, s, h, p, data);
    forall q: Ptr | 0 < q < |t.cells| ensures CellOk(g, t, q) {
      assert CellOk(g, s, q);
      if q != p && q != h && q != l { CellFrame(g, s, t, q); }
    }
  }

  lemma KeepAttach(g: Config, s: State, h: Ptr, p: Ptr, data: Bytes)
    requires Inv(g, s) && CanAttach(s, h, p)
    ensures Inv(g, Attach(s, h, p, data))
  {
    var t := Attach(s, h, p, data);
    AttachOthers(g, s, h, p, data);
    AttachCells(g, s, h, p, data);
    FreeFrame(g, s, t);
    MoverFrame(g, s, t);
  }

  // ----- freeing ----------------------------------------------------------------------------

  /** A freelist of class `k` gained the cells among `ps` that are of that class. */
  ghost predicate Gained(g: Config, before: seq<Ptr>, after: seq<Ptr>, ps: seq<Ptr>, k: nat) {
    && NoDup(after)
    && forall q: Ptr :: q in after <==> q in before || (q < |g.cls| && q in ps && g.cls[q] == k)
  }

  /** `t` is `s` with exactly the cells `ps` put on the freelists of their classes. */
  ghost predicate FreedExactly(g: Config, s: State, t: State, ps: seq<Ptr>)
    requires |g.cls| == |s.cells|
  {
    && |t.cells| == |s.cells| && |t.free| == |s.free|
    && t == s.(cells := t.cells, free := t.free)
    && (forall q | 0 <= q < |s.cells| :: t.cells[q] == if q in ps then Freed(s.cells[q]) else s.cells[q])
    && (forall k | 0 <= k < |s.free| :: Gained(g, s.free[k], t.free[k], ps, k))
  }

  ghost predicate OffLists(s: State, q: Ptr) {
    forall k | 0 <= k < |s.free| :: q !in s.free[k]
  }

  /** Cells that are on no freelist yet, so that they may be pushed. */
  ghost predicate MayFree(g: Config, s: State, ps: seq<Ptr>) {
    && |g.cls| == |s.cells| && |s.free| == g.classes && Layout(g)
    && NoDup(ps)
    && (forall k | 0 <= k < |s.free| :: NoDup(s.free[k]))
    && (forall i | 0 <= i < |ps| :: ValidPtr(s, ps[i]))
    && (forall q | q in ps :: OffLists(s, q))
  }

  lemma PushOne(g: Config, s: State, p: Ptr)
    requires ValidPtr(s, p) && MayFree(g, s, [p])
    ensures FreedExactly(g, s, PushFree(g, s, p), [p])
  {
    assert p in [p];
  }

  lemma FreedNone(g: Config, s: State)
    requires MayFree(g, s, [])
    ensures FreedExactly(g, s, s, [])
  {
  }

  lemma FreedThen(g: Config, s: State, u: State, t: State, p: Ptr, rest: seq<Ptr>)
    requires |g.cls| == |s.cells| && ValidPtr(s, p) && p !in rest
    requires FreedExactly(g, s, u, [p]) && FreedExactly(g, u, t, rest)
    ensures FreedExactly(g, s, t, [p] + rest)
  {
    assert forall q :: q in [p] + rest <==> q == p || q in rest;
    forall k | 0 <= k < |s.free| ensures Gained(g, s.free[k], t.free[k], [p] + rest, k) {
      assert Gained(g, s.free[k], u.free[k], [p], k) && Gained(g, u.free[k], t.free[k], rest, k);
    }
  }

  lemma MayFreeRest(g: Config, s: State, u: State, p: Ptr, rest: seq<Ptr>)
    requires ValidPtr(s, p) && MayFree(g, s, [p] + rest) && FreedExactly(g, s, u, [p])
    ensures p !in rest && MayFree(g, u, rest)
  {
    var ch := [p] + rest;
    assert forall i | 0 <= i < |rest| :: rest[i] == ch[i + 1];
    assert forall q | q in rest :: q in ch;
    forall i | 0 <= i < |rest| ensures rest[i] != p { assert ch[0] != ch[i + 1]; }
    forall q | q in rest ensures OffLists(u, q) {
      assert OffLists(s, q) && q !in [p];
      forall k | 0 <= k < |u.free| ensures q !in u.free[k] {
        assert Gained(g, s.free[k], u.free[k], [p], k);
      }
    }
  }

  /** Along the chain `ch` each cell's next pointer names the one behind it. */
  ghost predicate NextChain(s: State, ch: seq<Ptr>) {
    forall i: nat | i < |ch| :: NextOk(s.cells, ch, i)
  }

  predicate NextOk(cells: seq<Cell>, ch: seq<Ptr>, i: nat)
    requires i < |ch|
  {
    ch[i] < |cells| && cells[ch[i]].next == At(ch, i + 1)
  }

  lemma NextRest(s: State, u: State, p: Ptr, rest: seq<Ptr>)
    requires NextChain(s, [p] + rest) && p < |s.cells| == |u.cells|
    requires forall x | 0 <= x < |s.cells| :: u.cells[x].next == s.cells[x].next
    ensures NextChain(u, rest) && s.cells[p].next == At(rest, 0)
  {
    var ch := [p] + rest;
    assert ch[0] == p && NextOk(s.cells, ch, 0);
    forall i: nat | i < |rest| ensures NextOk(u.cells, rest, i) {
      assert ch[i + 1] == rest[i] && NextOk(s.cells, ch, i + 1);
    }
  }

  lemma HeadValid(g: Config, s: State, ch: seq<Ptr>)
    requires ch != [] && MayFree(g, s, ch)
    ensures ValidPtr(s, ch[0])
  {
  }

  /** One step of the walk. */
  lemma WalkOn(g: Config, s: State, ch: seq<Ptr>, n: nat)
    requires ch != [] && MayFree(g, s, ch) && NextChain(s, ch) && n > 0 && ValidPtr(s, ch[0])
    ensures var p, rest := ch[0], ch[1..]; var u := PushFree(g, s, p);
      && p !in rest && FreedExactly(g, s, u, [p]) && MayFree(g, u, rest) && NextChain(u, rest)
      && FreeWalk(g, s, p, n) == FreeWalk(g, u, At(rest, 0), n - 1)
  {
    var p, rest := ch[0], ch[1..];
    assert ch == [p] + rest && p in ch;
    PushOne(g, s, p);
    MayFreeRest(g, s, PushFree(g, s, p), p, rest);
    NextRest(s, PushFree(g, s, p), p, rest);
  }

  /** Pushing cells that are on no freelist frees exactly these. */
  lemma {:induction false} SplitExact(g: Config, s: State, ps: seq<Ptr>)
    requires MayFree(g, s, ps)
    ensures FreedExactly(g, s, SplitPage(g, s, ps), ps)
    decreases |ps|
  {
    if ps == [] {
      FreedNone(g, s);
    } else {
      var p, rest := ps[0], ps[1..];
      assert [p] + rest == ps && ValidPtr(s, p) && p in ps;
      PushOne(g, s, p);
      MayFreeRest(g, s, PushFree(g, s, p), p, rest);
      SplitExact(g, PushFree(g, s, p), rest);
      FreedThen(g, s, PushFree(g, s, p), SplitPage(g, s, ps), p, rest);
    }
  }

  /** The walk along the next pointers pushes the chunks of the chain one after the other and ends behind the last,
      whatever larger bound it is given. */
  lemma {:induction false} WalkIsSplit(g: Config, s: State, ch: seq<Ptr>, n: nat)
    requires MayFree(g, s, ch) && NextChain(s, ch) && n >= |ch|
    ensures FreeWalk(g, s, At(ch, 0), n) == SplitPage(g, s, ch)
    decreases |ch|
  {
    if ch != [] {
      HeadValid(g, s, ch);
      WalkOn(g, s, ch, n);
      WalkIsSplit(g, PushFree(g, s, ch[0]), ch[1..], n - 1);
    }
  }

  /** So it frees the whole chain. */
  lemma WalkFrees(g: Config, s: State, ch: seq<Ptr>, n: nat)
    requires MayFree(g, s, ch) && NextChain(s, ch) && n >= |ch|
    ensures FreedExactly(g, s, FreeWalk(g, s, At(ch, 0), n), ch)
  {
    WalkIsSplit(g, s, ch, n);
    SplitExact(g, s, ch);
  }

  // ----- a new page -------------------------------------------------------------------------

  lemma NewPageExact(g: Config, s: State, k: nat, ps: seq<Ptr>)
    requires Inv(g, s) && CanNewPage(g, s, k, ps)
    ensures FreedExactly(g, s, SplitPage(g, s, ps), ps)
  {
    forall q | q in ps ensures OffLists(s, q) {
      forall j | 0 <= j < |s.free| ensures q !in s.free[j] { assert FreeOk(g, s, j); }
    }
    forall j | 0 <= j < |s.free| ensures NoDup(s.free[j]) { assert FreeOk(g, s, j); }
    assert forall i | 0 <= i < |ps| :: ps[i] in ps;
    SplitExact(g, s, ps);
  }

  lemma NewPageCells(g: Config, s: State, k: nat, ps: seq<Ptr>)
    requires Inv(g, s) && CanNewPage(g, s, k, ps)
    ensures CellsOk(g, SplitPage(g, s, ps))
  {
    var t := SplitPage(g, s, ps);
    NewPageExact(g, s, k, ps);
    forall q: Ptr | 0 < q < |t.cells| ensures CellOk(g, t, q) {
      assert CellOk(g, s, q);
      if q !in ps { CellFrame(g, s, t, q); }
    }
  }

  lemma KeepNewPage(g: Config, s: State, k: nat, ps: seq<Ptr>)
    requires Inv(g, s) && CanNewPage(g, s, k, ps)
    ensures Inv(g, SplitPage(g, s, ps))
  {
    NewPageExact(g, s, k, ps);
    NewPageCells(g, s, k, ps);
    FreedFrees(g, s, SplitPage(g, s, ps), ps);
    MoverFrame(g, s, SplitPage(g, s, ps));
  }

  // ----- freeing an item --------------------------------------------------------------------

  /** Freeing an unlinked header gives back the header and all of its chunks, and nothing else. */
  lemma FreeItemExact(g: Config, s: State, h: Ptr)
    requires Layout(g) && |s.cells| == |g.cls| && |s.free| == g.classes
    requires CellsOk(g, s) && FreesOk(g, s)
    requires ValidPtr(s, h) && IsHeader(s.cells[h])
    ensures FreedExactly(g, s, FreeItem(g, s, h), [h] + s.cells[h].chain)
  {
    var ch := s.cells[h].chain;
    var u := PushFree(g, s, h);
    MayFreeItem(g, s, h);
    PushOne(g, s, h);
    if Chunked in s.cells[h].flags {
      MayFreeRest(g, s, u, h, ch);
      NextRest(s, u, h, ch);
      assert forall i | 0 <= i < |ch| :: ch[i] in ch;
      FitsBelow(ch, |s.cells|);
      WalkFrees(g, u, ch, |s.cells|);
      FreedThen(g, s, u, FreeItem(g, s, h), h, ch);
    } else {
      assert [h] + ch == [h];
    }
  }

  /** A header and its chunks are on no freelist, and linked in this order. */
  lemma MayFreeItem(g: Config, s: State, h: Ptr)
    requires Layout(g) && |s.cells| == |g.cls| && |s.free| == g.classes
    requires CellsOk(g, s) && FreesOk(g, s)
    requires ValidPtr(s, h) && IsHeader(s.cells[h])
    ensures MayFree(g, s, [h] + s.cells[h].chain) && MayFree(g, s, [h])
    ensures Chunked in s.cells[h].flags ==> NextChain(s, [h] + s.cells[h].chain)
    ensures Chunked !in s.cells[h].flags ==> s.cells[h].chain == []
    ensures forall q | q in s.cells[h].chain :: ValidPtr(s, q)
  {
    var ch := s.cells[h].chain;
    var ps := [h] + ch;
    assert CellOk(g, s, h);
    forall q | q in ch ensures ValidPtr(s, q) && s.cells[q].role == Link { ChainMembers(g, s, h, q); }
    forall q | q in ps ensures OffLists(s, q) {
      forall k | 0 <= k < |s.free| ensures q !in s.free[k] { assert FreeOk(g, s, k); }
    }
    assert h in ps;
    forall k | 0 <= k < |s.free| ensures NoDup(s.free[k]) { assert FreeOk(g, s, k); }
    forall i | 0 <= i < |ps| ensures ValidPtr(s, ps[i]) && (i > 0 ==> ps[i] == ch[i - 1] && ps[i] in ch) {}
    if Chunked in s.cells[h].flags {
      forall i: nat | i < |ps| ensures NextOk(s.cells, ps, i) {
        if i > 0 { assert LinkOk(s.cells, h, ch, i - 1); }
      }
    }
  }

  lemma FreedFrees(g: Config, s: State, t: State, ps: seq<Ptr>)
    requires |g.cls| == |s.cells| && FreesOk(g, s) && FreedExactly(g, s, t, ps)
    requires forall q | q in ps :: ValidPtr(s, q)
    ensures FreesOk(g, t)
  {
    forall k | 0 <= k < |t.free| ensures FreeOk(g, t, k) {
      assert FreeOk(g, s, k);
      assert Gained(g, s.free[k], t.free[k], ps, k);
    }
  }

  /** After an unlinked header and its chunks are freed every cell is again what its role says. */
  lemma FreedCells(g: Config, s: State, t: State, h: Ptr)
    requires Layout(g) && |s.cells| == |g.cls| && CellsOk(g, s)
    requires ValidPtr(s, h) && IsHeader(s.cells[h]) && Linked !in s.cells[h].flags
    requires FreedExactly(g, s, t.(mover := s.mover), [h] + s.cells[h].chain)
    requires forall q | q != h :: MoverRef(t, q) == MoverRef(s, q)
    requires forall q: Ptr | 0 < q < |s.cells| && s.cells[q].role == Spare :: t.mover.Window? && t.mover.spare == q
    ensures CellsOk(g, t)
  {
    var ps := [h] + s.cells[h].chain;
    assert CellOk(g, s, h);
    forall q: Ptr | 0 < q < |t.cells| ensures CellOk(g, t, q) {
      assert CellOk(g, s, q);
      if q !in ps {
        if IsHeader(s.cells[q]) {
          forall p: Ptr | 0 < p < |s.cells| && s.cells[p].role == Link && s.cells[p].head == q ensures p !in ps {
            if p in s.cells[h].chain { ChainMembers(g, s, h, p); }
          }
        }
        if s.cells[q].role == Link {
          if s.cells[q].head in s.cells[h].chain { ChainMembers(g, s, h, s.cells[q].head); }
        }
        CellFrame(g, s, t, q);
      }
    }
  }

  lemma KeepFree(g: Config, s: State, h: Ptr)
    requires Inv(g, s) && CanFree(s, h)
    ensures Inv(g, FreeItem(g, s, h))
  {
    var t := FreeItem(g, s, h);
    var ps := [h] + s.cells[h].chain;
    assert CellOk(g, s, h);
    FreeItemExact(g, s, h);
    forall q | q in s.cells[h].chain ensures ValidPtr(s, q) && s.cells[q].role == Link && s.cells[q].head == h {
      ChainMembers(g, s, h, q);
    }
    FreedFrees(g, s, t, ps);
    SparesKnown(g, s);
    FreedCells(g, s, t, h);
    FreedMover(g, s, t, h);
  }

  lemma FreedMover(g: Config, s: State, t: State, h: Ptr)
    requires Layout(g) && |s.cells| == |g.cls| && MoverOk(g, s) && ValidPtr(s, h) && s.cells[h].role == Zombie && MoverRef(s, h) == 0 && !s.mover.Trying?
    requires FreedExactly(g, s, t, [h] + s.cells[h].chain)
    requires forall q | q in s.cells[h].chain :: ValidPtr(s, q) && s.cells[q].role == Link && s.cells[q].head == h
    ensures MoverOk(g, t)
  {
    assert Target(s.mover) != h;
    MoverFrame(g, s, t);
  }

  lemma SparesKnown(g: Config, s: State)
    requires CellsOk(g, s)
    ensures forall q: Ptr | 0 < q < |s.cells| && s.cells[q].role == Spare :: s.mover.Window? && s.mover.spare == q
  {
    forall q: Ptr | 0 < q < |s.cells| && s.cells[q].role == Spare ensures s.mover.Window? && s.mover.spare == q {
      assert CellOk(g, s, q);
    }
  }
}
