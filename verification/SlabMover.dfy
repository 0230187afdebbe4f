/**
 * The slab page mover of memory_lru/slabs.c running beside the threads that allocate, link, read,
 * unlink and free items.  One step is one region in which the mover holds slabs_lock, or one
 * region in which it holds an item lock only; between two steps of the mover any other thread may
 * take a step.  Every chunk of every slab class is a cell, addressed by its index.
 */
module SlabMover {
  import opened Common

  datatype Flag = Linked | Cas | Slabbed | Fetched | Active | Chunked | Chunk | Hdr

  /** What a cell is being used for.  The program does not store this: it must infer it from flags. */
  datatype Role =
    | Absent    // memory of a page that has not been given to its class yet
    | Free      // on the freelist of its class
    | Cleared   // emptied by the mover
    | Raw       // handed out by do_slabs_alloc, not filled in yet
    | Spare     // handed out to the mover as the destination of a rescue
    | Item      // an item header with a positive reference count
    | Zombie    // an item whose count has reached 0, on its way to slabs_free
    | Link      // a chunk chained to an item header

  datatype Cell = Cell(
    flags: set<Flag>, refcount: nat, key: Key, exptime: nat, clientFlags: nat, cas: nat, data: Bytes,
    next: Ptr, prev: Ptr, head: Ptr,        // the item_chunk fields (embedded in a header, or of a chunk)
    role: Role, held: nat, chain: seq<Ptr>) // book-keeping: holders of references, chunks of a header

  datatype Fate = Saved | Expired | NoMemory

  datatype Mover =
    | Off
    | Scan(pos: nat, busy: nat, loops: nat)
    | Trying(pos: nat, busy: nat, loops: nat, it: Ptr, ch: bool)   // holds slabs_lock, wants the item lock
    | Window(pos: nat, busy: nat, loops: nat, it: Ptr, ch: bool, spare: Ptr, fate: Fate) // holds the item lock
    | Deleting(pos: nat, busy: nat, loops: nat, it: Ptr)           // holds the item lock
    | Done

  datatype State = State(
    cells: seq<Cell>,
    free: seq<seq<Ptr>>,     // freelist of each class, first out first
    hash: map<Key, Ptr>,
    lru: set<Ptr>,           // cells on an LRU list
    moving: set<Ptr>,        // cells taken off one LRU list and not yet put on the next (lock held)
    casId: nat,
    useCas: bool,            // the setting use_cas
    mover: Mover)

  /** The memory layout and the page being emptied; `range` lists its chunks from slab_start on, `later`
      the chunks of pages that the classes may still get. */
  datatype Config = Config(
    stripe: Key -> nat, cls: seq<nat>, classes: nat, src: nat, range: seq<Ptr>, perslab: nat, later: set<Ptr>)

  const SLAB_MOVE_MAX_LOOPS: nat := 1000

  ghost predicate Layout(g: Config) {
    && |g.cls| > 0
    && g.src < g.classes
    && (forall p | 0 <= p < |g.cls| :: g.cls[p] < g.classes)
    && |g.range| > 0
    && NoDup(g.range)
    && (forall i | 0 <= i < |g.range| :: 0 < g.range[i] < |g.cls| && g.cls[g.range[i]] == g.src && g.range[i] !in g.later)
  }

  predicate ValidPtr(s: State, p: Ptr) {
    0 < p < |s.cells|
  }

  function Freed(c: Cell): Cell {
    c.(flags := {Slabbed}, role := Free, held := 0, chain := [])
  }

  function Emptied(c: Cell): Cell {
    c.(flags := {Slabbed, Fetched}, refcount := 0, role := Cleared, held := 0, chain := [])
  }

  // ----- steps of the other threads ---------------------------------------------------------

  /** The item lock the mover holds, if any, protects every item with this stripe. */
  predicate MoverLocks(g: Config, s: State, k: Key) {
    match s.mover
    case Window(_, _, _, it, _, _, _) => it < |s.cells| && g.stripe(s.cells[it].key) == g.stripe(k)
    case Deleting(_, _, _, it) => it < |s.cells| && g.stripe(s.cells[it].key) == g.stripe(k)
    case _ => false
  }

  predicate SlabsLockFree(s: State) {
    !s.mover.Trying?
  }

  /** do_slabs_alloc on class `k`: pop the freelist, drop ITEM_SLABBED, seed the count with 1. */
  predicate CanAlloc(g: Config, s: State, k: nat) {
    SlabsLockFree(s) && k < |s.free| && s.free[k] != [] && ValidPtr(s, s.free[k][0])
  }
  function Alloc(g: Config, s: State, k: nat): State
    requires CanAlloc(g, s, k)
  {
    var p := s.free[k][0];
    var c := s.cells[p];
    s.(free := s.free[k := s.free[k][1..]],
       cells := s.cells[p := c.(flags := c.flags - {Slabbed}, refcount := 1, role := Raw, held := 1)])
  }

  /** do_slabs_newslab for class `k`, which has run out of chunks: the page with the chunks `ps` is split into
      the freelist. */
  predicate CanNewPage(g: Config, s: State, k: nat, ps: seq<Ptr>) {
    && SlabsLockFree(s) && k < |s.free| && s.free[k] == [] && NoDup(ps)
    && forall q | q in ps :: ValidPtr(s, q) && s.cells[q].role == Absent && q < |g.cls| && g.cls[q] == k
  }
  function SplitPage(g: Config, s: State, ps: seq<Ptr>): State
    decreases |ps|
  {
    if ps == [] || ps[0] >= |s.cells| then s else SplitPage(g, PushFree(g, s, ps[0]), ps[1..])
  }

  /** do_item_alloc after the allocation: write key, flags and, for a large item, the empty chain; `cas` is the
      id that came with the request. */
  predicate CanInit(s: State, p: Ptr, flags: set<Flag>) {
    ValidPtr(s, p) && s.cells[p].role == Raw && flags <= {Cas, Chunked, Hdr} && (Cas in flags <==> s.useCas)
  }
  function Init(s: State, p: Ptr, flags: set<Flag>, k: Key, exptime: nat, clientFlags: nat, cas: nat, data: Bytes): State
    requires CanInit(s, p, flags)
  {
    var c := s.cells[p];
    s.(cells := s.cells[p := c.(flags := c.flags + flags, key := k, exptime := exptime, clientFlags := clientFlags,
                                cas := cas, data := data, next := NULL, prev := NULL, head := p, role := Item, chain := [])])
  }

  /** The last chunk of a chain, the header itself when there is none. */
  function LastOf(h: Ptr, chain: seq<Ptr>): Ptr {
    if chain == [] then h else chain[|chain| - 1]
  }

  /** do_item_alloc_chunk: under slabs_lock, chain a fresh cell behind the last chunk of an unlinked item. */
  predicate CanAttach(s: State, h: Ptr, p: Ptr) {
    && SlabsLockFree(s)
    && ValidPtr(s, h) && s.cells[h].role == Item && Chunked in s.cells[h].flags && Linked !in s.cells[h].flags
    && ValidPtr(s, p) && s.cells[p].role == Raw
    && ValidPtr(s, LastOf(h, s.cells[h].chain))
  }
  function Attach(s: State, h: Ptr, p: Ptr, data: Bytes): State
    requires CanAttach(s, h, p)
  {
    var l := LastOf(h, s.cells[h].chain);
    var a := s.cells[l := s.cells[l].(next := p)];
    var b := a[p := a[p].(head := a[l].head, prev := l, next := NULL, data := data,
                          flags := a[p].flags + {Chunk}, role := Link, held := 0)];
    s.(cells := b[h := b[h].(chain := b[h].chain + [p])])
  }

  /** An item whose lock another thread can take, so that no one else is working on it. */
  predicate CanLock(g: Config, s: State, p: Ptr) {
    ValidPtr(s, p) && !MoverLocks(g, s, s.cells[p].key) && p !in s.moving
  }

  /** do_item_link under the item lock, of an item its caller holds a reference to. */
  predicate CanLink(g: Config, s: State, p: Ptr) {
    && CanLock(g, s, p) && s.cells[p].role == Item && Linked !in s.cells[p].flags
    && s.cells[p].key !in s.hash
    && (Chunked in s.cells[p].flags ==> s.cells[p].chain != [])
  }
  function LinkCell(s: State, p: Ptr): State
    requires p < |s.cells|
  {
    var c := s.cells[p];
    s.(cells := s.cells[p := c.(flags := c.flags + {Linked}, refcount := c.refcount + 1, cas := NewCas(s))],
       hash := s.hash[c.key := p], lru := s.lru + {p}, casId := LastCas(s))
  }

  /** get_cas_id, where CAS ids are in use: the id it gives, and the last one given then. */
  function NewCas(s: State): nat {
    if s.useCas then s.casId + 1 else 0
  }
  function LastCas(s: State): nat {
    if s.useCas then s.casId + 1 else s.casId
  }

  /** do_item_get: look the key up and take a reference; a fetch may mark the item. */
  predicate CanGet(g: Config, s: State, k: Key, marks: set<Flag>) {
    k in s.hash && CanLock(g, s, s.hash[k]) && marks <= {Fetched, Active}
  }
  function Get(g: Config, s: State, k: Key, marks: set<Flag>): State
    requires CanGet(g, s, k, marks)
  {
    var p := s.hash[k];
    var c := s.cells[p];
    s.(cells := s.cells[p := c.(flags := c.flags + marks, refcount := c.refcount + 1, held := c.held + 1)])
  }

  /** do_item_touch of an item it has a reference to. */
  predicate CanTouch(g: Config, s: State, k: Key) {
    k in s.hash && CanLock(g, s, s.hash[k]) && s.cells[s.hash[k]].held > 0
  }
  function Touch(g: Config, s: State, k: Key, exptime: nat): State
    requires CanTouch(g, s, k)
  {
    s.(cells := s.cells[s.hash[k] := s.cells[s.hash[k]].(exptime := exptime)])
  }

  /** do_add_delta in place: the only holder of an item in one piece overwrites the number in it. */
  predicate CanEdit(g: Config, s: State, k: Key, data: Bytes) {
    && CanTouch(g, s, k)
    && var c := s.cells[s.hash[k]];
       c.refcount == 2 && c.flags !! {Chunked, Hdr} && |data| == |c.data| > 2
  }
  function Edit(g: Config, s: State, k: Key, data: Bytes): State
    requires CanEdit(g, s, k, data)
  {
    s.(cells := s.cells[s.hash[k] := s.cells[s.hash[k]].(cas := NewCas(s), data := data)], casId := LastCas(s))
  }

  /** refcount_decr followed, at 0, by the decision to free. */
  function Drop(c: Cell): Cell
    requires c.refcount > 0
  {
    if c.refcount == 1 then c.(refcount := 0, role := Zombie) else c.(refcount := c.refcount - 1)
  }

  /** do_item_remove: give one reference back. */
  predicate CanRelease(g: Config, s: State, p: Ptr) {
    CanLock(g, s, p) && s.cells[p].role == Item && s.cells[p].held > 0 && s.cells[p].refcount > 0
  }
  function Release(g: Config, s: State, p: Ptr): State
    requires CanRelease(g, s, p)
  {
    s.(cells := s.cells[p := Drop(s.cells[p].(held := s.cells[p].held - 1))])
  }

  /** do_item_unlink: off the hash table and the LRU, then one reference less. */
  predicate CanUnlink(g: Config, s: State, p: Ptr) {
    CanLock(g, s, p) && s.cells[p].role == Item && Linked in s.cells[p].flags && s.cells[p].refcount > 0
  }
  function UnlinkCell(s: State, p: Ptr): State
    requires p < |s.cells| && s.cells[p].refcount > 0
  {
    var c := s.cells[p];
    s.(cells := s.cells[p := Drop(c.(flags := c.flags - {Linked}))], hash := s.hash - {c.key}, lru := s.lru - {p})
  }

  /** An item leaves one LRU list, or joins the next, with its lock held throughout. */
  predicate CanLift(g: Config, s: State, p: Ptr) {
    CanLock(g, s, p) && p in s.lru
  }
  function Lift(s: State, p: Ptr): State {
    s.(lru := s.lru - {p}, moving := s.moving + {p})
  }
  function Settle(s: State, p: Ptr): State {
    s.(lru := s.lru + {p}, moving := s.moving - {p})
  }

  /** Put one cell on the freelist of its class. */
  function PushFree(g: Config, s: State, p: Ptr): State
    requires p < |s.cells|
  {
    if p < |g.cls| && g.cls[p] < |s.free| then
      s.(cells := s.cells[p := Freed(s.cells[p])], free := s.free[g.cls[p] := [p] + s.free[g.cls[p]]])
    else s
  }

  /** The loop of do_slabs_free_chunked: free `p` and what its next pointers lead to, up to the null pointer;
      `n` only bounds the steps. */
  function FreeWalk(g: Config, s: State, p: Ptr, n: nat): State
    decreases n
  {
    if n == 0 || !ValidPtr(s, p) then s
    else FreeWalk(g, PushFree(g, s, p), s.cells[p].next, n - 1)
  }

  /** do_slabs_free of an item: the header first, then its chunks. */
  function FreeItem(g: Config, s: State, p: Ptr): State
    requires p < |s.cells|
  {
    var t := PushFree(g, s, p);
    if Chunked in s.cells[p].flags then FreeWalk(g, t, s.cells[p].next, |s.cells|) else t
  }
  predicate CanFree(s: State, p: Ptr) {
    SlabsLockFree(s) && ValidPtr(s, p) && s.cells[p].role == Zombie
  }

  // ----- steps of the mover -----------------------------------------------------------------

  /** Next chunk; at the end of the page start over if anything was busy, else the page is clear. */
  function Advance(g: Config, pos: nat, busy: nat, loops: nat): Mover {
    if pos + 1 < |g.range| then Scan(pos + 1, busy, loops)
    else if busy > 0 then Scan(0, 0, loops + 1)
    else Done
  }

  /** Look at one chunk under slabs_lock; only its flags and those of its head are consulted. */
  predicate CanLook(g: Config, s: State) {
    && s.mover.Scan? && s.mover.pos < |g.range|
    && ValidPtr(s, g.range[s.mover.pos])
    && (Chunk in s.cells[g.range[s.mover.pos]].flags ==> ValidPtr(s, s.cells[g.range[s.mover.pos]].head))
    && g.src < |s.free|
  }
  function Look(g: Config, s: State): State
    requires CanLook(g, s)
  {
    var Scan(pos, busy, loops) := s.mover;
    var c := g.range[pos];
    var ch := Chunk in s.cells[c].flags;
    var it := if ch then s.cells[c].head else c;
    var flags := s.cells[it].flags;
    if flags == {Slabbed, Fetched} then
      s.(mover := Advance(g, pos, busy, loops))
    else if Slabbed in flags then
      // slab_rebalance_cut_free, then the mark of a cleared chunk
      s.(free := s.free[g.src := Without<Ptr>(s.free[g.src], it)],
         cells := s.cells[it := Emptied(s.cells[it])],
         mover := Advance(g, pos, busy, loops))
    else if Linked in flags then
      s.(mover := Trying(pos, busy, loops, it, ch))
    else
      s.(mover := Advance(g, pos, busy + 1, loops))
  }

  /** slab_rebalance_alloc: chunks of the page being emptied are cleared as they come off the freelist. */
  function RebalanceAlloc(g: Config, cells: seq<Cell>, list: seq<Ptr>, n: nat): (r: (seq<Cell>, seq<Ptr>, Ptr))
    ensures |r.0| == |cells|
    decreases n
  {
    if n == 0 || list == [] || list[0] >= |cells| then (cells, list, NULL)
    else
      var p := list[0];
      if p in g.range then
        RebalanceAlloc(g, cells[p := Emptied(cells[p])], list[1..], n - 1)
      else
        var c := cells[p];
        (cells[p := c.(flags := c.flags - {Slabbed}, refcount := 1, role := Spare, held := 0)], list[1..], p)
  }

  /** item_trylock on the item found: another thread may be in its way. */
  predicate CanTry(g: Config, s: State, locked: bool) {
    && s.mover.Trying? && ValidPtr(s, s.mover.it) && g.src < |s.free|
    && (locked ==> forall p | p in s.moving :: p < |s.cells| && g.stripe(s.cells[p].key) != g.stripe(s.cells[s.mover.it].key))
  }
  function Try(g: Config, s: State, locked: bool, now: nat, flushed: bool): State
    requires CanTry(g, s, locked)
  {
    var Trying(pos, busy, loops, it, ch) := s.mover;
    var c := s.cells[it];
    var counted := s.(cells := s.cells[it := c.(refcount := c.refcount + 1)]);
    if !locked then
      s.(mover := Advance(g, pos, busy + 1, loops))
    else if c.refcount + 1 == 2 && Linked in c.flags then
      if (c.exptime != 0 && c.exptime < now) || flushed then
        counted.(mover := Window(pos, busy, loops, it, ch, NULL, Expired))
      else
        var (cells, list, p) := RebalanceAlloc(g, counted.cells, s.free[g.src], g.perslab);
        counted.(cells := cells, free := s.free[g.src := list],
                 mover := Window(pos, busy, loops, it, ch, p, if p == NULL then NoMemory else Saved))
    else if c.refcount + 1 > 2 && Linked in c.flags && loops > SLAB_MOVE_MAX_LOOPS then
      counted.(mover := Deleting(pos, busy, loops, it))
    else
      s.(mover := Advance(g, pos, busy + 1, loops))   // refcount_incr undone by refcount_decr
  }

  /** Walk the chunks from `p` on, up to the null pointer, and repoint their head; `n` only bounds the steps. */
  function Repoint(cells: seq<Cell>, p: Ptr, h: Ptr, n: nat): (r: seq<Cell>)
    ensures |r| == |cells|
    decreases n
  {
    if n == 0 || !(0 < p < |cells|) then cells
    else Repoint(cells[p := cells[p].(head := h)], cells[p].next, h, n - 1)
  }

  /** Rescue of a whole item into `q`: copy, unlink the old, link the new, repoint the chunks. */
  function CopyItem(s: State, it: Ptr, q: Ptr): State
    requires it < |s.cells| && q < |s.cells|
  {
    s.(cells := s.cells[q := s.cells[it].(flags := s.cells[it].flags - {Linked}, refcount := 0, held := 0)])
  }
  function FixChain(s: State, q: Ptr): State
    requires q < |s.cells|
  {
    var c := s.cells[q];
    if Chunked in c.flags then
      var a := if ValidPtr(s, c.next) then s.cells[c.next := s.cells[c.next].(prev := q)] else s.cells;
      s.(cells := Repoint(a[q := a[q].(head := q)], c.next, q, |a|))
    else s
  }
  function RescueItem(s: State, it: Ptr, q: Ptr): State
    requires it < |s.cells| && q < |s.cells| && it != q && s.cells[it].refcount > 0
  {
    var a := LinkCell(UnlinkCell(CopyItem(s, it, q), it), q);
    var b := FixChain(a, q);
    b.(cells := b.cells[it := Emptied(b.cells[it])])
  }

  /** Rescue of one chunk `c` of the item `it` into `q`. */
  function RescueChunk(s: State, it: Ptr, c: Ptr, q: Ptr): State
    requires it < |s.cells| && c < |s.cells| && q < |s.cells|
    requires s.cells[c].prev < |s.cells| && s.cells[it].refcount > 0 && it != c && it != q
  {
    var x := s.cells[c];
    var a1 := s.cells[x.prev := s.cells[x.prev].(next := q)];
    var a2 := if ValidPtr(s, x.next) then a1[x.next := a1[x.next].(prev := q)] else a1;
    var a3 := a2[q := a2[c]];
    var a4 := a3[c := Emptied(a3[c])];
    s.(cells := a4[it := a4[it].(refcount := a4[it].refcount - 1, chain := Substitute(a4[it].chain, c, q))])
  }

  function Substitute(s: seq<Ptr>, c: Ptr, q: Ptr): (r: seq<Ptr>) {
    seq(|s|, i requires 0 <= i < |s| => if s[i] == c then q else s[i])
  }

  predicate CanFinishWindow(g: Config, s: State) {
    && s.mover.Window?
    && ValidPtr(s, s.mover.it) && s.cells[s.mover.it].refcount > 0
    && s.mover.pos < |g.range| && ValidPtr(s, g.range[s.mover.pos])
    && s.mover.spare < |s.cells|
    && s.mover.spare != s.mover.it
    && (s.mover.ch ==> s.cells[g.range[s.mover.pos]].prev < |s.cells| && g.range[s.mover.pos] != s.mover.it)
  }
  /** The MOVE_FROM_LRU branch after slabs_lock was dropped. */
  function FinishWindow(g: Config, s: State): State
    requires CanFinishWindow(g, s)
  {
    var Window(pos, busy, loops, it, ch, spare, fate) := s.mover;
    if spare == NULL then
      FreeItem(g, UnlinkCell(s, it), it).(mover := Advance(g, pos, busy + 1, loops))
    else if !ch then
      RescueItem(s, it, spare).(mover := Advance(g, pos, busy, loops))
    else
      RescueChunk(s, it, g.range[pos], spare).(mover := Advance(g, pos, busy, loops))
  }

  predicate CanDelete(g: Config, s: State) {
    s.mover.Deleting? && ValidPtr(s, s.mover.it) && s.cells[s.mover.it].refcount > 2
  }
  /** The busy delete: unlink the item although it is referenced, then drop the mover's reference. */
  function Delete(g: Config, s: State): State
    requires CanDelete(g, s)
  {
    var Deleting(pos, busy, loops, it) := s.mover;
    var t := UnlinkCell(s, it);
    t.(cells := t.cells[it := Drop(t.cells[it])], mover := Advance(g, pos, busy + 1, loops))
  }

  // ----- runs -------------------------------------------------------------------------------

  datatype Action =
    | AAlloc(k: nat)
    | ANewPage(k: nat, ps: seq<Ptr>)
    | AInit(p: Ptr, flags: set<Flag>, key: Key, exptime: nat, clientFlags: nat, cas: nat, data: Bytes)
    | AAttach(h: Ptr, p: Ptr, data: Bytes)
    | ALink(p: Ptr)
    | AGet(key: Key, marks: set<Flag>)
    | ATouch(key: Key, exptime: nat)
    | AEdit(key: Key, data: Bytes)
    | ARelease(p: Ptr)
    | AUnlink(p: Ptr)
    | ALift(p: Ptr)
    | ASettle(p: Ptr)
    | AFree(p: Ptr)
    | MStart
    | MLook
    | MTry(locked: bool, now: nat, flushed: bool)
    | MFinishWindow
    | MDelete

  predicate Enabled(g: Config, s: State, a: Action) {
    match a
    case AAlloc(k) => CanAlloc(g, s, k)
    case ANewPage(k, ps) => CanNewPage(g, s, k, ps)
    case AInit(p, flags, _, _, _, _, _) => CanInit(s, p, flags)
    case AAttach(h, p, _) => CanAttach(s, h, p)
    case ALink(p) => CanLink(g, s, p)
    case AGet(k, marks) => CanGet(g, s, k, marks)
    case ATouch(k, _) => CanTouch(g, s, k)
    case AEdit(k, data) => CanEdit(g, s, k, data)
    case ARelease(p) => CanRelease(g, s, p)
    case AUnlink(p) => CanUnlink(g, s, p)
    case ALift(p) => CanLift(g, s, p)
    case ASettle(p) => p in s.moving
    case AFree(p) => CanFree(s, p)
    case MStart => s.mover.Off?
    case MLook => CanLook(g, s)
    case MTry(locked, _, _) => CanTry(g, s, locked)
    case MFinishWindow => CanFinishWindow(g, s)
    case MDelete => CanDelete(g, s)
  }

  function Apply(g: Config, s: State, a: Action): State
    requires Enabled(g, s, a)
  {
    match a
    case AAlloc(k) => Alloc(g, s, k)
    case ANewPage(k, ps) => SplitPage(g, s, ps)
    case AInit(p, flags, k, e, f, c, d) => Init(s, p, flags, k, e, f, c, d)
    case AAttach(h, p, d) => Attach(s, h, p, d)
    case ALink(p) => LinkCell(s, p)
    case AGet(k, marks) => Get(g, s, k, marks)
    case ATouch(k, e) => Touch(g, s, k, e)
    case AEdit(k, d) => Edit(g, s, k, d)
    case ARelease(p) => Release(g, s, p)
    case AUnlink(p) => UnlinkCell(s, p)
    case ALift(p) => Lift(s, p)
    case ASettle(p) => Settle(s, p)
    case AFree(p) => FreeItem(g, s, p)
    case MStart => s.(mover := Scan(0, 0, 0))
    case MLook => Look(g, s)
    case MTry(locked, now, flushed) => Try(g, s, locked, now, flushed)
    case MFinishWindow => FinishWindow(g, s)
    case MDelete => Delete(g, s)
  }

  /** A run: actions that are not enabled are skipped. */
  function Run(g: Config, s: State, actions: seq<Action>): State
    decreases |actions|
  {
    if actions == [] then s
    else Run(g, if Enabled(g, s, actions[0]) then Apply(g, s, actions[0]) else s, actions[1..])
  }
}
