/**
 * The page mover and the allocator's books in one run: each step of the state machine together with what it
 * does to freelists, page lists and requested bytes of the classes.
 */
module SlabMoverBooks {
  import opened Common
  import opened SlabMover
  import opened SlabMoverInv
  import opened SlabMoverSteps
  import opened SlabMoverSafety
  import opened SlabMoverMeaning
  import A = SlabAllocator
  import S = Slabs

  type Classes = seq<S.SlabClass>

  /** Which chunk of which page each cell is and which cell each chunk, the page being emptied, and the class it
      is meant for. */
  datatype Place = Place(at: seq<S.Chunk>, cell: map<S.Chunk, Ptr>, page: nat, dest: nat)

  ghost predicate PlaceOk(g: Config, m: Place) {
    && Layout(g) && |m.at| == |g.cls| && 0 < g.src && m.dest < g.classes && m.dest != g.src && |g.range| == g.perslab
    && (forall p: Ptr | 0 < p < |m.at| :: m.at[p] in m.cell && m.cell[m.at[p]] == p)
    && (forall p: Ptr | 0 < p < |m.at| :: m.at[p].page == m.page <==> p in g.range)
    && (forall i | 0 <= i < |g.range| :: m.at[g.range[i]] == S.Chunk(m.page, i))
    && (forall p: Ptr | 0 < p < |g.cls| :: g.cls[p] > 0)
  }

  function Chunks(at: seq<S.Chunk>, ps: seq<Ptr>): (r: seq<S.Chunk>)
    ensures |r| == |ps| && forall i | 0 <= i < |ps| && ps[i] < |at| :: r[i] == at[ps[i]]
  {
    seq(|ps|, i requires 0 <= i < |ps| => if ps[i] < |at| then at[ps[i]] else S.Chunk(0, 0))
  }

  predicate InUse(c: Cell) {
    c.role == Raw || c.role == Spare || c.role == Item || c.role == Zombie || c.role == Link
  }

  /** The books of class `k` are those of the cells: the freelist chunk by chunk, and what is in use or cleared. */
  ghost predicate Agrees(g: Config, m: Place, s: State, k: nat, p: S.SlabClass)
    requires |m.at| == |s.cells| == |g.cls| && k < |s.free|
  {
    && p.slots == Chunks(m.at, s.free[k])
    && forall q: Ptr | 0 < q < |s.cells| && g.cls[q] == k ::
         && (InUse(s.cells[q]) <==> m.at[q] in S.ChunksOf(p.live))
         && (s.cells[q].role == Cleared <==> m.at[q] in p.cleared)
  }

  ghost predicate BooksOk(g: Config, m: Place, s: State, cs: Classes) {
    && |cs| == |s.free| && |s.cells| == |g.cls| == |m.at| && A.Books(cs)
    && forall k | 0 <= k < |cs| :: Agrees(g, m, s, k, cs[k])
  }

  /** Books and mover are in step. */
  ghost predicate Joint(g: Config, m: Place, s: State, cs: Classes) {
    && PlaceOk(g, m) && Inv(g, s) && BooksOk(g, m, s, cs)
    && A.PagesOnce(cs) && A.MoveOk(cs, Some(A.Move(g.src, m.dest, m.page))) && cs[g.src].perslab == g.perslab
    && SpareOk(g, s) && Mapped(g, m, cs)
  }

  /** Every chunk of every page of a class is one of its cells. */
  ghost predicate Mapped(g: Config, m: Place, cs: Classes) {
    forall k, page, i: nat | 0 <= k < |cs| && page in cs[k].slabs && i < cs[k].perslab :: IsCell(g, m, k, S.Chunk(page, i))
  }

  ghost predicate IsCell(g: Config, m: Place, k: nat, x: S.Chunk) {
    x in m.cell && 0 < m.cell[x] < |g.cls| && g.cls[m.cell[x]] == k && m.cell[x] < |m.at| && m.at[m.cell[x]] == x
  }

  ghost predicate SpareOk(g: Config, s: State) {
    s.mover.Window? && s.mover.spare != NULL ==> s.mover.spare < |g.cls| && g.cls[s.mover.spare] == g.src
  }

  // ----- the steps --------------------------------------------------------------------------

  /** A step of the state machine, with the size that is asked for and the page that is taken, if any. */
  datatype Step = Step(a: Action, size: nat, page: nat)

  /** Sizes fit the class, a new page is not in use and cut up in order, a move starts with two pages at least. */
  ghost predicate May(g: Config, m: Place, s: State, cs: Classes, x: Step) {
    && Enabled(g, s, x.a) && |cs| == g.classes && g.src < g.classes
    && match x.a
       case AAlloc(k) => k < |cs| && x.size <= cs[k].size
       case ANewPage(k, ps) =>
         && 0 < k < |cs| && |ps| == cs[k].perslab && S.PageCount(cs, x.page) == 0
         && forall i | 0 <= i < |ps| :: ps[i] < |m.at| && m.at[ps[i]] == S.Chunk(x.page, i)
       case MStart => |cs[g.src].slabs| >= 2
       case MTry(_, _, _) => x.size <= cs[g.src].size
       case _ => true
  }

  /** The cells `ps` are given back, each to its class for what it was asked for. */
  function GivenBack(g: Config, m: Place, cs: Classes, ps: seq<Ptr>): Classes
    decreases |ps|
  {
    if ps == [] || ps[0] >= |m.at| || ps[0] >= |g.cls| || g.cls[ps[0]] >= |cs| then cs
    else
      var k := g.cls[ps[0]];
      var j := A.FindLive(cs[k].live, m.at[ps[0]]);
      if j < |cs[k].live| then GivenBack(g, m, cs[k := S.Freed(cs[k], j)], ps[1..]) else cs
  }

  /** The first `n` free chunks are cleared. */
  function Swept(p: S.SlabClass, n: nat): S.SlabClass {
    if n <= |p.slots| && n <= p.slCurr then
      p.(slots := p.slots[n..], slCurr := p.slCurr - n, cleared := p.cleared + p.slots[..n])
    else p
  }

  function Handed(p: S.SlabClass, size: nat): S.SlabClass {
    if p.slots != [] && p.slCurr > 0 then S.Popped(p, size) else p
  }

  function CutOff(p: S.SlabClass, ch: S.Chunk): S.SlabClass {
    var k := A.FindFree(p.slots, ch);
    if k < |p.slots| && p.slCurr > 0 then S.ClearedFree(p, k) else p
  }

  function Moved(p: S.SlabClass, was: S.Chunk, now: S.Chunk): S.SlabClass {
    var k, j := A.FindLive(p.live, was), A.FindLive(p.live, now);
    if k < |p.live| && j < |p.live| && k != j then S.Rescued(p, k, j) else p
  }

  /** What a step does to the books; `t` is the state after it. */
  function Booked(g: Config, m: Place, s: State, t: State, cs: Classes, x: Step): Classes
    requires |cs| == g.classes && g.src < |cs|
  {
    var p := cs[g.src];
    match x.a
    case AAlloc(k) => if k < |cs| then cs[k := Handed(cs[k], x.size)] else cs
    case ANewPage(k, _) => if k < |cs| then cs[k := S.WithPage(cs[k], x.page)] else cs
    case AFree(h) => if h < |s.cells| then GivenBack(g, m, cs, [h] + s.cells[h].chain) else cs
    case MLook =>
      if s.free == t.free || !s.mover.Scan? || s.mover.pos >= |g.range| || g.range[s.mover.pos] >= |m.at| then cs
      else cs[g.src := CutOff(p, m.at[g.range[s.mover.pos]])]
    case MTry(_, _, _) =>
      if g.src >= |s.free| || g.src >= |t.free| || |t.free[g.src]| > |s.free[g.src]| then cs
      else
        var n: nat := |s.free[g.src]| - |t.free[g.src]|;
        if n > 0 && t.mover.Window? && t.mover.spare != NULL then cs[g.src := Handed(Swept(p, n - 1), x.size)]
        else cs[g.src := Swept(p, n)]
    case MFinishWindow =>
      if !s.mover.Window? || s.mover.it >= |s.cells| then cs
      else if s.mover.spare == NULL then GivenBack(g, m, cs, [s.mover.it] + s.cells[s.mover.it].chain)
      else if s.mover.pos >= |g.range| || g.range[s.mover.pos] >= |m.at| || s.mover.spare >= |m.at| then cs
      else cs[g.src := Moved(p, m.at[g.range[s.mover.pos]], m.at[s.mover.spare])]
    case _ => cs
  }

  // ----- books of one class -----------------------------------------------------------------

  lemma LiveOnce(p: S.SlabClass, k: nat, x: S.Chunk)
    requires S.ClassOk(p) && k < |p.live|
    ensures x in S.ChunksOf(Cut(p.live, k)) <==> x in S.ChunksOf(p.live) && x != p.live[k].chunk
    ensures p.live[k].chunk in S.ChunksOf(p.live) && p.live[k].chunk !in p.cleared
  {
    var l := S.ChunksOf(p.live);
    forall y ensures multiset(l)[y] <= 1 { assert S.Count(p, y) <= 1; }
    S.NoDupMultiset(l);
    CutMembers(l, k);
    assert S.ChunksOf(Cut(p.live, k)) == Cut(l, k);
    assert S.Count(p, l[k]) <= 1 && l[k] in multiset(l);
  }

  lemma Find(live: seq<S.Live>, ch: S.Chunk)
    requires ch in S.ChunksOf(live)
    ensures A.FindLive(live, ch) < |live| && live[A.FindLive(live, ch)].chunk == ch
  {
    var i :| 0 <= i < |live| && S.ChunksOf(live)[i] == ch;
    assert live[i].chunk == ch;
  }

  lemma SweptOk(p: S.SlabClass, n: nat)
    requires S.ClassOk(p) && n <= |p.slots|
    ensures S.ClassOk(Swept(p, n))
  {
    var q := Swept(p, n);
    assert p.slots == p.slots[..n] + p.slots[n..];
    forall x ensures S.Count(q, x) == S.Count(p, x) {
      assert multiset(p.slots) == multiset(p.slots[..n]) + multiset(p.slots[n..]);
      assert multiset(q.cleared) == multiset(p.cleared) + multiset(p.slots[..n]);
    }
    S.SameChunks(p, q);
  }

  /** Page list and layout of a class stay, and what is cleared in addition lies in the page. */
  ghost predicate SamePages(p: S.SlabClass, q: S.SlabClass, src: bool, page: nat) {
    && q.slabs == p.slabs && q.perslab == p.perslab && q.size == p.size
    && (!src ==> q.cleared == p.cleared)
    && forall i | 0 <= i < |q.cleared| :: q.cleared[i] in p.cleared || q.cleared[i].page == page
  }

  /** Books that agree again after a step that leaves the pages in their classes. */
  ghost predicate Follows(g: Config, m: Place, cs: Classes, t: State, ds: Classes) {
    && BooksOk(g, m, t, ds) && |ds| == |cs|
    && forall k | 0 <= k < |cs| :: SamePages(cs[k], ds[k], k == g.src, m.page)
  }

  lemma {:induction false} SameCounts(cs: Classes, ds: Classes, x: nat)
    requires |ds| == |cs| && forall k | 0 <= k < |cs| :: ds[k].slabs == cs[k].slabs
    ensures S.PageCount(ds, x) == S.PageCount(cs, x)
  {
    if cs != [] { SameCounts(cs[..|cs| - 1], ds[..|ds| - 1], x); }
  }

  /** One class changes, and only cells of that class with it. */
  ghost predicate OneClass(g: Config, s: State, t: State, k: nat) {
    && |t.cells| == |s.cells| == |g.cls| && |t.free| == |s.free| && k < |s.free|
    && (forall j | 0 <= j < |s.free| && j != k :: t.free[j] == s.free[j])
    && forall q: Ptr | 0 < q < |s.cells| && g.cls[q] != k ::
         InUse(t.cells[q]) == InUse(s.cells[q]) && (t.cells[q].role == Cleared <==> s.cells[q].role == Cleared)
  }

  lemma SetAgrees(g: Config, m: Place, s: State, t: State, cs: Classes, k: nat, p: S.SlabClass)
    requires BooksOk(g, m, s, cs) && OneClass(g, s, t, k) && S.ClassOk(p) && Agrees(g, m, t, k, p)
    ensures BooksOk(g, m, t, cs[k := p])
  {
    var ds := cs[k := p];
    forall j | 0 <= j < |ds| ensures Agrees(g, m, t, j, ds[j]) {
      if j != k { assert Agrees(g, m, s, j, cs[j]); }
    }
  }

  lemma SetBooks(g: Config, m: Place, s: State, t: State, cs: Classes, k: nat, p: S.SlabClass)
    requires BooksOk(g, m, s, cs) && OneClass(g, s, t, k) && S.ClassOk(p) && Agrees(g, m, t, k, p)
    requires SamePages(cs[k], p, k == g.src, m.page)
    ensures Follows(g, m, cs, t, cs[k := p])
  {
    SetAgrees(g, m, s, t, cs, k, p);
  }

  /** Steps that neither move a chunk between the lists nor clear one. */
  ghost predicate SameUse(s: State, t: State) {
    && |t.cells| == |s.cells| && t.free == s.free
    && forall q: Ptr | 0 < q < |s.cells| ::
         InUse(t.cells[q]) == InUse(s.cells[q]) && (t.cells[q].role == Cleared <==> s.cells[q].role == Cleared)
  }

  lemma SameFollows(g: Config, m: Place, s: State, t: State, cs: Classes)
    requires BooksOk(g, m, s, cs) && SameUse(s, t)
    ensures Follows(g, m, cs, t, cs)
  {
    forall k | 0 <= k < |cs| ensures Agrees(g, m, t, k, cs[k]) { assert Agrees(g, m, s, k, cs[k]); }
  }

  lemma SamePagesOn(p: S.SlabClass, q: S.SlabClass, r: S.SlabClass, src: bool, page: nat)
    requires SamePages(p, q, src, page) && SamePages(q, r, src, page)
    ensures SamePages(p, r, src, page)
  {
    forall i | 0 <= i < |r.cleared| ensures r.cleared[i] in p.cleared || r.cleared[i].page == page {
      if r.cleared[i] in q.cleared {
        var j :| 0 <= j < |q.cleared| && q.cleared[j] == r.cleared[i];
      }
    }
  }

  lemma FollowsOn(g: Config, m: Place, cs: Classes, u: State, es: Classes, t: State, ds: Classes)
    requires Follows(g, m, cs, u, es) && Follows(g, m, es, t, ds)
    ensures Follows(g, m, cs, t, ds)
  {
    forall k | 0 <= k < |cs| ensures SamePages(cs[k], ds[k], k == g.src, m.page) {
      SamePagesOn(cs[k], es[k], ds[k], k == g.src, m.page);
    }
  }

  // ----- allocation -------------------------------------------------------------------------

  /** The head of the freelist of class `k` is handed out. */
  ghost predicate Hands(g: Config, s: State, t: State, k: nat) {
    && k < |s.free| && s.free[k] != [] && |t.cells| == |s.cells| == |g.cls| && t.free == s.free[k := s.free[k][1..]]
    && 0 < s.free[k][0] < |s.cells| && g.cls[s.free[k][0]] == k
    && InUse(t.cells[s.free[k][0]]) && s.cells[s.free[k][0]].role == Free
    && forall q: Ptr | 0 < q < |s.cells| && q != s.free[k][0] ::
         InUse(t.cells[q]) == InUse(s.cells[q]) && (t.cells[q].role == Cleared <==> s.cells[q].role == Cleared)
  }

  lemma HandFollows(g: Config, m: Place, s: State, t: State, cs: Classes, k: nat, size: nat)
    requires PlaceOk(g, m) && BooksOk(g, m, s, cs) && Hands(g, s, t, k) && size <= cs[k].size
    ensures Follows(g, m, cs, t, cs[k := Handed(cs[k], size)])
  {
    var p, list := cs[k], s.free[k];
    assert S.ClassOk(p) && Agrees(g, m, s, k, p);
    S.PoppedOk(p, size);
    var q := S.Popped(p, size);
    assert S.ChunksOf(q.live) == S.ChunksOf(p.live) + [m.at[list[0]]];
    assert q.slots == Chunks(m.at, list[1..]);
    SetBooks(g, m, s, t, cs, k, q);
  }

  lemma AllocFollows(g: Config, m: Place, s: State, cs: Classes, k: nat, size: nat)
    requires PlaceOk(g, m) && Inv(g, s) && BooksOk(g, m, s, cs) && CanAlloc(g, s, k) && size <= cs[k].size
    ensures Follows(g, m, cs, Alloc(g, s, k), cs[k := Handed(cs[k], size)])
  {
    assert FreeOk(g, s, k) && s.free[k][0] in s.free[k];
    HandFollows(g, m, s, Alloc(g, s, k), cs, k, size);
  }

  // ----- freeing ----------------------------------------------------------------------------

  lemma PushFollows(g: Config, m: Place, s: State, cs: Classes, x: Ptr)
    requires PlaceOk(g, m) && BooksOk(g, m, s, cs) && ValidPtr(s, x) && InUse(s.cells[x]) && g.cls[x] < |cs|
    ensures var k := g.cls[x]; var j := A.FindLive(cs[k].live, m.at[x]);
      j < |cs[k].live| && Follows(g, m, cs, PushFree(g, s, x), cs[k := S.Freed(cs[k], j)])
  {
    var k, t := g.cls[x], PushFree(g, s, x);
    var p := cs[k];
    assert S.ClassOk(p) && Agrees(g, m, s, k, p);
    Find(p.live, m.at[x]);
    var j := A.FindLive(p.live, m.at[x]);
    S.FreedOk(p, j);
    forall c ensures c in S.ChunksOf(Cut(p.live, j)) <==> c in S.ChunksOf(p.live) && c != m.at[x] { LiveOnce(p, j, c); }
    assert S.Freed(p, j).slots == Chunks(m.at, [x] + s.free[k]);
    SetBooks(g, m, s, t, cs, k, S.Freed(p, j));
  }

  lemma {:induction false} GiveFollows(g: Config, m: Place, s: State, cs: Classes, ps: seq<Ptr>)
    requires PlaceOk(g, m) && BooksOk(g, m, s, cs) && |cs| == g.classes && NoDup(ps)
    requires forall i | 0 <= i < |ps| :: ValidPtr(s, ps[i]) && InUse(s.cells[ps[i]])
    ensures Follows(g, m, cs, SplitPage(g, s, ps), GivenBack(g, m, cs, ps))
    decreases |ps|
  {
    if ps == [] {
      SameFollows(g, m, s, s, cs);
    } else {
      var x, rest := ps[0], ps[1..];
      var k, u := g.cls[x], PushFree(g, s, x);
      PushFollows(g, m, s, cs, x);
      var es := cs[k := S.Freed(cs[k], A.FindLive(cs[k].live, m.at[x]))];
      forall i | 0 <= i < |rest| ensures ValidPtr(u, rest[i]) && InUse(u.cells[rest[i]]) {
        assert rest[i] == ps[i + 1] && ps[i + 1] != ps[0];
      }
      GiveFollows(g, m, u, es, rest);
      FollowsOn(g, m, cs, u, es, SplitPage(g, u, rest), GivenBack(g, m, es, rest));
    }
  }

  lemma ItemIsSplit(g: Config, s: State, h: Ptr)
    requires Layout(g) && |s.cells| == |g.cls| && |s.free| == g.classes
    requires CellsOk(g, s) && FreesOk(g, s) && ValidPtr(s, h) && IsHeader(s.cells[h])
    ensures FreeItem(g, s, h) == SplitPage(g, s, [h] + s.cells[h].chain)
  {
    var ch := s.cells[h].chain;
    var u := PushFree(g, s, h);
    MayFreeItem(g, s, h);
    assert ([h] + ch)[1..] == ch;
    if Chunked in s.cells[h].flags {
      PushOne(g, s, h);
      MayFreeRest(g, s, u, h, ch);
      NextRest(s, u, h, ch);
      assert forall i | 0 <= i < |ch| :: ch[i] in ch;
      FitsBelow(ch, |s.cells|);
      WalkIsSplit(g, u, ch, |s.cells|);
    }
  }

  lemma FreeFollows(g: Config, m: Place, s: State, cs: Classes, h: Ptr)
    requires PlaceOk(g, m) && |s.cells| == |g.cls| && |s.free| == g.classes && BooksOk(g, m, s, cs)
    requires CellsOk(g, s) && FreesOk(g, s) && ValidPtr(s, h) && IsHeader(s.cells[h])
    ensures Follows(g, m, cs, FreeItem(g, s, h), GivenBack(g, m, cs, [h] + s.cells[h].chain))
  {
    var ps := [h] + s.cells[h].chain;
    ItemIsSplit(g, s, h);
    MayFreeItem(g, s, h);
    assert CellOk(g, s, h);
    forall i | 0 <= i < |ps| ensures ValidPtr(s, ps[i]) && InUse(s.cells[ps[i]]) {
      if i > 0 { ChainMembers(g, s, h, ps[i]); }
    }
    GiveFollows(g, m, s, cs, ps);
  }

  lemma DropFollows(g: Config, m: Place, s: State, cs: Classes)
    requires PlaceOk(g, m) && Inv(g, s) && BooksOk(g, m, s, cs) && CanFinishWindow(g, s) && s.mover.spare == NULL
    ensures Follows(g, m, cs, FinishWindow(g, s), GivenBack(g, m, cs, [s.mover.it] + s.cells[s.mover.it].chain))
  {
    var it := s.mover.it;
    var u := UnlinkCell(s, it);
    var ds := GivenBack(g, m, cs, [it] + s.cells[it].chain);
    DropUnlink(g, s);
    assert CellOk(g, s, it);
    SameFollows(g, m, s, u, cs);
    FreeFollows(g, m, u, cs, it);
    MoverOnly(g, m, cs, FreeItem(g, u, it), FinishWindow(g, s), ds);
  }

  lemma MoverOnly(g: Config, m: Place, cs: Classes, u: State, t: State, ds: Classes)
    requires Follows(g, m, cs, u, ds) && t == u.(mover := t.mover)
    ensures Follows(g, m, cs, t, ds)
  {
    forall k | 0 <= k < |ds| ensures Agrees(g, m, t, k, ds[k]) { assert Agrees(g, m, u, k, ds[k]); }
  }

  // ----- a new page -------------------------------------------------------------------------

  function Backwards(ps: seq<Ptr>): (r: seq<Ptr>)
    ensures |r| == |ps| && forall i | 0 <= i < |ps| :: r[i] == ps[|ps| - 1 - i]
  {
    seq(|ps|, i requires 0 <= i < |ps| => ps[|ps| - 1 - i])
  }

  lemma {:induction false} SplitFrees(g: Config, s: State, ps: seq<Ptr>, k: nat)
    requires k < |s.free| && |s.cells| == |g.cls| && forall i | 0 <= i < |ps| :: ValidPtr(s, ps[i]) && g.cls[ps[i]] == k
    ensures var t := SplitPage(g, s, ps);
      && |t.free| == |s.free| && t.free[k] == Backwards(ps) + s.free[k]
      && forall j | 0 <= j < |s.free| && j != k :: t.free[j] == s.free[j]
    decreases |ps|
  {
    if ps != [] {
      assert forall i | 0 <= i < |ps[1..]| :: ps[1..][i] == ps[i + 1];
      SplitFrees(g, PushFree(g, s, ps[0]), ps[1..], k);
      assert Backwards(ps) == Backwards(ps[1..]) + [ps[0]];
    }
  }

  lemma PageAgrees(g: Config, m: Place, s: State, t: State, k: nat, p: S.SlabClass, page: nat, ps: seq<Ptr>)
    requires |m.at| == |s.cells| == |t.cells| == |g.cls| && k < |s.free| == |t.free| && Agrees(g, m, s, k, p)
    requires |ps| == p.perslab && t.free[k] == Backwards(ps) + s.free[k]
    requires forall i | 0 <= i < |ps| :: ps[i] < |m.at| && m.at[ps[i]] == S.Chunk(page, i)
    requires forall q: Ptr | 0 < q < |s.cells| ::
      InUse(t.cells[q]) == InUse(s.cells[q]) && (t.cells[q].role == Cleared <==> s.cells[q].role == Cleared)
    ensures Agrees(g, m, t, k, S.WithPage(p, page))
  {
    assert S.WithPage(p, page).slots == Chunks(m.at, t.free[k]);
  }

  lemma PageBooks(cs: Classes, k: nat, page: nat)
    requires A.Books(cs) && k < |cs| && S.PageCount(cs, page) == 0
    ensures S.ClassOk(S.WithPage(cs[k], page))
  {
    A.NotThere(cs, k, page);
    assert S.ClassOk(cs[k]);
    S.WithPageOk(cs[k], page);
  }

  lemma PageFollows(g: Config, m: Place, s: State, cs: Classes, k: nat, ps: seq<Ptr>, page: nat)
    requires Inv(g, s) && BooksOk(g, m, s, cs) && CanNewPage(g, s, k, ps) && k < |cs|
    requires |ps| == cs[k].perslab && S.PageCount(cs, page) == 0
    requires forall i | 0 <= i < |ps| :: ps[i] < |m.at| && m.at[ps[i]] == S.Chunk(page, i)
    ensures BooksOk(g, m, SplitPage(g, s, ps), cs[k := S.WithPage(cs[k], page)])
  {
    var t := SplitPage(g, s, ps);
    PageUse(g, s, k, ps);
    PageBooks(cs, k, page);
    PageAgrees(g, m, s, t, k, cs[k], page, ps);
    SetAgrees(g, m, s, t, cs, k, S.WithPage(cs[k], page));
  }

  lemma PageUse(g: Config, s: State, k: nat, ps: seq<Ptr>)
    requires Inv(g, s) && CanNewPage(g, s, k, ps)
    ensures var t := SplitPage(g, s, ps);
      && |t.cells| == |s.cells| && |t.free| == |s.free| && t.free[k] == Backwards(ps) + s.free[k]
      && (forall j | 0 <= j < |s.free| && j != k :: t.free[j] == s.free[j])
      && forall q: Ptr | 0 < q < |s.cells| ::
           InUse(t.cells[q]) == InUse(s.cells[q]) && (t.cells[q].role == Cleared <==> s.cells[q].role == Cleared)
  {
    assert forall i | 0 <= i < |ps| :: ps[i] in ps;
    SplitFrees(g, s, ps, k);
    NewPageExact(g, s, k, ps);
  }

  // ----- looking at a chunk -----------------------------------------------------------------

  lemma {:induction false} WithoutIsCut(s: seq<Ptr>, k: nat)
    requires NoDup(s) && k < |s|
    ensures Without(s, s[k]) == Cut(s, k)
  {
    if k > 0 {
      assert s[0] != s[k] && s[1..][k - 1] == s[k];
      WithoutIsCut(s[1..], k - 1);
    }
  }

  lemma ChunkIn(g: Config, m: Place, list: seq<Ptr>, x: Ptr)
    requires PlaceOk(g, m) && 0 < x < |m.at| && forall i | 0 <= i < |list| :: 0 < list[i] < |m.at|
    ensures x in list <==> m.at[x] in Chunks(m.at, list)
  {
    if x in list {
      var i :| 0 <= i < |list| && list[i] == x;
      assert Chunks(m.at, list)[i] == m.at[x];
    }
  }

  lemma FoundAt(g: Config, m: Place, list: seq<Ptr>, x: Ptr)
    requires PlaceOk(g, m) && x in list && forall i | 0 <= i < |list| :: 0 < list[i] < |m.at|
    ensures var k := A.FindFree(Chunks(m.at, list), m.at[x]); k < |list| && list[k] == x
  {
    ChunkIn(g, m, list, x);
    var k := A.FindFree(Chunks(m.at, list), m.at[x]);
    assert m.at[list[k]] == m.at[x];
  }

  lemma ChunksCut(at: seq<S.Chunk>, list: seq<Ptr>, k: nat)
    requires k < |list| && forall i | 0 <= i < |list| :: list[i] < |at|
    ensures Chunks(at, Cut(list, k)) == Cut(Chunks(at, list), k)
  {
  }

  /** Cutting a cell off the list is cutting its chunk off the freelist of the books. */
  lemma CutAgrees(g: Config, m: Place, list: seq<Ptr>, x: Ptr)
    requires PlaceOk(g, m) && NoDup(list) && x in list && forall i | 0 <= i < |list| :: 0 < list[i] < |m.at|
    ensures var k := A.FindFree(Chunks(m.at, list), m.at[x]);
      k < |list| && list[k] == x && Chunks(m.at, Without(list, x)) == Cut(Chunks(m.at, list), k)
  {
    var k := A.FindFree(Chunks(m.at, list), m.at[x]);
    FoundAt(g, m, list, x);
    WithoutIsCut(list, k);
    ChunksCut(m.at, list, k);
  }

  /** The free cell `x` of the page is cut off and cleared. */
  ghost predicate Cuts(g: Config, s: State, t: State, x: Ptr) {
    && g.src < |s.free| && |t.cells| == |s.cells| == |g.cls| && t.free == s.free[g.src := Without<Ptr>(s.free[g.src], x)]
    && x in g.range && 0 < x < |s.cells| && g.cls[x] == g.src && x in s.free[g.src] && NoDup(s.free[g.src])
    && (forall i | 0 <= i < |s.free[g.src]| :: 0 < s.free[g.src][i] < |s.cells|)
    && !InUse(s.cells[x]) && t.cells[x].role == Cleared
    && forall y: Ptr | 0 < y < |s.cells| && y != x ::
         InUse(t.cells[y]) == InUse(s.cells[y]) && (t.cells[y].role == Cleared <==> s.cells[y].role == Cleared)
  }

  lemma CutFollows(g: Config, m: Place, s: State, t: State, cs: Classes, x: Ptr)
    requires PlaceOk(g, m) && BooksOk(g, m, s, cs) && Cuts(g, s, t, x)
    ensures Follows(g, m, cs, t, cs[g.src := CutOff(cs[g.src], m.at[x])])
  {
    var p := cs[g.src];
    assert S.ClassOk(p) && Agrees(g, m, s, g.src, p);
    CutAgrees(g, m, s.free[g.src], x);
    var k := A.FindFree(p.slots, m.at[x]);
    S.ClearedFreeOk(p, k);
    SetBooks(g, m, s, t, cs, g.src, S.ClearedFree(p, k));
  }

  lemma LookCuts(g: Config, s: State)
    requires Inv(g, s) && CanLook(g, s) && s.cells[g.range[s.mover.pos]].role == Free
    ensures Cuts(g, s, Look(g, s), g.range[s.mover.pos]) && Look(g, s).free != s.free
  {
    var c := g.range[s.mover.pos];
    RoleFromFlags(g, s, c);
    ListedCells(g, s);
    assert CellOk(g, s, c) && FreeOk(g, s, g.src);
    assert |Look(g, s).free[g.src]| < |s.free[g.src]|;
  }

  lemma LookLeaves(g: Config, s: State)
    requires Inv(g, s) && CanLook(g, s) && s.cells[g.range[s.mover.pos]].role != Free
    ensures SameUse(s, Look(g, s))
  {
    var c := g.range[s.mover.pos];
    RoleFromFlags(g, s, c);
    assert CellOk(g, s, c);
    RoleFromFlags(g, s, if Chunk in s.cells[c].flags then s.cells[c].head else c);
  }

  lemma LookFollows(g: Config, m: Place, s: State, cs: Classes, x: Step)
    requires Joint(g, m, s, cs) && May(g, m, s, cs, x) && x.a.MLook?
    ensures Stepped(g, m, s, cs, x)
  {
    var c := g.range[s.mover.pos];
    if s.cells[c].role == Free {
      LookCuts(g, s);
      CutFollows(g, m, s, Look(g, s), cs, c);
    } else {
      LookLeaves(g, s);
      SameFollows(g, m, s, Look(g, s), cs);
    }
  }

  // ----- the rescue allocation --------------------------------------------------------------

  /** The first `n` free cells are cleared. */
  ghost predicate Sweeps(g: Config, s: State, t: State, n: nat) {
    && g.src < |s.free| && n <= |s.free[g.src]| && |t.cells| == |s.cells| == |g.cls|
    && t.free == s.free[g.src := s.free[g.src][n..]]
    && (forall i | 0 <= i < |s.free[g.src]| :: 0 < s.free[g.src][i] < |s.cells| && g.cls[s.free[g.src][i]] == g.src)
    && (forall i | 0 <= i < n :: s.free[g.src][i] in g.range)
    && forall q: Ptr | 0 < q < |s.cells| ::
         if q in s.free[g.src][..n] then t.cells[q].role == Cleared && !InUse(s.cells[q])
         else InUse(t.cells[q]) == InUse(s.cells[q]) && (t.cells[q].role == Cleared <==> s.cells[q].role == Cleared)
  }

  lemma SweptPages(g: Config, m: Place, s: State, p: S.SlabClass, n: nat)
    requires PlaceOk(g, m) && S.ClassOk(p) && g.src < |s.free| && n <= |s.free[g.src]| && p.slots == Chunks(m.at, s.free[g.src])
    requires forall i | 0 <= i < n :: 0 < s.free[g.src][i] < |m.at| && s.free[g.src][i] in g.range
    ensures SamePages(p, Swept(p, n), true, m.page)
  {
    var q, list := Swept(p, n), s.free[g.src];
    forall i | 0 <= i < |q.cleared| ensures q.cleared[i] in p.cleared || q.cleared[i].page == m.page {
      if i >= |p.cleared| { assert q.cleared[i] == m.at[list[i - |p.cleared|]]; }
    }
  }

  lemma ChunksSplit(at: seq<S.Chunk>, list: seq<Ptr>, n: nat)
    requires n <= |list| && forall i | 0 <= i < |list| :: list[i] < |at|
    ensures Chunks(at, list)[..n] == Chunks(at, list[..n]) && Chunks(at, list)[n..] == Chunks(at, list[n..])
  {
  }

  lemma SweptCell(g: Config, m: Place, s: State, t: State, p: S.SlabClass, n: nat, x: Ptr)
    requires PlaceOk(g, m) && Sweeps(g, s, t, n) && S.ClassOk(p) && Agrees(g, m, s, g.src, p)
    requires 0 < x < |s.cells| && g.cls[x] == g.src
    ensures InUse(t.cells[x]) <==> m.at[x] in S.ChunksOf(Swept(p, n).live)
    ensures t.cells[x].role == Cleared <==> m.at[x] in Swept(p, n).cleared
  {
    var list := s.free[g.src];
    ChunksSplit(m.at, list, n);
    ChunkIn(g, m, list[..n], x);
  }

  lemma SweptAgrees(g: Config, m: Place, s: State, t: State, p: S.SlabClass, n: nat)
    requires PlaceOk(g, m) && Sweeps(g, s, t, n) && S.ClassOk(p) && Agrees(g, m, s, g.src, p)
    ensures Agrees(g, m, t, g.src, Swept(p, n))
  {
    ChunksSplit(m.at, s.free[g.src], n);
    forall x: Ptr | 0 < x < |s.cells| && g.cls[x] == g.src
      ensures (InUse(t.cells[x]) <==> m.at[x] in S.ChunksOf(Swept(p, n).live)) && (t.cells[x].role == Cleared <==> m.at[x] in Swept(p, n).cleared)
    {
      SweptCell(g, m, s, t, p, n, x);
    }
  }

  lemma SweptFollows(g: Config, m: Place, s: State, t: State, cs: Classes, n: nat)
    requires PlaceOk(g, m) && BooksOk(g, m, s, cs) && Sweeps(g, s, t, n)
    ensures Follows(g, m, cs, t, cs[g.src := Swept(cs[g.src], n)])
  {
    assert S.ClassOk(cs[g.src]) && Agrees(g, m, s, g.src, cs[g.src]);
    SweptOk(cs[g.src], n);
    SweptAgrees(g, m, s, t, cs[g.src], n);
    SweptPages(g, m, s, cs[g.src], n);
    assert forall q: Ptr | 0 < q < |s.cells| && g.cls[q] != g.src :: q !in s.free[g.src][..n];
    SetBooks(g, m, s, t, cs, g.src, Swept(cs[g.src], n));
  }

  lemma SweptNone(cs: Classes, k: nat)
    requires k < |cs|
    ensures cs[k := Swept(cs[k], 0)] == cs
  {
    assert Swept(cs[k], 0) == cs[k];
  }

  /** The state between clearing `n` free cells and handing out the next one. */
  function SweptState(g: Config, s: State, n: nat): (u: State)
    requires g.src < |s.free| && n <= |s.free[g.src]|
    ensures |u.cells| == |s.cells|
  {
    s.(cells := seq(|s.cells|, x requires 0 <= x < |s.cells| => if x in s.free[g.src][..n] then Emptied(s.cells[x]) else s.cells[x]),
       free := s.free[g.src := s.free[g.src][n..]])
  }

  lemma ListedCells(g: Config, s: State)
    requires Inv(g, s)
    ensures var list := s.free[g.src];
      NoDup(list) && forall i | 0 <= i < |list| :: 0 < list[i] < |s.cells| && s.cells[list[i]].role == Free && g.cls[list[i]] == g.src
  {
    var list := s.free[g.src];
    assert FreeOk(g, s, g.src);
    forall i | 0 <= i < |list| ensures 0 < list[i] < |s.cells| && s.cells[list[i]].role == Free && g.cls[list[i]] == g.src {
      assert list[i] in list;
    }
  }

  lemma TakenSweeps(g: Config, s: State, t: State, it: Ptr, n: nat)
    requires Inv(g, s) && Taken(g, s, t, it, NULL, n)
    ensures Sweeps(g, s, t, n)
  {
    ListedCells(g, s);
  }

  lemma TakenLast(g: Config, s: State, t: State, it: Ptr, p: Ptr, n: nat)
    requires Inv(g, s) && Taken(g, s, t, it, p, n) && p != NULL
    ensures n > 0 && p == s.free[g.src][n - 1] && 0 < p < |s.cells| && g.cls[p] == g.src && s.cells[p].role == Free
    ensures p !in s.free[g.src][..n - 1] && s.free[g.src][..n] == s.free[g.src][..n - 1] + [p]
  {
    ListedCells(g, s);
  }

  lemma TakenFirst(g: Config, s: State, t: State, it: Ptr, p: Ptr, n: nat)
    requires Inv(g, s) && Taken(g, s, t, it, p, n) && p != NULL && n > 0 && p == s.free[g.src][n - 1]
    ensures Sweeps(g, s, SweptState(g, s, n - 1), n - 1)
  {
    ListedCells(g, s);
    TakenInPage(g, s, t, it, p, n);
    FreeNotInUse(g, s, n - 1);
  }

  lemma TakenInPage(g: Config, s: State, t: State, it: Ptr, p: Ptr, n: nat)
    requires Taken(g, s, t, it, p, n) && p != NULL && n > 0 && p == s.free[g.src][n - 1] && NoDup(s.free[g.src])
    ensures forall i | 0 <= i < n - 1 :: s.free[g.src][i] in g.range
  {
    var list := s.free[g.src];
    forall i | 0 <= i < n - 1 ensures list[i] in g.range { assert list[i] != list[n - 1]; }
  }

  lemma FreeNotInUse(g: Config, s: State, n: nat)
    requires Inv(g, s) && n <= |s.free[g.src]|
    ensures forall q: Ptr | q in s.free[g.src][..n] :: ValidPtr(s, q) && !InUse(s.cells[q])
  {
    ListedCells(g, s);
  }

  lemma TakenHands(g: Config, s: State, t: State, it: Ptr, p: Ptr, n: nat)
    requires Inv(g, s) && Taken(g, s, t, it, p, n) && p != NULL
    ensures n > 0 && Hands(g, SweptState(g, s, n - 1), t, g.src)
  {
    var list := s.free[g.src];
    TakenLast(g, s, t, it, p, n);
    var u := SweptState(g, s, n - 1);
    assert u.free[g.src][0] == p && u.free[g.src][1..] == list[n..];
    assert forall q | q != p :: q in list[..n] <==> q in list[..n - 1];
  }

  /** Some cells are cleared and the next one is handed out. */
  lemma SweptHanded(g: Config, m: Place, s: State, u: State, t: State, cs: Classes, n: nat, size: nat)
    requires PlaceOk(g, m) && BooksOk(g, m, s, cs) && Sweeps(g, s, u, n) && Hands(g, u, t, g.src) && size <= cs[g.src].size
    ensures Follows(g, m, cs, t, cs[g.src := Handed(Swept(cs[g.src], n), size)])
  {
    var es := cs[g.src := Swept(cs[g.src], n)];
    SweptFollows(g, m, s, u, cs, n);
    HandFollows(g, m, u, t, es, g.src, size);
    FollowsOn(g, m, cs, u, es, t, es[g.src := Handed(es[g.src], size)]);
    assert es[g.src := Handed(es[g.src], size)] == cs[g.src := Handed(Swept(cs[g.src], n), size)];
  }

  /** The mover has pulled `n` chunks off the freelist, the last of them to rescue into unless there was none. */
  lemma PulledFollows(g: Config, m: Place, s: State, t: State, cs: Classes, n: nat, size: nat)
    requires PlaceOk(g, m) && Inv(g, s) && BooksOk(g, m, s, cs) && size <= cs[g.src].size
    requires t.mover.Window? && Taken(g, s, t, t.mover.it, t.mover.spare, n)
    ensures var p := cs[g.src];
      Follows(g, m, cs, t, cs[g.src := if n > 0 && t.mover.spare != NULL then Handed(Swept(p, n - 1), size) else Swept(p, n)])
  {
    if t.mover.spare == NULL {
      PulledNone(g, m, s, t, cs, n);
    } else {
      PulledSpare(g, m, s, t, cs, n, size);
    }
  }

  lemma PulledNone(g: Config, m: Place, s: State, t: State, cs: Classes, n: nat)
    requires PlaceOk(g, m) && Inv(g, s) && BooksOk(g, m, s, cs) && t.mover.Window? && Taken(g, s, t, t.mover.it, NULL, n)
    ensures Follows(g, m, cs, t, cs[g.src := Swept(cs[g.src], n)])
  {
    TakenSweeps(g, s, t, t.mover.it, n);
    SweptFollows(g, m, s, t, cs, n);
  }

  /** Between clearing the cells of the page and handing out the one beyond it. */
  lemma PulledSteps(g: Config, s: State, t: State, n: nat) returns (u: State)
    requires Inv(g, s) && t.mover.Window? && Taken(g, s, t, t.mover.it, t.mover.spare, n) && t.mover.spare != NULL
    ensures n > 0 && Sweeps(g, s, u, n - 1) && Hands(g, u, t, g.src)
  {
    TakenLast(g, s, t, t.mover.it, t.mover.spare, n);
    TakenFirst(g, s, t, t.mover.it, t.mover.spare, n);
    TakenHands(g, s, t, t.mover.it, t.mover.spare, n);
    u := SweptState(g, s, n - 1);
  }

  lemma PulledSpare(g: Config, m: Place, s: State, t: State, cs: Classes, n: nat, size: nat)
    requires PlaceOk(g, m) && Inv(g, s) && BooksOk(g, m, s, cs) && size <= cs[g.src].size
    requires t.mover.Window? && Taken(g, s, t, t.mover.it, t.mover.spare, n) && t.mover.spare != NULL
    ensures n > 0 && Follows(g, m, cs, t, cs[g.src := Handed(Swept(cs[g.src], n - 1), size)])
  {
    var u := PulledSteps(g, s, t, n);
    SweptHanded(g, m, s, u, t, cs, n - 1, size);
  }

  lemma TryTakes(g: Config, s: State, now: nat, flushed: bool) returns (n: nat)
    requires Inv(g, s) && CanTry(g, s, true)
    requires var t := Try(g, s, true, now, flushed); t.mover.Window? && t.mover.fate != Expired
    ensures var t := Try(g, s, true, now, flushed);
      Taken(g, s, t, s.mover.it, t.mover.spare, n) && n == |s.free[g.src]| - |t.free[g.src]|
  {
    var it, list := s.mover.it, s.free[g.src];
    ListedCells(g, s);
    n := RebalanceExact(g, s.cells[it := s.cells[it].(refcount := s.cells[it].refcount + 1)], list, g.perslab);
  }

  lemma TryLeaves(g: Config, s: State, locked: bool, now: nat, flushed: bool)
    requires CanTry(g, s, locked)
    requires var t := Try(g, s, locked, now, flushed); !(locked && t.mover.Window? && t.mover.fate != Expired)
    ensures var t := Try(g, s, locked, now, flushed); SameUse(s, t) && SpareOk(g, t)
  {
  }

  lemma TryBooked(g: Config, m: Place, s: State, t: State, cs: Classes, x: Step, n: nat)
    requires |cs| == g.classes && g.src < |cs| && x.a.MTry? && g.src < |s.free| && g.src < |t.free|
    requires n == |s.free[g.src]| - |t.free[g.src]| && (n > 0 ==> t.mover.Window?)
    ensures Booked(g, m, s, t, cs, x) ==
      cs[g.src := if n > 0 && t.mover.spare != NULL then Handed(Swept(cs[g.src], n - 1), x.size) else Swept(cs[g.src], n)]
  {
  }

  lemma TryFollows(g: Config, m: Place, s: State, cs: Classes, x: Step)
    requires Joint(g, m, s, cs) && May(g, m, s, cs, x) && x.a.MTry?
    ensures Stepped(g, m, s, cs, x) && SpareOk(g, Apply(g, s, x.a))
  {
    var t := Try(g, s, x.a.locked, x.a.now, x.a.flushed);
    if x.a.locked && t.mover.Window? && t.mover.fate != Expired {
      var n := TryTakes(g, s, x.a.now, x.a.flushed);
      TryBooked(g, m, s, t, cs, x, n);
      PulledFollows(g, m, s, t, cs, n, x.size);
      if t.mover.spare != NULL { TakenLast(g, s, t, s.mover.it, t.mover.spare, n); }
    } else {
      TryLeaves(g, s, x.a.locked, x.a.now, x.a.flushed);
      TryBooked(g, m, s, t, cs, x, 0);
      SweptNone(cs, g.src);
      SameFollows(g, m, s, t, cs);
    }
  }

  // ----- the rescue -------------------------------------------------------------------------

  /** Cell `c` of the page is cleared, and what it was used for goes on in `q`. */
  ghost predicate Moves(g: Config, s: State, t: State, c: Ptr, q: Ptr) {
    && |t.cells| == |s.cells| == |g.cls| && t.free == s.free
    && ValidPtr(s, c) && ValidPtr(s, q) && c != q && c in g.range && g.cls[c] == g.src == g.cls[q] && g.src < |s.free|
    && InUse(s.cells[c]) && InUse(s.cells[q]) && t.cells[c].role == Cleared
    && forall y: Ptr | 0 < y < |s.cells| && y != c ::
         InUse(t.cells[y]) == InUse(s.cells[y]) && (t.cells[y].role == Cleared <==> s.cells[y].role == Cleared)
  }

  lemma MovedBooks(p: S.SlabClass, k: nat, j: nat, x: S.Chunk)
    requires S.ClassOk(p) && k < |p.live| && j < |p.live| && k != j
    ensures var q := S.Rescued(p, k, j);
      && q.slots == p.slots && q.cleared == p.cleared + [p.live[k].chunk]
      && (x in S.ChunksOf(q.live) <==> x in S.ChunksOf(p.live) && x != p.live[k].chunk)
  {
    var moved := p.live[j := S.Live(p.live[j].chunk, p.live[k].request)];
    assert S.ChunksOf(moved) == S.ChunksOf(p.live) && S.ChunksOf(Cut(moved, k)) == S.ChunksOf(Cut(p.live, k));
    LiveOnce(p, k, x);
  }

  lemma MovedFollows(g: Config, m: Place, s: State, t: State, cs: Classes, c: Ptr, q: Ptr)
    requires PlaceOk(g, m) && BooksOk(g, m, s, cs) && Moves(g, s, t, c, q)
    ensures Follows(g, m, cs, t, cs[g.src := Moved(cs[g.src], m.at[c], m.at[q])])
  {
    var p := cs[g.src];
    assert S.ClassOk(p) && Agrees(g, m, s, g.src, p);
    Find(p.live, m.at[c]);
    Find(p.live, m.at[q]);
    var k, j := A.FindLive(p.live, m.at[c]), A.FindLive(p.live, m.at[q]);
    S.RescuedOk(p, k, j);
    MovedAgrees(g, m, s, t, p, c, q, k, j);
    SetBooks(g, m, s, t, cs, g.src, S.Rescued(p, k, j));
  }

  lemma MovedAgrees(g: Config, m: Place, s: State, t: State, p: S.SlabClass, c: Ptr, q: Ptr, k: nat, j: nat)
    requires PlaceOk(g, m) && Moves(g, s, t, c, q) && S.ClassOk(p) && Agrees(g, m, s, g.src, p)
    requires k < |p.live| && j < |p.live| && k != j && p.live[k].chunk == m.at[c]
    ensures Agrees(g, m, t, g.src, S.Rescued(p, k, j)) && SamePages(p, S.Rescued(p, k, j), true, m.page)
  {
    var r := S.Rescued(p, k, j);
    MovedBooks(p, k, j, m.at[c]);
    forall y: Ptr | 0 < y < |s.cells| && g.cls[y] == g.src
      ensures (InUse(t.cells[y]) <==> m.at[y] in S.ChunksOf(r.live)) && (t.cells[y].role == Cleared <==> m.at[y] in r.cleared)
    {
      MovedBooks(p, k, j, m.at[y]);
    }
  }

  lemma RescueFollows(g: Config, m: Place, s: State, cs: Classes)
    requires Joint(g, m, s, cs) && CanFinishWindow(g, s) && s.mover.spare != NULL
    ensures Follows(g, m, cs, FinishWindow(g, s), cs[g.src := Moved(cs[g.src], m.at[g.range[s.mover.pos]], m.at[s.mover.spare])])
  {
    RescueMoves(g, s);
    MovedFollows(g, m, s, FinishWindow(g, s), cs, g.range[s.mover.pos], s.mover.spare);
  }

  lemma RescueMoves(g: Config, s: State)
    requires Inv(g, s) && CanFinishWindow(g, s) && s.mover.spare != NULL && SpareOk(g, s)
    ensures Moves(g, s, FinishWindow(g, s), g.range[s.mover.pos], s.mover.spare)
  {
    if s.mover.ch { ChunkMoves(g, s); } else { ItemMoves(g, s); }
  }

  lemma ChunkMoves(g: Config, s: State)
    requires Inv(g, s) && CanFinishWindow(g, s) && s.mover.spare != NULL && SpareOk(g, s) && s.mover.ch
    ensures Moves(g, s, FinishWindow(g, s), g.range[s.mover.pos], s.mover.spare)
  {
    ChunkRoles(g, s, s.mover.spare);
  }

  lemma ItemMoves(g: Config, s: State)
    requires Inv(g, s) && CanFinishWindow(g, s) && s.mover.spare != NULL && SpareOk(g, s) && !s.mover.ch
    ensures Moves(g, s, FinishWindow(g, s), g.range[s.mover.pos], s.mover.spare)
  {
    RescueRoles(g, s, s.mover.spare);
  }

  // ----- runs -------------------------------------------------------------------------------

  lemma OthersUse(g: Config, s: State, a: Action)
    requires Enabled(g, s, a)
    requires !a.AAlloc? && !a.ANewPage? && !a.AAttach? && !a.AFree? && !a.MLook? && !a.MTry? && !a.MFinishWindow?
    ensures SameUse(s, Apply(g, s, a))
  {
  }

  lemma AttachUse(g: Config, s: State, h: Ptr, p: Ptr, data: Bytes)
    requires Inv(g, s) && CanAttach(s, h, p)
    ensures SameUse(s, Attach(s, h, p, data))
  {
    AttachCells(g, s, h, p, data);
  }

  /** Books and cells have taken the step together. */
  ghost predicate Stepped(g: Config, m: Place, s: State, cs: Classes, x: Step)
    requires Enabled(g, s, x.a) && |cs| == g.classes && g.src < |cs|
  {
    var t := Apply(g, s, x.a);
    Follows(g, m, cs, t, Booked(g, m, s, t, cs, x))
  }

  lemma AllocStepped(g: Config, m: Place, s: State, cs: Classes, x: Step)
    requires Joint(g, m, s, cs) && May(g, m, s, cs, x) && x.a.AAlloc?
    ensures Stepped(g, m, s, cs, x)
  {
    AllocFollows(g, m, s, cs, x.a.k, x.size);
  }

  lemma FreeStepped(g: Config, m: Place, s: State, cs: Classes, x: Step)
    requires Joint(g, m, s, cs) && May(g, m, s, cs, x) && x.a.AFree?
    ensures Stepped(g, m, s, cs, x)
  {
    FreeFollows(g, m, s, cs, x.a.p);
  }

  lemma WindowStepped(g: Config, m: Place, s: State, cs: Classes, x: Step)
    requires Joint(g, m, s, cs) && May(g, m, s, cs, x) && x.a.MFinishWindow?
    ensures Stepped(g, m, s, cs, x)
  {
    if s.mover.spare == NULL { DropFollows(g, m, s, cs); } else { RescueFollows(g, m, s, cs); }
  }

  lemma OthersStepped(g: Config, m: Place, s: State, cs: Classes, x: Step)
    requires Joint(g, m, s, cs) && May(g, m, s, cs, x)
    requires !x.a.AAlloc? && !x.a.ANewPage? && !x.a.AFree? && !x.a.MLook? && !x.a.MTry? && !x.a.MFinishWindow?
    ensures Stepped(g, m, s, cs, x)
  {
    if x.a.AAttach? { AttachUse(g, s, x.a.h, x.a.p, x.a.data); } else { OthersUse(g, s, x.a); }
    SameFollows(g, m, s, Apply(g, s, x.a), cs);
  }

  /** Every step but that for a new page keeps books and cells in step, and the pages in their classes. */
  lemma StepFollows(g: Config, m: Place, s: State, cs: Classes, x: Step)
    requires Joint(g, m, s, cs) && May(g, m, s, cs, x) && !x.a.ANewPage?
    ensures Stepped(g, m, s, cs, x)
  {
    match x.a
    case AAlloc(_) => AllocStepped(g, m, s, cs, x);
    case AFree(_) => FreeStepped(g, m, s, cs, x);
    case MLook => LookFollows(g, m, s, cs, x);
    case MTry(_, _, _) => TryFollows(g, m, s, cs, x);
    case MFinishWindow => WindowStepped(g, m, s, cs, x);
    case _ => OthersStepped(g, m, s, cs, x);
  }

  lemma SpareStays(g: Config, s: State, a: Action)
    requires Inv(g, s) && Enabled(g, s, a) && SpareOk(g, s) && !a.MTry?
    ensures SpareOk(g, Apply(g, s, a))
  {
    match a
    case ANewPage(k, ps) => NewPageExact(g, s, k, ps);
    case AFree(h) => FreeItemExact(g, s, h);
    case _ =>
  }

  lemma JointOn(g: Config, m: Place, s: State, t: State, cs: Classes, ds: Classes)
    requires Joint(g, m, s, cs) && Inv(g, t) && Follows(g, m, cs, t, ds) && SpareOk(g, t)
    ensures Joint(g, m, t, ds)
  {
    forall x ensures S.PageCount(ds, x) <= 1 { SameCounts(cs, ds, x); }
    forall k | 0 <= k < |cs| ensures SamePages(cs[k], ds[k], k == g.src, m.page) { }
    var p, q := cs[g.src], ds[g.src];
    forall i | 0 <= i < |q.cleared| ensures q.cleared[i].page == m.page {
      if q.cleared[i] in p.cleared {
        var j :| 0 <= j < |p.cleared| && p.cleared[j] == q.cleared[i];
      }
    }
  }

  lemma PageMapped(g: Config, m: Place, s: State, cs: Classes, x: Step)
    requires Joint(g, m, s, cs) && May(g, m, s, cs, x) && x.a.ANewPage?
    ensures Mapped(g, m, cs[x.a.k := S.WithPage(cs[x.a.k], x.page)])
  {
    var k, ps := x.a.k, x.a.ps;
    var ds := cs[k := S.WithPage(cs[k], x.page)];
    forall j, page, i: nat | 0 <= j < |ds| && page in ds[j].slabs && i < ds[j].perslab ensures IsCell(g, m, j, S.Chunk(page, i)) {
      if j == k && page == x.page {
        assert ps[i] in ps && m.at[ps[i]] == S.Chunk(page, i);
      } else {
        assert page in cs[j].slabs;
      }
    }
  }

  lemma PageLists(g: Config, m: Place, cs: Classes, k: nat, page: nat)
    requires A.PagesOnce(cs) && A.MoveOk(cs, Some(A.Move(g.src, m.dest, m.page))) && k < |cs| && S.PageCount(cs, page) == 0
    ensures var ds := cs[k := S.WithPage(cs[k], page)]; A.PagesOnce(ds) && A.MoveOk(ds, Some(A.Move(g.src, m.dest, m.page)))
  {
    var ds := cs[k := S.WithPage(cs[k], page)];
    A.AddPage(cs, k, S.WithPage(cs[k], page), page);
    forall y ensures S.PageCount(ds, y) <= 1 { assert S.PageCount(cs, y) <= 1; }
  }

  lemma PageJoint(g: Config, m: Place, s: State, cs: Classes, x: Step)
    requires Joint(g, m, s, cs) && May(g, m, s, cs, x) && x.a.ANewPage?
    ensures Joint(g, m, Apply(g, s, x.a), cs[x.a.k := S.WithPage(cs[x.a.k], x.page)])
  {
    KeepNewPage(g, s, x.a.k, x.a.ps);
    SpareStays(g, s, x.a);
    PageMapped(g, m, s, cs, x);
    PageLists(g, m, cs, x.a.k, x.page);
    PageFollows(g, m, s, cs, x.a.k, x.a.ps, x.page);
  }

  /** Every step keeps books and mover in step. */
  lemma StepJoint(g: Config, m: Place, s: State, cs: Classes, x: Step)
    requires Joint(g, m, s, cs) && May(g, m, s, cs, x)
    ensures var t := Apply(g, s, x.a); Joint(g, m, t, Booked(g, m, s, t, cs, x))
  {
    if x.a.ANewPage? {
      PageJoint(g, m, s, cs, x);
    } else {
      var t := Apply(g, s, x.a);
      StepKeeps(g, s, x.a);
      StepFollows(g, m, s, cs, x);
      if x.a.MTry? { TryFollows(g, m, s, cs, x); } else { SpareStays(g, s, x.a); }
      JointOn(g, m, s, t, cs, Booked(g, m, s, t, cs, x));
    }
  }

  /** A run of the two together. */
  ghost function RunBoth(g: Config, m: Place, s: State, cs: Classes, xs: seq<Step>): (State, Classes)
    decreases |xs|
  {
    if xs == [] then (s, cs)
    else if May(g, m, s, cs, xs[0]) then
      var t := Apply(g, s, xs[0].a);
      RunBoth(g, m, t, Booked(g, m, s, t, cs, xs[0]), xs[1..])
    else RunBoth(g, m, s, cs, xs[1..])
  }

  lemma {:induction false} RunJoint(g: Config, m: Place, s: State, cs: Classes, xs: seq<Step>)
    requires Joint(g, m, s, cs)
    ensures var (t, ds) := RunBoth(g, m, s, cs, xs); Joint(g, m, t, ds)
    decreases |xs|
  {
    if xs != [] {
      if May(g, m, s, cs, xs[0]) {
        var t := Apply(g, s, xs[0].a);
        StepJoint(g, m, s, cs, xs[0]);
        RunJoint(g, m, t, Booked(g, m, s, t, cs, xs[0]), xs[1..]);
      } else {
        RunJoint(g, m, s, cs, xs[1..]);
      }
    }
  }

  // ----- the end of the move ----------------------------------------------------------------

  lemma {:induction false} NoLonger<T>(a: seq<T>, b: seq<T>)
    requires NoDup(a) && forall i | 0 <= i < |a| :: a[i] in b
    ensures |a| <= |b|
    decreases |a|
  {
    if a != [] {
      var k :| 0 <= k < |b| && b[k] == a[0];
      forall i | 0 <= i < |a[1..]| ensures a[1..][i] in Cut(b, k) {
        var j :| 0 <= j < |b| && b[j] == a[i + 1];
        assert Cut(b, k)[if j < k then j else j - 1] == a[i + 1];
      }
      NoLonger(a[1..], Cut(b, k));
    }
  }

  /** The chunks for which a class has requests booked are those of its cells in use. */
  lemma LiveIsInUse(g: Config, m: Place, s: State, cs: Classes, k: nat, x: S.Chunk)
    requires Joint(g, m, s, cs) && k < |cs|
    ensures x in S.ChunksOf(cs[k].live) <==> IsCell(g, m, k, x) && m.cell[x] < |s.cells| && InUse(s.cells[m.cell[x]])
    ensures cs[k].slCurr == |s.free[k]| && cs[k].requested == S.Sum(cs[k].live)
  {
    var p := cs[k];
    assert S.ClassOk(p) && Agrees(g, m, s, k, p);
    if x in S.ChunksOf(p.live) {
      assert x in multiset(S.ChunksOf(p.live)) && S.Count(p, x) > 0 && S.Placed(p, x);
      assert IsCell(g, m, k, S.Chunk(x.page, x.index));
    }
  }

  /** When the mover finds the page clear the books have all of its chunks as cleared. */
  lemma DoneIsCleared(g: Config, m: Place, s: State, cs: Classes)
    requires Joint(g, m, s, cs) && s.mover.Done?
    ensures |cs[g.src].cleared| == cs[g.src].perslab
  {
    var p := cs[g.src];
    var all := Chunks(m.at, g.range);
    assert S.ClassOk(p) && Agrees(g, m, s, g.src, p);
    forall i | 0 <= i < |all| ensures all[i] in p.cleared { assert s.cells[g.range[i]].role == Cleared; }
    NoLonger(all, p.cleared);
    forall x ensures multiset(p.cleared)[x] <= 1 { assert S.Count(p, x) <= 1; }
    S.NoDupMultiset(p.cleared);
    forall i | 0 <= i < |p.cleared| ensures p.cleared[i].index < p.perslab {
      assert p.cleared[i] in multiset(p.cleared) && S.Count(p, p.cleared[i]) > 0 && S.Placed(p, p.cleared[i]);
    }
    S.Pigeon(p.cleared, m.page, p.perslab);
  }

  /** In every run of mover, other threads and allocator: freelists, requested bytes and page lists are right at
      any time, and once the mover is done the page can leave its class for the one it is meant for. */
  lemma MoveInRuns(g: Config, m: Place, useCas: bool, cs: Classes, xs: seq<Step>)
    requires Layout(g) && Joint(g, m, Boot(g, useCas), cs)
    ensures var (t, ds) := RunBoth(g, m, Boot(g, useCas), cs, xs);
      && Joint(g, m, t, ds)
      && (t.mover.Done? ==>
            && |ds[g.src].cleared| == ds[g.src].perslab
            && var fs := After(g, m, ds);
               A.Books(fs) && A.PagesOnce(fs) && A.MoveOk(fs, None)
               && (forall x :: S.PageCount(fs, x) == S.PageCount(ds, x)) && A.SameBooks(ds, fs))
  {
    RunJoint(g, m, Boot(g, useCas), cs, xs);
    var (t, ds) := RunBoth(g, m, Boot(g, useCas), cs, xs);
    if t.mover.Done? {
      DoneIsCleared(g, m, t, ds);
      Finished(g, m, t, ds);
    }
  }

  /** The books without the page in its class, and with it in the other. */
  function Left(g: Config, cs: Classes): Classes
    requires g.src < |cs| && cs[g.src].slabs != []
  {
    cs[g.src := S.WithoutPage(cs[g.src])]
  }

  function After(g: Config, m: Place, cs: Classes): Classes
    requires g.src < |cs| && cs[g.src].slabs != [] && m.dest < |cs|
  {
    Left(g, cs)[m.dest := S.WithPage(Left(g, cs)[m.dest], m.page)]
  }

  lemma FinishedLeft(g: Config, m: Place, s: State, cs: Classes)
    requires Joint(g, m, s, cs) && |cs[g.src].cleared| == cs[g.src].perslab
    ensures var es := Left(g, cs);
      && A.Books(es) && S.PageCount(es, m.page) == 0
      && forall x :: S.PageCount(cs, x) == S.PageCount(es, x) + if x == m.page then 1 else 0
  {
    var p := cs[g.src];
    assert S.ClassOk(p);
    S.WithoutPageOk(p);
    assert p.slabs[1..] == Cut(p.slabs, 0);
    A.DropPage(cs, g.src, S.WithoutPage(p), 0);
    assert S.PageCount(cs, m.page) <= 1;
  }

  lemma FinishedPages(cs: Classes, es: Classes, dest: nat, page: nat)
    requires A.PagesOnce(cs) && dest < |es|
    requires forall x :: S.PageCount(cs, x) == S.PageCount(es, x) + if x == page then 1 else 0
    ensures var fs := es[dest := S.WithPage(es[dest], page)]; A.PagesOnce(fs) && forall x :: S.PageCount(fs, x) == S.PageCount(cs, x)
  {
    var fs := es[dest := S.WithPage(es[dest], page)];
    A.AddPage(es, dest, S.WithPage(es[dest], page), page);
    forall x ensures S.PageCount(fs, x) == S.PageCount(cs, x) && S.PageCount(fs, x) <= 1 { assert S.PageCount(cs, x) <= 1; }
  }

  lemma FinishedBooks(es: Classes, dest: nat, page: nat)
    requires A.Books(es) && dest < |es| && S.PageCount(es, page) == 0
    ensures A.Books(es[dest := S.WithPage(es[dest], page)])
  {
    PageBooks(es, dest, page);
  }

  lemma Finished(g: Config, m: Place, s: State, cs: Classes)
    requires Joint(g, m, s, cs) && |cs[g.src].cleared| == cs[g.src].perslab
    ensures var fs := After(g, m, cs);
      && A.Books(fs) && A.PagesOnce(fs) && A.MoveOk(fs, None)
      && (forall x :: S.PageCount(fs, x) == S.PageCount(cs, x)) && A.SameBooks(cs, fs)
  {
    FinishedLeft(g, m, s, cs);
    FinishedBooks(Left(g, cs), m.dest, m.page);
    FinishedPages(cs, Left(g, cs), m.dest, m.page);
    FinishedMove(g, m, cs);
  }

  lemma FinishedMove(g: Config, m: Place, cs: Classes)
    requires A.MoveOk(cs, Some(A.Move(g.src, m.dest, m.page)))
    ensures A.MoveOk(After(g, m, cs), None) && A.SameBooks(cs, After(g, m, cs))
  {
  }

  /** The allocator's end of a move, with the books of a run in which the mover is done. */
  method Finish(a: A.Allocator, ghost g: Config, ghost m: Place, ghost s: State)
    requires a.Valid() && Joint(g, m, s, a.classes) && s.mover.Done? && a.move == Some(A.Move(g.src, m.dest, m.page))
    modifies a`classes, a`move, a`memMalloced, a`memLimitReached
    ensures a.Valid() && a.move == None
    ensures m.dest > 0 ==> a.PageMoved(old(a.classes), a.classes, old(a.move.value))
  {
    DoneIsCleared(g, m, s, a.classes);
    a.FinishMove();
  }

  // ----- the start --------------------------------------------------------------------------

  /** One page of the source class and nothing else; `dims` has chunk size and chunks a page of each class. */
  function OnePage(g: Config, m: Place, dims: seq<(nat, nat)>): Classes {
    seq(|dims|, k requires 0 <= k < |dims| =>
      if k == g.src then S.SlabClass(dims[k].0, dims[k].1, Chunks(m.at, CellsFrom(g)), |g.range|, [m.page], 0, [], [])
      else S.SlabClass(dims[k].0, dims[k].1, [], 0, [], 0, [], []))
  }

  function CellsFrom(g: Config): seq<Ptr> {
    CellsOf(g, g.src, |g.cls|)
  }

  lemma FirstPage(g: Config, m: Place, p: S.SlabClass)
    requires PlaceOk(g, m) && forall q: Ptr | 0 < q < |g.cls| :: q in g.later || q in g.range
    requires p.perslab == g.perslab && p.slots == Chunks(m.at, CellsFrom(g)) && p.slCurr == |g.range|
    requires p.slabs == [m.page] && p.requested == 0 && p.live == [] && p.cleared == []
    ensures S.ClassOk(p)
  {
    var list := CellsFrom(g);
    forall q | q in list ensures q in g.range { }
    NoLonger(list, g.range);
    NoLonger(g.range, list);
    S.NoDupMultiset(p.slots);
    forall x | S.Count(p, x) > 0 ensures S.Placed(p, x) {
      assert x in p.slots;
      var i :| 0 <= i < |p.slots| && p.slots[i] == x;
      assert list[i] in list && list[i] in g.range;
      var j :| 0 <= j < |g.range| && g.range[j] == list[i];
    }
  }

  /** There is such a start: the page to be moved is the only one given to a class so far. */
  lemma BootJoint(g: Config, m: Place, useCas: bool, dims: seq<(nat, nat)>)
    requires PlaceOk(g, m) && |dims| == g.classes && dims[g.src].1 == g.perslab
    requires forall q: Ptr | 0 < q < |g.cls| :: q in g.later || q in g.range
    ensures Joint(g, m, Boot(g, useCas), OnePage(g, m, dims))
  {
    var s, cs := Boot(g, useCas), OnePage(g, m, dims);
    BootInv(g, useCas);
    BootBooks(g, m, dims);
    BootAgrees(g, m, useCas, dims);
    BootMapped(g, m, dims);
    forall x ensures S.PageCount(cs, x) <= 1 {
      OnePageCount(g, m, dims, x, |dims|);
      assert cs[..|dims|] == cs;
    }
  }

  lemma BootBooks(g: Config, m: Place, dims: seq<(nat, nat)>)
    requires PlaceOk(g, m) && |dims| == g.classes && dims[g.src].1 == g.perslab
    requires forall q: Ptr | 0 < q < |g.cls| :: q in g.later || q in g.range
    ensures A.Books(OnePage(g, m, dims))
  {
    var cs := OnePage(g, m, dims);
    forall k | 0 <= k < |cs| ensures S.ClassOk(cs[k]) {
      if k == g.src { FirstPage(g, m, cs[k]); } else { assert S.ChunksOf(cs[k].live) == []; }
    }
  }

  lemma BootMapped(g: Config, m: Place, dims: seq<(nat, nat)>)
    requires PlaceOk(g, m) && |dims| == g.classes && dims[g.src].1 == g.perslab
    ensures Mapped(g, m, OnePage(g, m, dims))
  {
    forall i: nat | i < g.perslab ensures IsCell(g, m, g.src, S.Chunk(m.page, i)) { assert m.at[g.range[i]] == S.Chunk(m.page, i); }
  }

  lemma NoMembers(l: seq<Ptr>)
    requires forall q: Ptr :: q !in l
    ensures l == []
  {
    if |l| > 0 { SomeMember(l); }
  }

  lemma SomeMember(l: seq<Ptr>)
    requires |l| > 0
    ensures exists q: Ptr :: q in l
  {
    assert l[0] in l;
  }

  lemma BootAgrees(g: Config, m: Place, useCas: bool, dims: seq<(nat, nat)>)
    requires PlaceOk(g, m) && |dims| == g.classes
    requires forall q: Ptr | 0 < q < |g.cls| :: q in g.later || q in g.range
    ensures var s, cs := Boot(g, useCas), OnePage(g, m, dims);
      |cs| == |s.free| && |s.cells| == |g.cls| == |m.at| && forall k | 0 <= k < |cs| :: Agrees(g, m, s, k, cs[k])
  {
    var s, cs := Boot(g, useCas), OnePage(g, m, dims);
    forall k | 0 <= k < |cs| ensures Agrees(g, m, s, k, cs[k]) {
      assert s.free[k] == CellsOf(g, k, |g.cls|);
      if k != g.src { NoMembers(s.free[k]); }
    }
  }

  lemma {:induction false} OnePageCount(g: Config, m: Place, dims: seq<(nat, nat)>, x: nat, n: nat)
    requires n <= |dims|
    ensures S.PageCount(OnePage(g, m, dims)[..n], x) <= if n > g.src && x == m.page then 1 else 0
  {
    if n > 0 {
      OnePageCount(g, m, dims, x, n - 1);
      assert OnePage(g, m, dims)[..n][..n - 1] == OnePage(g, m, dims)[..n - 1];
    }
  }
}
