/** The page mover gets done: with nothing else going on it empties the page in a bounded number of steps. */
module SlabMoverProgress {
  import opened Common
  import opened SlabMover
  import opened SlabMoverInv
  import opened SlabMoverSteps
  import opened SlabMoverSafety
  import opened SlabMoverMeaning

  /** No references are held, no upload or free is under way, no item is between two LRU lists. */
  ghost predicate Calm(s: State) {
    && s.moving == {}
    && forall p: Ptr | 0 < p < |s.cells| ::
         s.cells[p].role != Raw && s.cells[p].role != Zombie && (s.cells[p].role == Item ==> s.cells[p].held == 0)
  }

  /** What the mover does next, always getting the item lock; `now` and `flushed` decide what has expired. */
  function Next(s: State, now: nat, flushed: Ptr -> bool): Action {
    match s.mover
    case Off => MStart
    case Trying(_, _, _, it, _) => MTry(true, now, flushed(it))
    case Window(_, _, _, _, _, _, _) => MFinishWindow
    case Deleting(_, _, _, _) => MDelete
    case _ => MLook
  }

  function OneStep(g: Config, s: State, now: nat, flushed: Ptr -> bool): State {
    var a := Next(s, now, flushed);
    if Enabled(g, s, a) then Apply(g, s, a) else s
  }

  function Stepper(g: Config, now: nat, flushed: Ptr -> bool): State -> State {
    s => OneStep(g, s, now, flushed)
  }

  /** The mover alone for `n` steps. */
  function Drive(g: Config, s: State, now: nat, flushed: Ptr -> bool, n: nat): State {
    Iterate(Stepper(g, now, flushed), s, n)
  }

  lemma DriveOnce(g: Config, s: State, now: nat, flushed: Ptr -> bool, n: nat)
    requires n > 0
    ensures Drive(g, s, now, flushed, n) == Drive(g, OneStep(g, s, now, flushed), now, flushed, n - 1)
  {
    assert Stepper(g, now, flushed)(s) == OneStep(g, s, now, flushed);
  }

  function Schedule(g: Config, s: State, now: nat, flushed: Ptr -> bool, n: nat): seq<Action>
    decreases n
  {
    if n == 0 then [] else [Next(s, now, flushed)] + Schedule(g, OneStep(g, s, now, flushed), now, flushed, n - 1)
  }

  lemma {:induction false} DriveIsRun(g: Config, s: State, now: nat, flushed: Ptr -> bool, n: nat)
    ensures var actions := Schedule(g, s, now, flushed, n);
      && Run(g, s, actions) == Drive(g, s, now, flushed, n) && |actions| == n
      && forall a | a in actions :: IsMoverAction(a)
    decreases n
  {
    if n > 0 {
      var t := OneStep(g, s, now, flushed);
      DriveOnce(g, s, now, flushed, n);
      DriveIsRun(g, t, now, flushed, n - 1);
      assert Schedule(g, s, now, flushed, n)[1..] == Schedule(g, t, now, flushed, n - 1);
    }
  }

  lemma DriveAdd(g: Config, s: State, now: nat, flushed: Ptr -> bool, m: nat, n: nat)
    ensures Drive(g, s, now, flushed, m + n) == Drive(g, Drive(g, s, now, flushed, m), now, flushed, n)
  {
    IterateAdd(Stepper(g, now, flushed), s, m, n);
  }

  lemma DriveFew(g: Config, s: State, now: nat, flushed: Ptr -> bool)
    ensures var t := OneStep(g, s, now, flushed); var u := OneStep(g, t, now, flushed);
      && Drive(g, s, now, flushed, 1) == t && Drive(g, s, now, flushed, 2) == u
      && Drive(g, s, now, flushed, 3) == OneStep(g, u, now, flushed)
  {
    var t := OneStep(g, s, now, flushed);
    var u := OneStep(g, t, now, flushed);
    DriveOnce(g, s, now, flushed, 1);
    DriveOnce(g, s, now, flushed, 2);
    DriveOnce(g, s, now, flushed, 3);
    DriveOnce(g, t, now, flushed, 1);
    DriveOnce(g, t, now, flushed, 2);
    DriveOnce(g, u, now, flushed, 1);
  }

  // ----- one chunk --------------------------------------------------------------------------

  predicate Vacant(s: State, p: Ptr) {
    p < |s.cells| && (s.cells[p].role == Free || s.cells[p].role == Cleared)
  }

  /** Chunks of the page that are free or cleared stay so. */
  ghost predicate StayVacant(g: Config, s: State, t: State) {
    forall i | 0 <= i < |g.range| && Vacant(s, g.range[i]) :: Vacant(t, g.range[i])
  }

  ghost predicate Goes(g: Config, s: State, t: State) {
    Inv(g, t) && Calm(t) && StayVacant(g, s, t)
  }

  lemma LookStep(g: Config, s: State, now: nat, flushed: Ptr -> bool)
    requires Inv(g, s) && Calm(s) && s.mover.Scan?
    ensures Goes(g, s, OneStep(g, s, now, flushed)) && s.mover.pos < |g.range|
    ensures var Scan(pos, busy, loops) := s.mover; var t := OneStep(g, s, now, flushed);
      if Vacant(s, g.range[pos]) then t.mover == Advance(g, pos, busy, loops) && Vacant(t, g.range[pos])
      else t.mover.Trying? && t.mover.pos == pos && t.mover.busy == busy && t.mover.loops == loops
  {
    ScanReady(g, s);
    KeepLook(g, s);
    var p := g.range[s.mover.pos];
    RoleFromFlags(g, s, p);
    assert CellOk(g, s, p);
    var it := if Chunk in s.cells[p].flags then s.cells[p].head else p;
    RoleFromFlags(g, s, it);
    assert CellOk(g, s, it);
  }

  lemma TryStep(g: Config, s: State, now: nat, flushed: Ptr -> bool)
    requires Inv(g, s) && Calm(s) && s.mover.Trying?
    ensures Goes(g, s, OneStep(g, s, now, flushed))
    ensures var t := OneStep(g, s, now, flushed);
      t.mover.Window? && t.mover.pos == s.mover.pos && t.mover.busy == s.mover.busy && t.mover.loops == s.mover.loops
  {
    TryWins(g, s, now, flushed(s.mover.it));
    KeepTry(g, s, true, now, flushed(s.mover.it));
    TryCalm(g, s, now, flushed(s.mover.it));
  }

  /** With no other reference out the mover gets the item. */
  lemma TryWins(g: Config, s: State, now: nat, flushed: bool)
    requires Inv(g, s) && Calm(s) && s.mover.Trying?
    ensures CanTry(g, s, true)
    ensures var t := Try(g, s, true, now, flushed);
      t.mover.Window? && t.mover.pos == s.mover.pos && t.mover.busy == s.mover.busy && t.mover.loops == s.mover.loops
  {
    assert CellOk(g, s, s.mover.it);
  }

  lemma TryCalm(g: Config, s: State, now: nat, flushed: bool)
    requires Inv(g, s) && Calm(s) && CanTry(g, s, true)
    ensures Calm(Try(g, s, true, now, flushed)) && StayVacant(g, s, Try(g, s, true, now, flushed))
  {
    TryOnlyCounts(g, s, true, now, flushed);
    TryFree(g, s, now, flushed);
  }

  /** What was free is free, cleared, or handed out for a rescue, and then not in the page. */
  lemma TryFree(g: Config, s: State, now: nat, flushed: bool)
    requires Inv(g, s) && CanTry(g, s, true)
    ensures var t := Try(g, s, true, now, flushed);
      && |t.cells| == |s.cells| && t.moving == s.moving
      && forall p: Ptr | 0 < p < |s.cells| && s.cells[p].role == Free ::
           t.cells[p].role == Free || t.cells[p].role == Cleared || (t.cells[p].role == Spare && p !in g.range)
  {
    var it, list := s.mover.it, s.free[g.src];
    FreeCells(g, s, list);
    PulledRoles(g, s.cells[it := s.cells[it].(refcount := s.cells[it].refcount + 1)], list);
  }

  lemma PulledRoles(g: Config, cells: seq<Cell>, list: seq<Ptr>)
    requires NoDup(list) && forall i | 0 <= i < |list| :: 0 < list[i] < |cells|
    ensures var r := RebalanceAlloc(g, cells, list, g.perslab).0;
      |r| == |cells| && forall x: Ptr | 0 < x < |cells| ::
        r[x].role == cells[x].role || r[x].role == Cleared || (r[x].role == Spare && x !in g.range)
  {
    var m := RebalanceExact(g, cells, list, g.perslab);
  }

  lemma WindowStep(g: Config, s: State, now: nat, flushed: Ptr -> bool)
    requires Inv(g, s) && Calm(s) && s.mover.Window?
    ensures Goes(g, s, OneStep(g, s, now, flushed)) && s.mover.pos < |g.range|
    ensures var t := OneStep(g, s, now, flushed); var (pos, busy, loops) := (s.mover.pos, s.mover.busy, s.mover.loops);
      && Vacant(t, g.range[pos])
      && (t.mover == Advance(g, pos, busy, loops) || t.mover == Advance(g, pos, busy + 1, loops))
  {
    WindowReady(g, s);
    StepKeeps(g, s, MFinishWindow);
    if s.mover.spare == NULL { DropCalm(g, s); }
    else if s.mover.ch { ChunkCalm(g, s); }
    else { ItemCalm(g, s); }
  }

  lemma DropCalm(g: Config, s: State)
    requires Inv(g, s) && Calm(s) && CanFinishWindow(g, s) && s.mover.spare == NULL
    ensures var t := FinishWindow(g, s); Calm(t) && StayVacant(g, s, t) && Vacant(t, g.range[s.mover.pos])
  {
    var it := s.mover.it;
    var u := UnlinkCell(s, it);
    assert CellOk(g, s, it) && CellOk(g, s, g.range[s.mover.pos]);
    DropUnlink(g, s);
    FreeItemExact(g, u, it);
  }

  lemma ItemCalm(g: Config, s: State)
    requires Inv(g, s) && Calm(s) && CanFinishWindow(g, s) && s.mover.spare != NULL && !s.mover.ch
    ensures var t := FinishWindow(g, s); Calm(t) && StayVacant(g, s, t) && Vacant(t, g.range[s.mover.pos])
  {
    RescueCells(g, s, s.mover.spare);
    RescueRoles(g, s, s.mover.spare);
  }

  lemma ChunkCalm(g: Config, s: State)
    requires Inv(g, s) && Calm(s) && CanFinishWindow(g, s) && s.mover.spare != NULL && s.mover.ch
    ensures var t := FinishWindow(g, s); Calm(t) && StayVacant(g, s, t) && Vacant(t, g.range[s.mover.pos])
  {
    var j := ChunkIndex(g, s, s.mover.spare);
    ChunkWrites(s, s.mover.it, g.range[s.mover.pos], s.mover.spare);
    ChunkRoles(g, s, s.mover.spare);
  }

  // ----- passes -----------------------------------------------------------------------------

  ghost predicate VacantFrom(g: Config, s: State, lo: nat, hi: nat) {
    hi <= |g.range| && forall i | lo <= i < hi :: Vacant(s, g.range[i])
  }

  /** From one chunk to the next in at most three steps. */
  lemma OneChunk(g: Config, s: State, now: nat, flushed: Ptr -> bool) returns (n: nat)
    requires Inv(g, s) && Calm(s) && s.mover.Scan?
    ensures 1 <= n <= 3
    ensures var Scan(pos, busy, loops) := s.mover; var t := Drive(g, s, now, flushed, n);
      && Goes(g, s, t) && Vacant(t, g.range[pos])
      && (t.mover == Advance(g, pos, busy, loops) || t.mover == Advance(g, pos, busy + 1, loops))
      && (Vacant(s, g.range[pos]) ==> n == 1 && t.mover == Advance(g, pos, busy, loops))
  {
    var t := OneStep(g, s, now, flushed);
    DriveFew(g, s, now, flushed);
    LookStep(g, s, now, flushed);
    if Vacant(s, g.range[s.mover.pos]) { return 1; }
    TryStep(g, t, now, flushed);
    WindowStep(g, OneStep(g, t, now, flushed), now, flushed);
    return 3;
  }

  lemma VacantMore(g: Config, s: State, t: State, lo: nat, pos: nat)
    requires lo <= pos < |g.range| && VacantFrom(g, s, lo, pos) && StayVacant(g, s, t) && Vacant(t, g.range[pos])
    ensures VacantFrom(g, t, lo, pos + 1)
  {
  }

  /** A pass has ended, and found or left the chunks from `lo` on free or cleared. */
  ghost predicate PassOver(g: Config, t: State, lo: nat) {
    && Inv(g, t) && Calm(t) && VacantFrom(g, t, lo, |g.range|)
    && (t.mover.Done? || (t.mover.Scan? && t.mover.pos == 0 && t.mover.busy == 0))
  }

  /** The pass is over after `n` steps. */
  ghost predicate PassesIn(g: Config, s: State, now: nat, flushed: Ptr -> bool, lo: nat, n: nat) {
    exists t: State :: t == Drive(g, s, now, flushed, n) && PassOver(g, t, lo)
  }

  /** The next chunk of a pass, or its end. */
  lemma NextChunk(g: Config, s: State, now: nat, flushed: Ptr -> bool, lo: nat) returns (n: nat)
    requires Inv(g, s) && Calm(s) && s.mover.Scan? && lo <= s.mover.pos && VacantFrom(g, s, lo, s.mover.pos)
    ensures n <= 3 && s.mover.pos < |g.range|
    ensures var t := Drive(g, s, now, flushed, n); var next := s.mover.pos + 1;
      if next < |g.range| then
        Inv(g, t) && Calm(t) && t.mover.Scan? && t.mover.pos == next && VacantFrom(g, t, lo, next)
      else PassOver(g, t, lo)
  {
    n := OneChunk(g, s, now, flushed);
    VacantMore(g, s, Drive(g, s, now, flushed, n), lo, s.mover.pos);
  }

  /** A pass ends, and leaves every chunk that it has visited free or cleared. */
  lemma {:induction false} Pass(g: Config, s: State, now: nat, flushed: Ptr -> bool, lo: nat) returns (n: nat)
    requires Inv(g, s) && Calm(s) && s.mover.Scan? && lo <= s.mover.pos && VacantFrom(g, s, lo, s.mover.pos)
    ensures n <= 3 * (|g.range| - s.mover.pos) && PassesIn(g, s, now, flushed, lo, n)
    decreases |g.range| - s.mover.pos
  {
    n := NextChunk(g, s, now, flushed, lo);
    if s.mover.pos + 1 < |g.range| {
      var m := Pass(g, Drive(g, s, now, flushed, n), now, flushed, lo);
      PassOn(g, s, now, flushed, lo, n, m);
      n := n + m;
    }
  }

  lemma PassOn(g: Config, s: State, now: nat, flushed: Ptr -> bool, lo: nat, n: nat, m: nat)
    requires PassesIn(g, Drive(g, s, now, flushed, n), now, flushed, lo, m)
    ensures PassesIn(g, s, now, flushed, lo, n + m)
  {
    DriveAdd(g, s, now, flushed, n, m);
  }

  /** Once all chunks are free or cleared one pass clears the page. */
  lemma {:induction false} LastPass(g: Config, s: State, now: nat, flushed: Ptr -> bool) returns (n: nat)
    requires Inv(g, s) && Calm(s) && s.mover.Scan? && s.mover.busy == 0 && VacantFrom(g, s, 0, |g.range|)
    ensures n <= |g.range| - s.mover.pos && Drive(g, s, now, flushed, n).mover.Done?
    decreases |g.range| - s.mover.pos
  {
    var pos := s.mover.pos;
    n := OneChunk(g, s, now, flushed);
    var t := Drive(g, s, now, flushed, n);
    if pos + 1 < |g.range| {
      var m := LastPass(g, t, now, flushed);
      DriveAdd(g, s, now, flushed, n, m);
      n := n + m;
    }
  }

  /** From any phase to the start of a chunk. */
  lemma ToScan(g: Config, s: State, now: nat, flushed: Ptr -> bool) returns (n: nat)
    requires Inv(g, s) && Calm(s) && !s.mover.Done?
    ensures n <= 2
    ensures var t := Drive(g, s, now, flushed, n); Inv(g, t) && Calm(t) && (t.mover.Scan? || t.mover.Done?)
  {
    DriveFew(g, s, now, flushed);
    if s.mover.Off? {
      StepKeeps(g, s, MStart);
      n := 1;
    } else if s.mover.Trying? {
      TryStep(g, s, now, flushed);
      WindowStep(g, OneStep(g, s, now, flushed), now, flushed);
      n := 2;
    } else if s.mover.Window? {
      WindowStep(g, s, now, flushed);
      n := 1;
    } else {
      NotDeleting(g, s);
      n := 0;
    }
  }

  /** A busy delete is for items that others hold. */
  lemma NotDeleting(g: Config, s: State)
    requires Inv(g, s) && Calm(s)
    ensures !s.mover.Deleting?
  {
  }

  /** With no references held and no other thread acting the mover, wherever it stands, finds the page clear
      within 7 * |range| + 2 steps, whatever has expired or been flushed. */
  lemma GetsDone(g: Config, s: State, now: nat, flushed: Ptr -> bool) returns (actions: seq<Action>)
    requires Inv(g, s) && Calm(s)
    ensures |actions| <= 7 * |g.range| + 2 && (forall a | a in actions :: IsMoverAction(a))
    ensures Run(g, s, actions).mover.Done?
  {
    var n := Steps(g, s, now, flushed);
    DriveIsRun(g, s, now, flushed, n);
    return Schedule(g, s, now, flushed, n);
  }

  lemma ThenDone(g: Config, s: State, now: nat, flushed: Ptr -> bool, n: nat, m: nat)
    requires Drive(g, Drive(g, s, now, flushed, n), now, flushed, m).mover.Done?
    ensures Drive(g, s, now, flushed, n + m).mover.Done?
  {
    DriveAdd(g, s, now, flushed, n, m);
  }

  lemma Steps(g: Config, s: State, now: nat, flushed: Ptr -> bool) returns (n: nat)
    requires Inv(g, s) && Calm(s)
    ensures n <= 7 * |g.range| + 2 && Drive(g, s, now, flushed, n).mover.Done?
  {
    if s.mover.Done? {
      n := 0;
    } else {
      n := StepsOn(g, s, now, flushed);
    }
  }

  lemma StepsOn(g: Config, s: State, now: nat, flushed: Ptr -> bool) returns (n: nat)
    requires Inv(g, s) && Calm(s) && !s.mover.Done?
    ensures n <= 7 * |g.range| + 2 && Drive(g, s, now, flushed, n).mover.Done?
  {
    n := ToScan(g, s, now, flushed);
    if !Drive(g, s, now, flushed, n).mover.Done? { n := PassesOn(g, s, now, flushed, n); }
  }

  lemma PassesOn(g: Config, s: State, now: nat, flushed: Ptr -> bool, m: nat) returns (n: nat)
    requires var t := Drive(g, s, now, flushed, m); Inv(g, t) && Calm(t) && t.mover.Scan?
    ensures n <= 7 * |g.range| + m && Drive(g, s, now, flushed, n).mover.Done?
  {
    n := ThreePasses(g, Drive(g, s, now, flushed, m), now, flushed);
    ThenDone(g, s, now, flushed, m, n);
    n := m + n;
  }

  /** The rest of the pass under way, one over the whole page, and a last one. */
  lemma ThreePasses(g: Config, s: State, now: nat, flushed: Ptr -> bool) returns (n: nat)
    requires Inv(g, s) && Calm(s) && s.mover.Scan?
    ensures n <= 7 * |g.range| && Drive(g, s, now, flushed, n).mover.Done?
  {
    n := Pass(g, s, now, flushed, s.mover.pos);
    var t := Drive(g, s, now, flushed, n);
    if t.mover.Done? { return; }
    var m := TwoPasses(g, t, now, flushed);
    ThenDone(g, s, now, flushed, n, m);
    n := n + m;
  }

  lemma TwoPasses(g: Config, s: State, now: nat, flushed: Ptr -> bool) returns (n: nat)
    requires Inv(g, s) && Calm(s) && s.mover.Scan? && s.mover.pos == 0
    ensures n <= 4 * |g.range| && Drive(g, s, now, flushed, n).mover.Done?
  {
    n := Pass(g, s, now, flushed, 0);
    var t := Drive(g, s, now, flushed, n);
    if t.mover.Done? { return; }
    var m := LastPass(g, t, now, flushed);
    ThenDone(g, s, now, flushed, n, m);
    n := n + m;
  }
}
