/**
 * The asynchronous LRU bumps of memory_lru/items.c: worker threads push entries into a bip buffer, the
 * LRU maintainer peeks at a batch, processes it without the buffer's lock, and polls it.
 */
module BumpQueue {
  import opened Common
  import opened BipBuffer

  datatype Entry = Entry(it: Ptr, hv: nat)

  /** A byte of the buffer: byte `k` of an entry, or anything else. */
  datatype Cell = Junk | Part(entry: Entry, k: nat)

  /** The maintainer, away or inside its `todo` loop over a peeked region. */
  datatype Consumer = Away | Walking(size: nat, pos: nat, todo: nat)

  /** `pending` holds the bumps whose reference is taken but which have not been pushed yet; `refs` the
      references all bumps hold; `accepted` and `processed` record the pushes and the bumps carried out. */
  datatype State = State(
    entrySize: nat, cursors: Cursors, mem: seq<Cell>, pending: seq<Entry>, refs: multiset<Ptr>, dropped: nat,
    accepted: seq<Entry>, processed: seq<Entry>, consumer: Consumer)

  function Image(n: nat, e: Entry): (r: seq<Cell>)
    ensures |r| == n
  {
    seq(n, k requires 0 <= k => Part(e, k))
  }

  /** What the maintainer finds at `pos`, if it is an entry at all. */
  function ReadEntry(s: State, pos: nat): Option<Entry> {
    if pos < |s.mem| && pos + s.entrySize <= |s.mem| && s.mem[pos].Part?
       && s.mem[pos..pos + s.entrySize] == Image(s.entrySize, s.mem[pos].entry)
    then Some(s.mem[pos].entry)
    else None
  }

  datatype Action =
    | ATake(e: Entry)
    | APush(k: nat)
    | APeek
    | AProcess
    | APoll

  predicate Enabled(s: State, a: Action) {
    match a
    case ATake(e) => true
    case APush(k) => k < |s.pending| && (s.entrySize <= Unused(s.cursors) ==> Cursor(s.cursors) + s.entrySize <= |s.mem|)
    case APeek => s.consumer.Away? && s.cursors.aStart <= s.cursors.aEnd
    case AProcess => s.consumer.Walking? && s.consumer.todo >= s.entrySize > 0 && ReadEntry(s, s.consumer.pos).Some?
    case APoll => s.consumer.Walking? && s.consumer.todo == 0
  }

  function Apply(s: State, a: Action): State
    requires Enabled(s, a)
  {
    match a
    case ATake(e) => s.(pending := s.pending + [e], refs := s.refs + multiset{e.it})
    case APush(k) =>
      var e := s.pending[k];
      var t := s.(pending := s.pending[..k] + s.pending[k + 1..]);
      if s.entrySize <= Unused(s.cursors) then
        t.(mem := Splice(s.mem, Cursor(s.cursors), Image(s.entrySize, e)),
           cursors := Pushed(s.cursors, s.entrySize), accepted := s.accepted + [e])
      else t.(dropped := s.dropped + 1, refs := s.refs - multiset{e.it})
    case APeek =>
      var v := s.cursors;
      if v.aStart == v.aEnd then s
      else s.(consumer := Walking(v.aEnd - v.aStart, v.aStart, v.aEnd - v.aStart))
    case AProcess =>
      var e := ReadEntry(s, s.consumer.pos).value;
      s.(processed := s.processed + [e], refs := s.refs - multiset{e.it},
         consumer := Walking(s.consumer.size, s.consumer.pos + s.entrySize, s.consumer.todo - s.entrySize))
    case APoll => s.(cursors := Polled(s.cursors, s.consumer.size), consumer := Away)
  }

  function Run(s: State, actions: seq<Action>): State
    decreases |actions|
  {
    if actions == [] then s
    else Run(if Enabled(s, actions[0]) then Apply(s, actions[0]) else s, actions[1..])
  }

  function Boot(entrySize: nat, size: nat): State {
    State(entrySize, Cursors(size, 0, 0, 0, false), seq(size, _ => Junk), [], multiset{}, 0, [], [], Away)
  }

  // ----- entries as bytes -------------------------------------------------------------------

  function Flat(n: nat, q: seq<Entry>): seq<Cell> {
    if q == [] then [] else Image(n, q[0]) + Flat(n, q[1..])
  }

  lemma {:induction false} FlatSplit(n: nat, a: seq<Entry>, b: seq<Entry>)
    ensures Flat(n, a + b) == Flat(n, a) + Flat(n, b)
  {
    if a == [] {
      assert a + b == b;
    } else {
      assert (a + b)[1..] == a[1..] + b;
      FlatSplit(n, a[1..], b);
    }
  }

  lemma FlatOne(n: nat, e: Entry)
    ensures Flat(n, [e]) == Image(n, e)
  {
    assert Flat(n, [e][1..]) == [];
  }

  function Ptrs(q: seq<Entry>): (r: seq<Ptr>)
    ensures |r| == |q| && forall i | 0 <= i < |r| :: r[i] == q[i].it
  {
    seq(|q|, i requires 0 <= i < |q| => q[i].it)
  }

  /** The references a list of bumps holds. */
  function Items(q: seq<Entry>): multiset<Ptr> {
    multiset(Ptrs(q))
  }

  lemma ItemsSplit(a: seq<Entry>, b: seq<Entry>)
    ensures Items(a + b) == Items(a) + Items(b)
  {
    assert Ptrs(a + b) == Ptrs(a) + Ptrs(b);
  }

  lemma ItemsOne(e: Entry)
    ensures Items([e]) == multiset{e.it}
  {
    assert Ptrs([e]) == [e.it];
  }

  lemma ItemsRemove(q: seq<Entry>, k: nat)
    requires k < |q|
    ensures Items(q) == Items(q[..k] + q[k + 1..]) + multiset{q[k].it}
  {
    assert Ptrs(q) == Ptrs(q[..k]) + [q[k].it] + Ptrs(q[k + 1..]);
    assert Ptrs(q[..k] + q[k + 1..]) == Ptrs(q[..k]) + Ptrs(q[k + 1..]);
  }

  /** A bump that is pushed hands its reference on. */
  lemma PushedRefs(refs: multiset<Ptr>, pending: seq<Entry>, k: nat, x: seq<Entry>)
    requires k < |pending| && refs == Items(pending) + Items(x)
    ensures refs == Items(pending[..k] + pending[k + 1..]) + Items(x + [pending[k]])
  {
    ItemsRemove(pending, k);
    ItemsSplit(x, [pending[k]]);
    ItemsOne(pending[k]);
  }

  /** A bump that is carried out gives its reference back. */
  lemma ProcessedRefs(refs: multiset<Ptr>, pending: seq<Entry>, e: Entry, x: seq<Entry>)
    requires refs == Items(pending) + Items([e] + x)
    ensures refs - multiset{e.it} == Items(pending) + Items(x)
  {
    ItemsSplit([e], x);
    ItemsOne(e);
  }

  // ----- invariant --------------------------------------------------------------------------

  /** Region A holds the entries of `qa`, region B those of `qb`. */
  ghost predicate Regions(s: State, qa: seq<Entry>, qb: seq<Entry>) {
    && s.entrySize > 0 && Ok(s.cursors) && |s.mem| == s.cursors.size
    && s.mem[s.cursors.aStart..s.cursors.aEnd] == Flat(s.entrySize, qa)
    && s.mem[..s.cursors.bEnd] == Flat(s.entrySize, qb)
  }

  /** The maintainer took the first `m` entries of region A and has carried out `d` of them. */
  ghost predicate Batch(s: State, qa: seq<Entry>, d: nat, m: nat) {
    && d <= m <= |qa|
    && match s.consumer
       case Away => m == 0
       case Walking(size, pos, todo) =>
         && m > 0 && size == |Flat(s.entrySize, qa[..m])| && todo == |Flat(s.entrySize, qa[d..m])|
         && pos == s.cursors.aStart + |Flat(s.entrySize, qa[..d])|
  }

  ghost predicate Accounts(s: State, qa: seq<Entry>, qb: seq<Entry>, d: nat)
    requires d <= |qa|
  {
    && s.accepted == s.processed + (qa[d..] + qb)
    && s.refs == Items(s.pending) + Items(qa[d..] + qb)
  }

  ghost predicate InvWith(s: State, qa: seq<Entry>, qb: seq<Entry>, d: nat, m: nat) {
    Regions(s, qa, qb) && Batch(s, qa, d, m) && Accounts(s, qa, qb, d)
  }

  ghost predicate Inv(s: State) {
    exists qa, qb, d, m :: InvWith(s, qa, qb, d, m)
  }

  lemma KeepTake(s: State, e: Entry, qa: seq<Entry>, qb: seq<Entry>, d: nat, m: nat)
    requires InvWith(s, qa, qb, d, m)
    ensures InvWith(Apply(s, ATake(e)), qa, qb, d, m)
  {
    ItemsSplit(s.pending, [e]);
    ItemsOne(e);
  }

  lemma KeepDrop(s: State, k: nat, qa: seq<Entry>, qb: seq<Entry>, d: nat, m: nat)
    requires InvWith(s, qa, qb, d, m) && Enabled(s, APush(k)) && s.entrySize > Unused(s.cursors)
    ensures InvWith(Apply(s, APush(k)), qa, qb, d, m)
  {
    ItemsRemove(s.pending, k);
  }

  /** Region [lo, at) grown by an image written at its end. */
  lemma Grown(mem: seq<Cell>, lo: nat, at: nat, n: nat, q: seq<Entry>, e: Entry)
    requires lo <= at && at + n <= |mem| && mem[lo..at] == Flat(n, q)
    ensures Splice(mem, at, Image(n, e))[lo..at + n] == Flat(n, q + [e])
  {
    var x := Splice(mem, at, Image(n, e));
    FlatOne(n, e);
    FlatSplit(n, q, [e]);
    SpliceApart(mem, at, Image(n, e), lo, at);
    assert x[lo..at + n] == x[lo..at] + x[at..at + n];
    assert x[at..at + n] == Image(n, e);
  }

  lemma PushRegions(s: State, k: nat, qa: seq<Entry>, qb: seq<Entry>)
    requires Regions(s, qa, qb) && Enabled(s, APush(k)) && s.entrySize <= Unused(s.cursors)
    ensures var t := Apply(s, APush(k));
      if s.cursors.bInuse then Regions(t, qa, qb + [s.pending[k]]) else Regions(t, qa + [s.pending[k]], qb)
  {
    var v, n, e := s.cursors, s.entrySize, s.pending[k];
    PushAppends(s.mem, v, n);
    if v.bInuse {
      SpliceApart(s.mem, v.bEnd, Image(n, e), v.aStart, v.aEnd);
      Grown(s.mem, 0, v.bEnd, n, qb, e);
    } else {
      Grown(s.mem, v.aStart, v.aEnd, n, qa, e);
      SpliceApart(s.mem, v.aEnd, Image(n, e), 0, v.bEnd);
    }
  }

  lemma PushAccounts(s: State, k: nat, qa: seq<Entry>, qb: seq<Entry>, d: nat)
    requires d <= |qa| && Accounts(s, qa, qb, d) && Enabled(s, APush(k)) && s.entrySize <= Unused(s.cursors)
    ensures Accounts(Apply(s, APush(k)), qa, qb + [s.pending[k]], d)
  {
    var x := qa[d..] + qb;
    assert qa[d..] + (qb + [s.pending[k]]) == x + [s.pending[k]];
    PushedRefs(s.refs, s.pending, k, x);
  }

  lemma KeepPush(s: State, k: nat, qa: seq<Entry>, qb: seq<Entry>, d: nat, m: nat)
    requires InvWith(s, qa, qb, d, m) && Enabled(s, APush(k)) && s.entrySize <= Unused(s.cursors)
    ensures Inv(Apply(s, APush(k)))
  {
    var e := s.pending[k];
    var t := Apply(s, APush(k));
    PushRegions(s, k, qa, qb);
    PushAccounts(s, k, qa, qb, d);
    if s.cursors.bInuse {
      assert InvWith(t, qa, qb + [e], d, m);
    } else {
      var qa' := qa + [e];
      assert s.mem[..s.cursors.bEnd] == [] && qb == [];
      assert qa[d..] + (qb + [e]) == qa'[d..] + qb;
      assert qa'[..m] == qa[..m] && qa'[d..m] == qa[d..m] && qa'[..d] == qa[..d];
      assert InvWith(t, qa', qb, d, m);
    }
  }

  lemma KeepPeek(s: State, qa: seq<Entry>, qb: seq<Entry>, d: nat, m: nat)
    requires InvWith(s, qa, qb, d, m) && Enabled(s, APeek)
    ensures Inv(Apply(s, APeek))
  {
    var t := Apply(s, APeek);
    if s.cursors.aStart != s.cursors.aEnd {
      assert qa[..|qa|] == qa && qa[0..] == qa && qa[..0] == [];
      assert InvWith(t, qa, qb, 0, |qa|);
    } else {
      assert InvWith(t, qa, qb, d, m);
    }
  }

  /** The next entry of the batch is there to be read, whole. */
  lemma NextEntry(s: State, qa: seq<Entry>, qb: seq<Entry>, d: nat, m: nat)
    requires Regions(s, qa, qb) && Batch(s, qa, d, m) && s.consumer.Walking? && s.consumer.todo > 0
    ensures d < m && ReadEntry(s, s.consumer.pos) == Some(qa[d])
    ensures s.consumer.todo >= s.entrySize && s.consumer.todo - s.entrySize == |Flat(s.entrySize, qa[d + 1..m])|
    ensures s.consumer.pos + s.entrySize == s.cursors.aStart + |Flat(s.entrySize, qa[..d + 1])|
  {
    var n := s.entrySize;
    var v := s.cursors;
    assert d < m;
    assert qa[d..m] == [qa[d]] + qa[d + 1..m] && qa[..d + 1] == qa[..d] + [qa[d]] && qa == qa[..d] + ([qa[d]] + qa[d + 1..]);
    FlatOne(n, qa[d]);
    FlatSplit(n, [qa[d]], qa[d + 1..m]);
    FlatSplit(n, qa[..d], [qa[d]]);
    FlatSplit(n, qa[..d], [qa[d]] + qa[d + 1..]);
    FlatSplit(n, [qa[d]], qa[d + 1..]);
    EntryAt(s, Flat(n, qa[..d]), qa[d], Flat(n, qa[d + 1..]));
  }

  lemma EntryAt(s: State, before: seq<Cell>, e: Entry, after: seq<Cell>)
    requires s.entrySize > 0 && Ok(s.cursors) && |s.mem| == s.cursors.size
    requires s.mem[s.cursors.aStart..s.cursors.aEnd] == before + (Image(s.entrySize, e) + after)
    ensures ReadEntry(s, s.cursors.aStart + |before|) == Some(e)
  {
    var n, pos := s.entrySize, s.cursors.aStart + |before|;
    var a := s.mem[s.cursors.aStart..s.cursors.aEnd];
    assert a[|before|..|before| + n] == Image(n, e);
    SubSlice(s.mem, s.cursors.aStart, s.cursors.aEnd, |before|, |before| + n);
    assert s.mem[pos] == s.mem[pos..pos + n][0] == Image(n, e)[0];
  }

  lemma KeepProcess(s: State, qa: seq<Entry>, qb: seq<Entry>, d: nat, m: nat)
    requires InvWith(s, qa, qb, d, m) && Enabled(s, AProcess)
    ensures Inv(Apply(s, AProcess)) && d < |qa| && Apply(s, AProcess).processed == s.processed + [qa[d]]
  {
    NextEntry(s, qa, qb, d, m);
    assert qa[d..] + qb == [qa[d]] + (qa[d + 1..] + qb);
    ProcessedRefs(s.refs, s.pending, qa[d], qa[d + 1..] + qb);
    assert InvWith(Apply(s, AProcess), qa, qb, d + 1, m);
  }

  lemma PollRegions(s: State, qa: seq<Entry>, qb: seq<Entry>, d: nat, m: nat)
    requires Regions(s, qa, qb) && Batch(s, qa, d, m) && Enabled(s, APoll)
    ensures d == m && CanPoll(s.cursors, s.consumer.size)
    ensures var t := Apply(s, APoll);
      if m < |qa| then Regions(t, qa[m..], qb) else Regions(t, qb, [])
  {
    var n := s.entrySize;
    var v := s.cursors;
    assert qa == qa[..m] + qa[m..];
    FlatSplit(n, qa[..m], qa[m..]);
    PollDrops(s.mem, v, s.consumer.size);
    var a := s.mem[v.aStart..v.aEnd];
    assert a[s.consumer.size..] == Flat(n, qa[m..]);
    assert s.mem[v.aStart + s.consumer.size..v.aEnd] == a[s.consumer.size..];
    if m < |qa| {
      assert |Flat(n, qa[m..])| > 0;
    } else {
      assert qa[m..] == [];
      if !v.bInuse { assert s.mem[..v.bEnd] == []; }
    }
  }

  lemma KeepPoll(s: State, qa: seq<Entry>, qb: seq<Entry>, d: nat, m: nat)
    requires InvWith(s, qa, qb, d, m) && Enabled(s, APoll)
    ensures Inv(Apply(s, APoll))
  {
    var t := Apply(s, APoll);
    PollRegions(s, qa, qb, d, m);
    if m < |qa| {
      assert qa[m..][0..] == qa[m..];
      assert InvWith(t, qa[m..], qb, 0, 0);
    } else {
      assert qa[d..] + qb == qb && qb[0..] + [] == qb;
      assert InvWith(t, qb, [], 0, 0);
    }
  }

  lemma StepKeeps(s: State, a: Action)
    requires Inv(s) && Enabled(s, a)
    ensures Inv(Apply(s, a))
  {
    var qa, qb, d, m :| InvWith(s, qa, qb, d, m);
    match a
    case ATake(e) => KeepTake(s, e, qa, qb, d, m);
    case APush(k) => if s.entrySize <= Unused(s.cursors) { KeepPush(s, k, qa, qb, d, m); } else { KeepDrop(s, k, qa, qb, d, m); }
    case APeek => KeepPeek(s, qa, qb, d, m);
    case AProcess => KeepProcess(s, qa, qb, d, m);
    case APoll => KeepPoll(s, qa, qb, d, m);
  }

  lemma {:induction false} RunKeeps(s: State, actions: seq<Action>)
    requires Inv(s)
    ensures Inv(Run(s, actions))
    decreases |actions|
  {
    if actions != [] {
      if Enabled(s, actions[0]) {
        StepKeeps(s, actions[0]);
        RunKeeps(Apply(s, actions[0]), actions[1..]);
      } else {
        RunKeeps(s, actions[1..]);
      }
    }
  }

  lemma BootInv(entrySize: nat, size: nat)
    requires entrySize > 0
    ensures Inv(Boot(entrySize, size))
  {
    assert InvWith(Boot(entrySize, size), [], [], 0, 0);
  }

  // ----- main results -----------------------------------------------------------------------

  /** In every run the bumps carried out are the accepted ones, in order, each once; the references held
      are those of bumps not yet pushed and of accepted ones not yet carried out; and inside the todo loop
      either the next entry can be read whole or nothing is left to do and the batch can be polled. */
  lemma ExactlyOnce(entrySize: nat, size: nat, actions: seq<Action>)
    requires entrySize > 0
    ensures var s := Run(Boot(entrySize, size), actions);
      && |s.processed| <= |s.accepted| && s.processed == s.accepted[..|s.processed|]
      && s.refs == Items(s.pending) + Items(s.accepted[|s.processed|..])
      && (s.consumer.Walking? ==>
            if s.consumer.todo > 0 then
              && Enabled(s, AProcess) && |s.processed| < |s.accepted|
              && ReadEntry(s, s.consumer.pos) == Some(s.accepted[|s.processed|])
            else CanPoll(s.cursors, s.consumer.size))
  {
    var s := Run(Boot(entrySize, size), actions);
    BootInv(entrySize, size);
    RunKeeps(Boot(entrySize, size), actions);
    var qa, qb, d, m :| InvWith(s, qa, qb, d, m);
    assert s.accepted[|s.processed|..] == qa[d..] + qb;
    if s.consumer.Walking? {
      if s.consumer.todo > 0 { NextEntry(s, qa, qb, d, m); } else { PollRegions(s, qa, qb, d, m); }
    }
  }

  /** No step of a producer writes into the region the maintainer peeked at. */
  lemma PeekedUntouched(s: State, a: Action)
    requires Inv(s) && Enabled(s, a) && s.consumer.Walking? && !a.APoll?
    ensures var c := s.consumer;
      && c.pos + c.todo <= |s.mem| == |Apply(s, a).mem|
      && Apply(s, a).mem[c.pos..c.pos + c.todo] == s.mem[c.pos..c.pos + c.todo]
  {
    PeekedInA(s);
    if a.APush? && s.entrySize <= Unused(s.cursors) {
      SpanIsFree(s.mem, s.cursors, s.entrySize, Apply(s, a).mem);
      SameSlice(s.mem, Apply(s, a).mem, s.cursors.aStart, s.cursors.aEnd, s.consumer.pos, s.consumer.pos + s.consumer.todo);
    }
  }

  lemma PeekedInA(s: State)
    requires Inv(s) && s.consumer.Walking?
    ensures Ok(s.cursors) && |s.mem| == s.cursors.size
    ensures s.cursors.aStart <= s.consumer.pos && s.consumer.pos + s.consumer.todo <= s.cursors.aEnd
  {
    var qa, qb, d, m :| InvWith(s, qa, qb, d, m);
    assert qa == qa[..d] + (qa[d..m] + qa[m..]);
    FlatSplit(s.entrySize, qa[..d], qa[d..m] + qa[m..]);
    FlatSplit(s.entrySize, qa[d..m], qa[m..]);
  }

  lemma SameSlice(x: seq<Cell>, y: seq<Cell>, lo: nat, hi: nat, from: nat, to: nat)
    requires lo <= from <= to <= hi <= |x| == |y| && x[lo..hi] == y[lo..hi]
    ensures x[from..to] == y[from..to]
  {
    SubSlice(x, lo, hi, from - lo, to - lo);
    SubSlice(y, lo, hi, from - lo, to - lo);
  }

  /** Once the maintainer is away and the buffer is empty every accepted bump has been carried out, and
      only bumps on their way in still hold references. */
  lemma Drained(entrySize: nat, size: nat, actions: seq<Action>)
    requires entrySize > 0
    requires var s := Run(Boot(entrySize, size), actions); s.consumer.Away? && s.cursors.aStart == s.cursors.aEnd
    ensures var s := Run(Boot(entrySize, size), actions);
      s.processed == s.accepted && s.refs == Items(s.pending)
  {
    var s := Run(Boot(entrySize, size), actions);
    BootInv(entrySize, size);
    RunKeeps(Boot(entrySize, size), actions);
    var qa, qb, d, m :| InvWith(s, qa, qb, d, m);
    assert qa == [] && qb == [];
  }
}
