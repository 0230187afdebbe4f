/** The compactor of exstore/storage.c: it reads a page back and rewrites the objects still in use. */
module Compaction {
  import opened Common
  import opened ItemImage

  datatype Loc = Loc(page: nat, version: nat, offset: nat)

  /** A header item in the hash table: where its object is, whether it is on a COLD list, and whether it
      has expired or been flushed. */
  datatype Header = Header(at: Loc, cold: bool, dead: bool)

  /** `store` says what a read at a location delivers; `deleted` lists the lengths given back to the page. */
  datatype Engine = Engine(
    table: map<Bytes, Header>, store: map<Loc, Bytes>, deleted: seq<nat>, rescues: nat, lost: nat, skipped: nat)

  datatype Job = Job(page: nat, version: nat, dropUnread: bool)

  const REFCOUNT_AT: nat := 36

  /** The reference count as it was copied into the buffer. */
  function RefcountOf(x: Bytes): nat
    requires |x| >= ITEM_SIZE
  {
    x[REFCOUNT_AT] as nat + 0x100 * x[REFCOUNT_AT + 1] as nat
  }

  function KeyAt(x: Bytes): nat
    requires |x| >= ITEM_SIZE
  {
    ITEM_SIZE + if HasCas(x[FLAGS_AT]) then 8 else 0
  }

  function KeyOf(x: Bytes): Bytes
    requires IsImage(x)
  {
    x[KeyAt(x)..KeyAt(x) + x[NKEY_AT] as nat]
  }

  predicate Within(at: Loc, job: Job) {
    at.page == job.page && at.version == job.version
  }

  /** The header is live and names the page; its offset is not looked at. */
  predicate Valid(h: Header, job: Job) {
    !h.dead && Within(h.at, job)
  }

  /** One object of the page; `grant` is where a rewrite of it goes, if ten tries find room. */
  function Visit(e: Engine, job: Job, x: Bytes, grant: Option<Loc>): Engine
    requires IsImage(x)
  {
    var k := KeyOf(x);
    if k !in e.table || !Valid(e.table[k], job) then e
    else
      var f := e.(deleted := e.deleted + [|x|]);
      if job.dropUnread && e.table[k].cold then f.(skipped := f.skipped + 1)
      else if grant.None? then f.(lost := f.lost + 1)
      else
        var g := f.(store := f.store[grant.value := x]);
        if RefcountOf(x) == 2 then
          g.(table := g.table[k := g.table[k].(at := grant.value)], rescues := g.rescues + 1)
        else g.(lost := g.lost + 1)
  }

  function VisitAll(e: Engine, job: Job, objs: seq<Bytes>, grants: seq<Option<Loc>>): Engine
    requires Images(objs) && |objs| <= |grants|
    decreases |objs|
  {
    if objs == [] then e
    else VisitAll(Visit(e, job, objs[0], grants[0]), job, objs[1..], grants[1..])
  }

  lemma {:induction false} VisitOneMore(e: Engine, job: Job, objs: seq<Bytes>, grants: seq<Option<Loc>>, n: nat)
    requires Images(objs) && n < |objs| <= |grants|
    ensures VisitAll(e, job, objs[..n + 1], grants) == Visit(VisitAll(e, job, objs[..n], grants), job, objs[n], grants[n])
    decreases n
  {
    if n == 0 {
      assert objs[..1] == [objs[0]];
    } else {
      assert objs[..n + 1][1..] == objs[1..][..n] && objs[..n][1..] == objs[1..][..n - 1];
      VisitOneMore(Visit(e, job, objs[0], grants[0]), job, objs[1..], grants[1..], n - 1);
    }
  }

  // ----- the loop ---------------------------------------------------------------------------

  class Compactor {
    var table: map<Bytes, Header>
    var store: map<Loc, Bytes>
    var deleted: seq<nat>
    var rescues: nat
    var lost: nat
    var skipped: nat

    ghost function View(): Engine
      reads this
    {
      Engine(table, store, deleted, rescues, lost, skipped)
    }

    /** The region under the item lock. */
    method VisitObject(job: Job, x: Bytes, grant: Option<Loc>)
      requires IsImage(x)
      modifies this
      ensures View() == Visit(old(View()), job, x, grant)
    {
      var k := KeyOf(x);
      if k in table && Valid(table[k], job) {
        deleted := deleted + [|x|];
        if job.dropUnread && table[k].cold {
          skipped := skipped + 1;
        } else if grant.Some? {
          var at := grant.value;
          store := store[at := x];
          if RefcountOf(x) == 2 {
            table := table[k := table[k].(at := at)];
            rescues := rescues + 1;
          } else {
            lost := lost + 1;
          }
        } else {
          lost := lost + 1;
        }
      }
    }

    /** storage_compact_readback: of a flushed buffer it visits every object written, in order, once. */
    method Readback(job: Job, buf: Bytes, grants: seq<Option<Loc>>, ghost objs: seq<Bytes>)
      returns (visited: seq<Bytes>)
      requires |buf| >= ITEM_SIZE && Images(objs) && |Concat(objs)| <= |buf| && buf == Pack(objs, |buf|)
      requires |objs| <= |grants|
      modifies this
      ensures visited == objs
      ensures View() == VisitAll(old(View()), job, objs, grants)
    {
      visited := [];
      var offset: nat := 0;
      ghost var e := View();
      assert buf[0..] == buf && objs[0..] == objs;
      while offset < |buf|
        invariant Underway(e, job, buf, offset, objs, |visited|, grants) && visited == objs[..|visited|]
        invariant offset == |buf| || |buf| - offset >= ITEM_SIZE
        decreases |objs| - |visited|, |buf| - offset
      {
        var x := VisitNext(job, buf, offset, grants, |visited|, e, objs);
        if x.None? { break; }
        assert objs[..|visited| + 1] == visited + [x.value];
        visited := visited + [x.value];
        offset := offset + |x.value|;
        if |buf| - offset < ITEM_SIZE { break; }
      }
      AllVisited(buf, offset, objs, visited);
    }

    /** The object at `offset`, unless there is none any more. */
    method VisitNext(job: Job, buf: Bytes, offset: nat, grants: seq<Option<Loc>>, n: nat, ghost e: Engine, ghost objs: seq<Bytes>)
      returns (x: Option<Bytes>)
      requires Images(objs) && |objs| <= |grants| && Underway(e, job, buf, offset, objs, n, grants) && |buf| - offset >= ITEM_SIZE
      modifies this
      ensures x.None? ==> n == |objs| && View() == old(View())
      ensures x.Some? ==>
        && n < |objs| && x.value == objs[n] && |x.value| > 0
        && Underway(e, job, buf, offset + |x.value|, objs, n + 1, grants)
    {
      NextObject(buf, offset, objs[n..]);
      if buf[offset + NKEY_AT] == 0 { return None; }
      var ntotal := NTotal(buf[offset..]);
      var found := buf[offset..offset + ntotal];
      assert found == objs[n] && objs[n..][1..] == objs[n + 1..];
      VisitOneMore(e, job, objs, grants, n);
      VisitObject(job, found, grants[n]);
      return Some(found);
    }

    /** `n` objects have been visited, and the next one starts at `offset`. */
    ghost predicate Underway(e: Engine, job: Job, buf: Bytes, offset: nat, objs: seq<Bytes>, n: nat, grants: seq<Option<Loc>>)
      requires Images(objs) && |objs| <= |grants|
      reads this
    {
      && n <= |objs| && offset <= |buf| && Rest(buf, offset, objs[n..])
      && View() == VisitAll(e, job, objs[..n], grants)
    }
  }

  /** From `offset` on the buffer holds `objs` and zeros. */
  ghost predicate Rest(buf: Bytes, offset: nat, objs: seq<Bytes>) {
    && offset <= |buf| && Images(objs) && |Concat(objs)| <= |buf| - offset
    && buf[offset..] == Concat(objs) + Zeros(|buf| - offset - |Concat(objs)|)
  }

  /** The key length is zero exactly behind the last object. */
  lemma NextObject(buf: Bytes, offset: nat, objs: seq<Bytes>)
    requires Rest(buf, offset, objs) && |buf| - offset >= ITEM_SIZE
    ensures buf[offset + NKEY_AT] == 0 <==> objs == []
    ensures objs != [] ==>
      && NTotal(buf[offset..]) == |objs[0]| && offset + |objs[0]| <= |buf|
      && buf[offset..offset + |objs[0]|] == objs[0] && Rest(buf, offset + |objs[0]|, objs[1..])
  {
    var rest := buf[offset..];
    if objs != [] {
      var x := objs[0];
      assert IsImage(x);
      assert rest == x + rest[|x|..];
      SameHeader(x, rest);
      assert buf[offset..offset + |x|] == rest[..|x|] == x;
      assert buf[offset + |x|..] == rest[|x|..];
    } else {
      assert rest[NKEY_AT] == 0;
    }
  }

  lemma NothingLeft(buf: Bytes, offset: nat, objs: seq<Bytes>)
    requires Rest(buf, offset, objs) && |buf| - offset < ITEM_SIZE
    ensures objs == []
  {
    assert objs != [] ==> IsImage(objs[0]);
  }

  lemma AllVisited(buf: Bytes, offset: nat, objs: seq<Bytes>, visited: seq<Bytes>)
    requires |visited| <= |objs| && visited == objs[..|visited|] && Rest(buf, offset, objs[|visited|..])
    requires |buf| - offset < ITEM_SIZE || |visited| == |objs|
    ensures visited == objs && objs[..|visited|] == objs
  {
    if |visited| < |objs| { NothingLeft(buf, offset, objs[|visited|..]); }
  }

  // ----- what compaction keeps --------------------------------------------------------------

  function ReadKey(e: Engine, k: Bytes): Option<Bytes> {
    if k in e.table && e.table[k].at in e.store then Some(e.store[e.table[k].at]) else None
  }

  /** extstore_close_page at the end of a compaction: reads from the page miss from now on. */
  function Close(e: Engine, job: Job): Engine {
    e.(store := map l | l in e.store && !Within(l, job) :: e.store[l])
  }

  /** Each grant is a place of its own where nothing has been written yet. */
  ghost predicate Fresh(e: Engine, grants: seq<Option<Loc>>) {
    && (forall i | 0 <= i < |grants| && grants[i].Some? :: grants[i].value !in e.store)
    && (forall i, j | 0 <= i < j < |grants| && grants[i].Some? && grants[j].Some? :: grants[i].value != grants[j].value)
  }

  /** A visit to `x` takes the key out of the page. */
  predicate Escapes(job: Job, cold: bool, k: Bytes, x: Bytes, grant: Option<Loc>)
    requires IsImage(x)
  {
    KeyOf(x) == k && !(job.dropUnread && cold) && grant.Some? && !Within(grant.value, job) && RefcountOf(x) == 2
  }

  /** What a visit counts: an object whose key is live and points into the page is taken off the page, and is skipped,
      rescued or lost; any other object is passed over. */
  lemma VisitCounts(e: Engine, job: Job, x: Bytes, grant: Option<Loc>)
    requires IsImage(x)
    ensures var f := Visit(e, job, x, grant); var k := KeyOf(x);
      if k in e.table && !e.table[k].dead && e.table[k].at.page == job.page && e.table[k].at.version == job.version then
        var skip := job.dropUnread && e.table[k].cold;
        var rescue := !skip && grant.Some? && RefcountOf(x) == 2;
        && f.deleted == e.deleted + [|x|]
        && f.skipped == e.skipped + (if skip then 1 else 0)
        && f.rescues == e.rescues + (if rescue then 1 else 0)
        && f.lost == e.lost + (if skip || rescue then 0 else 1)
        && f.table == (if rescue then e.table[k := e.table[k].(at := grant.value)] else e.table)
        && f.store == (if !skip && grant.Some? then e.store[grant.value := x] else e.store)
      else f == e
  {
  }

  /** The index of the first visit that takes key `k` out of the page, or the number of objects. */
  function FirstEscape(job: Job, cold: bool, k: Bytes, objs: seq<Bytes>, grants: seq<Option<Loc>>): (r: nat)
    requires Images(objs) && |objs| <= |grants|
    ensures r <= |objs| && (r < |objs| ==> Escapes(job, cold, k, objs[r], grants[r]))
    ensures forall i | 0 <= i < r :: !Escapes(job, cold, k, objs[i], grants[i])
    decreases |objs|
  {
    if objs == [] then 0
    else if Escapes(job, cold, k, objs[0], grants[0]) then 0
    else
      var r := FirstEscape(job, cold, k, objs[1..], grants[1..]);
      assert forall i | 0 < i < 1 + r :: objs[i] == objs[1..][i - 1] && grants[i] == grants[1..][i - 1];
      1 + r
  }

  lemma FreshTail(e: Engine, job: Job, x: Bytes, grants: seq<Option<Loc>>)
    requires IsImage(x) && |grants| > 0 && Fresh(e, grants)
    ensures Fresh(Visit(e, job, x, grants[0]), grants[1..])
  {
    var f := Visit(e, job, x, grants[0]);
    assert forall l | l in f.store :: l in e.store || (grants[0].Some? && l == grants[0].value);
  }

  /** A key that does not point into the page, or is dead, keeps its header and its object. */
  lemma {:induction false} OthersKeep(e: Engine, job: Job, objs: seq<Bytes>, grants: seq<Option<Loc>>, k: Bytes)
    requires Images(objs) && |objs| <= |grants| && Fresh(e, grants)
    requires k in e.table && !Valid(e.table[k], job) && e.table[k].at in e.store
    ensures var f := VisitAll(e, job, objs, grants);
      k in f.table && f.table[k] == e.table[k] && ReadKey(f, k) == ReadKey(e, k)
    decreases |objs|
  {
    if objs != [] {
      FreshTail(e, job, objs[0], grants);
      OthersKeep(Visit(e, job, objs[0], grants[0]), job, objs[1..], grants[1..], k);
    }
  }

  lemma {:induction false} PointedKeep(e: Engine, job: Job, objs: seq<Bytes>, grants: seq<Option<Loc>>, k: Bytes)
    requires Images(objs) && |objs| <= |grants| && Fresh(e, grants)
    requires k in e.table && Valid(e.table[k], job)
    ensures var f := VisitAll(e, job, objs, grants); var r := FirstEscape(job, e.table[k].cold, k, objs, grants);
      && k in f.table
      && (if r < |objs| then f.table[k].at == grants[r].value && ReadKey(f, k) == Some(objs[r])
          else Within(f.table[k].at, job))
    decreases |objs|
  {
    if objs != [] {
      var e' := Visit(e, job, objs[0], grants[0]);
      FreshTail(e, job, objs[0], grants);
      if Escapes(job, e.table[k].cold, k, objs[0], grants[0]) {
        OthersKeep(e', job, objs[1..], grants[1..], k);
      } else {
        PointedKeep(e', job, objs[1..], grants[1..], k);
      }
    }
  }

  /** What compacting and closing a page does to a key that points into it: the key reads as before if and
      only if the first object of that key that is rewritten is a copy of the one it points at. */
  lemma CompactKeeps(e: Engine, job: Job, objs: seq<Bytes>, grants: seq<Option<Loc>>, k: Bytes)
    requires Images(objs) && |objs| <= |grants| && Fresh(e, grants)
    requires k in e.table && Valid(e.table[k], job) && e.table[k].at in e.store
    ensures var r := FirstEscape(job, e.table[k].cold, k, objs, grants);
      (ReadKey(Close(VisitAll(e, job, objs, grants), job), k) == ReadKey(e, k))
      <==> (r < |objs| && objs[r] == e.store[e.table[k].at])
  {
    PointedKeep(e, job, objs, grants, k);
  }

  /** With one object per key in the page, a compacted key reads as before or not at all. */
  lemma OnePerKey(e: Engine, job: Job, objs: seq<Bytes>, grants: seq<Option<Loc>>, k: Bytes, own: nat)
    requires Images(objs) && |objs| <= |grants| && Fresh(e, grants)
    requires k in e.table && Valid(e.table[k], job) && e.table[k].at in e.store
    requires own < |objs| && objs[own] == e.store[e.table[k].at] && KeyOf(objs[own]) == k
    requires forall i | 0 <= i < |objs| && i != own :: KeyOf(objs[i]) != k
    ensures var f := Close(VisitAll(e, job, objs, grants), job);
      ReadKey(f, k) == if Escapes(job, e.table[k].cold, k, objs[own], grants[own]) then ReadKey(e, k) else None
  {
    PointedKeep(e, job, objs, grants, k);
  }

  /** Validity does not compare offsets. If a key was written twice into a page, a compaction with room for
      both brings the first, overwritten object back. */
  lemma StaleObjectReturns(e: Engine, job: Job, first: Bytes, second: Bytes, grants: seq<Option<Loc>>)
    requires IsImage(first) && IsImage(second) && KeyOf(first) == KeyOf(second) && first != second
    requires var k := KeyOf(second);
      k in e.table && Valid(e.table[k], job) && e.table[k].at in e.store && e.store[e.table[k].at] == second
    requires RefcountOf(first) == 2 && !job.dropUnread
    requires |grants| == 2 && Fresh(e, grants) && grants[0].Some? && !Within(grants[0].value, job)
    ensures var f := Close(VisitAll(e, job, [first, second], grants), job);
      ReadKey(f, KeyOf(second)) == Some(first) && ReadKey(e, KeyOf(second)) == Some(second)
  {
    PointedKeep(e, job, [first, second], grants, KeyOf(second));
  }
}
