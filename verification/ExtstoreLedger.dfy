/**
 * The totals of extstore over whole runs: they equal the sums over the pages as long as each object is
 * deleted at most once, and with the length it was written with.
 */
module ExtstoreLedger {
  import opened Common
  import opened ItemImage
  import opened Extstore
  import opened ExtstoreInv
  import opened ExtstoreSteps
  import opened ExtstorePages
  import opened ExtstoreSafety
  import opened ExtstoreTheorems

  // ----- objects that are still owed to a page ----------------------------------------------

  predicate Counts(r: Receipt, i: nat, version: nat) {
    r.page == i && r.version == version
  }

  /** Objects written to page `i` while it had this version, and not among the deleted ones. */
  function Owed(rs: seq<Receipt>, deleted: set<nat>, i: nat, version: nat): nat {
    if rs == [] then 0
    else
      var n := |rs| - 1;
      Owed(rs[..n], deleted, i, version) + if n !in deleted && Counts(rs[n], i, version) then 1 else 0
  }

  function OwedBytes(rs: seq<Receipt>, deleted: set<nat>, i: nat, version: nat): nat {
    if rs == [] then 0
    else
      var n := |rs| - 1;
      OwedBytes(rs[..n], deleted, i, version) + if n !in deleted && Counts(rs[n], i, version) then |rs[n].data| else 0
  }

  /** One more deletion takes off that object and no other. */
  lemma {:induction false} OwedDelete(rs: seq<Receipt>, deleted: set<nat>, k: nat, i: nat, version: nat)
    requires k < |rs| && k !in deleted
    ensures var hit := Counts(rs[k], i, version);
      && Owed(rs, deleted, i, version) == Owed(rs, deleted + {k}, i, version) + (if hit then 1 else 0)
      && OwedBytes(rs, deleted, i, version) == OwedBytes(rs, deleted + {k}, i, version) + if hit then |rs[k].data| else 0
  {
    var n := |rs| - 1;
    if k < n {
      OwedDelete(rs[..n], deleted, k, i, version);
    } else {
      OwedBeyond(rs[..n], deleted, k, i, version);
    }
  }

  lemma {:induction false} OwedBeyond(rs: seq<Receipt>, deleted: set<nat>, k: nat, i: nat, version: nat)
    requires k >= |rs|
    ensures Owed(rs, deleted + {k}, i, version) == Owed(rs, deleted, i, version)
    ensures OwedBytes(rs, deleted + {k}, i, version) == OwedBytes(rs, deleted, i, version)
  {
    if rs != [] { OwedBeyond(rs[..|rs| - 1], deleted, k, i, version); }
  }

  lemma {:induction false} OwedNone(rs: seq<Receipt>, deleted: set<nat>, i: nat, version: nat)
    requires forall k | 0 <= k < |rs| :: rs[k].version != version
    ensures Owed(rs, deleted, i, version) == 0 && OwedBytes(rs, deleted, i, version) == 0
  {
    if rs != [] { OwedNone(rs[..|rs| - 1], deleted, i, version); }
  }

  lemma OwedWrite(rs: seq<Receipt>, deleted: set<nat>, r: Receipt, i: nat, version: nat)
    requires |rs| !in deleted
    ensures var hit := Counts(r, i, version);
      && Owed(rs + [r], deleted, i, version) == Owed(rs, deleted, i, version) + (if hit then 1 else 0)
      && OwedBytes(rs + [r], deleted, i, version) == OwedBytes(rs, deleted, i, version) + if hit then |r.data| else 0
  {
    assert (rs + [r])[..|rs|] == rs;
  }

  // ----- the ledger -------------------------------------------------------------------------

  /** The counters of page `i` cover the objects that may still be deleted from it. */
  ghost predicate Covers(s: State, deleted: set<nat>, i: nat)
    requires i < |s.pages|
  {
    var p := s.pages[i];
    !p.free ==>
      && Owed(s.receipts, deleted, i, p.version) <= p.objCount
      && OwedBytes(s.receipts, deleted, i, p.version) <= p.bytesUsed
  }

  ghost predicate Ledger(s: State, deleted: set<nat>) {
    && (forall k | k in deleted :: k < |s.receipts|)
    && forall i | 0 <= i < |s.pages| :: Covers(s, deleted, i)
  }

  /** Receipt `k` deleted as the program does it: its page and version, one object, its length. */
  predicate DeletesReceipt(s: State, a: Action, k: nat) {
    k < |s.receipts| &&
    var r := s.receipts[k];
    a == ADelete(r.page, r.version, 1, |r.data|)
  }

  /** Every delete that happens in the run is of an object that was written and not deleted before. */
  ghost predicate Honest(g: Config, s: State, deleted: set<nat>, actions: seq<Action>)
    decreases |actions|
  {
    actions == [] ||
    var a := actions[0];
    if !Enabled(g, s, a) then Honest(g, s, deleted, actions[1..])
    else if a.ADelete? then
      exists k: nat :: k !in deleted && DeletesReceipt(s, a, k) && Honest(g, Apply(g, s, a), deleted + {k}, actions[1..])
    else Honest(g, Apply(g, s, a), deleted, actions[1..])
  }

  /** Pages that a step leaves in use as they were, or frees, and receipts it keeps. */
  lemma LedgerFrame(s: State, t: State, deleted: set<nat>)
    requires Ledger(s, deleted) && t.receipts == s.receipts && |t.pages| == |s.pages|
    requires forall i | 0 <= i < |s.pages| && !t.pages[i].free ::
      && !s.pages[i].free && t.pages[i].version == s.pages[i].version
      && t.pages[i].objCount == s.pages[i].objCount && t.pages[i].bytesUsed == s.pages[i].bytesUsed
    ensures Ledger(t, deleted)
  {
    forall i | 0 <= i < |t.pages| ensures Covers(t, deleted, i) { assert Covers(s, deleted, i); }
  }

  lemma KeepAllocate(g: Config, s: State, b: nat, fb: nat, deleted: set<nat>)
    requires PagesOk(g, s) && ListsOk(g, s) && ReceiptsOk(g, s) && HeadFull(g, s, b) && Ledger(s, deleted)
    ensures Ledger(AllocatePage(g, s, b, fb), deleted)
  {
    var t := AllocatePage(g, s, b, fb);
    forall k | 0 <= k < |s.receipts| ensures s.receipts[k].version != s.version { assert ReceiptOk(g, s, s.receipts[k]); }
    forall i | 0 <= i < |t.pages| ensures Covers(t, deleted, i) {
      assert Covers(s, deleted, i);
      OwedNone(s.receipts, deleted, i, s.version);
    }
  }

  lemma KeepDeleted(s: State, a: Action, k: nat, deleted: set<nat>)
    requires Ledger(s, deleted) && Totals(s) && DeletesReceipt(s, a, k) && k !in deleted && a.version > 0
    requires Deletes(s, a.page, a.version) ==> !s.pages[a.page].free
    ensures var t := DeleteObjects(s, a.page, a.version, a.count, a.bytes); Ledger(t, deleted + {k}) && Totals(t)
  {
    var t := DeleteObjects(s, a.page, a.version, a.count, a.bytes);
    var r := s.receipts[k];
    forall i | 0 <= i < |t.pages| ensures Covers(t, deleted + {k}, i) {
      assert Covers(s, deleted, i);
      OwedDelete(s.receipts, deleted, k, i, s.pages[i].version);
    }
    if Deletes(s, a.page, a.version) {
      assert Covers(s, deleted, a.page);
      OwedDelete(s.receipts, deleted, k, a.page, a.version);
      TotalsOne(s, t, a.page);
    }
  }

  /** What a write does to counters and receipts. */
  lemma WriteCounts(g: Config, s: State, b: nat, data: Bytes)
    requires Inv(g, s) && CanWrite(g, s, b, data)
    ensures var i := s.writers[b].page; var t := Write(g, s, b, data);
      && |t.pages| == |s.pages|
      && (forall j | 0 <= j < |s.pages| ::
            && t.pages[j].free == s.pages[j].free && t.pages[j].version == s.pages[j].version
            && (j != i || t.receipts == s.receipts ==>
                  t.pages[j].objCount == s.pages[j].objCount && t.pages[j].bytesUsed == s.pages[j].bytesUsed))
      && (t.receipts != s.receipts ==>
            && t.pages[i].objCount == s.pages[i].objCount + 1 && t.pages[i].bytesUsed == s.pages[i].bytesUsed + |data|
            && exists r :: t.receipts == s.receipts + [r] && r.data == data && Counts(r, i, s.pages[i].version))
  {
    var i := s.writers[b].page;
    WriteReceipt(g, s, b, data);
    assert PageOk(g, s.pages[i], s.disk[i], i, s.version);
    var t := Write(g, s, b, data);
    if t.receipts != s.receipts {
      var r := t.receipts[|s.receipts|];
      assert t.receipts == s.receipts + [r] && Counts(r, i, s.pages[i].version);
    }
  }

  lemma KeepWritten(g: Config, s: State, b: nat, data: Bytes, deleted: set<nat>)
    requires Inv(g, s) && CanWrite(g, s, b, data) && Ledger(s, deleted)
    ensures Ledger(Write(g, s, b, data), deleted)
  {
    var t := Write(g, s, b, data);
    WriteCounts(g, s, b, data);
    forall j | 0 <= j < |t.pages| ensures Covers(t, deleted, j) {
      assert Covers(s, deleted, j);
      if t.receipts != s.receipts {
        var r :| t.receipts == s.receipts + [r] && r.data == data && Counts(r, s.writers[b].page, s.pages[s.writers[b].page].version);
        OwedWrite(s.receipts, deleted, r, j, s.pages[j].version);
      }
    }
  }

  /** Every step but a delete keeps the ledger. */
  lemma KeepLedger(g: Config, s: State, a: Action, deleted: set<nat>)
    requires Inv(g, s) && Enabled(g, s, a) && !a.ADelete? && Ledger(s, deleted)
    ensures Ledger(Apply(g, s, a), deleted)
  {
    match a
    case ABegin(b, fb) => KeepBegun(g, s, b, fb, deleted);
    case ATurn(b, fb) =>
      KeepAllocate(g, s, b, fb, deleted);
      LedgerFrame(AllocatePage(g, s, b, fb), Turn(g, s, b, fb), deleted);
    case AWrite(b, data) => KeepWritten(g, s, b, data, deleted);
    case _ => OthersKeepCounts(g, s, a, deleted);
  }

  lemma KeepBegun(g: Config, s: State, b: nat, fb: nat, deleted: set<nat>)
    requires Inv(g, s) && CanBegin(g, s, b) && Ledger(s, deleted)
    ensures Ledger(Begin(g, s, b, fb), deleted)
  {
    var t := if s.buckets[b] == [] then AllocatePage(g, s, b, fb) else s;
    if s.buckets[b] == [] { KeepAllocate(g, s, b, fb, deleted); }
    LedgerFrame(t, Begin(g, s, b, fb), deleted);
  }

  lemma OthersKeepCounts(g: Config, s: State, a: Action, deleted: set<nat>)
    requires Enabled(g, s, a) && Ledger(s, deleted)
    requires !a.ADelete? && !a.ABegin? && !a.ATurn? && !a.AWrite?
    ensures Ledger(Apply(g, s, a), deleted)
  {
    LedgerFrame(s, Apply(g, s, a), deleted);
  }

  // ----- main results -----------------------------------------------------------------------

  lemma {:induction false} HonestRun(g: Config, s: State, deleted: set<nat>, actions: seq<Action>)
    requires Inv(g, s) && Totals(s) && Ledger(s, deleted) && Honest(g, s, deleted, actions)
    ensures Totals(Run(g, s, actions))
    decreases |actions|
  {
    if actions != [] {
      var a := actions[0];
      if !Enabled(g, s, a) {
        HonestRun(g, s, deleted, actions[1..]);
      } else {
        StepKeeps(g, s, a);
        if a.ADelete? {
          var k: nat :| k !in deleted && DeletesReceipt(s, a, k) && Honest(g, Apply(g, s, a), deleted + {k}, actions[1..]);
          if Deletes(s, a.page, a.version) { assert PageOk(g, s.pages[a.page], s.disk[a.page], a.page, s.version); }
          KeepDeleted(s, a, k, deleted);
          HonestRun(g, Apply(g, s, a), deleted + {k}, actions[1..]);
        } else {
          StepTotals(g, s, a);
          KeepLedger(g, s, a, deleted);
          HonestRun(g, Apply(g, s, a), deleted, actions[1..]);
        }
      }
    }
  }

  lemma BootLedger(g: Config, fb: seq<nat>)
    requires Conf(g, fb)
    ensures Totals(Boot(g, fb)) && Ledger(Boot(g, fb), {})
  {
    SumConst(Boot(g, fb).pages, Objects, 0);
    SumConst(Boot(g, fb).pages, Used, 0);
  }

  /** In every run in which each object is deleted at most once, with its length, the engine's totals of
      objects and bytes are the sums over its pages. */
  lemma TotalsInRuns(g: Config, fb: seq<nat>, actions: seq<Action>)
    requires Conf(g, fb) && Honest(g, Boot(g, fb), {}, actions)
    ensures Totals(Run(g, Boot(g, fb), actions))
  {
    BootInv(g, fb);
    BootLedger(g, fb);
    HonestRun(g, Boot(g, fb), {}, actions);
  }

  /** An object that is deleted twice: the page's counters stop at 0, the totals go below. */
  lemma TwiceDeleted(g: Config, s: State, i: nat, version: nat, count: nat, bytes: nat)
    requires Totals(s) && Deletes(s, i, version) && s.pages[i].objCount == count > 0 && s.pages[i].bytesUsed == bytes
    ensures var t := DeleteObjects(s, i, version, count, bytes);
      Deletes(t, i, version) && Totals(t) && !Totals(DeleteObjects(t, i, version, count, bytes))
  {
    var t := DeleteObjects(s, i, version, count, bytes);
    DeleteTotals(g, s, i, version, count, bytes);
    DeleteTotals(g, t, i, version, count, bytes);
  }

  /** Such a run: a page is taken, one object written to it, and deleted twice. */
  lemma DoubleDeleteRun(g: Config, fb: seq<nat>, data: Bytes)
    requires Conf(g, fb) && g.pages == 2 && fb[1] == 0 && IsImage(data) && |data| <= g.size
    ensures var twice := ADelete(1, 1, 1, |data|);
      && !Totals(Run(g, Boot(g, fb), [ABegin(0, 0), AWrite(0, data), twice, twice]))
      && Totals(Run(g, Boot(g, fb), [ABegin(0, 0), AWrite(0, data), twice]))
  {
    var s := Boot(g, fb);
    BootLedger(g, fb);
    BootInv(g, fb);
    var d := ADelete(1, 1, 1, |data|);
    var t := Apply(g, s, ABegin(0, 0));
    FirstPage(g, fb);
    StepKeeps(g, s, ABegin(0, 0));
    StepTotals(g, s, ABegin(0, 0));
    FirstWrite(g, t, data);
    var u := Apply(g, t, AWrite(0, data));
    StepTotals(g, t, AWrite(0, data));
    TwiceDeleted(g, u, 1, 1, 1, |data|);
    RunFour(g, s, t, u, data, d);
  }

  lemma FirstPage(g: Config, fb: seq<nat>)
    requires Conf(g, fb) && g.pages == 2 && fb[1] == 0
    ensures var s := Boot(g, fb);
      && CanBegin(g, s, 0)
      && var t := Begin(g, s, 0, 0);
         && t.writers[0] == Chosen(1) && t.wbufStack == s.wbufStack && t.receipts == []
         && t.pages[1] == s.pages[1].(active := true, free := false, version := 1, bucket := 0)
  {
    var s := Boot(g, fb);
    assert PagesOf(fb, 0, 2) == [1];
  }

  lemma FirstWrite(g: Config, t: State, data: Bytes)
    requires Inv(g, t) && |t.pages| == 2 && |t.writers| > 0 && t.writers[0] == Chosen(1) && t.wbufStack != []
    requires IsImage(data) && |data| <= g.size
    requires var p := t.pages[1];
      p.active && !p.free && !p.closed && p.version == 1 && p.wbuf.None? && p.reserved == 0 && p.objCount == 0 && p.bytesUsed == 0
    ensures CanWrite(g, t, 0, data)
    ensures var u := Write(g, t, 0, data);
      Deletes(u, 1, 1) && u.pages[1].objCount == 1 && u.pages[1].bytesUsed == |data|
  {
    assert PageSize(g) > 0 by { Step(0, g.perPage, g.size); }
  }

  lemma RunFour(g: Config, s: State, t: State, u: State, data: Bytes, d: Action)
    requires Enabled(g, s, ABegin(0, 0)) && t == Apply(g, s, ABegin(0, 0))
    requires Enabled(g, t, AWrite(0, data)) && u == Apply(g, t, AWrite(0, data))
    requires d.ADelete? && d.version > 0
    ensures Run(g, s, [ABegin(0, 0), AWrite(0, data), d]) == Apply(g, u, d)
    ensures Run(g, s, [ABegin(0, 0), AWrite(0, data), d, d]) == Apply(g, Apply(g, u, d), d)
  {
    assert Run(g, u, [d]) == Run(g, Apply(g, u, d), []);
    assert Run(g, Apply(g, u, d), [d]) == Run(g, Apply(g, Apply(g, u, d), d), []);
    assert Run(g, u, [d, d]) == Run(g, Apply(g, u, d), [d]);
    assert Run(g, t, [AWrite(0, data), d]) == Run(g, u, [d]);
    assert Run(g, t, [AWrite(0, data), d, d]) == Run(g, u, [d, d]);
    assert Run(g, s, [ABegin(0, 0), AWrite(0, data), d]) == Run(g, t, [AWrite(0, data), d]);
    assert Run(g, s, [ABegin(0, 0), AWrite(0, data), d, d]) == Run(g, t, [AWrite(0, data), d, d]);
  }
}
