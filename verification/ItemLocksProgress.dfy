/**
 * The chain a thread chooses is the one its key is in; and the maintenance thread moves bucket after bucket until
 * the expansion is over.
 */
module ItemLocksProgress {
  import opened Common
  import opened Assoc
  import opened ItemLocks

  lemma {:induction false} RunTwice(s: State, a: seq<Action>, b: seq<Action>)
    ensures Run(s, a + b) == Run(Run(s, a), b)
    decreases |a|
  {
    if a == [] {
      assert a + b == b;
    } else {
      assert (a + b)[1..] == a[1..] + b;
      RunTwice(if Enabled(s, a[0]) then Apply(s, a[0]) else s, a[1..], b);
    }
  }

  const ONE_BUCKET: seq<Action> := [AMoverLock] + ([AMoverAdvance] + ([AMoverCheck] + ([AMoverUnlock] + [])))

  /** With its lock to be had one bucket is moved and the lock given back; the expansion is over with the last one,
      and not before. */
  lemma MovesOne(s: State)
    requires Inv(s) && s.expanding && s.mover.Idle? && !s.locks[Stripe(s, s.expandBucket)]
    ensures s.expandBucket < Pow2(OldPower(s))
    ensures Run(s, ONE_BUCKET)
      == s.(expandBucket := s.expandBucket + 1, expanding := s.expandBucket + 1 < Pow2(OldPower(s)))
  {
    var b := s.expandBucket;
    var t := Apply(s, AMoverLock);
    var u := Apply(t, AMoverAdvance);
    var v := Apply(u, AMoverCheck);
    RunFirst(s, AMoverLock, [AMoverAdvance] + ([AMoverCheck] + ([AMoverUnlock] + [])));
    RunFirst(t, AMoverAdvance, [AMoverCheck] + ([AMoverUnlock] + []));
    RunFirst(u, AMoverCheck, [AMoverUnlock] + []);
    RunFirst(v, AMoverUnlock, []);
    assert s.locks[Stripe(s, b) := true][Stripe(s, b) := false] == s.locks;
  }

  /** With nobody in its way it moves the remaining buckets, four steps each, and ends the expansion. */
  lemma {:induction false} ExpansionEnds(s: State) returns (actions: seq<Action>)
    requires Inv(s) && s.expanding && s.mover.Idle?
    requires forall i | 0 <= i < |s.locks| :: !s.locks[i]
    ensures s.expandBucket < Pow2(OldPower(s)) && |actions| == 4 * (Pow2(OldPower(s)) - s.expandBucket)
    ensures Run(s, actions) == s.(expandBucket := Pow2(OldPower(s)), expanding := false)
    decreases Pow2(OldPower(s)) - s.expandBucket
  {
    MovesOne(s);
    var t := Run(s, ONE_BUCKET);
    if !t.expanding { return ONE_BUCKET; }
    RunKeeps(s, ONE_BUCKET);
    var rest := ExpansionEnds(t);
    RunTwice(s, ONE_BUCKET, rest);
    actions := ONE_BUCKET + rest;
  }

  /** From a table at rest an expansion runs through: twice the buckets, every lock free again. */
  lemma WholeExpansion(s: State) returns (actions: seq<Action>)
    requires Inv(s) && Enabled(s, AExpand) && forall i | 0 <= i < |s.locks| :: !s.locks[i]
    ensures Run(s, [AExpand] + actions) == s.(hashpower := s.hashpower + 1, expandBucket := Pow2(s.hashpower))
  {
    StepKeeps(s, AExpand);
    actions := ExpansionEnds(Apply(s, AExpand));
    RunFirst(s, AExpand, actions);
  }

  /** A thread that takes a lock and gives it back leaves everything as it was. */
  lemma InAndOut(s: State, i: nat, hv: nat)
    requires Enabled(s, ALock(i, hv))
    ensures var t := Apply(s, ALock(i, hv));
      && t.locks[Stripe(s, hv)] && t.holders[i] == In(hv, Fresh)
      && Enabled(t, AUnlock(i)) && Apply(t, AUnlock(i)) == s
  {
    var t := Apply(s, ALock(i, hv));
    assert t.holders[i := Out] == s.holders && t.locks[Stripe(s, hv) := false] == s.locks;
  }

  /** Under its lock a thread chooses the chain in which its key is, if it is in the table at all. */
  lemma ChoosesSlot(h: HashTable, s: State, k: Key)
    requires h.Valid() && s.hashpower == h.hashpower && s.expanding == h.expanding && s.expandBucket == h.expandBucket
    ensures var c := Choose(s, s.expanding, h.hash(k));
      var slot := if c.power == s.hashpower then c.bucket else h.primaryTable.Length + c.bucket;
      slot < |h.chains| && (k in h.table <==> exists x :: x in h.chains[slot] && x.key == k)
  {
    h.InItsChain(k);
  }
}
