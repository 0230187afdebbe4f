/**
 * The item locks of slabs_curd/thread.c over the hash table of slabs_curd/assoc.c: a fixed array of
 * locks, a table that grows, and threads that read the state of an expansion without a lock of its own.
 */
module ItemLocks {
  import opened Assoc

  /** A bucket of the table with 2^power buckets. */
  datatype Chain = Chain(power: nat, bucket: nat)

  /** One held item lock: `expanding` is read first, then `expand_bucket`, then the chain is used. */
  datatype Stage = Fresh | Saw(expanding: bool) | Using(chain: Chain)
  datatype Holder = Out | In(hv: nat, stage: Stage)

  /** The maintenance thread under the lock of bucket `b`: moving it, past `expand_bucket++`, and past the
      test whether that was the last one. */
  datatype Mover = Idle | Moving(b: nat) | Moved(b: nat) | Checked(b: nat)

  datatype State = State(
    locks: seq<bool>, lockPower: nat, hashpower: nat, expanding: bool, expandBucket: nat,
    holders: seq<Holder>, mover: Mover)

  function Stripe(s: State, hv: nat): nat {
    hv % Pow2(s.lockPower)
  }

  function OldPower(s: State): nat {
    if s.hashpower > 0 then s.hashpower - 1 else 0
  }

  /** The choice at the head of assoc_find, assoc_insert and _hashitem_before. */
  function Choose(s: State, expanding: bool, hv: nat): Chain {
    if expanding && hv % Pow2(OldPower(s)) >= s.expandBucket then Chain(OldPower(s), hv % Pow2(OldPower(s)))
    else Chain(s.hashpower, hv % Pow2(s.hashpower))
  }

  datatype Action =
    | ALock(i: nat, hv: nat)
    | ARead(i: nat)
    | AUnlock(i: nat)
    | AExpand
    | AMoverLock
    | AMoverAdvance
    | AMoverCheck
    | AMoverUnlock

  predicate Enabled(s: State, a: Action) {
    match a
    case ALock(i, hv) => i < |s.holders| && s.holders[i].Out? && Stripe(s, hv) < |s.locks| && !s.locks[Stripe(s, hv)]
    case ARead(i) => i < |s.holders| && s.holders[i].In?
    case AUnlock(i) => i < |s.holders| && s.holders[i].In? && Stripe(s, s.holders[i].hv) < |s.locks|
    case AExpand => !s.expanding && s.mover.Idle? && forall i | 0 <= i < |s.holders| :: s.holders[i].Out?
    case AMoverLock =>
      s.expanding && s.mover.Idle? && Stripe(s, s.expandBucket) < |s.locks| && !s.locks[Stripe(s, s.expandBucket)]
    case AMoverAdvance => s.mover.Moving?
    case AMoverCheck => s.mover.Moved?
    case AMoverUnlock => s.mover.Checked? && Stripe(s, s.mover.b) < |s.locks|
  }

  function Apply(s: State, a: Action): State
    requires Enabled(s, a)
  {
    match a
    case ALock(i, hv) => s.(holders := s.holders[i := In(hv, Fresh)], locks := s.locks[Stripe(s, hv) := true])
    case ARead(i) =>
      var hv := s.holders[i].hv;
      var stage := match s.holders[i].stage
        case Fresh => Saw(s.expanding)
        case Saw(expanding) => Using(Choose(s, expanding, hv))
        case Using(_) => Fresh;
      s.(holders := s.holders[i := In(hv, stage)])
    case AUnlock(i) => s.(holders := s.holders[i := Out], locks := s.locks[Stripe(s, s.holders[i].hv) := false])
    case AExpand => s.(hashpower := s.hashpower + 1, expanding := true, expandBucket := 0)
    case AMoverLock => s.(mover := Moving(s.expandBucket), locks := s.locks[Stripe(s, s.expandBucket) := true])
    case AMoverAdvance => s.(mover := Moved(s.mover.b), expandBucket := s.expandBucket + 1)
    case AMoverCheck => s.(mover := Checked(s.mover.b), expanding := s.expanding && s.expandBucket != Pow2(OldPower(s)))
    case AMoverUnlock => s.(mover := Idle, locks := s.locks[Stripe(s, s.mover.b) := false])
  }

  function Run(s: State, actions: seq<Action>): State
    decreases |actions|
  {
    if actions == [] then s
    else Run(if Enabled(s, actions[0]) then Apply(s, actions[0]) else s, actions[1..])
  }

  function Boot(lockPower: nat, hashpower: nat, threads: nat): State {
    State(seq(Pow2(lockPower), _ => false), lockPower, hashpower, false, 0, seq(threads, _ => Out), Idle)
  }

  // ----- arithmetic of stripes --------------------------------------------------------------

  lemma {:induction false} Pow2Splits(p: nat, q: nat)
    requires p <= q
    ensures Pow2(q) == Pow2(p) * Pow2(q - p)
  {
    if p > 0 { Pow2Splits(p - 1, q - 1); }
  }

  lemma NoMultiple(d: int, a: nat)
    ensures d == 0 || d * a >= a || d * a <= -(a as int)
  {
    if d > 0 { assert (d - 1) * a >= 0; }
    if d < 0 { assert (-d - 1) * a >= 0; }
  }

  lemma ModUnique(x: nat, a: nat, q: nat, r: nat)
    requires a > 0 && x == q * a + r && r < a
    ensures x % a == r
  {
    var d := q - x / a;
    assert x == a * (x / a) + x % a;
    assert d * a == x % a - r;
    NoMultiple(d, a);
  }

  lemma Regroup(a: nat, m: nat, d: nat, q: nat)
    ensures (a * m) * d + a * q == (m * d + q) * a
  {
    assert (a * m) * d == a * (m * d);
  }

  lemma ModOfMod(x: nat, a: nat, m: nat)
    requires a > 0 && m > 0
    ensures a * m > 0 && (x % (a * m)) % a == x % a
  {
    var n := a * m;
    assert n > 0;
    var y := x % n;
    Regroup(a, m, x / n, y / a);
    ModUnique(x, a, m * (x / n) + y / a, y % a);
  }

  /** The bucket of a hash value determines its lock as long as there are no more locks than buckets. */
  lemma BucketGivesStripe(hv: nat, p: nat, q: nat)
    requires p <= q
    ensures (hv % Pow2(q)) % Pow2(p) == hv % Pow2(p)
  {
    Pow2Splits(p, q);
    ModOfMod(hv, Pow2(p), Pow2(q - p));
  }

  lemma {:induction false} Pow2Grows(p: nat, q: nat)
    requires p < q
    ensures Pow2(p) < Pow2(q)
  {
    if p + 1 < q { Pow2Grows(p, q - 1); }
  }

  // ----- the invariant ----------------------------------------------------------------------

  /** What a holder has read is still right: its lock keeps its bucket where it is. */
  predicate HolderOk(s: State, h: Holder) {
    h.In? ==>
      && Stripe(s, h.hv) < |s.locks| && s.locks[Stripe(s, h.hv)]
      && match h.stage
         case Fresh => true
         case Saw(expanding) =>
           if expanding then s.hashpower > 0 && (s.expanding || s.expandBucket == Pow2(OldPower(s))) else !s.expanding
         case Using(chain) => chain == Choose(s, s.expanding, h.hv)
  }

  predicate MoverOk(s: State)
    requires |s.locks| == Pow2(s.lockPower)
  {
    match s.mover
    case Idle => s.expanding ==> s.expandBucket < Pow2(OldPower(s))
    case Moving(b) => s.expanding && s.expandBucket == b < Pow2(OldPower(s)) && s.locks[Stripe(s, b)]
    case Moved(b) => s.expanding && s.expandBucket == b + 1 <= Pow2(OldPower(s)) && s.locks[Stripe(s, b)]
    case Checked(b) =>
      && s.locks[Stripe(s, b)] && s.expandBucket == b + 1
      && (if s.expanding then s.expandBucket < Pow2(OldPower(s)) else s.expandBucket == Pow2(OldPower(s)))
  }

  predicate MoverHolds(s: State, stripe: nat) {
    !s.mover.Idle? && Stripe(s, s.mover.b) == stripe
  }

  predicate Shape(s: State) {
    && |s.locks| == Pow2(s.lockPower)
    && s.lockPower <= s.hashpower && (s.expanding ==> s.hashpower > 0 && s.lockPower <= OldPower(s))
  }

  ghost predicate Inv(s: State) {
    && Shape(s) && MoverOk(s)
    && (forall i | 0 <= i < |s.holders| :: HolderOk(s, s.holders[i]))
    && (forall i | 0 <= i < |s.holders| && s.holders[i].In? :: !MoverHolds(s, Stripe(s, s.holders[i].hv)))
    && (forall i, j | 0 <= i < j < |s.holders| && s.holders[i].In? && s.holders[j].In? ::
          Stripe(s, s.holders[i].hv) != Stripe(s, s.holders[j].hv))
  }

  /** Advancing over a bucket leaves the choice of every holder of another lock alone. */
  lemma AdvanceKeepsChoice(s: State, hv: nat, b: nat)
    requires Shape(s) && s.expanding && s.expandBucket == b < Pow2(OldPower(s))
    requires Stripe(s, hv) != Stripe(s, b)
    ensures Choose(s.(expandBucket := b + 1), true, hv) == Choose(s, true, hv)
  {
    BucketGivesStripe(hv, s.lockPower, OldPower(s));
  }

  lemma StepKeeps(s: State, a: Action)
    requires Inv(s) && Enabled(s, a)
    ensures Inv(Apply(s, a))
  {
    match a
    case ALock(i, hv) => KeepLock(s, i, hv);
    case ARead(i) => KeepRead(s, i);
    case AUnlock(i) => KeepUnlock(s, i);
    case AExpand =>
    case AMoverLock => KeepMoverLock(s);
    case AMoverAdvance => KeepAdvance(s);
    case AMoverCheck => KeepCheck(s);
    case AMoverUnlock => KeepMoverUnlock(s);
  }

  lemma KeepLock(s: State, i: nat, hv: nat)
    requires Inv(s) && Enabled(s, ALock(i, hv))
    ensures Inv(Apply(s, ALock(i, hv)))
  {
    var t := Apply(s, ALock(i, hv));
    forall j | 0 <= j < |t.holders| ensures HolderOk(t, t.holders[j]) { assert HolderOk(s, s.holders[j]); }
  }

  lemma KeepRead(s: State, i: nat)
    requires Inv(s) && Enabled(s, ARead(i))
    ensures Inv(Apply(s, ARead(i)))
  {
    var t := Apply(s, ARead(i));
    assert HolderOk(s, s.holders[i]);
    assert Pow2(OldPower(s)) > 0;
    forall j | 0 <= j < |t.holders| ensures HolderOk(t, t.holders[j]) { assert HolderOk(s, s.holders[j]); }
  }

  lemma KeepUnlock(s: State, i: nat)
    requires Inv(s) && Enabled(s, AUnlock(i))
    ensures Inv(Apply(s, AUnlock(i)))
  {
    var t := Apply(s, AUnlock(i));
    forall j | 0 <= j < |t.holders| ensures HolderOk(t, t.holders[j]) { assert HolderOk(s, s.holders[j]); }
  }

  lemma KeepMoverLock(s: State)
    requires Inv(s) && Enabled(s, AMoverLock)
    ensures Inv(Apply(s, AMoverLock))
  {
    var t := Apply(s, AMoverLock);
    forall j | 0 <= j < |t.holders| ensures HolderOk(t, t.holders[j]) { assert HolderOk(s, s.holders[j]); }
  }

  lemma KeepMoverUnlock(s: State)
    requires Inv(s) && Enabled(s, AMoverUnlock)
    ensures Inv(Apply(s, AMoverUnlock))
  {
    var t := Apply(s, AMoverUnlock);
    forall j | 0 <= j < |t.holders| ensures HolderOk(t, t.holders[j]) { assert HolderOk(s, s.holders[j]); }
  }

  lemma KeepAdvance(s: State)
    requires Inv(s) && Enabled(s, AMoverAdvance)
    ensures Inv(Apply(s, AMoverAdvance))
  {
    var t := Apply(s, AMoverAdvance);
    forall j | 0 <= j < |t.holders| ensures HolderOk(t, t.holders[j]) {
      assert HolderOk(s, s.holders[j]);
      if s.holders[j].In? { AdvanceKeepsChoice(s, s.holders[j].hv, s.mover.b); }
    }
  }

  lemma KeepCheck(s: State)
    requires Inv(s) && Enabled(s, AMoverCheck)
    ensures Inv(Apply(s, AMoverCheck))
  {
    var t := Apply(s, AMoverCheck);
    forall j | 0 <= j < |t.holders| ensures HolderOk(t, t.holders[j]) { assert HolderOk(s, s.holders[j]); }
  }

  lemma {:induction false} RunKeeps(s: State, actions: seq<Action>)
    requires Inv(s)
    ensures Inv(Run(s, actions)) && Run(s, actions).lockPower == s.lockPower
    decreases |actions|
  {
    if actions != [] {
      if Enabled(s, actions[0]) {
        StepKeeps(s, actions[0]);
        RunKeeps(Apply(s, actions[0]), actions[1..]);
      } else {
        RunKeeps(s, actions[1..]);
      }
    }
  }

  // ----- one item lock is enough ------------------------------------------------------------

  /** The chains the migration of bucket `b` reads or writes. */
  predicate Touches(s: State, b: nat, c: Chain) {
    c == Chain(OldPower(s), b) || (c.power == s.hashpower && c.bucket % Pow2(OldPower(s)) == b)
  }

  /** No two threads use the same chain, none uses a chain that is being moved, and nobody uses the old
      table once it has been freed. */
  ghost predicate Exclusive(s: State) {
    && (forall i, j | 0 <= i < j < |s.holders| && s.holders[i].In? && s.holders[j].In? ::
          !(s.holders[i].stage.Using? && s.holders[i].stage == s.holders[j].stage))
    && (forall i | 0 <= i < |s.holders| && s.holders[i].In? && s.holders[i].stage.Using? ::
          var c := s.holders[i].stage.chain;
          && (s.mover.Moving? ==> !Touches(s, s.mover.b, c))
          && (c.power == s.hashpower || (s.expanding && c.power == OldPower(s))))
  }

  /** Hash values that lead to the same chain, at any stage of an expansion, share their lock. */
  lemma SameChainSameStripe(s: State, x: nat, y: nat)
    requires Shape(s) && Choose(s, s.expanding, x) == Choose(s, s.expanding, y)
    ensures Stripe(s, x) == Stripe(s, y)
  {
    var c := Choose(s, s.expanding, x);
    BucketGivesStripe(x, s.lockPower, c.power);
    BucketGivesStripe(y, s.lockPower, c.power);
  }

  /** What a migration touches is guarded by the lock of its bucket. */
  lemma TouchedSameStripe(s: State, x: nat, b: nat)
    requires Shape(s) && s.expanding && b == s.expandBucket < Pow2(OldPower(s))
    requires Touches(s, b, Choose(s, true, x))
    ensures Stripe(s, x) == Stripe(s, b)
  {
    var c := Choose(s, true, x);
    BucketGivesStripe(x, s.lockPower, OldPower(s));
    BucketGivesStripe(x, OldPower(s), s.hashpower);
  }

  lemma InvExclusive(s: State)
    requires Inv(s)
    ensures Exclusive(s)
  {
    forall i | 0 <= i < |s.holders| && s.holders[i].In? && s.holders[i].stage.Using?
      ensures var c := s.holders[i].stage.chain;
        && (s.mover.Moving? ==> !Touches(s, s.mover.b, c))
        && (c.power == s.hashpower || (s.expanding && c.power == OldPower(s)))
    {
      assert HolderOk(s, s.holders[i]);
      var x := s.holders[i].hv;
      if s.mover.Moving? && Touches(s, s.mover.b, s.holders[i].stage.chain) { TouchedSameStripe(s, x, s.mover.b); }
    }
    forall i, j | 0 <= i < j < |s.holders| && s.holders[i].In? && s.holders[j].In?
      ensures !(s.holders[i].stage.Using? && s.holders[i].stage == s.holders[j].stage)
    {
      assert HolderOk(s, s.holders[i]) && HolderOk(s, s.holders[j]);
      if s.holders[i].stage.Using? && s.holders[i].stage == s.holders[j].stage {
        SameChainSameStripe(s, s.holders[i].hv, s.holders[j].hv);
      }
    }
  }

  /** Safe for any number of threads, expansions and interleavings. */
  ghost predicate Safe(lockPower: nat, hashpower: nat) {
    forall threads, actions :: Exclusive(Run(Boot(lockPower, hashpower, threads), actions))
  }

  lemma EnoughBuckets(lockPower: nat, hashpower: nat)
    requires lockPower <= hashpower
    ensures Safe(lockPower, hashpower)
  {
    forall threads, actions ensures Exclusive(Run(Boot(lockPower, hashpower, threads), actions)) {
      var s := Boot(lockPower, hashpower, threads);
      assert Inv(s);
      RunKeeps(s, actions);
      InvExclusive(Run(s, actions));
    }
  }

  lemma RunFirst(s: State, a: Action, rest: seq<Action>)
    requires Enabled(s, a)
    ensures Run(s, [a] + rest) == Run(Apply(s, a), rest)
  {
    assert ([a] + rest)[1..] == rest;
  }

  /** A thread that takes a free lock and reads a table at rest goes to the bucket of its hash value. */
  lemma Reach(s: State, i: nat, hv: nat, rest: seq<Action>)
    requires Enabled(s, ALock(i, hv)) && !s.expanding
    ensures Run(s, [ALock(i, hv)] + ([ARead(i)] + ([ARead(i)] + rest))) ==
      Run(s.(locks := s.locks[Stripe(s, hv) := true],
             holders := s.holders[i := In(hv, Using(Chain(s.hashpower, hv % Pow2(s.hashpower))))]), rest)
  {
    var t := Apply(s, ALock(i, hv));
    var u := Apply(t, ARead(i));
    RunFirst(s, ALock(i, hv), [ARead(i)] + ([ARead(i)] + rest));
    RunFirst(t, ARead(i), [ARead(i)] + rest);
    RunFirst(u, ARead(i), rest);
    assert Apply(u, ARead(i)).holders == s.holders[i := In(hv, Using(Chain(s.hashpower, hv % Pow2(s.hashpower))))];
  }

  function MeetActions(x: nat, y: nat): seq<Action> {
    [ALock(0, x)] + ([ARead(0)] + ([ARead(0)] + ([ALock(1, y)] + ([ARead(1)] + ([ARead(1)] + [])))))
  }

  /** Two hash values of one bucket with locks of their own. */
  lemma Meet(s: State, x: nat, y: nat)
    requires !s.expanding && s.holders == [Out, Out] && |s.locks| == Pow2(s.lockPower)
    requires !s.locks[Stripe(s, x)] && !s.locks[Stripe(s, y)] && Stripe(s, x) != Stripe(s, y)
    requires x % Pow2(s.hashpower) == y % Pow2(s.hashpower)
    ensures !Exclusive(Run(s, MeetActions(x, y)))
  {
    var second := [ALock(1, y)] + ([ARead(1)] + ([ARead(1)] + []));
    var c := Chain(s.hashpower, x % Pow2(s.hashpower));
    Reach(s, 0, x, second);
    var t := s.(locks := s.locks[Stripe(s, x) := true], holders := s.holders[0 := In(x, Using(c))]);
    Reach(t, 1, y, []);
    var u := Run(s, MeetActions(x, y));
    assert u.holders[0] == In(x, Using(c)) && u.holders[1] == In(y, Using(c));
  }

  /** With more locks than buckets two threads with different locks meet on one chain. */
  lemma TooManyLocks(lockPower: nat, hashpower: nat)
    requires lockPower > hashpower
    ensures !Safe(lockPower, hashpower)
  {
    Pow2Grows(hashpower, lockPower);
    ModUnique(Pow2(hashpower), Pow2(hashpower), 1, 0);
    MeetAtBoot(lockPower, hashpower, Pow2(hashpower));
    assert !Exclusive(Run(Boot(lockPower, hashpower, 2), MeetActions(0, Pow2(hashpower))));
  }

  lemma SmallMod(x: nat, n: nat)
    requires x < n
    ensures x % n == x
  {
  }

  lemma MeetAtBoot(lockPower: nat, hashpower: nat, n: nat)
    requires 0 < n < Pow2(lockPower) && n % Pow2(hashpower) == 0
    ensures !Exclusive(Run(Boot(lockPower, hashpower, 2), MeetActions(0, n)))
  {
    TwoOut(lockPower, hashpower);
    SmallMod(0, Pow2(lockPower));
    SmallMod(n, Pow2(lockPower));
    SmallMod(0, Pow2(hashpower));
    Meet(Boot(lockPower, hashpower, 2), 0, n);
  }

  lemma TwoOut(lockPower: nat, hashpower: nat)
    ensures var s := Boot(lockPower, hashpower, 2);
      && s.holders == [Out, Out] && |s.locks| == Pow2(lockPower) && forall i | 0 <= i < |s.locks| :: !s.locks[i]
  {
  }

  /** One item lock per item is enough if and only if there are at most as many locks as buckets. */
  lemma OneLockIsEnough(lockPower: nat, hashpower: nat)
    ensures Safe(lockPower, hashpower) <==> lockPower <= hashpower
  {
    if lockPower <= hashpower { EnoughBuckets(lockPower, hashpower); } else { TooManyLocks(lockPower, hashpower); }
  }

  // ----- memcached_thread_init --------------------------------------------------------------

  /** The size of the lock table for a number of worker threads. */
  function LockPower(nthreads: nat): nat {
    if nthreads < 3 then 10
    else if nthreads < 4 then 11
    else if nthreads < 5 then 12
    else if nthreads <= 10 then 13
    else if nthreads <= 20 then 14
    else 15
  }

  class ItemLockTable {
    var locks: array<bool>
    var power: nat

    constructor ()
      ensures fresh(locks) && locks.Length == 0
    {
      locks := new bool[0];
      power := 0;
    }

    /** memcached_thread_init: no table when the program exits. Every table it makes is safe. */
    method Init(nthreads: nat, hashpower: nat) returns (ok: bool)
      modifies this
      ensures ok <==> LockPower(nthreads) < hashpower
      ensures ok ==> fresh(locks) && power == LockPower(nthreads) && locks[..] == Boot(power, hashpower, nthreads).locks
      ensures ok ==> Safe(power, hashpower)
      ensures !ok ==> locks == old(locks) && power == old(power)
    {
      var p := LockPower(nthreads);
      if p >= hashpower { return false; }
      power := p;
      locks := new bool[Pow2(p)];
      var i := 0;
      while i < locks.Length
        invariant i <= locks.Length && fresh(locks) && locks.Length == Pow2(p) && power == p
        invariant forall j | 0 <= j < i :: !locks[j]
      {
        locks[i] := false;
        i := i + 1;
      }
      EnoughBuckets(p, hashpower);
      return true;
    }
  }
}
