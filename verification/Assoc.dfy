/**
 * The hash table of slabs_curd/assoc.c: chains linked through the items, and an expansion that moves
 * one bucket at a time from the old table to one twice its size.
 */
module Assoc {
  import opened Common

  function Pow2(n: nat): (r: nat)
    ensures r > 0
  {
    if n == 0 then 1 else 2 * Pow2(n - 1)
  }

  const HASHPOWER_MAX: nat := 32

  class Item {
    const key: Key
    var hNext: Item?

    constructor (key: Key)
      ensures this.key == key && hNext == null
    {
      this.key := key;
      hNext := null;
    }
  }

  ghost function At(c: seq<Item>, i: nat): Item? {
    if i < |c| then c[i] else null
  }

  /** From `head`, following hNext, lie exactly the items of `c`. */
  ghost predicate IsChain(head: Item?, c: seq<Item>)
    reads c
  {
    && head == At(c, 0)
    && forall i: nat | i < |c| :: c[i].hNext == At(c, i + 1)
  }

  /** The first item with this key, or the length of the chain. */
  function IndexIn(c: seq<Item>, key: Key): (i: nat)
    ensures i <= |c| && (i < |c| ==> c[i].key == key) && forall j | 0 <= j < i :: c[j].key != key
  {
    if c == [] || c[0].key == key then 0
    else
      var i := IndexIn(c[1..], key);
      assert forall j | 1 <= j < 1 + i :: c[j] == c[1..][j - 1];
      1 + i
  }

  lemma FirstIndex(c: seq<Item>, key: Key, i: nat)
    requires i <= |c| && (i < |c| ==> c[i].key == key) && forall j | 0 <= j < i :: c[j].key != key
    ensures i == IndexIn(c, key)
  {
  }

  lemma ChainPush(it: Item, c: seq<Item>)
    requires IsChain(it.hNext, c)
    ensures IsChain(it, [it] + c)
  {
    var d := [it] + c;
    forall i: nat | i < |d| ensures d[i].hNext == At(d, i + 1) {
      if i > 0 { assert d[i] == c[i - 1]; }
    }
  }

  lemma SomeMember<T>(c: seq<T>)
    ensures c == [] || exists x :: x in c
  {
    if c != [] { assert c[0] in c; }
  }

  /** The items of chain `from` are in no other chain. */
  ghost predicate Apart(chains: seq<seq<Item>>, from: nat)
    requires from < |chains|
  {
    forall t: nat, x | t < |chains| && t != from && x in chains[from] :: x !in chains[t]
  }

  /** The first item of chain `from` goes to the front of chain `to`. */
  function Shifted(chains: seq<seq<Item>>, from: nat, to: nat): seq<seq<Item>>
    requires from < |chains| && to < |chains| && from != to && chains[from] != []
  {
    chains[from := chains[from][1..]][to := [chains[from][0]] + chains[to]]
  }

  lemma ShiftedMembers(chains: seq<seq<Item>>, from: nat, to: nat)
    requires from < |chains| && to < |chains| && from != to && chains[from] != []
    ensures var d := Shifted(chains, from, to);
      && (forall x | x in chains[from] && x != chains[from][0] :: x in d[from])
      && chains[from][0] in d[to]
      && forall t: nat, x | t < |d| && t != from && x in chains[t] :: x in d[t]
  {
    var c := chains[from];
    assert c == [c[0]] + c[1..];
  }

  lemma ShiftedApart(chains: seq<seq<Item>>, from: nat, to: nat)
    requires from < |chains| && to < |chains| && from != to && chains[from] != []
    requires NoDup(chains[from]) && Apart(chains, from)
    ensures Apart(Shifted(chains, from, to), from)
  {
    var c, d := chains[from], Shifted(chains, from, to);
    assert forall x | x in c[1..] :: x in c && x != c[0];
    forall t: nat, x | t < |d| && t != from && x in d[from] ensures x !in d[t] {
      assert x !in chains[t];
    }
  }

  /** The locks that were obtained. */
  function Obtained(locked: seq<bool>): nat {
    if locked == [] then 0 else Obtained(locked[..|locked| - 1]) + if locked[|locked| - 1] then 1 else 0
  }

  lemma {:induction false} ObtainedMore(locked: seq<bool>, m: nat, n: nat)
    requires m <= n <= |locked|
    ensures Obtained(locked[..m]) <= Obtained(locked[..n])
  {
    if m < n {
      assert locked[..n][..n - 1] == locked[..n - 1];
      ObtainedMore(locked, m, n - 1);
    }
  }

  function Min(a: nat, b: nat): nat {
    if a < b then a else b
  }

  /** An `item **`: the head of a bucket, or the hNext of an item. */
  datatype Position = Head(inOld: bool, bucket: nat) | After(item: Item)

  datatype Place = Place(slot: nat, index: nat)

  class HashTable {
    const hash: Key -> nat
    var hashpower: nat
    var primaryTable: array<Item?>
    var oldTable: array<Item?>
    var expanding: bool
    var startedExpanding: bool
    var expandBucket: nat

    /** The plain map this index stands for. */
    ghost var table: map<Key, Item>
    /** What lies in each bucket: first the primary buckets, then, while expanding, the old ones. */
    ghost var chains: seq<seq<Item>>

    // ----- where a key belongs --------------------------------------------------------------

    /** The bucket of a key when the old buckets below `from` have been moved. */
    ghost function SlotAt(k: Key, from: nat): nat
      requires oldTable.Length > 0 && primaryTable.Length > 0
      reads this
    {
      if expanding && hash(k) % oldTable.Length >= from then primaryTable.Length + hash(k) % oldTable.Length
      else hash(k) % primaryTable.Length
    }

    ghost function Slot(k: Key): nat
      requires oldTable.Length > 0 && primaryTable.Length > 0
      reads this
    {
      SlotAt(k, expandBucket)
    }

    ghost function HeadOf(s: nat): Item?
      requires s < primaryTable.Length + oldTable.Length
      reads this`primaryTable, this`oldTable, primaryTable, oldTable
    {
      if s < primaryTable.Length then primaryTable[s] else oldTable[s - primaryTable.Length]
    }

    // ----- invariant ------------------------------------------------------------------------

    ghost predicate Shape()
      reads this
    {
      && primaryTable.Length == Pow2(hashpower) && oldTable.Length > 0
      && |chains| == primaryTable.Length + (if expanding then oldTable.Length else 0)
      && (expanding ==>
            && hashpower > 0 && oldTable.Length == Pow2(hashpower - 1)
            && oldTable != primaryTable && expandBucket < oldTable.Length)
    }

    /** Bucket `s` is a proper chain of items of the table that belong there. */
    ghost predicate BucketOk(s: nat, from: nat)
      requires Shape() && s < |chains|
      reads this, primaryTable, oldTable, table.Values
    {
      && Belong(s, from) && NoDup(chains[s])
      && (forall x | x in chains[s] :: x in table.Values) && IsChain(HeadOf(s), chains[s])
    }

    ghost predicate Belong(s: nat, from: nat)
      requires Shape() && s < |chains|
      reads this
    {
      forall x | x in chains[s] :: x.key in table && table[x.key] == x && SlotAt(x.key, from) == s
    }

    ghost predicate Present(k: Key, s: nat)
      requires k in table
      reads this
    {
      table[k].key == k && s < |chains| && table[k] in chains[s]
    }

    ghost predicate Valid()
      reads this, primaryTable, oldTable, table.Values
    {
      && Shape()
      && (forall s | 0 <= s < |chains| :: BucketOk(s, expandBucket))
      && (forall k | k in table :: Present(k, Slot(k)))
    }

    // ----- operations -----------------------------------------------------------------------

    constructor (hash: Key -> nat, power: nat)
      ensures Valid() && table == map[] && this.hash == hash && hashpower == power && !expanding
    {
      this.hash := hash;
      hashpower := power;
      primaryTable := new Item?[Pow2(power)](_ => null);
      oldTable := new Item?[1](_ => null);
      expanding, startedExpanding, expandBucket := false, false, 0;
      table := map[];
      chains := seq(Pow2(power), _ => []);
    }

    /** The loop of assoc_find. */
    static method Search(head: Item?, key: Key, ghost c: seq<Item>) returns (ret: Item?)
      requires IsChain(head, c)
      ensures ret == At(c, IndexIn(c, key))
    {
      ret := head;
      ghost var i := 0;
      while ret != null && ret.key != key
        invariant i <= |c| && ret == At(c, i)
        invariant forall j | 0 <= j < i :: c[j].key != key
        decreases |c| - i
      {
        ret := ret.hNext;
        i := i + 1;
      }
      FirstIndex(c, key, i);
    }

    /** The loop of _hashitem_before. */
    static method SearchBefore(start: Position, head: Item?, key: Key, ghost c: seq<Item>) returns (pos: Position)
      requires IsChain(head, c)
      ensures pos == if IndexIn(c, key) == 0 then start else After(c[IndexIn(c, key) - 1])
    {
      var it := head;
      pos := start;
      ghost var i := 0;
      while it != null && it.key != key
        invariant i <= |c| && it == At(c, i)
        invariant forall j | 0 <= j < i :: c[j].key != key
        invariant pos == if i == 0 then start else After(c[i - 1])
        decreases |c| - i
      {
        assert it == c[i] && c[i].hNext == At(c, i + 1);
        pos := After(it);
        it := it.hNext;
        i := i + 1;
      }
      FirstIndex(c, key, i);
    }

    /** The key is in the table if and only if it is in the chain of its bucket. */
    lemma InItsChain(k: Key)
      requires Valid()
      ensures Slot(k) < |chains| && BucketOk(Slot(k), expandBucket)
      ensures k in table <==> exists x :: x in chains[Slot(k)] && x.key == k
      ensures forall x | x in chains[Slot(k)] && x.key == k :: k in table && table[k] == x
    {
      if k in table { assert Present(k, Slot(k)); }
    }

    /** assoc_find finds what the map has. */
    method Find(key: Key, hv: nat) returns (ret: Item?)
      requires Valid() && hv == hash(key)
      ensures ret == if key in table then table[key] else null
    {
      InItsChain(key);
      var it: Item?;
      if expanding && hv % oldTable.Length >= expandBucket {
        it := oldTable[hv % oldTable.Length];
      } else {
        it := primaryTable[hv % primaryTable.Length];
      }
      ret := Search(it, key, chains[Slot(key)]);
    }

    /** _hashitem_before: the place that points at the item with this key, or at the end of the chain. */
    method HashItemBefore(key: Key, hv: nat) returns (pos: Position)
      requires Valid() && hv == hash(key)
      ensures Slot(key) < |chains|
      ensures var c := chains[Slot(key)]; var i := IndexIn(c, key);
        && (i < |c| <==> key in table) && (i < |c| ==> c[i] == table[key])
        && pos == if i == 0 then HeadPosition(Slot(key)) else After(c[i - 1])
    {
      InItsChain(key);
      var it: Item?;
      if expanding && hv % oldTable.Length >= expandBucket {
        pos := Head(true, hv % oldTable.Length);
        it := oldTable[hv % oldTable.Length];
      } else {
        pos := Head(false, hv % primaryTable.Length);
        it := primaryTable[hv % primaryTable.Length];
      }
      pos := SearchBefore(pos, it, key, chains[Slot(key)]);
    }

    ghost function HeadPosition(s: nat): Position
      reads this
    {
      if s < primaryTable.Length then Head(false, s) else Head(true, s - primaryTable.Length)
    }

    // ----- frames ---------------------------------------------------------------------------

    /** A bucket whose head and members are as before is still in order. */
    twostate lemma BucketFrame(t: nat)
      requires old(Shape()) && Shape() && t < |chains| && t < old(|chains|) && chains[t] == old(chains[t])
      requires old(BucketOk(t, expandBucket)) && primaryTable == old(primaryTable) && oldTable == old(oldTable)
      requires expanding == old(expanding) && expandBucket == old(expandBucket) && HeadOf(t) == old(HeadOf(t))
      requires forall x | x in chains[t] :: x.key in table && table[x.key] == x && x.hNext == old(x.hNext)
      ensures BucketOk(t, expandBucket)
    {
    }

    lemma NotInChains(it: Item)
      requires Valid() && it.key !in table
      ensures forall t | 0 <= t < |chains| :: it !in chains[t]
    {
      forall t | 0 <= t < |chains| ensures it !in chains[t] { assert BucketOk(t, expandBucket); }
    }

    /** assoc_insert of a key that is not in the table. */
    method Insert(it: Item, hv: nat)
      requires Valid() && hv == hash(it.key) && it.key !in table
      modifies this`table, this`chains, primaryTable, oldTable, it
      ensures Valid() && table == old(table)[it.key := it]
    {
      ghost var s := Slot(it.key);
      NotInChains(it);
      InItsChain(it.key);
      if expanding && hv % oldTable.Length >= expandBucket {
        it.hNext := oldTable[hv % oldTable.Length];
        oldTable[hv % oldTable.Length] := it;
      } else {
        it.hNext := primaryTable[hv % primaryTable.Length];
        primaryTable[hv % primaryTable.Length] := it;
      }
      table := table[it.key := it];
      chains := chains[s := [it] + chains[s]];
      Inserted(it);
    }

    twostate lemma Inserted(it: Item)
      requires old(Valid()) && it.key !in old(table) && old(Slot(it.key)) < old(|chains|)
      requires forall t | 0 <= t < old(|chains|) :: it !in old(chains[t])
      requires primaryTable == old(primaryTable) && oldTable == old(oldTable) && expanding == old(expanding)
      requires hashpower == old(hashpower) && expandBucket == old(expandBucket)
      requires table == old(table)[it.key := it] && chains == old(chains[Slot(it.key) := [it] + chains[Slot(it.key)]])
      requires it.hNext == old(HeadOf(Slot(it.key))) && HeadOf(Slot(it.key)) == it
      requires forall t | 0 <= t < |chains| && t != old(Slot(it.key)) :: HeadOf(t) == old(HeadOf(t))
      requires forall x | x in old(table.Values) :: x.hNext == old(x.hNext)
      ensures Valid()
    {
      assert Shape();
      forall t | 0 <= t < |chains| ensures BucketOk(t, expandBucket) {
        assert old(BucketOk(t, expandBucket));
        if t != Slot(it.key) { BucketFrame(t); } else { InsertedHere(it); }
      }
      forall k | k in table ensures Present(k, Slot(k)) {
        assert k != it.key ==> old(Present(k, Slot(k)));
      }
    }

    twostate lemma InsertedHere(it: Item)
      requires old(Shape()) && Shape() && Slot(it.key) == old(Slot(it.key)) < old(|chains|)
      requires old(BucketOk(Slot(it.key), expandBucket))
      requires primaryTable == old(primaryTable) && oldTable == old(oldTable) && expanding == old(expanding)
      requires expandBucket == old(expandBucket) && it !in old(chains[Slot(it.key)]) && it.key !in old(table)
      requires table == old(table)[it.key := it] && chains == old(chains[Slot(it.key) := [it] + chains[Slot(it.key)]])
      requires it.hNext == old(HeadOf(Slot(it.key))) && HeadOf(Slot(it.key)) == it
      requires forall x | x in old(table.Values) :: x.hNext == old(x.hNext)
      ensures BucketOk(Slot(it.key), expandBucket)
    {
      var s := Slot(it.key);
      assert IsChain(it.hNext, old(chains[s]));
      ChainPush(it, old(chains[s]));
    }

    /** `*pos` */
    function Load(pos: Position): Item?
      requires pos.Head? ==> pos.bucket < if pos.inOld then oldTable.Length else primaryTable.Length
      reads this, primaryTable, oldTable, if pos.After? then {pos.item} else {}
    {
      match pos
      case Head(inOld, b) => if inOld then oldTable[b] else primaryTable[b]
      case After(x) => x.hNext
    }

    /** `*pos = it` */
    method Store(pos: Position, it: Item?)
      requires pos.Head? ==> pos.bucket < if pos.inOld then oldTable.Length else primaryTable.Length
      requires oldTable != primaryTable || (pos.Head? ==> !pos.inOld)
      modifies if pos.After? then {pos.item} else {}
      modifies if pos.After? then {} else if pos.inOld then {oldTable} else {primaryTable}
      ensures match pos
        case Head(true, b) => oldTable[b] == it && forall c | 0 <= c < oldTable.Length && c != b :: oldTable[c] == old(oldTable[c])
        case Head(false, b) =>
          primaryTable[b] == it && forall c | 0 <= c < primaryTable.Length && c != b :: primaryTable[c] == old(primaryTable[c])
        case After(x) => x.hNext == it
    {
      match pos
      case Head(inOld, b) => if inOld { oldTable[b] := it; } else { primaryTable[b] := it; }
      case After(x) => x.hNext := it;
    }

    /** assoc_delete: its assertion needs the key to be there. */
    method Delete(key: Key, hv: nat)
      requires Valid() && hv == hash(key) && key in table
      modifies this`table, this`chains, primaryTable, oldTable, table.Values
      ensures Valid() && table == old(table) - {key} && old(table[key]).hNext == null
    {
      ghost var s := Slot(key);
      ghost var c := chains[s];
      var before := HashItemBefore(key, hv);
      ghost var i := IndexIn(c, key);
      BeforeIsRight(s, i);
      Unhook(before, s, i);
      table := table - {key};
      chains := chains[s := Cut(c, i)];
      Deleted(Place(s, i));
    }

    /** The three assignments that take the item behind `before` off its chain. */
    method Unhook(before: Position, ghost s: nat, ghost i: nat)
      requires Shape() && s < |chains| && i < |chains[s]|
      requires before == if i == 0 then HeadPosition(s) else After(chains[s][i - 1])
      requires i == 0 ==> HeadOf(s) == chains[s][0]
      requires i > 0 ==> chains[s][i - 1] != chains[s][i] && chains[s][i - 1].hNext == chains[s][i]
      modifies primaryTable, oldTable, chains[s][i], if i > 0 then {chains[s][i - 1]} else {}
      ensures var nxt := old(chains[s][i].hNext);
        && chains[s][i].hNext == null && (i > 0 ==> chains[s][i - 1].hNext == nxt)
        && HeadOf(s) == (if i == 0 then nxt else old(HeadOf(s)))
        && forall t: nat | t < |chains| && t != s :: HeadOf(t) == old(HeadOf(t))
    {
      var item := Load(before);
      var nxt := item.hNext;
      item.hNext := null;
      Store(before, nxt);
    }

    lemma BeforeIsRight(s: nat, i: nat)
      requires Valid() && s < |chains| && i < |chains[s]|
      ensures var c := chains[s];
        && c[i] in table.Values && (i > 0 ==> c[i - 1] in table.Values && c[i - 1] != c[i] && c[i - 1].hNext == c[i])
        && (i == 0 ==> HeadOf(s) == c[i])
        && c[i].hNext == At(c, i + 1)
    {
      assert BucketOk(s, expandBucket);
    }

    /** How deletion of the item at `p` leaves the memory. */
    twostate predicate Unlinked(p: Place)
      requires old(Shape()) && Shape() && p.slot < old(|chains|) && p.index < |old(chains[p.slot])|
      reads this, primaryTable, oldTable, table.Values
    {
      var c, i := old(chains[p.slot]), p.index;
      var nxt := At(c, i + 1);
      && primaryTable == old(primaryTable) && oldTable == old(oldTable) && expanding == old(expanding)
      && hashpower == old(hashpower) && expandBucket == old(expandBucket)
      && c[i].key in old(table) && old(table)[c[i].key] == c[i] && table == old(table) - {c[i].key}
      && chains == old(chains)[p.slot := Cut(c, i)]
      && (forall t | 0 <= t < |chains| && t != p.slot :: HeadOf(t) == old(HeadOf(t)))
      && HeadOf(p.slot) == (if i == 0 then nxt else old(HeadOf(p.slot)))
      && (forall x | x in table.Values :: x in old(table.Values) && x.hNext == if i > 0 && x == c[i - 1] then nxt else old(x.hNext))
    }

    twostate lemma Deleted(p: Place)
      requires old(Valid()) && Shape() && p.slot < old(|chains|) && p.index < |old(chains[p.slot])| && Unlinked(p)
      ensures Valid()
    {
      assert old(BucketOk(p.slot, expandBucket));
      DeletedElsewhere(p);
      DeletedHere(p);
      DeletedPresent(p);
    }

    twostate lemma DeletedElsewhere(p: Place)
      requires old(Valid()) && Shape() && p.slot < old(|chains|) && p.index < |old(chains[p.slot])| && Unlinked(p)
      ensures forall t: nat | t < |chains| && t != p.slot :: BucketOk(t, expandBucket)
    {
      ElsewhereSame(p);
      forall t: nat | t < |chains| && t != p.slot ensures BucketOk(t, expandBucket) {
        assert old(BucketOk(t, expandBucket));
        BucketFrame(t);
      }
    }

    /** The chains of the other buckets share no item with that of `p`. */
    twostate lemma Sharing(p: Place)
      requires old(Valid()) && p.slot < old(|chains|)
      ensures forall t: nat, x | t < old(|chains|) && t != p.slot && x in old(chains[t]) :: x !in old(chains[p.slot])
    {
      assert old(BucketOk(p.slot, expandBucket));
      forall t: nat, x | t < old(|chains|) && t != p.slot && x in old(chains[t]) ensures x !in old(chains[p.slot]) {
        assert old(BucketOk(t, expandBucket)) && old(SlotAt(x.key, expandBucket)) == t;
      }
    }

    twostate lemma ElsewhereSame(p: Place)
      requires old(Valid()) && Shape() && p.slot < old(|chains|) && p.index < |old(chains[p.slot])| && Unlinked(p)
      ensures forall t: nat, x | t < |chains| && t != p.slot && x in chains[t] ::
        x in old(table.Values) && x.key in table && table[x.key] == x && x.hNext == old(x.hNext)
    {
      Sharing(p);
      forall t: nat, x | t < |chains| && t != p.slot && x in chains[t]
        ensures x in old(table.Values) && x.key in table && table[x.key] == x && x.hNext == old(x.hNext)
      {
        assert old(BucketOk(t, expandBucket));
        OneElsewhere((p, x));
      }
    }

    twostate lemma OneElsewhere(m: (Place, Item))
      requires old(Shape()) && Shape() && m.0.slot < old(|chains|) && m.0.index < |old(chains[m.0.slot])| && Unlinked(m.0)
      requires m.1.key in old(table) && old(table)[m.1.key] == m.1 && m.1 !in old(chains)[m.0.slot]
      ensures m.1.key in table && table[m.1.key] == m.1 && m.1.hNext == old(m.1.hNext)
    {
      var (p, x) := m;
      var c := old(chains[p.slot]);
      assert x != c[p.index];
      assert table[x.key] == x && x in table.Values;
    }

    twostate lemma DeletedPresent(p: Place)
      requires old(Shape()) && Shape() && p.slot < old(|chains|) && p.index < |old(chains[p.slot])| && Unlinked(p)
      requires old(BucketOk(p.slot, expandBucket)) && forall k | k in old(table) :: old(Present(k, Slot(k)))
      ensures forall k | k in table :: Present(k, Slot(k))
    {
      StillThere(p);
      forall k | k in table ensures Present(k, Slot(k)) {
        assert old(Present(k, Slot(k)));
      }
    }

    twostate lemma StillThere(p: Place)
      requires old(Shape()) && Shape() && p.slot < old(|chains|) && p.index < |old(chains[p.slot])| && Unlinked(p)
      requires old(BucketOk(p.slot, expandBucket))
      ensures forall t, x | 0 <= t < |chains| && x in old(chains[t]) && x != old(chains[p.slot])[p.index] :: x in chains[t]
    {
      CutMembers(old(chains[p.slot]), p.index);
    }

    twostate lemma DeletedHere(p: Place)
      requires old(Shape()) && Shape() && p.slot < old(|chains|) && p.index < |old(chains[p.slot])| && Unlinked(p)
      requires old(BucketOk(p.slot, expandBucket))
      ensures BucketOk(p.slot, expandBucket)
    {
      var c, i := old(chains[p.slot]), p.index;
      var d := Cut(c, i);
      CutMembers(c, i);
      assert Belong(p.slot, expandBucket);
      assert chains[p.slot] == d && NoDup(d);
      forall j: nat | j < |d| ensures d[j].hNext == At(d, j + 1) {
        assert d[j] in table.Values by { assert table[d[j].key] == d[j]; }
        assert d[j] == c[if j < i then j else j + 1];
      }
    }

    /** assoc_expand, with all other threads paused; `gotMemory` says whether calloc succeeds. */
    method Expand(gotMemory: bool)
      requires Valid() && !expanding
      modifies this
      ensures Valid() && table == old(table)
      ensures if gotMemory then expanding && hashpower == old(hashpower) + 1 && expandBucket == 0
              else !expanding && hashpower == old(hashpower)
    {
      oldTable := primaryTable;
      if gotMemory {
        primaryTable := new Item?[Pow2(hashpower + 1)](_ => null);
        hashpower := hashpower + 1;
        expanding := true;
        expandBucket := 0;
        chains := seq(primaryTable.Length, _ => []) + chains;
      }
      Expanded();
    }

    twostate lemma Expanded()
      requires old(Valid()) && !old(expanding) && table == old(table) && Shape() && oldTable == old(primaryTable)
      requires forall x | x in table.Values :: x.hNext == old(x.hNext)
      requires forall t: nat | t < oldTable.Length :: oldTable[t] == old(primaryTable[t])
      requires if expanding then
          && expandBucket == 0 && primaryTable.Length == 2 * oldTable.Length
          && chains == seq(primaryTable.Length, _ => []) + old(chains)
          && forall t: nat | t < primaryTable.Length :: primaryTable[t] == null
        else
          chains == old(chains) && primaryTable == oldTable
      ensures Valid()
    {
      forall t: nat | t < |chains| ensures BucketOk(t, expandBucket) {
        var u: nat := if !expanding then t else if t < primaryTable.Length then 0 else t - primaryTable.Length;
        assert old(BucketOk(u, expandBucket));

      }
      forall k | k in table ensures Present(k, Slot(k)) {
        assert old(Present(k, Slot(k)));
      }
    }

    // ----- moving a bucket ------------------------------------------------------------------

    /** While bucket `expandBucket` is moved: `it` and what follows it is still to be moved, and is kept
        under the old slot; everything else is where it belongs after the move. */
    ghost predicate Moving(it: Item?)
      reads this, primaryTable, oldTable, table.Values
    {
      && Shape() && expanding && StillToMove(it)
      && AllMoved() && Apart(chains, primaryTable.Length + expandBucket) && AllSettled()
    }

    ghost predicate StillToMove(it: Item?)
      requires Shape() && expanding
      reads this, primaryTable, oldTable, table.Values
    {
      var s := primaryTable.Length + expandBucket;
      && Belong(s, expandBucket) && NoDup(chains[s])
      && (forall x | x in chains[s] :: x in table.Values) && IsChain(it, chains[s])
    }

    ghost predicate AllMoved()
      requires Shape() && expanding
      reads this, primaryTable, oldTable, table.Values
    {
      forall t: nat | t < |chains| && t != primaryTable.Length + expandBucket :: MovedOk(t)
    }

    ghost predicate AllSettled()
      requires Shape() && expanding
      reads this
    {
      forall k | k in table :: Settled(k, primaryTable.Length + expandBucket)
    }

    ghost predicate MovedOk(t: nat)
      requires Shape() && t < |chains|
      reads this, primaryTable, oldTable, table.Values
    {
      BucketOk(t, expandBucket + 1)
    }

    ghost predicate Settled(k: Key, s: nat)
      requires k in table && Shape() && s < |chains|
      reads this
    {
      table[k].key == k && (table[k] in chains[s] || Present(k, SlotAt(k, expandBucket + 1)))
    }

    lemma MovingStarts()
      requires Valid() && expanding
      ensures Moving(oldTable[expandBucket])
    {
      var s := primaryTable.Length + expandBucket;
      assert BucketOk(s, expandBucket);
      forall t: nat | t < |chains| && t != s
        ensures MovedOk(t) && forall x | x in chains[s] :: x !in chains[t]
      {
        assert BucketOk(t, expandBucket);
      }
      forall k | k in table ensures Settled(k, s) { assert Present(k, Slot(k)); }
    }

    /** What one turn of the migration loop does. */
    twostate predicate MovedOne(it: Item)
      requires old(Moving(it)) && Shape()
      reads this, primaryTable, oldTable, table.Values
    {
      var from := old(primaryTable.Length + expandBucket);
      var to := hash(it.key) % primaryTable.Length;
      && primaryTable == old(primaryTable) && oldTable == old(oldTable) && expanding
      && hashpower == old(hashpower) && expandBucket == old(expandBucket) && table == old(table)
      && chains == old(chains)[from := old(chains[from])[1..]][to := [it] + old(chains[to])]
      && HeadOf(to) == it && (forall t: nat | t < |chains| && t != to :: HeadOf(t) == old(HeadOf(t)))
      && forall x | x in table.Values :: x.hNext == if x == it then old(HeadOf(to)) else old(x.hNext)
    }

    twostate lemma OneMoved(it: Item)
      requires old(Moving(it)) && Shape() && MovedOne(it)
      ensures Moving(old(it.hNext))
    {
      RestIsChain(it);
      MovedBuckets(it);
      MovedApart(it);
      MovedSettled(it);
    }

    twostate lemma MovedApart(it: Item)
      requires old(Moving(it)) && Shape() && MovedOne(it)
      ensures Apart(chains, primaryTable.Length + expandBucket)
    {
      ShiftedApart(old(chains), primaryTable.Length + expandBucket, hash(it.key) % primaryTable.Length);
    }

    twostate lemma MovedBuckets(it: Item)
      requires old(Moving(it)) && Shape() && MovedOne(it)
      ensures AllMoved()
    {
      var from := primaryTable.Length + expandBucket;
      var to := hash(it.key) % primaryTable.Length;
      assert it in old(chains[from]) && SlotAt(it.key, expandBucket + 1) == to;
      forall t: nat | t < |chains| && t != from ensures MovedOk(t) {
        assert old(MovedOk(t));
        if t == to { MovedHere(it); } else { MovedFrame(t); }
      }
    }

    twostate lemma MovedSettled(it: Item)
      requires old(Moving(it)) && Shape() && MovedOne(it)
      ensures AllSettled()
    {
      MovedMember(it);
      forall k | k in table ensures Settled(k, primaryTable.Length + expandBucket) { SettledStill((it, k)); }
    }

    twostate lemma SettledStill(m: (Item, Key))
      requires old(Moving(m.0)) && Shape() && MovedOne(m.0) && m.1 in table
      requires StillIn(m.0)
      ensures Settled(m.1, primaryTable.Length + expandBucket)
    {
      var (it, k) := m;
      var from := primaryTable.Length + expandBucket;
      assert old(Settled(k, from));
      assert it in old(chains[from]) && SlotAt(it.key, expandBucket + 1) == hash(it.key) % primaryTable.Length;
      if table[k] == it {
        assert it in chains[hash(k) % primaryTable.Length];
      } else {
        assert forall t: nat | t < |chains| && table[k] in old(chains)[t] :: table[k] in chains[t];
      }
    }

    /** Apart from `it`, which goes to its new bucket, the items stay in their buckets. */
    twostate predicate StillIn(it: Item)
      requires Shape() && expandBucket < oldTable.Length && |chains| == old(|chains|) && expanding
      reads this
    {
      var from := primaryTable.Length + expandBucket;
      && (forall x | x in old(chains)[from] && x != it :: x in chains[from])
      && it in chains[hash(it.key) % primaryTable.Length]
      && forall t: nat, x | t < |chains| && t != from && x in old(chains)[t] :: x in chains[t]
    }

    twostate lemma RestIsChain(it: Item)
      requires old(Moving(it)) && Shape() && MovedOne(it)
      ensures StillToMove(old(it.hNext))
    {
      var from := primaryTable.Length + expandBucket;
      var c := old(chains[from]);
      var d := c[1..];
      assert chains[from] == d;
      forall j: nat | j < |d| ensures d[j].hNext == At(d, j + 1) && d[j] != it && d[j] in c {
        assert d[j] == c[j + 1] && c[j + 1] in table.Values;
      }
    }

    twostate lemma MovedMember(it: Item)
      requires old(Moving(it)) && Shape() && MovedOne(it)
      ensures StillIn(it)
    {
      ShiftedMembers(old(chains), primaryTable.Length + expandBucket, hash(it.key) % primaryTable.Length);
    }

    twostate lemma MovedFrame(t: nat)
      requires old(Shape()) && Shape() && t < |chains| && t < old(|chains|) && chains[t] == old(chains[t])
      requires expandBucket == old(expandBucket) && old(MovedOk(t))
      requires primaryTable == old(primaryTable) && oldTable == old(oldTable)
      requires expanding == old(expanding) && HeadOf(t) == old(HeadOf(t))
      requires forall x | x in chains[t] :: x.key in table && table[x.key] == x && x.hNext == old(x.hNext)
      ensures MovedOk(t)
    {
    }

    twostate lemma MovedHere(it: Item)
      requires old(Moving(it)) && Shape() && MovedOne(it)
      requires var to := hash(it.key) % primaryTable.Length;
        to < |chains| && old(MovedOk(to)) && it !in old(chains[to])
        && SlotAt(it.key, expandBucket + 1) == to && it.key in table && table[it.key] == it
      ensures MovedOk(hash(it.key) % primaryTable.Length)
    {
      var to := hash(it.key) % primaryTable.Length;
      assert IsChain(it.hNext, old(chains[to])) by {
        forall i: nat | i < |old(chains[to])| ensures old(chains[to])[i].hNext == At(old(chains[to]), i + 1) {
          assert old(chains[to])[i] in table.Values;
        }
      }
      ChainPush(it, old(chains[to]));
    }

    /** One turn of the loop over a bucket. */
    method MoveItem(it: Item) returns (next: Item?)
      requires Moving(it)
      modifies this`chains, primaryTable, it
      ensures Moving(next) && next == old(it.hNext)
      ensures |chains[primaryTable.Length + expandBucket]| < old(|chains[primaryTable.Length + expandBucket]|)
    {
      next := it.hNext;
      var bucket := hash(it.key) % primaryTable.Length;
      it.hNext := primaryTable[bucket];
      primaryTable[bucket] := it;
      ghost var from := primaryTable.Length + expandBucket;
      chains := chains[from := chains[from][1..]][bucket := [it] + chains[bucket]];
      OneMoved(it);
    }

    /** The loop over a bucket. */
    method MoveChain(head: Item?)
      requires Moving(head)
      modifies this`chains, primaryTable, table.Values
      ensures Moving(null)
    {
      var it := head;
      while it != null
        invariant Moving(it)
        decreases |chains[primaryTable.Length + expandBucket]|
      {
        ItIsFirst(it);
        it := MoveItem(it);
      }
    }

    /** The locked part of assoc_maintenance_thread: bucket `expandBucket` moves to the new table. */
    method MigrateBucket()
      requires Valid() && expanding
      modifies this`chains, this`expandBucket, this`expanding, primaryTable, oldTable, table.Values
      ensures Valid() && expandBucket == old(expandBucket) + 1
      ensures expanding <==> expandBucket < oldTable.Length
      ensures !expanding ==> forall b | 0 <= b < oldTable.Length :: oldTable[b] == null
    {
      MovingStarts();
      OldEmptyBelow();
      MoveChain(oldTable[expandBucket]);
      FinishBucket();
    }

    /** The old bucket has been emptied. */
    method FinishBucket()
      requires Moving(null) && forall b | 0 <= b < expandBucket :: oldTable[b] == null
      modifies this`chains, this`expandBucket, this`expanding, oldTable
      ensures Valid() && expandBucket == old(expandBucket) + 1
      ensures expanding <==> expandBucket < oldTable.Length
      ensures !expanding ==> forall b | 0 <= b < oldTable.Length :: oldTable[b] == null
    {
      oldTable[expandBucket] := null;
      expandBucket := expandBucket + 1;
      if expandBucket == oldTable.Length {
        expanding := false;
        chains := chains[..primaryTable.Length];
      }
      MovingEnds();
    }

    lemma ItIsFirst(it: Item)
      requires Moving(it)
      ensures it in table.Values
    {
    }

    /** The invariant does not depend on the flag `startedExpanding`. */
    twostate lemma SameShape()
      requires old(Valid()) && primaryTable == old(primaryTable) && oldTable == old(oldTable) && table == old(table)
      requires hashpower == old(hashpower) && expandBucket == old(expandBucket) && expanding == old(expanding)
      requires chains == old(chains) && forall t: nat | t < |chains| :: HeadOf(t) == old(HeadOf(t))
      requires forall x | x in table.Values :: x.hNext == old(x.hNext)
      ensures Valid()
    {
      forall t | 0 <= t < |chains| ensures BucketOk(t, expandBucket) { assert old(BucketOk(t, expandBucket)); }
      forall k | k in table ensures Present(k, Slot(k)) { assert old(Present(k, Slot(k))); }
    }

    lemma OldEmptyBelow()
      requires Valid() && expanding
      ensures forall b | 0 <= b < expandBucket :: oldTable[b] == null
    {
      forall b: nat | b < expandBucket ensures oldTable[b] == null {
        var s := primaryTable.Length + b;
        assert BucketOk(s, expandBucket) && HeadOf(s) == oldTable[b];
        assert forall k :: SlotAt(k, expandBucket) != s;
        SomeMember(chains[s]);
      }
    }

    twostate lemma MovingEnds()
      requires old(Moving(null)) && primaryTable == old(primaryTable) && oldTable == old(oldTable) && table == old(table)
      requires hashpower == old(hashpower) && expandBucket == old(expandBucket) + 1
      requires expanding <==> expandBucket < oldTable.Length
      requires chains == if expanding then old(chains) else old(chains[..primaryTable.Length])
      requires forall t: nat | t < |old(chains)| ::
        HeadOf(t) == if t == primaryTable.Length + old(expandBucket) then null else old(HeadOf(t))
      requires forall x | x in table.Values :: x.hNext == old(x.hNext)
      ensures Valid()
    {
      var from := primaryTable.Length + old(expandBucket);
      forall t: nat | t < |chains| ensures BucketOk(t, expandBucket) {
        assert chains[t] == old(chains[t]);
        if t != from { assert old(MovedOk(t)); }
      }
      forall k | k in table ensures Present(k, Slot(k)) {
        assert old(Settled(k, from));
      }
    }

    /** The maintenance thread between two waits: `bulk` buckets are tried, `locked` says which stripes it got.
        While the expansion lasts each lock obtained moves one bucket, and without a lock nothing moves. */
    method Maintain(bulk: nat, locked: seq<bool>)
      requires Valid() && bulk <= |locked|
      modifies this`chains, this`expandBucket, this`expanding, this`startedExpanding, primaryTable, oldTable, table.Values
      ensures Valid()
      ensures expandBucket == if old(expanding) then Min(old(expandBucket) + Obtained(locked[..bulk]), oldTable.Length) else old(expandBucket)
      ensures expanding <==> old(expanding) && expandBucket < oldTable.Length
      ensures startedExpanding <==> old(startedExpanding) && expanding
      ensures !old(expanding) || Obtained(locked[..bulk]) == 0 ==> Unmoved(old(chains), old(primaryTable[..]), old(oldTable[..]))
      ensures !old(expanding) || Obtained(locked[..bulk]) == 0 ==> forall x | x in table.Values :: x.hNext == old(x.hNext)
      ensures old(expanding) && !expanding ==> forall b | 0 <= b < oldTable.Length :: oldTable[b] == null
    {
      var ii := 0;
      assert locked[..0] == [];
      while ii < bulk && expanding
        invariant ii <= bulk && Valid()
        invariant if old(expanding) then expandBucket == Min(old(expandBucket) + Obtained(locked[..ii]), oldTable.Length)
                  else expandBucket == old(expandBucket)
        invariant expanding <==> old(expanding) && expandBucket < oldTable.Length
        invariant startedExpanding == old(startedExpanding)
        invariant !old(expanding) || Obtained(locked[..ii]) == 0 ==> Unmoved(old(chains), old(primaryTable[..]), old(oldTable[..]))
        invariant !old(expanding) || Obtained(locked[..ii]) == 0 ==> forall x | x in table.Values :: x.hNext == old(x.hNext)
        invariant old(expanding) && !expanding ==> forall b | 0 <= b < oldTable.Length :: oldTable[b] == null
      {
        assert locked[..ii + 1][..ii] == locked[..ii];
        if locked[ii] { MigrateBucket(); }
        ii := ii + 1;
      }
      ObtainedMore(locked, ii, bulk);
      label Moved:
      if !expanding { startedExpanding := false; }
      SameShape@Moved();
    }

    ghost predicate Unmoved(chains: seq<seq<Item>>, primary: seq<Item?>, old_: seq<Item?>)
      reads this, primaryTable, oldTable
    {
      this.chains == chains && primaryTable[..] == primary && oldTable[..] == old_
    }

    /** assoc_start_expand; the caller signals the maintenance thread when the flag goes up. */
    method StartExpand(currItems: nat)
      requires Valid()
      modifies this`startedExpanding
      ensures Valid()
      ensures startedExpanding <==>
        old(startedExpanding) || (currItems > Pow2(hashpower) * 3 / 2 && hashpower < HASHPOWER_MAX)
    {
      if startedExpanding { return; }
      if currItems > Pow2(hashpower) * 3 / 2 && hashpower < HASHPOWER_MAX { startedExpanding := true; }
      SameShape();
    }
  }
}
