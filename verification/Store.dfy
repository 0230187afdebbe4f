/** The storage commands of slabs_curd/memcached.c on the table of slabs_curd/items.c, and CAS ids. */
module Store {
  import opened Common

  /** A linked item; `value` ends in CR LF, `inStorage` is ITEM_HDR. */
  datatype Item = Item(flags: nat, exptime: nat, value: Bytes, cas: nat, time: nat, inStorage: bool)

  datatype Command = Set | Add | Replace | Append | Prepend | Cas
  datatype Outcome = Stored | NotStored | Exists | NotFound

  /** The clock, the last flush, and whether CAS ids are in use. */
  datatype Env = Env(now: nat, oldestLive: nat, oldestCas: nat, useCas: bool)

  /** What the allocator does for a joined item: it may fail, and may evict other keys either way. */
  datatype Alloc = Alloc(ok: bool, evicted: set<Key>)

  predicate Dead(e: Env, i: Item) {
    || (i.exptime != 0 && i.exptime <= e.now)
    || (e.oldestLive != 0 && e.oldestLive <= e.now
        && (i.time <= e.oldestLive || (e.oldestCas != 0 && i.cas != 0 && i.cas < e.oldestCas)))
  }

  /** An item without its access time. */
  function Face(i: Item): Item {
    i.(time := 0)
  }

  /** The map a client sees: what has expired or been flushed is not there. */
  function Live(e: Env, t: map<Key, Item>): map<Key, Item> {
    map k | k in t && !Dead(e, t[k]) :: Face(t[k])
  }

  /** A store to a key, the id it was given first. */
  datatype Entry = Entry(key: Key, item: Item)

  /** The state a client sees, and the history of stores. */
  datatype Abs = Abs(live: map<Key, Item>, casId: nat, log: seq<Entry>)

  function Joined(cmd: Command, was: Bytes, add: Bytes): Bytes
    requires |was| >= 2 && |add| >= 2
  {
    if cmd == Append then was[..|was| - 2] + add else add[..|add| - 2] + was
  }

  /** The table of commands: what is answered, and the item stored if any. */
  function Answer(cmd: Command, old_: Option<Item>, it: Item, ok: bool): (r: (Outcome, Option<Item>))
    requires |it.value| >= 2 && (old_.Some? ==> |old_.value.value| >= 2)
  {
    match cmd
    case Set => (Stored, Some(it))
    case Add => if old_.Some? then (NotStored, None) else (Stored, Some(it))
    case Replace => if old_.Some? then (Stored, Some(it)) else (NotStored, None)
    case Cas =>
      if old_.None? then (NotFound, None)
      else if it.cas == old_.value.cas then (Stored, Some(it))
      else (Exists, None)
    case _ =>
      if old_.None? then (NotStored, None)
      else if it.cas != 0 && it.cas != old_.value.cas then (Exists, None)
      else if old_.value.inStorage || !ok then (NotStored, None)
      else
        var o := old_.value;
        (Stored, Some(Item(o.flags, o.exptime, Joined(cmd, o.value, it.value), 0, 0, false)))
  }

  function Lookup(m: map<Key, Item>, k: Key): Option<Item> {
    if k in m then Some(m[k]) else None
  }

  function Linked(e: Env, casId: nat, it: Item): Item {
    it.(cas := if e.useCas then casId + 1 else 0, time := e.now)
  }

  /** Whether the command gets as far as allocating a joined item. */
  predicate Joins(cmd: Command, m: map<Key, Item>, k: Key, it: Item) {
    && (cmd == Append || cmd == Prepend) && k in m
    && !(it.cas != 0 && it.cas != m[k].cas) && !m[k].inStorage
  }

  /** A command as a client sees it. */
  function Spec(e: Env, a: Abs, cmd: Command, k: Key, it: Item, al: Alloc): (r: (Abs, Outcome))
    requires |it.value| >= 2 && (k in a.live ==> |a.live[k].value| >= 2)
  {
    var (answer, stored) := Answer(cmd, Lookup(a.live, k), it, al.ok);
    var m := if Joins(cmd, a.live, k, it) then a.live - al.evicted else a.live;
    match stored
    case None => (a.(live := m), answer)
    case Some(n) =>
      var l := Linked(e, a.casId, n);
      (Abs(if Dead(e, l) then m - {k} else m[k := Face(l)], if e.useCas then a.casId + 1 else a.casId, a.log + [Entry(k, l)]),
       answer)
  }

  /** A command changes the named key only, and that only when it answers STORED. What else may be missing
      afterwards was evicted to make room for a joined item, whether or not that was stored then. */
  lemma OnlyNamedKey(e: Env, a: Abs, cmd: Command, k: Key, it: Item, al: Alloc)
    requires |it.value| >= 2 && (k in a.live ==> |a.live[k].value| >= 2) && k !in al.evicted
    ensures var (b, answer) := Spec(e, a, cmd, k, it, al);
      && (forall j | j != k :: j in b.live <==> j in a.live && !(Joins(cmd, a.live, k, it) && j in al.evicted))
      && (forall j | j != k && j in b.live :: b.live[j] == a.live[j])
      && (answer != Stored ==> b.log == a.log && b.casId == a.casId && Lookup(b.live, k) == Lookup(a.live, k))
      && (!Joins(cmd, a.live, k, it) && answer != Stored ==> b == a)
  {
  }

  function Payload(v: Bytes): Bytes
    requires |v| >= 2
  {
    v[..|v| - 2]
  }

  predicate EndsInCrLf(v: Bytes) {
    |v| >= 2 && v[|v| - 2] == 13 && v[|v| - 1] == 10
  }

  /** Append and prepend join the payloads and keep one line end. */
  lemma JoinedPayload(cmd: Command, was: Bytes, add: Bytes)
    requires EndsInCrLf(was) && EndsInCrLf(add)
    ensures EndsInCrLf(Joined(cmd, was, add))
    ensures Payload(Joined(cmd, was, add)) == if cmd == Append then Payload(was) + Payload(add) else Payload(add) + Payload(was)
  {
  }

  // ----- the table --------------------------------------------------------------------------

  /** The table with what is dead but still linked, the last id given out, and the history of stores. */
  datatype Tab = Tab(table: map<Key, Item>, casId: nat, log: seq<Entry>)

  /** Every value ends in its line end. */
  ghost predicate Sized(t: map<Key, Item>) {
    forall k | k in t :: |t[k].value| >= 2
  }

  /** do_item_get unlinks a dead item on the way. */
  function Fetched(e: Env, t: map<Key, Item>, k: Key): map<Key, Item> {
    if k in t && Dead(e, t[k]) then t - {k} else t
  }

  /** do_item_update */
  function Bumped(e: Env, t: map<Key, Item>, k: Key, cold: bool): map<Key, Item>
    requires k in t
  {
    if cold || t[k].time < Sub32(e.now, ITEM_UPDATE_INTERVAL) then t[k := t[k].(time := e.now)] else t
  }

  /** The table of commands on linked items that are not dead. */
  function Settled(e: Env, c: Tab, cmd: Command, k: Key, it: Item, al: Alloc): (Tab, Outcome)
    requires |it.value| >= 2 && (k in c.table ==> |c.table[k].value| >= 2)
  {
    var (answer, stored) := Answer(cmd, Lookup(c.table, k), it, al.ok);
    var m := if Joins(cmd, c.table, k, it) then c.table - al.evicted else c.table;
    match stored
    case None => (c.(table := m), answer)
    case Some(n) =>
      var l := Linked(e, c.casId, n);
      (Tab(m[k := l], if e.useCas then c.casId + 1 else c.casId, c.log + [Entry(k, l)]), answer)
  }

  /** A command on the table: the item is fetched first, and an add that finds one bumps it. */
  function Commanded(e: Env, c: Tab, cmd: Command, k: Key, it: Item, al: Alloc, cold: bool): (Tab, Outcome)
    requires |it.value| >= 2 && (k in c.table ==> |c.table[k].value| >= 2)
  {
    var m := Fetched(e, c.table, k);
    if cmd == Add && k in m then (c.(table := Bumped(e, m, k, cold)), NotStored)
    else Settled(e, c.(table := m), cmd, k, it, al)
  }

  function View(e: Env, c: Tab): Abs {
    Abs(Live(e, c.table), c.casId, c.log)
  }

  /** No item was accessed later than now. */
  ghost predicate Timely(e: Env, t: map<Key, Item>) {
    forall k | k in t :: t[k].time <= e.now
  }

  lemma LiveFetched(e: Env, t: map<Key, Item>, k: Key)
    ensures Live(e, Fetched(e, t, k)) == Live(e, t)
    ensures k in Fetched(e, t, k) ==> !Dead(e, t[k])
  {
  }

  lemma LiveBumped(e: Env, t: map<Key, Item>, k: Key, cold: bool)
    requires k in t && !Dead(e, t[k]) && Timely(e, t)
    ensures Live(e, Bumped(e, t, k, cold)) == Live(e, t) && Timely(e, Bumped(e, t, k, cold))
  {
  }

  lemma SettledView(e: Env, c: Tab, cmd: Command, k: Key, it: Item, al: Alloc)
    requires |it.value| >= 2 && (k in c.table ==> |c.table[k].value| >= 2 && !Dead(e, c.table[k])) && k !in al.evicted
    ensures var (d, answer) := Settled(e, c, cmd, k, it, al);
      (View(e, d), answer) == Spec(e, View(e, c), cmd, k, it, al) && (Timely(e, c.table) ==> Timely(e, d.table))
  {
    var l := Linked(e, c.casId, it);
    LiveMinus(e, c.table, al.evicted);
    var (_, stored) := Answer(cmd, Lookup(c.table, k), it, al.ok);
    if stored.Some? {
      LiveWith(e, if Joins(cmd, c.table, k, it) then c.table - al.evicted else c.table, k, Linked(e, c.casId, stored.value));
    }
  }

  /** What a client sees of a command on the table is the table of commands on what it sees. */
  lemma CommandedView(e: Env, c: Tab, cmd: Command, k: Key, it: Item, al: Alloc, cold: bool)
    requires |it.value| >= 2 && (k in c.table ==> |c.table[k].value| >= 2) && k !in al.evicted && Timely(e, c.table)
    ensures var (d, answer) := Commanded(e, c, cmd, k, it, al, cold);
      (View(e, d), answer) == Spec(e, View(e, c), cmd, k, it, al) && Timely(e, d.table)
  {
    var m := Fetched(e, c.table, k);
    LiveFetched(e, c.table, k);
    if cmd == Add && k in m {
      LiveBumped(e, m, k, cold);
    } else {
      SettledView(e, c.(table := m), cmd, k, it, al);
    }
  }

  lemma LiveMinus(e: Env, t: map<Key, Item>, gone: set<Key>)
    ensures Live(e, t - gone) == Live(e, t) - gone
  {
  }

  lemma LiveWith(e: Env, t: map<Key, Item>, k: Key, l: Item)
    ensures Live(e, t[k := l]) == if Dead(e, l) then Live(e, t) - {k} else Live(e, t)[k := Face(l)]
  {
  }

  // ----- what each command answers and stores -------------------------------------------------

  /** Whether a command finds an item at the key. */
  predicate Present(e: Env, t: map<Key, Item>, k: Key) {
    k in t && !Dead(e, t[k])
  }

  /** The key has a new item with these fields, a fresh id, and the time of now. */
  ghost predicate StoredAs(e: Env, c: Tab, d: Tab, k: Key, flags: nat, exptime: nat, value: Bytes, inStorage: bool) {
    && k in d.table && d.table[k] == Item(flags, exptime, value, if e.useCas then c.casId + 1 else 0, e.now, inStorage)
    && d.casId == c.casId + (if e.useCas then 1 else 0) && d.log == c.log + [Entry(k, d.table[k])]
  }

  /** Nothing was stored, and the key has what it had, unless that was dead. */
  ghost predicate Kept(e: Env, c: Tab, d: Tab, k: Key) {
    && d.casId == c.casId && d.log == c.log
    && (k in d.table <==> Present(e, c.table, k)) && (k in d.table ==> d.table[k] == c.table[k])
  }

  /** The keys apart from k, without the evicted ones. */
  ghost predicate Others(c: Tab, d: Tab, k: Key, evicted: set<Key>) {
    && (forall j | j != k :: j in d.table <==> j in c.table && j !in evicted)
    && (forall j | j != k && j in d.table :: d.table[j] == c.table[j])
  }

  /** Set stores whatever is there. */
  lemma SetAnswer(e: Env, c: Tab, k: Key, it: Item, al: Alloc, cold: bool)
    requires |it.value| >= 2 && (k in c.table ==> |c.table[k].value| >= 2)
    ensures var (d, answer) := Commanded(e, c, Set, k, it, al, cold);
      && answer == Stored && StoredAs(e, c, d, k, it.flags, it.exptime, it.value, it.inStorage) && Others(c, d, k, {})
  {
  }

  /** Add stores if and only if the key is absent; what it finds counts as accessed, but not more than once a
      minute unless it is an active item on a COLD list. */
  lemma AddAnswer(e: Env, c: Tab, k: Key, it: Item, al: Alloc, cold: bool)
    requires |it.value| >= 2 && (k in c.table ==> |c.table[k].value| >= 2)
    ensures var (d, answer) := Commanded(e, c, Add, k, it, al, cold);
      && Others(c, d, k, {})
      && if !Present(e, c.table, k) then
           answer == Stored && StoredAs(e, c, d, k, it.flags, it.exptime, it.value, it.inStorage)
         else
           var recent := ITEM_UPDATE_INTERVAL <= e.now <= ITEM_UPDATE_INTERVAL + c.table[k].time;
           && answer == NotStored && d.casId == c.casId && d.log == c.log && k in d.table
           && (Timely(e, c.table) ==>
                 d.table[k] == c.table[k].(time := if recent && !cold then c.table[k].time else e.now))
  {
  }

  /** Replace stores if and only if the key is present. */
  lemma ReplaceAnswer(e: Env, c: Tab, k: Key, it: Item, al: Alloc, cold: bool)
    requires |it.value| >= 2 && (k in c.table ==> |c.table[k].value| >= 2)
    ensures var (d, answer) := Commanded(e, c, Replace, k, it, al, cold);
      && Others(c, d, k, {})
      && if Present(e, c.table, k) then
           answer == Stored && StoredAs(e, c, d, k, it.flags, it.exptime, it.value, it.inStorage)
         else
           answer == NotStored && Kept(e, c, d, k)
  {
  }

  /** Cas stores if and only if the key is present with the client's id. */
  lemma CasAnswer(e: Env, c: Tab, k: Key, it: Item, al: Alloc, cold: bool)
    requires |it.value| >= 2 && (k in c.table ==> |c.table[k].value| >= 2)
    ensures var (d, answer) := Commanded(e, c, Cas, k, it, al, cold);
      && Others(c, d, k, {})
      && (answer == NotFound <==> !Present(e, c.table, k))
      && (answer == Stored <==> Present(e, c.table, k) && it.cas == c.table[k].cas)
      && (answer == Exists <==> Present(e, c.table, k) && it.cas != c.table[k].cas)
      && (if answer == Stored then StoredAs(e, c, d, k, it.flags, it.exptime, it.value, it.inStorage) else Kept(e, c, d, k))
  {
  }

  /** Append and prepend store if and only if the key is present, an id the client sent is its id, the value is not
      in storage, and memory for the joined item is granted. That item has the flags and the expiry of the old one,
      and the old payload before or after the new one with one line end. */
  lemma JoinAnswer(e: Env, c: Tab, cmd: Command, k: Key, it: Item, al: Alloc, cold: bool)
    requires (cmd == Append || cmd == Prepend) && k !in al.evicted
    requires EndsInCrLf(it.value) && (k in c.table ==> EndsInCrLf(c.table[k].value))
    ensures var (d, answer) := Commanded(e, c, cmd, k, it, al, cold);
      var present := Present(e, c.table, k);
      var other := present && it.cas != 0 && it.cas != c.table[k].cas;
      var asked := present && !other && !c.table[k].inStorage;
      && answer == (if other then Exists else if asked && al.ok then Stored else NotStored)
      && Others(c, d, k, if asked then al.evicted else {})
      && if answer != Stored then Kept(e, c, d, k) else
           var old_ := c.table[k];
           && k in d.table && EndsInCrLf(d.table[k].value)
           && Payload(d.table[k].value)
                == (if cmd == Append then Payload(old_.value) + Payload(it.value) else Payload(it.value) + Payload(old_.value))
           && StoredAs(e, c, d, k, old_.flags, old_.exptime, d.table[k].value, false)
  {
    if Present(e, c.table, k) { JoinedPayload(cmd, c.table[k].value, it.value); }
  }

  // ----- the code ---------------------------------------------------------------------------

  class Cache {
    var table: map<Key, Item>
    var casId: nat
    ghost var log: seq<Entry>

    ghost function State(): Tab
      reads this
    {
      Tab(table, casId, log)
    }

    constructor ()
      ensures State() == EMPTY
    {
      table, casId, log := map[], 0, [];
    }

    /** get_cas_id */
    method GetCasId() returns (id: nat)
      modifies this`casId
      ensures id == casId == old(casId) + 1
    {
      casId := casId + 1;
      return casId;
    }

    /** do_item_get without an update: a dead item is unlinked on the way. */
    method DoItemGet(e: Env, k: Key) returns (it: Option<Item>)
      modifies this`table
      ensures table == Fetched(e, old(table), k) && View(e, State()) == old(View(e, State()))
      ensures it == Lookup(table, k) && (k in table ==> !Dead(e, table[k]))
    {
      LiveFetched(e, table, k);
      if k !in table { return None; }
      if Dead(e, table[k]) {
        table := table - {k};
        return None;
      }
      return Some(table[k]);
    }

    /** do_item_link and do_item_replace: the old item of the key goes, the new one gets its id. */
    method LinkItem(e: Env, k: Key, it: Item) returns (cas: nat)
      modifies this
      ensures var l := Linked(e, old(casId), it);
        && table == old(table)[k := l] && log == old(log) + [Entry(k, l)] && cas == l.cas
        && casId == old(casId) + if e.useCas then 1 else 0
      ensures var l := Linked(e, old(casId), it); var m := old(View(e, State())).live;
        View(e, State()).live == if Dead(e, l) then m - {k} else m[k := Face(l)]
    {
      cas := 0;
      if e.useCas { cas := GetCasId(); }
      var l := it.(cas := cas, time := e.now);
      LiveWith(e, table, k, l);
      table := table[k := l];
      log := log + [Entry(k, l)];
    }

    /** do_item_update; `cold` says that the item is an active one on a COLD list. */
    method DoItemUpdate(e: Env, k: Key, cold: bool)
      requires k in table
      modifies this`table
      ensures table == Bumped(e, old(table), k, cold) && table.Keys == old(table).Keys
      ensures old(Timely(e, table) && !Dead(e, table[k])) ==> Timely(e, table) && View(e, State()) == old(View(e, State()))
    {
      ghost var t := table;
      if cold || table[k].time < Sub32(e.now, ITEM_UPDATE_INTERVAL) {
        table := table[k := table[k].(time := e.now)];
      }
      if Timely(e, t) && !Dead(e, t[k]) { LiveBumped(e, t, k, cold); }
    }

    /** do_store_item, for any clock and any flush: the table and the answer afterwards. While the clock does not
        go back, what a client sees and the answer are those of the table of commands. */
    method DoStoreItem(e: Env, cmd: Command, k: Key, it: Item, al: Alloc, cold: bool)
      returns (stored: Outcome, cas: nat)
      requires Sized(table) && |it.value| >= 2 && k !in al.evicted
      modifies this
      ensures (State(), stored) == Commanded(e, old(State()), cmd, k, it, al, cold) && Sized(table)
      ensures old(Timely(e, table)) ==> Timely(e, table) && (View(e, State()), stored) == Spec(e, old(View(e, State())), cmd, k, it, al)
      ensures stored == Stored ==> k in table && cas == table[k].cas
    {
      ghost var c := State();
      stored, cas := Dispatch(e, cmd, k, it, al, cold);
      if Timely(e, c.table) { CommandedView(e, c, cmd, k, it, al, cold); }
    }

    /** Its branches. */
    method Dispatch(e: Env, cmd: Command, k: Key, it: Item, al: Alloc, cold: bool)
      returns (stored: Outcome, cas: nat)
      requires Sized(table) && |it.value| >= 2 && k !in al.evicted
      modifies this
      ensures (State(), stored) == Commanded(e, old(State()), cmd, k, it, al, cold) && Sized(table)
      ensures stored == Stored ==> k in table && cas == table[k].cas
    {
      stored, cas := NotStored, 0;
      var old_ := DoItemGet(e, k);
      if old_.Some? && cmd == Add {
        DoItemUpdate(e, k, cold);
      } else if old_.None? && (cmd == Replace || cmd == Append || cmd == Prepend) {
      } else if cmd == Cas {
        if old_.None? {
          stored := NotFound;
        } else if it.cas == old_.value.cas {
          cas := LinkItem(e, k, it);
          stored := Stored;
        } else {
          stored := Exists;
        }
      } else {
        stored, cas := StoreOrJoin(e, cmd, k, it, old_, al);
      }
    }

    /** The last branch of do_store_item. */
    method StoreOrJoin(e: Env, cmd: Command, k: Key, it: Item, old_: Option<Item>, al: Alloc)
      returns (stored: Outcome, cas: nat)
      requires Sized(table) && |it.value| >= 2 && k !in al.evicted && cmd != Cas
      requires old_ == Lookup(table, k)
      requires (cmd == Add ==> old_.None?) && (cmd == Replace || cmd == Append || cmd == Prepend ==> old_.Some?)
      modifies this
      ensures (State(), stored) == Settled(e, old(State()), cmd, k, it, al) && Sized(table)
      ensures stored == Stored ==> k in table && cas == table[k].cas
    {
      stored, cas := NotStored, 0;
      var it := it;
      var failedAlloc := false;
      if cmd == Append || cmd == Prepend {
        if it.cas != 0 && it.cas != old_.value.cas { stored := Exists; }
        if old_.value.inStorage {
          failedAlloc := true;
        } else if stored == NotStored {
          table := table - al.evicted;
          if al.ok {
            it := Item(old_.value.flags, old_.value.exptime, Joined(cmd, old_.value.value, it.value), 0, 0, false);
          } else {
            failedAlloc := true;
          }
        }
      }
      if stored == NotStored && !failedAlloc {
        cas := LinkItem(e, k, it);
        stored := Stored;
      }
    }
  }

  // ----- runs: what a CAS id says -----------------------------------------------------------

  /** What happens to the table, each time under a clock and a flush of its own: a storage command, a get, an
      update of the access time, items that are unlinked, a touch. */
  datatype Action =
    | ACommand(e: Env, cmd: Command, k: Key, it: Item, al: Alloc, cold: bool)
    | AGet(e: Env, k: Key)
    | ABump(e: Env, k: Key, cold: bool)
    | ALose(keys: set<Key>)
    | ATouch(k: Key, exptime: nat)

  predicate Enabled(c: Tab, x: Action) {
    match x
    case ACommand(e, cmd, k, it, al, _) =>
      e.useCas && |it.value| >= 2 && (k in c.table ==> |c.table[k].value| >= 2) && k !in al.evicted
    case AGet(_, _) => true
    case ABump(_, k, _) => k in c.table
    case ALose(_) => true
    case ATouch(k, _) => k in c.table
  }

  function Apply(c: Tab, x: Action): Tab
    requires Enabled(c, x)
  {
    match x
    case ACommand(e, cmd, k, it, al, cold) => Commanded(e, c, cmd, k, it, al, cold).0
    case AGet(e, k) => c.(table := Fetched(e, c.table, k))
    case ABump(e, k, cold) => c.(table := Bumped(e, c.table, k, cold))
    case ALose(keys) => c.(table := c.table - keys)
    case ATouch(k, exptime) => c.(table := c.table[k := c.table[k].(exptime := exptime)])
  }

  function Run(c: Tab, xs: seq<Action>): Tab
    decreases |xs|
  {
    if xs == [] then c else Run(if Enabled(c, xs[0]) then Apply(c, xs[0]) else c, xs[1..])
  }

  /** Ids number the stores, and a linked item, dead or alive, is the one stored last to its key. */
  ghost predicate History(c: Tab) {
    && c.casId == |c.log| && Sized(c.table)
    && (forall i | 0 <= i < |c.log| :: c.log[i].item.cas == i + 1)
    && (forall k | k in c.table :: LastStore(c, k))
  }

  ghost predicate LastStore(c: Tab, k: Key)
    requires k in c.table
  {
    var id := c.table[k].cas;
    && 0 < id <= |c.log| && c.log[id - 1].key == k
    && Face(c.table[k]) == Face(c.log[id - 1].item.(exptime := c.table[k].exptime))
    && forall j | id <= j < |c.log| :: c.log[j].key != k
  }

  ghost predicate Extends(a: Tab, b: Tab) {
    |a.log| <= |b.log| && b.log[..|a.log|] == a.log
  }

  /** Nothing new in `m`, and nothing changed but times. */
  ghost predicate Thinned(t: map<Key, Item>, m: map<Key, Item>) {
    forall k | k in m :: k in t && Face(m[k]) == Face(t[k].(exptime := m[k].exptime))
  }

  lemma ThinnedKeeps(c: Tab, m: map<Key, Item>)
    requires History(c) && Thinned(c.table, m)
    ensures History(c.(table := m))
  {
    var d := c.(table := m);
    forall k | k in m ensures LastStore(d, k) && |m[k].value| >= 2 { assert LastStore(c, k); }
  }

  lemma StoredKeeps(c: Tab, k: Key, l: Item)
    requires History(c) && l.cas == c.casId + 1 && |l.value| >= 2
    ensures History(Tab(c.table[k := l], c.casId + 1, c.log + [Entry(k, l)]))
  {
    var d := Tab(c.table[k := l], c.casId + 1, c.log + [Entry(k, l)]);
    forall j | j in d.table ensures LastStore(d, j) && |d.table[j].value| >= 2 {
      if j != k { assert LastStore(c, j); }
    }
  }

  lemma CommandKeeps(e: Env, c: Tab, cmd: Command, k: Key, it: Item, al: Alloc, cold: bool)
    requires History(c) && Enabled(c, ACommand(e, cmd, k, it, al, cold))
    ensures var d := Commanded(e, c, cmd, k, it, al, cold).0; History(d) && Extends(c, d)
  {
    var m := Fetched(e, c.table, k);
    FetchedKeeps(e, c, k);
    if cmd == Add && k in m {
      BumpedKeeps(e, c.(table := m), k, cold);
    } else {
      SettledKeeps(e, c.(table := m), cmd, k, it, al);
    }
  }

  lemma FetchedKeeps(e: Env, c: Tab, k: Key)
    requires History(c)
    ensures History(c.(table := Fetched(e, c.table, k)))
  {
    ThinnedKeeps(c, Fetched(e, c.table, k));
  }

  lemma BumpedKeeps(e: Env, c: Tab, k: Key, cold: bool)
    requires History(c) && k in c.table
    ensures History(c.(table := Bumped(e, c.table, k, cold)))
  {
    ThinnedKeeps(c, Bumped(e, c.table, k, cold));
  }

  lemma SettledKeeps(e: Env, c: Tab, cmd: Command, k: Key, it: Item, al: Alloc)
    requires History(c) && e.useCas && |it.value| >= 2 && (k in c.table ==> |c.table[k].value| >= 2)
    ensures var d := Settled(e, c, cmd, k, it, al).0; History(d) && Extends(c, d)
  {
    var (_, stored) := Answer(cmd, Lookup(c.table, k), it, al.ok);
    var m := if Joins(cmd, c.table, k, it) then c.table - al.evicted else c.table;
    ThinnedKeeps(c, m);
    if stored.Some? { StoredKeeps(c.(table := m), k, Linked(e, c.casId, stored.value)); }
  }

  lemma StepKeeps(c: Tab, x: Action)
    requires History(c) && Enabled(c, x)
    ensures History(Apply(c, x)) && Extends(c, Apply(c, x))
  {
    match x
    case ACommand(e, cmd, k, it, al, cold) => CommandKeeps(e, c, cmd, k, it, al, cold);
    case _ => ThinnedKeeps(c, Apply(c, x).table);
  }

  lemma {:induction false} RunKeeps(c: Tab, xs: seq<Action>)
    requires History(c)
    ensures History(Run(c, xs)) && Extends(c, Run(c, xs))
    decreases |xs|
  {
    if xs != [] {
      if Enabled(c, xs[0]) {
        var d := Apply(c, xs[0]);
        StepKeeps(c, xs[0]);
        RunKeeps(d, xs[1..]);
        var n := |c.log|;
        assert Run(c, xs).log[..|d.log|][..n] == Run(c, xs).log[..n];
      } else {
        RunKeeps(c, xs[1..]);
      }
    }
  }

  const EMPTY: Tab := Tab(map[], 0, [])

  /** Ids are distinct over all keys, and a new store gets a larger one than any before. */
  lemma IdsDistinct(xs: seq<Action>, j: Key, k: Key)
    requires var c := Run(EMPTY, xs); j in c.table && k in c.table && j != k
    ensures var c := Run(EMPTY, xs); c.table[j].cas != c.table[k].cas && c.table[k].cas <= c.casId
  {
    RunKeeps(EMPTY, xs);
    var c := Run(EMPTY, xs);
    assert LastStore(c, j) && LastStore(c, k);
  }

  /** A client reads a key with its id, anything happens under any clock and any flush, and the client's cas with
      that id is answered STORED: then nobody has stored to the key in between, and its value is still what was
      read. */
  lemma CasProvesUnchanged(xs: seq<Action>, then_: Env, ys: seq<Action>, e: Env, k: Key, it: Item, al: Alloc, cold: bool)
    requires var seen := Live(then_, Run(EMPTY, xs).table); k in seen && it.cas == seen[k].cas
    requires Enabled(Run(Run(EMPTY, xs), ys), ACommand(e, Cas, k, it, al, cold))
    requires Commanded(e, Run(Run(EMPTY, xs), ys), Cas, k, it, al, cold).1 == Stored
    ensures var a := Run(EMPTY, xs); var b := Run(a, ys); var seen, now := Live(then_, a.table), Live(e, b.table);
      && |a.log| <= |b.log| && (forall j | |a.log| <= j < |b.log| :: b.log[j].key != k)
      && k in now && now[k] == seen[k].(exptime := now[k].exptime)
  {
    var a := Run(EMPTY, xs);
    var b := Run(a, ys);
    RunKeeps(EMPTY, xs);
    RunKeeps(a, ys);
    CasFinds(e, b, k, it, al, cold);
    SameId(a, b, k);
  }

  lemma CasFinds(e: Env, c: Tab, k: Key, it: Item, al: Alloc, cold: bool)
    requires |it.value| >= 2 && (k in c.table ==> |c.table[k].value| >= 2)
    requires Commanded(e, c, Cas, k, it, al, cold).1 == Stored
    ensures k in c.table && k in Live(e, c.table) && it.cas == c.table[k].cas
  {
  }

  /** One id, one store: with the same id at two times a key has the same item, and none was stored between. */
  lemma SameId(a: Tab, b: Tab, k: Key)
    requires History(a) && History(b) && Extends(a, b) && k in a.table && k in b.table && a.table[k].cas == b.table[k].cas
    ensures forall j | |a.log| <= j < |b.log| :: b.log[j].key != k
    ensures Face(b.table[k]) == Face(a.table[k].(exptime := b.table[k].exptime))
  {
    assert LastStore(a, k) && LastStore(b, k);
    var id := a.table[k].cas;
    assert b.log[..|a.log|][id - 1] == b.log[id - 1];
  }

  /** A flush hides what is still linked, and one that is ordered for later brings it back until then. */
  lemma LaterFlushRevives(e: Env, later: Env, t: map<Key, Item>, k: Key)
    requires k in t && t[k].exptime == 0 && t[k].time <= e.oldestLive && 0 < e.oldestLive <= e.now
    requires later.now < later.oldestLive
    ensures k !in Live(e, t) && k in Live(later, t) && Live(later, t)[k] == Face(t[k])
  {
  }

  /** With CAS ids switched off a cas is no such proof: it is answered STORED after another client's set. */
  lemma WithoutIds(e: Env, a: Abs, k: Key, mine: Item, other: Item, al: Alloc)
    requires !e.useCas && mine.cas == 0 && |mine.value| >= 2 && |other.value| >= 2
    requires k in a.live && a.live[k].cas == 0 && |a.live[k].value| >= 2 && !Dead(e, Linked(e, a.casId, other))
    ensures var (b, answer) := Spec(e, a, Set, k, other, al);
      && answer == Stored && k in b.live && b.live[k].value == other.value
      && Spec(e, b, Cas, k, mine, al).1 == Stored
  {
  }
}
