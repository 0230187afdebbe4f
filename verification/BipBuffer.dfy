/** The bip buffer of memory_lru/bipbuffer.c: a queue of bytes whose free space is always one piece. */
module BipBuffer {
  import opened Common

  /** The cursors: region A is [aStart, aEnd), region B is [0, bEnd). */
  datatype Cursors = Cursors(size: nat, aStart: nat, aEnd: nat, bEnd: nat, bInuse: bool)

  /** Regions in order, B only while in use, A empty only when all is; B in use whenever it offers more room. */
  predicate Ok(v: Cursors) {
    && v.bEnd <= v.aStart <= v.aEnd <= v.size
    && (!v.bInuse ==> v.bEnd == 0 && v.aStart <= v.size - v.aEnd)
    && (v.aStart == v.aEnd ==> v.aStart == 0 && v.bEnd == 0 && !v.bInuse)
  }

  function Unused(v: Cursors): int {
    if v.bInuse then v.aStart - v.bEnd else v.size - v.aEnd
  }

  function Switch(v: Cursors): Cursors {
    if v.size - v.aEnd < v.aStart - v.bEnd then v.(bInuse := true) else v
  }

  predicate IsLive(v: Cursors, i: nat) {
    v.aStart <= i < v.aEnd || i < v.bEnd
  }

  /** Where the next bytes go. */
  function Cursor(v: Cursors): nat {
    if v.bInuse then v.bEnd else v.aEnd
  }

  function Pushed(v: Cursors, n: nat): Cursors {
    if Unused(v) < n then v
    else Switch(if v.bInuse then v.(bEnd := v.bEnd + n) else v.(aEnd := v.aEnd + n))
  }

  predicate CanPoll(v: Cursors, n: nat) {
    v.aStart != v.aEnd && v.aStart + n <= v.size
  }

  function Polled(v: Cursors, n: nat): Cursors {
    if !CanPoll(v, n) then v
    else
      var w := v.(aStart := v.aStart + n);
      Switch(
        if w.aStart != w.aEnd then w
        else if w.bInuse then w.(aStart := 0, aEnd := w.bEnd, bEnd := 0, bInuse := false)
        else w.(aStart := 0, aEnd := 0))
  }

  /** The queue held by `mem`: region A, then region B. */
  function Live<T>(mem: seq<T>, v: Cursors): seq<T>
    requires Ok(v) && |mem| == v.size
  {
    mem[v.aStart..v.aEnd] + mem[..v.bEnd]
  }

  /** Pushing keeps the order of regions and appends exactly the bytes in the requested span. */
  lemma PushAppends<T>(mem: seq<T>, v: Cursors, n: nat)
    requires Ok(v) && |mem| == v.size && n <= Unused(v)
    ensures Ok(Pushed(v, n)) && Live(mem, Pushed(v, n)) == Live(mem, v) + mem[Cursor(v)..Cursor(v) + n]
  {
    if !v.bInuse { assert mem[v.aStart..v.aEnd + n] == mem[v.aStart..v.aEnd] + mem[v.aEnd..v.aEnd + n]; }
    else { assert mem[..v.bEnd + n] == mem[..v.bEnd] + mem[v.bEnd..v.bEnd + n]; }
  }

  /** The requested span lies in the buffer and apart from the live bytes: whatever is written there, the
      queue stays what it was. */
  lemma SpanIsFree<T>(mem: seq<T>, v: Cursors, n: nat, mem': seq<T>)
    requires Ok(v) && |mem| == |mem'| == v.size && n <= Unused(v)
    requires forall i | 0 <= i < v.size && !(Cursor(v) <= i < Cursor(v) + n) :: mem'[i] == mem[i]
    ensures Cursor(v) + n <= v.size
    ensures forall i: nat | Cursor(v) <= i < Cursor(v) + n :: !IsLive(v, i)
    ensures Live(mem', v) == Live(mem, v) && mem'[v.aStart..v.aEnd] == mem[v.aStart..v.aEnd]
  {
  }

  lemma SpanInside(v: Cursors, n: nat)
    requires Ok(v) && n <= Unused(v)
    ensures Cursor(v) + n <= v.size
  {
  }

  /** The longest span that is granted ends where the next live byte is, or at the end of the buffer. */
  lemma SpanIsWhole(v: Cursors)
    requires Ok(v)
    ensures Unused(v) >= 0
    ensures var stop := Cursor(v) + Unused(v); stop == v.size || (stop == v.aStart < v.aEnd && IsLive(v, stop))
    ensures v.bInuse ==> Cursor(v) == v.bEnd
    ensures !v.bInuse ==> Cursor(v) == v.aEnd && Cursor(v) + Unused(v) == v.size
  {
  }

  /** After a push region B is used if and only if it was, or the room in front of region A has become larger than
      the room behind it. */
  lemma SwitchesExactly(v: Cursors, n: nat)
    requires Ok(v) && n <= Unused(v)
    ensures Pushed(v, n).bInuse <==> v.bInuse || v.aStart > v.size - (v.aEnd + n)
  {
  }

  /** The same after a poll: a region A that has been emptied is replaced by region B, or starts anew. */
  lemma SwitchesOnPoll(v: Cursors, n: nat)
    requires Ok(v) && v.aStart != v.aEnd && n <= v.aEnd - v.aStart
    ensures var w := Polled(v, n);
      if n == v.aEnd - v.aStart then w == Cursors(v.size, 0, v.bEnd, 0, false)
      else w == v.(aStart := v.aStart + n, bInuse := w.bInuse)
           && (w.bInuse <==> v.bInuse || v.aStart + n > v.size - v.aEnd)
  {
  }

  /** Polling within region A drops the oldest bytes. */
  lemma PollDrops<T>(mem: seq<T>, v: Cursors, n: nat)
    requires Ok(v) && |mem| == v.size && v.aStart != v.aEnd && n <= v.aEnd - v.aStart
    ensures Ok(Polled(v, n)) && CanPoll(v, n)
    ensures Live(mem, Polled(v, n)) == Live(mem, v)[n..]
  {
  }

  /** The guard of a poll is not enough: the buffer stays in order if and only if no more is polled than
      region A holds. */
  lemma PollKeepsExactly(v: Cursors, n: nat)
    requires Ok(v)
    ensures Ok(Polled(v, n)) <==> (CanPoll(v, n) ==> n <= v.aEnd - v.aStart)
  {
  }

  /** Such a poll: one byte is held, two are polled, and the end of region A is left behind its start. */
  lemma PollBreaks()
    ensures var v := Cursors(4, 0, 1, 0, false); Ok(v) && CanPoll(v, 2) && !Ok(Polled(v, 2))
  {
  }

  /** is_empty looks at region A only, and that is exact. */
  lemma EmptyExact<T>(mem: seq<T>, v: Cursors)
    requires Ok(v) && |mem| == v.size
    ensures v.aStart == v.aEnd <==> Live(mem, v) == []
    ensures |Live(mem, v)| == v.aEnd - v.aStart + v.bEnd
  {
  }

  class Bipbuf {
    var data: array<byte>
    var aStart: nat
    var aEnd: nat
    var bEnd: nat
    var bInuse: bool

    ghost function View(): Cursors
      reads this
    {
      Cursors(data.Length, aStart, aEnd, bEnd, bInuse)
    }

    ghost predicate Valid()
      reads this
    {
      Ok(View())
    }

    ghost function Contents(): Bytes
      requires Valid()
      reads this, data
    {
      Live(data[..], View())
    }

    constructor (size: nat)
      ensures Valid() && fresh(data) && data.Length == size && Contents() == []
    {
      data := new byte[size];
      aStart, aEnd, bEnd, bInuse := 0, 0, 0, false;
    }

    /** bipbuf_unused: the length of the longest request that is granted. */
    method UnusedBytes() returns (n: nat)
      requires Valid()
      ensures n == Unused(View())
    {
      if bInuse { n := aStart - bEnd; } else { n := data.Length - aEnd; }
    }

    /** bipbuf_used counts the bytes in the queue. */
    method Used() returns (n: nat)
      requires Valid()
      ensures n == |Contents()|
    {
      n := (aEnd - aStart) + bEnd;
    }

    method IsEmpty() returns (empty: bool)
      requires Valid()
      ensures empty <==> Contents() == []
    {
      EmptyExact(data[..], View());
      empty := aStart == aEnd;
    }

    /** bipbuf_request hands out the span behind the newest byte, apart from all live ones. */
    method Request(size: nat) returns (at: Option<nat>)
      requires Valid()
      ensures at.Some? <==> size <= Unused(View())
      ensures at.Some? ==>
        && at.value == Cursor(View()) && at.value + size <= data.Length
        && forall i: nat | at.value <= i < at.value + size :: !IsLive(View(), i)
    {
      var unused := UnusedBytes();
      if unused < size { return None; }
      if bInuse { at := Some(bEnd); } else { at := Some(aEnd); }
    }

    /** bipbuf_push makes the span part of the queue. */
    method Push(size: nat) returns (pushed: nat)
      requires Valid()
      modifies this`aEnd, this`bEnd, this`bInuse
      ensures Valid() && View() == Pushed(old(View()), size)
      ensures pushed == if size <= old(Unused(View())) then size else 0
      ensures Contents() == old(Contents()) +
        if pushed == 0 then [] else data[old(Cursor(View()))..old(Cursor(View())) + size]
    {
      ghost var v := View();
      var unused := UnusedBytes();
      if unused < size { return 0; }
      PushAppends(data[..], v, size);
      if bInuse { bEnd := bEnd + size; } else { aEnd := aEnd + size; }
      CheckForSwitchToB();
      assert data[..][Cursor(v)..Cursor(v) + size] == data[Cursor(v)..Cursor(v) + size];
      return size;
    }

    method CheckForSwitchToB()
      requires bEnd <= aStart && aEnd <= data.Length
      modifies this`bInuse
      ensures View() == Switch(old(View()))
    {
      if data.Length - aEnd < aStart - bEnd { bInuse := true; }
    }

    /** Request, copy, push: how its callers enqueue. */
    method Enqueue(bytes: Bytes) returns (ok: bool)
      requires Valid()
      modifies this`aEnd, this`bEnd, this`bInuse, data
      ensures Valid() && (ok <==> |bytes| <= old(Unused(View())))
      ensures Contents() == old(Contents()) + if ok then bytes else []
    {
      var at := Request(|bytes|);
      if at.None? { return false; }
      Write(at.value, bytes);
      var n := Push(|bytes|);
      return true;
    }

    /** The caller's copy into the span it was given. */
    method Write(at: nat, bytes: Bytes)
      requires Valid() && at == Cursor(View()) && |bytes| <= Unused(View())
      modifies data
      ensures Contents() == old(Contents()) && at + |bytes| <= data.Length && data[at..at + |bytes|] == bytes
    {
      SpanInside(View(), |bytes|);
      forall i | 0 <= i < |bytes| { data[at + i] := bytes[i]; }
      assert data[at..at + |bytes|] == bytes;
      SpanIsFree(old(data[..]), View(), |bytes|, data[..]);
    }

    /** bipbuf_peek_all: all of region A, which is a prefix of the queue. */
    method PeekAll() returns (span: Option<(nat, nat)>)
      requires Valid()
      ensures span.None? <==> Contents() == []
      ensures span.Some? ==>
        var (at, size) := span.value;
        && 0 < size <= |Contents()| && at + size <= data.Length
        && data[at..at + size] == Contents()[..size] && (at, size) == (aStart, aEnd - aStart)
    {
      EmptyExact(data[..], View());
      if aStart == aEnd { return None; }
      span := Some((aStart, aEnd - aStart));
    }

    /** bipbuf_poll: what it keeps depends on the caller asking for no more than region A holds. */
    method Poll(size: nat) returns (at: Option<nat>)
      requires Valid()
      modifies this`aStart, this`aEnd, this`bEnd, this`bInuse
      ensures View() == Polled(old(View()), size)
      ensures at == if CanPoll(old(View()), size) then Some(old(aStart)) else None
      ensures at.None? || size <= old(aEnd - aStart) ==> Valid()
      ensures at.Some? && size <= old(aEnd - aStart) ==> Contents() == old(Contents())[size..]
    {
      if aStart == aEnd { return None; }
      if data.Length < aStart + size { return None; }
      if size <= aEnd - aStart { PollDrops(data[..], View(), size); }
      at := Some(aStart);
      aStart := aStart + size;
      if aStart == aEnd {
        if bInuse {
          aStart, aEnd := 0, bEnd;
          bEnd, bInuse := 0, false;
        } else {
          aStart, aEnd := 0, 0;
        }
      }
      if data.Length - aEnd < aStart - bEnd { bInuse := true; }
    }
  }
}
