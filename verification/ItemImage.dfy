/**
 * The bytes of an item as exstore/storage.c copies them into a write buffer, and the walk of
 * storage_compact_readback over a buffer read back from disk.
 */
module ItemImage {
  import opened Common

  // offsets inside struct _stritem on a 64-bit machine, and its size
  const NBYTES_AT: nat := 32
  const NSUFFIX_AT: nat := 38
  const FLAGS_AT: nat := 39
  const NKEY_AT: nat := 41
  const ITEM_SIZE: nat := 48

  /** Little-endian 32-bit field at `at`. */
  function Field32(b: Bytes, at: nat): nat
    requires at + 4 <= |b|
  {
    b[at] as nat + 0x100 * b[at + 1] as nat + 0x1_0000 * b[at + 2] as nat + 0x100_0000 * b[at + 3] as nat
  }

  function Put32(n: nat): (r: Bytes)
    requires n < 0x1_0000_0000
    ensures |r| == 4 && Field32(r, 0) == n
  {
    var (low, high) := (n % 0x1_0000, n / 0x1_0000);
    [(low % 0x100) as byte, (low / 0x100) as byte, (high % 0x100) as byte, (high / 0x100) as byte]
  }

  /** Bit 1 of it_flags, ITEM_CAS. */
  predicate HasCas(flags: byte) {
    (flags as nat / 2) % 2 == 1
  }

  /** ITEM_ntotal evaluated on raw bytes. */
  function NTotal(b: Bytes): nat
    requires |b| >= ITEM_SIZE
  {
    ITEM_SIZE + b[NKEY_AT] as nat + 1 + b[NSUFFIX_AT] as nat + Field32(b, NBYTES_AT)
    + (if HasCas(b[FLAGS_AT]) then 8 else 0)
  }

  /** A byte string that is the image of one item: a key, and as long as its header says. */
  predicate IsImage(b: Bytes) {
    |b| >= ITEM_SIZE && b[NKEY_AT] != 0 && NTotal(b) == |b|
  }

  /** A header and what follows it: key with its terminator, suffix, value, after an optional CAS id. */
  datatype Record = Record(
    links: Bytes,        // next, prev, h_next, time and exptime: left as they are or overwritten
    flags: byte, refcountBytes: Bytes, clsid: byte, padding: Bytes,
    cas: Bytes, key: Bytes, suffix: Bytes, value: Bytes)

  predicate WellFormed(r: Record) {
    && |r.links| == NBYTES_AT && |r.refcountBytes| == 2 && |r.padding| == ITEM_SIZE - NKEY_AT - 1
    && 0 < |r.key| < 256 && |r.suffix| < 256 && |r.value| < 0x1_0000_0000
    && |r.cas| == (if HasCas(r.flags) then 8 else 0)
  }

  function Header(r: Record): (b: Bytes)
    requires WellFormed(r)
    ensures |b| == ITEM_SIZE
  {
    r.links + Put32(|r.value|) + r.refcountBytes
    + [|r.suffix| as byte, r.flags, r.clsid, |r.key| as byte] + r.padding
  }

  function Image(r: Record): Bytes
    requires WellFormed(r)
  {
    Header(r) + r.cas + r.key + [0] + r.suffix + r.value
  }

  lemma HeaderFields(r: Record)
    requires WellFormed(r)
    ensures var h := Header(r);
      && Field32(h, NBYTES_AT) == |r.value| && h[NSUFFIX_AT] as nat == |r.suffix|
      && h[FLAGS_AT] == r.flags && h[NKEY_AT] as nat == |r.key|
  {
    var h := Header(r);
    assert h[NBYTES_AT..NBYTES_AT + 4] == Put32(|r.value|);
  }

  /** Every record is laid out so that ITEM_ntotal finds its end. */
  lemma ImageOk(r: Record)
    requires WellFormed(r)
    ensures IsImage(Image(r)) && Image(r)[..ITEM_SIZE] == Header(r)
  {
    HeaderFields(r);
    var i, h := Image(r), Header(r);
    assert i[..ITEM_SIZE] == h;
    assert forall k | 0 <= k < ITEM_SIZE :: i[k] == h[k];
  }

  ghost predicate Images(objs: seq<Bytes>) {
    forall i | 0 <= i < |objs| :: IsImage(objs[i])
  }

  /** A flushed write buffer: the objects one after the other, zeros up to its size. */
  function Pack(objs: seq<Bytes>, size: nat): (b: Bytes)
    requires |Concat(objs)| <= size
    ensures |b| == size
  {
    Concat(objs) + Zeros(size - |Concat(objs)|)
  }

  /** The walk: stop at the end, at a zero key length, or when less than a header is left. */
  function Walk(b: Bytes, offset: nat): (objs: seq<Bytes>)
    decreases |b| - offset
  {
    if offset >= |b| || |b| - offset < ITEM_SIZE || b[offset + NKEY_AT] == 0 then []
    else
      var n := NTotal(b[offset..]);
      if offset + n > |b| then [] else [b[offset..offset + n]] + Walk(b, offset + n)
  }

  /** Pack/unpack round trip: the walk from 0 visits exactly the objects written, in order, each once. */
  lemma RoundTrip(objs: seq<Bytes>, size: nat)
    requires Images(objs) && |Concat(objs)| <= size
    ensures Walk(Pack(objs, size), 0) == objs
  {
    var b := Pack(objs, size);
    assert b[0..] == b;
    WalkFrom(b, 0, objs);
  }

  lemma SameHeader(x: Bytes, rest: Bytes)
    requires ITEM_SIZE <= |x| <= |rest| && rest[..|x|] == x
    ensures NTotal(rest) == NTotal(x) && rest[NKEY_AT] == x[NKEY_AT]
  {
    assert forall k | 0 <= k < |x| :: rest[k] == x[k];
  }

  lemma {:induction false} WalkFrom(b: Bytes, offset: nat, objs: seq<Bytes>)
    requires offset <= |b| && Images(objs)
    requires |Concat(objs)| <= |b| - offset && b[offset..] == Concat(objs) + Zeros(|b| - offset - |Concat(objs)|)
    ensures Walk(b, offset) == objs
    decreases |objs|
  {
    var rest := b[offset..];
    if objs == [] {
      if |b| - offset >= ITEM_SIZE { assert rest[NKEY_AT] == 0; }
    } else {
      var x := objs[0];
      assert IsImage(x);
      assert rest == x + rest[|x|..];
      SameHeader(x, rest);
      assert b[offset..offset + |x|] == rest[..|x|] == x;
      assert b[offset + |x|..] == rest[|x|..];
      WalkFrom(b, offset + |x|, objs[1..]);
    }
  }
}
