/**
 * The page engine of exstore/extstore.c as atomic steps: each is one region in which the engine
 * lock or one page lock is held, or one read or write of the page file.
 */
module Extstore {
  import opened Common
  import opened ItemImage

  /** A write buffer while a page has it: `content` is what was copied in, the rest of it is free. */
  datatype Wbuf = Wbuf(id: nat, content: Bytes, offset: nat, full: bool)

  /** `blocks` is book-keeping: the objects of each buffer's worth of the page, in order. */
  datatype Page = Page(
    version: nat, active: bool, closed: bool, free: bool, refcount: nat, reserved: nat, written: nat,
    bucket: nat, freeBucket: nat, objCount: nat, bytesUsed: nat, wbuf: Option<Wbuf>, blocks: seq<seq<Bytes>>)

  datatype Io = Io(page: nat, wbuf: nat, offset: nat, landed: bool)   // a submitted flush
  datatype Read = Read(page: nat, version: nat, offset: nat, len: nat) // a pread under a page reference

  /** What extstore_write handed back for an object; `block` and `index` say where it stands. */
  datatype Receipt = Receipt(page: nat, version: nat, offset: nat, data: Bytes, block: nat, index: nat)

  /** The thread that writes into a bucket: between calls, between its two locks, or in need of a page. */
  datatype Writer = Idle | Chosen(page: nat) | NeedPage

  /** The maintenance thread, asleep or at page `pos` of a scan. */
  datatype Maint = Asleep | Scanning(pos: nat, evict: bool, victim: Option<nat>, seen: set<nat>)

  datatype State = State(
    pages: seq<Page>, disk: seq<Bytes>,
    wbufStack: seq<nat>, ioFree: nat, ios: seq<Io>,
    buckets: seq<seq<nat>>, freelist: seq<nat>, freeBuckets: seq<seq<nat>>, pageFree: nat,
    version: nat, pinned: seq<Read>, receipts: seq<Receipt>, writers: seq<Writer>, maint: Maint,
    objectsUsed: int, bytesUsed: int)

  /** Sizes fixed by extstore_init: a page is `perPage` buffers of `size` bytes. */
  datatype Config = Config(size: nat, perPage: nat, pages: nat, buckets: nat, wbufs: nat)

  predicate Sizes(g: Config) {
    g.size > 0 && g.perPage > 0 && g.buckets > 0 && g.wbufs >= g.buckets
  }

  function PageSize(g: Config): nat {
    g.perPage * g.size
  }

  // ----- pages ------------------------------------------------------------------------------

  /** Where _allocate_page takes a page from: the requested free bucket, else the default freelist. */
  function PickFree(s: State, fb: nat): Option<nat> {
    if fb != 0 && fb < |s.freeBuckets| && s.freeBuckets[fb] != [] then Some(s.freeBuckets[fb][0])
    else if s.freelist != [] then Some(s.freelist[0])
    else None
  }

  /** The assertion at the top of _allocate_page. */
  predicate HeadFull(g: Config, s: State, b: nat) {
    && b < |s.buckets|
    && (s.buckets[b] == [] || (s.buckets[b][0] < |s.pages| && s.pages[s.buckets[b][0]].reserved == PageSize(g)))
  }

  function AllocatePage(g: Config, s: State, b: nat, fb: nat): State
    requires HeadFull(g, s, b)
  {
    match PickFree(s, fb)
    case None => s
    case Some(p) =>
      var t := if fb != 0 && fb < |s.freeBuckets| && s.freeBuckets[fb] != []
               then s.(freeBuckets := s.freeBuckets[fb := s.freeBuckets[fb][1..]])
               else s.(freelist := s.freelist[1..]);
      if s.pageFree > 0 && p < |s.pages| then
        t.(buckets := t.buckets[b := [p] + t.buckets[b]],
           pages := t.pages[p := t.pages[p].(active := true, free := false, closed := false,
                                             version := t.version, bucket := b)],
           version := t.version + 1, pageFree := t.pageFree - 1)
      else t
  }

  function FreePage(s: State, i: nat): State
    requires i < |s.pages| && s.pages[i].bucket < |s.buckets| && s.pages[i].freeBucket < |s.freeBuckets|
  {
    var p := s.pages[i];
    var q := p.(version := 0, objCount := 0, bytesUsed := 0, reserved := 0, written := 0, bucket := 0,
                active := false, closed := false, free := true, blocks := []);
    var t := s.(objectsUsed := s.objectsUsed - p.objCount, bytesUsed := s.bytesUsed - p.bytesUsed,
                buckets := s.buckets[p.bucket := Without<nat>(s.buckets[p.bucket], i)],
                pages := s.pages[i := q], pageFree := s.pageFree + 1);
    if p.freeBucket != 0 then t.(freeBuckets := t.freeBuckets[p.freeBucket := [i] + t.freeBuckets[p.freeBucket]])
    else t.(freelist := [i] + t.freelist)
  }

  // ----- write buffers ----------------------------------------------------------------------

  /** _submit_wbuf followed by the mark that nothing more goes into this buffer. */
  function Submit(s: State, i: nat): State
    requires i < |s.pages| && s.pages[i].wbuf.Some? && s.ioFree > 0
  {
    var w := s.pages[i].wbuf.value;
    s.(ioFree := s.ioFree - 1, ios := s.ios + [Io(i, w.id, w.offset, false)],
       pages := s.pages[i := s.pages[i].(wbuf := Some(w.(full := true)))])
  }

  /** _allocate_wbuf: nothing happens when the stack is empty. */
  function AllocateWbuf(g: Config, s: State, i: nat): State
    requires i < |s.pages|
  {
    if s.wbufStack == [] then s
    else
      var p := s.pages[i];
      s.(wbufStack := s.wbufStack[1..],
         pages := s.pages[i := p.(wbuf := Some(Wbuf(s.wbufStack[0], [], p.reserved, false)),
                                  reserved := p.reserved + g.size, blocks := p.blocks + [[]])])
  }

  function LastBlock(p: Page): seq<Bytes> {
    if p.blocks == [] then [] else p.blocks[|p.blocks| - 1]
  }

  /** The caller's copy into the buffer and extstore_write. */
  function Append(s: State, i: nat, data: Bytes): State
    requires i < |s.pages| && s.pages[i].wbuf.Some? && s.pages[i].blocks != []
  {
    var p := s.pages[i];
    var w := p.wbuf.value;
    var last := |p.blocks| - 1;
    s.(receipts := s.receipts + [Receipt(i, p.version, w.offset + |w.content|, data, last, |p.blocks[last]|)],
       pages := s.pages[i := p.(wbuf := Some(w.(content := w.content + data)),
                                bytesUsed := p.bytesUsed + |data|, objCount := p.objCount + 1,
                                blocks := p.blocks[last := p.blocks[last] + [data]])],
       bytesUsed := s.bytesUsed + |data|, objectsUsed := s.objectsUsed + 1)
  }

  function Room(g: Config, w: Wbuf): nat {
    if |w.content| <= g.size then g.size - |w.content| else 0
  }

  // ----- the writing thread -----------------------------------------------------------------

  /** First lock of extstore_write_request: the page at the head of the bucket, a new one if there is none. */
  predicate CanBegin(g: Config, s: State, b: nat) {
    b < |s.writers| == |s.buckets| && s.writers[b].Idle? && (s.buckets[b] == [] ==> HeadFull(g, s, b))
  }
  function Begin(g: Config, s: State, b: nat, fb: nat): State
    requires CanBegin(g, s, b)
  {
    var t := if s.buckets[b] == [] then AllocatePage(g, s, b, fb) else s;
    if b < |t.buckets| && b < |t.writers| && t.buckets[b] != [] then t.(writers := t.writers[b := Chosen(t.buckets[b][0])])
    else t
  }

  predicate MustTurnPage(g: Config, p: Page) {
    !p.active || ((p.wbuf.None? || p.wbuf.value.full) && p.reserved >= PageSize(g))
  }

  predicate MustSubmit(g: Config, p: Page, len: nat) {
    p.wbuf.Some? && Room(g, p.wbuf.value) < len && !p.wbuf.value.full
  }

  /** Second lock of extstore_write_request, and on success extstore_write before the unlock. */
  predicate CanWrite(g: Config, s: State, b: nat, data: Bytes) {
    && b < |s.writers| && s.writers[b].Chosen? && s.writers[b].page < |s.pages| && IsImage(data)
    && (!MustTurnPage(g, s.pages[s.writers[b].page]) && MustSubmit(g, s.pages[s.writers[b].page], |data|) ==> s.ioFree > 0)
    && (s.pages[s.writers[b].page].wbuf.Some? ==> s.pages[s.writers[b].page].blocks != [])
  }
  function Write(g: Config, s: State, b: nat, data: Bytes): State
    requires CanWrite(g, s, b, data)
  {
    var i := s.writers[b].page;
    if MustTurnPage(g, s.pages[i]) then s.(writers := s.writers[b := NeedPage])
    else
      var t := if MustSubmit(g, s.pages[i], |data|) then Submit(s, i) else s;
      var u := if t.pages[i].wbuf.None? && t.pages[i].reserved < PageSize(g) then AllocateWbuf(g, t, i) else t;
      var w := u.pages[i].wbuf;
      var v := if w.Some? && !w.value.full && Room(g, w.value) >= |data| then Append(u, i, data) else u;
      v.(writers := s.writers[b := Idle])
  }

  /** The page was full: ask for a new one under the engine lock and report failure. */
  predicate CanTurn(g: Config, s: State, b: nat) {
    b < |s.writers| && s.writers[b].NeedPage? && HeadFull(g, s, b)
  }
  function Turn(g: Config, s: State, b: nat, fb: nat): State
    requires CanTurn(g, s, b)
  {
    AllocatePage(g, s, b, fb).(writers := s.writers[b := Idle])
  }

  // ----- the IO threads ---------------------------------------------------------------------

  /** pwrite of the buffer, its unused end zeroed at submission. */
  predicate CanLand(g: Config, s: State, k: nat) {
    && k < |s.ios| && !s.ios[k].landed
    && s.ios[k].page < |s.pages| == |s.disk| && s.pages[s.ios[k].page].wbuf.Some?
    && |s.pages[s.ios[k].page].wbuf.value.content| <= g.size
    && s.ios[k].offset + g.size <= |s.disk[s.ios[k].page]|
  }
  function Land(g: Config, s: State, k: nat): State
    requires CanLand(g, s, k)
  {
    var io := s.ios[k];
    var c := s.pages[io.page].wbuf.value.content;
    s.(ios := s.ios[k := io.(landed := true)],
       disk := s.disk[io.page := Splice(s.disk[io.page], io.offset, c + Zeros(g.size - |c|))])
  }

  /** The assertions of _wbuf_cb. */
  predicate FlushAsserts(s: State, io: Io) {
    && io.page < |s.pages| && s.pages[io.page].wbuf.Some?
    && s.pages[io.page].wbuf.value.id == io.wbuf && s.pages[io.page].written == s.pages[io.page].wbuf.value.offset
  }

  /** _wbuf_cb: the buffer and the io go back on their stacks. */
  predicate CanFlushed(s: State, k: nat) {
    k < |s.ios| && s.ios[k].landed && FlushAsserts(s, s.ios[k])
  }
  function Flushed(g: Config, s: State, k: nat): State
    requires CanFlushed(s, k)
  {
    var io := s.ios[k];
    var p := s.pages[io.page];
    s.(pages := s.pages[io.page := p.(written := p.written + g.size, wbuf := None,
                                      active := p.active && p.written + g.size != PageSize(g))],
       wbufStack := [io.wbuf] + s.wbufStack, ioFree := s.ioFree + 1, ios := s.ios[..k] + s.ios[k + 1..])
  }

  datatype Outcome = Miss | FromBuffer(bytes: Bytes) | FromDisk

  /** The check of a read under the page lock. */
  function CheckRead(s: State, r: Read): Outcome {
    if r.page >= |s.pages| then Miss
    else
      var p := s.pages[r.page];
      if p.free || p.closed || p.version != r.version then Miss
      else if p.active && r.offset >= p.written then
        if p.wbuf.Some? && p.wbuf.value.offset <= r.offset && r.offset - p.wbuf.value.offset + r.len <= |p.wbuf.value.content|
        then var at := r.offset - p.wbuf.value.offset;
             FromBuffer(p.wbuf.value.content[at..at + r.len])
        else FromBuffer([])   // past the bytes written: the program reads whatever the buffer holds
      else FromDisk
  }
  function StartRead(s: State, r: Read): State {
    if CheckRead(s, r).FromDisk? && r.page < |s.pages| then
      s.(pinned := s.pinned + [r], pages := s.pages[r.page := s.pages[r.page].(refcount := s.pages[r.page].refcount + 1)])
    else s
  }

  /** The bytes a pread of a pending read delivers now. */
  function DiskBytes(s: State, r: Read): Bytes {
    if r.page < |s.disk| && r.offset + r.len <= |s.disk[r.page]| then s.disk[r.page][r.offset..r.offset + r.len] else []
  }

  predicate CanEndRead(s: State, k: nat) {
    k < |s.pinned| && s.pinned[k].page < |s.pages| && s.pages[s.pinned[k].page].refcount > 0
  }
  function EndRead(s: State, k: nat): State
    requires CanEndRead(s, k)
  {
    var i := s.pinned[k].page;
    s.(pinned := s.pinned[..k] + s.pinned[k + 1..], pages := s.pages[i := s.pages[i].(refcount := s.pages[i].refcount - 1)])
  }

  // ----- delete, close, maintenance ---------------------------------------------------------

  function Minus(a: nat, b: nat): nat {
    if a >= b then a - b else 0
  }

  predicate Deletes(s: State, i: nat, version: nat) {
    i < |s.pages| && !s.pages[i].closed && s.pages[i].version == version
  }

  /** extstore_delete: the page's numbers stop at 0, the engine's do not. */
  function DeleteObjects(s: State, i: nat, version: nat, count: nat, bytes: nat): State {
    if Deletes(s, i, version) then
      s.(pages := s.pages[i := s.pages[i].(bytesUsed := Minus(s.pages[i].bytesUsed, bytes),
                                           objCount := Minus(s.pages[i].objCount, count))],
         bytesUsed := s.bytesUsed - bytes, objectsUsed := s.objectsUsed - count)
    else s
  }

  function ClosePage(s: State, i: nat, version: nat): State {
    if i < |s.pages| && !s.pages[i].closed && s.pages[i].version == version
    then s.(pages := s.pages[i := s.pages[i].(closed := true)])
    else s
  }

  function Wake(s: State): State {
    s.(maint := Scanning(0, s.pageFree == 0 || s.freelist == [], None, {}))
  }

  predicate Freeable(s: State, i: nat) {
    i < |s.pages| && s.pages[i].bucket < |s.buckets| && s.pages[i].freeBucket < |s.freeBuckets|
  }

  /** The maintenance thread visits one page of its scan. */
  predicate CanScan(s: State) {
    s.maint.Scanning? && s.maint.pos < |s.pages| && Freeable(s, s.maint.pos)
  }
  function Scan(s: State): State
    requires CanScan(s)
  {
    var Scanning(i, evict, victim, seen) := s.maint;
    var p := s.pages[i];
    if p.active || p.free then s.(maint := Scanning(i + 1, evict, victim, seen))
    else
      var candidate := p.objCount > 0 && !p.closed && p.freeBucket == 0;
      var lower := match victim case None => true case Some(v) => v < |s.pages| && p.version < s.pages[v].version;
      var victim' := if candidate && lower then Some(i) else victim;
      var seen' := if candidate then seen + {p.version} else seen;
      if (p.objCount == 0 || p.closed) && p.refcount == 0 then
        FreePage(s, i).(maint := Scanning(i + 1, false, victim', seen'))
      else s.(maint := Scanning(i + 1, evict, victim', seen'))
  }

  /** End of the scan: evict the chosen page if no page was found to free. */
  predicate CanEndScan(s: State) {
    && s.maint.Scanning? && s.maint.pos >= |s.pages|
    && (s.maint.evict && s.maint.victim.Some? ==> Freeable(s, s.maint.victim.value))
  }
  function EndScan(s: State): State
    requires CanEndScan(s)
  {
    var t := s.(maint := Asleep);
    if s.maint.evict && s.maint.victim.Some? && !s.pages[s.maint.victim.value].closed then
      var i := s.maint.victim.value;
      var u := t.(pages := t.pages[i := t.pages[i].(closed := true)]);
      if u.pages[i].refcount == 0 then FreePage(u, i) else u
    else t
  }

  // ----- runs -------------------------------------------------------------------------------

  datatype Action =
    | ABegin(b: nat, fb: nat)
    | AWrite(b: nat, data: Bytes)
    | ATurn(b: nat, fb: nat)
    | ALand(k: nat)
    | AFlushed(k: nat)
    | AStartRead(r: Read)
    | AEndRead(k: nat)
    | ADelete(page: nat, version: nat, count: nat, bytes: nat)
    | AClose(page: nat, version: nat)
    | AWake
    | AScan
    | AEndScan

  predicate Enabled(g: Config, s: State, a: Action) {
    match a
    case ABegin(b, fb) => CanBegin(g, s, b)
    case AWrite(b, data) => CanWrite(g, s, b, data)
    case ATurn(b, fb) => CanTurn(g, s, b)
    case ALand(k) => CanLand(g, s, k)
    case AFlushed(k) => CanFlushed(s, k)
    case AStartRead(r) => r.len > 0
    case AEndRead(k) => CanEndRead(s, k)
    case ADelete(_, version, _, _) => version > 0
    case AClose(_, version) => version > 0
    case AWake => s.maint.Asleep?
    case AScan => CanScan(s)
    case AEndScan => CanEndScan(s)
  }

  function Apply(g: Config, s: State, a: Action): State
    requires Enabled(g, s, a)
  {
    match a
    case ABegin(b, fb) => Begin(g, s, b, fb)
    case AWrite(b, data) => Write(g, s, b, data)
    case ATurn(b, fb) => Turn(g, s, b, fb)
    case ALand(k) => Land(g, s, k)
    case AFlushed(k) => Flushed(g, s, k)
    case AStartRead(r) => StartRead(s, r)
    case AEndRead(k) => EndRead(s, k)
    case ADelete(p, version, count, bytes) => DeleteObjects(s, p, version, count, bytes)
    case AClose(p, version) => ClosePage(s, p, version)
    case AWake => Wake(s)
    case AScan => Scan(s)
    case AEndScan => EndScan(s)
  }

  function Run(g: Config, s: State, actions: seq<Action>): State
    decreases |actions|
  {
    if actions == [] then s
    else Run(g, if Enabled(g, s, actions[0]) then Apply(g, s, actions[0]) else s, actions[1..])
  }
}
