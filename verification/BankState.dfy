/** The state of one bank of the flash translation layer, the chunk map, and the invariant
    that every allocation, flush and garbage-collection step keeps. */
module BankState {
  import opened Heap

  const CHUNKS_PER_PAGE: nat := 8
  const CHUNKS_PER_RECYCLED_PAGE: nat := 4
  const PAGES_PER_BLK: nat := 128
  const SECTORS_PER_CHUNK: nat := 8
  const SECTORS_PER_PAGE: nat := 64
  const USED_PAGES: nat := 127       // the last page of a block holds its list of lpns
  const FIRST_LIST_PAGE: nat := 125  // where the first usage of a hot block leaves its list
  const FIRST_USAGE_CHUNKS: nat := 1008
  const SECOND_USAGE_CHUNKS: nat := 1016
  const HIGH_CHUNKS: nat := 504      // what a used-once block has left for its second usage: high pages 2 to 126
  const MIN_HOT_FIRST: nat := 5      // bounds of the reuse threshold
  const MAX_HOT_FIRST: nat := 112
  const MIN_BLKS: nat := 116         // blocks a bank needs so that the collector always has a candidate

  datatype Option<T> = None | Some(value: T)

  /** The contents of a 4 KB chunk; AllOnes is what a never-written chunk reads as. */
  datatype Chunk = AllOnes | Data(bytes: seq<nat>)

  /** A chunk of the logical page lpn. */
  datatype Key = Key(lpn: nat, idx: nat)

  /** A decoded entry of the chunk map. */
  datatype Loc =
    | Invalid
    | Flash(bank: nat, lbn: nat, page: nat, chunk: nat, encoded: bool)
    | Buf(bank: nat, hot: bool, slot: nat)

  type Table = map<Key, Loc>

  /** A word of a block's list of lpns; encoded is its bit 31. */
  datatype Entry = NoLpn | Lpn(lpn: nat, encoded: bool)
  type LpnList = seq<seq<Entry>>

  datatype Page = Erased | Programmed(chunks: seq<Chunk>) | ListPage(list: LpnList)

  datatype Usage = ColdLog | HotFirst | HotSecond

  /** LogCtrlBlock: the open block, its list of lpns and its write buffer. recycled is true
      exactly while updateChunkPtrRecycledPage is installed. */
  datatype Ctrl = Ctrl(lbn: nat, page: nat, lpns: LpnList, buf: seq<Chunk>, ptr: nat, keys: seq<Option<Key>>,
                       usage: Usage, recycled: bool, next: Option<nat>, allValid: bool)

  datatype GcState = GcIdle | GcRead | GcWrite

  /** The collector's registers. found[i] is Some(k) while validChunks[i] is set and dataLpns[i] and
      dataChunkOffsets[i] name chunk k; inPage, inBlk and fromHeap are the three nValidChunks counts. */
  datatype Gc = Gc(state: GcState, victim: nat, page: nat, list: LpnList, found: seq<Option<Key>>,
                   inPage: nat, inBlk: nat, fromHeap: nat, recycled: bool, buf: seq<Chunk>)

  datatype Adaptive = Adaptive(window: seq<nat>, hotFirst: nat, ups: nat, downs: nat)

  datatype Bank = Bank(hot: Ctrl, cold: Ctrl, first: HeapState, second: HeapState, coldHeap: HeapState,
                       clean: seq<nat>, gc: Gc, flash: seq<seq<Page>>, adapt: Adaptive)

  // ---------- Reading the state ----------

  function Look(t: Table, k: Key): Loc {
    if k in t then t[k] else Invalid
  }

  /** chooseNewBank: the bank for the chunkNumber-th chunk of the device, of nb banks. */
  function ChooseNewBank(chunkNumber: nat, nb: nat): nat
    requires nb > 0
  {
    chunkNumber % nb
  }

  predicate OfBank(l: Loc, b: nat) {
    l != Invalid && l.bank == b
  }

  predicate InBlock(l: Loc, b: nat, lbn: nat) {
    l.Flash? && l.bank == b && l.lbn == lbn
  }

  function EntryAt(list: LpnList, page: nat, i: nat): Entry {
    if page < |list| && i < |list[page]| then list[page][i] else NoLpn
  }

  function PageAt(flash: seq<seq<Page>>, lbn: nat, page: nat): Page {
    if lbn < |flash| && page < |flash[lbn]| then flash[lbn][page] else Erased
  }

  function ChunkAt(cs: seq<Chunk>, i: nat): Chunk {
    if i < |cs| then cs[i] else AllOnes
  }

  function ChunkOf(p: Page, i: nat): Chunk {
    if p.Programmed? then ChunkAt(p.chunks, i) else AllOnes
  }

  function Stored(p: Page): LpnList {
    if p.ListPage? then p.list else []
  }

  function Log(s: Bank, hot: bool): Ctrl {
    if hot then s.hot else s.cold
  }

  function Fetch(s: Bank, l: Loc): Chunk {
    match l
    case Invalid => AllOnes
    case Flash(_, lbn, page, chunk, _) => ChunkOf(PageAt(s.flash, lbn, page), chunk)
    case Buf(_, hot, slot) => ChunkAt(Log(s, hot).buf, slot)
  }

  // ---------- Block ownership ----------

  datatype Role = OpenHot | OpenCold | FirstHeap | SecondHeap | ColdHeap | Clean

  function RoleOf(s: Bank, lbn: nat): Role {
    if lbn == s.hot.lbn then OpenHot
    else if lbn == s.cold.lbn then OpenCold
    else if In(s.first, lbn) then FirstHeap
    else if In(s.second, lbn) then SecondHeap
    else if In(s.coldHeap, lbn) then ColdHeap
    else Clean
  }

  /** lbn plays the role RoleOf gives it and no other. */
  ghost predicate OneRole(s: Bank, lbn: nat) {
    var r := RoleOf(s, lbn);
    && (lbn == s.cold.lbn ==> r == OpenCold)
    && (In(s.first, lbn) ==> r == FirstHeap)
    && (In(s.second, lbn) ==> r == SecondHeap)
    && (In(s.coldHeap, lbn) ==> r == ColdHeap)
    && (lbn in s.clean <==> r == Clean)
  }

  ghost predicate Partition(blks: nat, s: Bank) {
    && (forall lbn: nat {:trigger OneRole(s, lbn)} :: lbn < blks ==> OneRole(s, lbn))
    && (forall i: nat {:trigger s.clean[i]} :: i < |s.clean| ==> s.clean[i] < blks)
    && (forall i: nat, j: nat {:trigger s.clean[i], s.clean[j]} :: i < j < |s.clean| ==> s.clean[i] != s.clean[j])
  }

  // ---------- Shape ----------

  ghost predicate ListShape(list: LpnList) {
    |list| == PAGES_PER_BLK && forall p: nat {:trigger list[p]} :: p < |list| ==> |list[p]| == CHUNKS_PER_PAGE
  }

  ghost predicate CtrlShape(c: Ctrl) {
    && ListShape(c.lpns) && |c.buf| == CHUNKS_PER_PAGE && |c.keys| == CHUNKS_PER_PAGE
    && c.ptr <= Capacity(c) && c.page <= USED_PAGES
  }

  function Capacity(c: Ctrl): nat {
    if c.recycled then CHUNKS_PER_RECYCLED_PAGE else CHUNKS_PER_PAGE
  }

  ghost predicate HeapOk(blks: nat, h: HeapState) {
    Valid(h) && Ordered(h) && |h.pos| == blks
  }

  ghost predicate FlashShape(blks: nat, flash: seq<seq<Page>>) {
    |flash| == blks && forall lbn: nat {:trigger flash[lbn]} :: lbn < blks ==> |flash[lbn]| == PAGES_PER_BLK
  }

  /** The open blocks are blocks of the bank; blks stands for "no block" while one is being replaced. */
  ghost predicate Shape(blks: nat, s: Bank) {
    && HeapOk(blks, s.first) && HeapOk(blks, s.second) && HeapOk(blks, s.coldHeap)
    && FlashShape(blks, s.flash) && CtrlShape(s.hot) && CtrlShape(s.cold)
    && s.hot.lbn <= blks && s.cold.lbn <= blks
    && s.cold.usage == ColdLog && s.hot.usage != ColdLog && !s.cold.recycled && s.cold.next == None
  }

  // ---------- Forward and inverse maps ----------

  predicate LowPage(page: nat) {
    page == 0 || page % 2 == 1
  }

  /** The list of lpns of a block: in the control block while it is open, else in its list page. */
  function ListOf(s: Bank, lbn: nat): LpnList {
    match RoleOf(s, lbn)
    case OpenHot => s.hot.lpns
    case OpenCold => s.cold.lpns
    case FirstHeap => Stored(PageAt(s.flash, lbn, FIRST_LIST_PAGE))
    case _ => Stored(PageAt(s.flash, lbn, USED_PAGES))
  }

  /** Where live chunks of a block may be, and where they may be encoded, given the block's role. */
  predicate PageOk(s: Bank, lbn: nat, page: nat, encoded: bool) {
    && page < USED_PAGES
    && match RoleOf(s, lbn)
       case OpenHot =>
         if s.hot.usage == HotFirst then LowPage(page) && page < s.hot.page && !encoded
         else if LowPage(page) then s.hot.next != Some(page) && (encoded ==> page < s.hot.page)
         else page < s.hot.page
       case OpenCold => page < s.cold.page
       case FirstHeap => LowPage(page) && page < FIRST_LIST_PAGE && !encoded
       case SecondHeap => true
       case ColdHeap => true
       case Clean => false
  }

  /** The pages that are still erased, given the block's role: they may be programmed. */
  predicate Blank(s: Bank, lbn: nat, page: nat) {
    match RoleOf(s, lbn)
    case OpenHot =>
      if s.hot.usage == HotFirst then !LowPage(page) || s.hot.page <= page
      else page == USED_PAGES || (!LowPage(page) && s.hot.page <= page)
    case OpenCold => s.cold.page <= page
    case FirstHeap => page == USED_PAGES || !LowPage(page)
    case Clean => true
    case _ => false
  }

  ghost predicate AllBlank(blks: nat, s: Bank) {
    forall lbn: nat, page: nat {:trigger Blank(s, lbn, page)} :: lbn < blks && Blank(s, lbn, page) ==>
      PageAt(s.flash, lbn, page) == Erased
  }

  /** A flash entry of chunk k agrees with the list of lpns of its block. */
  ghost predicate Placed(blks: nat, s: Bank, k: Key, l: Loc)
    requires l.Flash?
  {
    && l.lbn < blks && l.chunk < CHUNKS_PER_PAGE && (l.encoded ==> l.chunk < CHUNKS_PER_RECYCLED_PAGE)
    && PageOk(s, l.lbn, l.page, l.encoded)
    && EntryAt(ListOf(s, l.lbn), l.page, l.chunk) == Lpn(k.lpn, l.encoded)
  }

  ghost predicate ForwardFlash(blks: nat, b: nat, t: Table, s: Bank) {
    forall k: Key {:trigger Look(t, k)} :: OfBank(Look(t, k), b) && Look(t, k).Flash? ==> Placed(blks, s, k, Look(t, k))
  }

  /** A buffer entry of chunk k names a filled slot that holds k. */
  ghost predicate ForwardBuf(b: nat, t: Table, s: Bank) {
    forall k: Key {:trigger Look(t, k)} :: OfBank(Look(t, k), b) && Look(t, k).Buf? ==>
      var c := Log(s, Look(t, k).hot);
      Look(t, k).slot < c.ptr <= |c.keys| && c.keys[Look(t, k).slot] == Some(k)
  }

  /** The flash or buffer slot an entry names, whether or not its chunk is encoded. */
  function Place(l: Loc): Loc {
    if l.Flash? then l.(encoded := false) else l
  }

  /** No two chunks of the bank are mapped to the same slot. */
  ghost predicate Injective(b: nat, t: Table) {
    && (forall k: Key {:trigger Look(t, k)} :: OfBank(Look(t, k), b) ==> k.idx < CHUNKS_PER_PAGE)
    && (forall j: Key, k: Key {:trigger Look(t, j), Look(t, k)} ::
         OfBank(Look(t, j), b) && Place(Look(t, j)) == Place(Look(t, k)) ==> j == k)
  }

  /** Every filled buffer slot that still holds a chunk is where the map says that chunk is. */
  ghost predicate Filled(b: nat, t: Table, s: Bank, hot: bool) {
    var c := Log(s, hot);
    forall i: nat {:trigger c.keys[i]} :: i < c.ptr && i < |c.keys| ==>
      && (c.keys[i].Some? ==> Look(t, c.keys[i].value) == Buf(b, hot, i))
      && (c.allValid ==> c.keys[i].Some?)
  }

  predicate Flagged(e: Entry) {
    e.Lpn? && e.encoded
  }

  /** A page's list entries are all plain, or it is a recycled page: entries 0 to 3 encoded or empty, the rest empty. */
  ghost predicate Uniform(list: LpnList, page: nat) {
    || (forall i: nat {:trigger EntryAt(list, page, i)} :: i < CHUNKS_PER_PAGE ==> !Flagged(EntryAt(list, page, i)))
    || (forall i: nat {:trigger EntryAt(list, page, i)} :: i < CHUNKS_PER_PAGE ==>
          EntryAt(list, page, i) == NoLpn || (i < CHUNKS_PER_RECYCLED_PAGE && Flagged(EntryAt(list, page, i))))
  }

  ghost predicate UniformList(list: LpnList) {
    forall page: nat {:trigger Uniform(list, page)} :: Uniform(list, page)
  }

  ghost predicate AllUniform(blks: nat, s: Bank) {
    forall lbn: nat {:trigger ListOf(s, lbn)} :: lbn < blks ==>
      && UniformList(ListOf(s, lbn))
      && (RoleOf(s, lbn) == FirstHeap ==> ListShape(ListOf(s, lbn)))
  }

  // ---------- Live-chunk accounting ----------

  function Live(t: Table, b: nat, lbn: nat): set<Key> {
    set k | k in t && InBlock(t[k], b, lbn)
  }

  /** No live chunk of the block is on the page. */
  ghost predicate FreeOfLive(t: Table, b: nat, lbn: nat, page: nat) {
    forall k: Key {:trigger Look(t, k)} :: InBlock(Look(t, k), b, lbn) ==> Look(t, k).page != page
  }

  /** Pages of a first usage, out of 126, not yet programmed when the next one is page. */
  function FirstLeft(page: nat): int {
    126 - (page + 1) / 2
  }

  /** High pages 2 to 126 not yet programmed when the next page is page. */
  function SecondLeft(page: nat): int {
    if page <= 2 then 63 else (128 - page) / 2
  }

  /** Chunks the collector has already moved out of the block; its counter still includes them. */
  function Moved(gc: Gc, lbn: nat): int {
    if gc.state != GcIdle && gc.victim == lbn then gc.inBlk - gc.inPage else 0
  }

  /** What the owning counter holds beyond the live chunks. */
  function Owed(s: Bank, lbn: nat): int {
    match RoleOf(s, lbn)
    case OpenHot =>
      if s.hot.usage == HotFirst then 8 * FirstLeft(s.hot.page)
      else 8 * SecondLeft(s.hot.page) + (if s.hot.next.Some? then 8 else 0)
    case OpenCold => 8 * (USED_PAGES - s.cold.page)
    case FirstHeap => HIGH_CHUNKS
    case _ => Moved(s.gc, lbn)
  }

  /** The counter of the heap kind that owns the block. */
  function OwnerVal(s: Bank, lbn: nat): nat {
    match RoleOf(s, lbn)
    case OpenHot => if s.hot.usage == HotFirst then Val(s.first, lbn) else Val(s.second, lbn)
    case FirstHeap => Val(s.first, lbn)
    case SecondHeap => Val(s.second, lbn)
    case _ => Val(s.coldHeap, lbn)
  }

  ghost predicate Account(b: nat, t: Table, s: Bank, lbn: nat) {
    if RoleOf(s, lbn) == Clean then
      && Val(s.first, lbn) == FIRST_USAGE_CHUNKS
      && Val(s.second, lbn) == SECOND_USAGE_CHUNKS
      && Val(s.coldHeap, lbn) == SECOND_USAGE_CHUNKS
    else
      OwnerVal(s, lbn) == |Live(t, b, lbn)| + Owed(s, lbn)
  }

  ghost predicate Accounts(blks: nat, b: nat, t: Table, s: Bank) {
    forall lbn: nat {:trigger Account(b, t, s, lbn)} :: lbn < blks ==> Account(b, t, s, lbn)
  }

  // ---------- Page discipline of the hot log ----------

  /** First usage stands on a low page up to 123. Second usage stands on page 0, on an odd page that was
      accepted for reuse, or on an even page whose successor may have been accepted. */
  ghost predicate Discipline(c: Ctrl) {
    match c.usage
    case ColdLog => true
    case HotFirst => !c.recycled && c.next == None && LowPage(c.page) && c.page <= 123
    case HotSecond =>
      if c.recycled then LowPage(c.page) && c.next == Some(c.page) && c.page <= FIRST_LIST_PAGE
      else c.page % 2 == 0 && 2 <= c.page <= 126 && (c.next.Some? ==> c.next.value == c.page + 1 <= FIRST_LIST_PAGE)
  }

  // ---------- Garbage collection in progress ----------

  /** Chunk slots left in the open cold block, its buffer included. */
  function Room(s: Bank): int {
    8 * (USED_PAGES - s.cold.page) - s.cold.ptr
  }

  /** What is left in the victim fits the open cold block without filling it. */
  predicate Snug(b: nat, t: Table, s: Bank) {
    |Live(t, b, s.gc.victim)| < Room(s)
  }

  /** Room in the open cold block beyond what is left in the victim. */
  function Slack(b: nat, t: Table, s: Bank): int {
    Room(s) - |Live(t, b, s.gc.victim)|
  }

  function VictimPos(s: Bank): nat {
    if In(s.second, s.gc.victim) then Pos(s.second, s.gc.victim) else Pos(s.coldHeap, s.gc.victim)
  }

  /** The chunks found in the page being moved are exactly its live chunks. */
  ghost predicate Scanned(b: nat, t: Table, s: Bank) {
    var gc := s.gc;
    && gc.page < USED_PAGES && |gc.found| == CHUNKS_PER_PAGE && gc.inPage == CountSome(gc.found)
    && (forall i: nat {:trigger gc.found[i]} :: i < CHUNKS_PER_PAGE && gc.found[i].Some? ==>
         Look(t, gc.found[i].value) == Flash(b, gc.victim, gc.page, i, gc.recycled))
    && (forall k: Key {:trigger Look(t, k)} :: InBlock(Look(t, k), b, gc.victim) && Look(t, k).page == gc.page ==>
         Look(t, k).chunk < CHUNKS_PER_PAGE && gc.found[Look(t, k).chunk] == Some(k))
    && (forall i: nat {:trigger ChunkAt(gc.buf, i)} :: i < CHUNKS_PER_PAGE ==>
         ChunkAt(gc.buf, i) == ChunkOf(PageAt(s.flash, gc.victim, gc.page), i))
  }

  function CountSome<T>(v: seq<Option<T>>): nat {
    if |v| == 0 then 0 else CountSome(v[..|v| - 1]) + (if v[|v| - 1].Some? then 1 else 0)
  }

  ghost predicate Collecting(blks: nat, b: nat, t: Table, s: Bank) {
    var gc := s.gc;
    if gc.state == GcIdle then gc.inPage == 0
    else
      && gc.victim < blks && RoleOf(s, gc.victim) in {SecondHeap, ColdHeap}
      && gc.list == ListOf(s, gc.victim)
      && gc.page <= USED_PAGES && gc.inPage <= gc.inBlk && gc.fromHeap <= SECOND_USAGE_CHUNKS
      && gc.fromHeap == |Live(t, b, gc.victim)| + gc.inBlk - gc.inPage
      && (forall k: Key {:trigger Look(t, k)} :: InBlock(Look(t, k), b, gc.victim) ==> gc.page <= Look(t, k).page)
      && (gc.state == GcRead ==> gc.inPage == 0)
      && (gc.state == GcWrite ==> Scanned(b, t, s))
      && VictimPos(s) <= 3 && |s.clean| <= 1
      && (Snug(b, t, s) || (VictimPos(s) == 1 && |s.clean| >= 1))
  }

  ghost predicate AdaptiveOk(s: Bank) {
    && |s.adapt.window| == 5 && MIN_HOT_FIRST <= s.adapt.hotFirst <= MAX_HOT_FIRST && s.adapt.ups < 7 &&
         s.adapt.downs < 7
  }

  /** The list entries of a low page accepted for reuse are cleared. */
  ghost predicate Cleared(c: Ctrl) {
    c.usage == HotSecond && c.next.Some? ==>
      forall i: nat {:trigger EntryAt(c.lpns, c.next.value, i)} :: EntryAt(c.lpns, c.next.value, i) == NoLpn
  }

  // ---------- The invariant ----------

  /** All but the part about a collection in progress. */
  ghost predicate Core(blks: nat, b: nat, t: Table, s: Bank) {
    && Shape(blks, s) && Partition(blks, s)
    && ForwardFlash(blks, b, t, s) && ForwardBuf(b, t, s) && Injective(b, t)
    && Filled(b, t, s, true) && Filled(b, t, s, false)
    && AllUniform(blks, s) && Cleared(s.hot) && AllBlank(blks, s)
    && Accounts(blks, b, t, s)
  }

  ghost predicate Inv(blks: nat, b: nat, t: Table, s: Bank) {
    Core(blks, b, t, s) && Collecting(blks, b, t, s) && AdaptiveOk(s)
  }
}
