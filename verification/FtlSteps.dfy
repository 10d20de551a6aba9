/** What the methods of the flash translation layer need of the bank invariant, one lemma a fact. */
module FtlSteps {
  import opened Heap
  import opened BankState
  import opened BankSteps
  import opened BankPages
  import opened BankLog
  import opened BankBlocks
  import opened BankGc
  import opened BankHot
  import Modular

  const BACKGROUND_GC_THRESHOLD: nat := 1

  /** The open cold block can take a chunk. */
  ghost predicate ColdReady(blks: nat, s: Bank) {
    s.cold.lbn < blks && s.cold.page < USED_PAGES && s.cold.ptr < CHUNKS_PER_PAGE
  }

  /** The open hot block can take a chunk at a page the discipline of its usage allows. */
  ghost predicate HotReady(blks: nat, s: Bank) {
    s.hot.lbn < blks && Ready(s.hot) && s.hot.ptr < Capacity(s.hot)
  }

  /** Between host commands: both logs can take a chunk, no collection is under way, two blocks are clean. */
  ghost predicate Settled(blks: nat, s: Bank) {
    ColdReady(blks, s) && HotReady(blks, s) && s.gc.state == GcIdle && |s.clean| >= 2
  }

  /** The hot log is still in the same usage of the same block, and no other block was opened or closed. */
  predicate SameBlock(s: Bank, r: Bank) {
    r.hot.lbn == s.hot.lbn && r.hot.usage == s.hot.usage && r.first.n == s.first.n && r.clean == s.clean &&
      r.adapt == s.adapt
  }

  function Sum(v: seq<nat>): nat {
    if |v| == 0 then 0 else Sum(v[..|v| - 1]) + v[|v| - 1]
  }

  /** How the reuse threshold reacts to the least count m of the heaps the collector chooses from: it is
      compared with the mean of the last five victims, and after seven comparisons with the same outcome
      in a row the threshold moves one step, within 5 to 112. */
  ghost predicate Adapts(a: Adaptive, m: nat, r: Adaptive) {
    && r.window == a.window
    && (5 * m == Sum(a.window) ==> r == a)
    && (5 * m < Sum(a.window) ==>
         && r.downs == 0 && r.ups == (a.ups + 1) % 7
         && r.hotFirst == if r.ups > 0 || a.hotFirst == MAX_HOT_FIRST then a.hotFirst else a.hotFirst + 1)
    && (5 * m > Sum(a.window) ==>
         && r.ups == 0 && r.downs == (a.downs + 1) % 7
         && r.hotFirst == if r.downs > 0 || a.hotFirst == MIN_HOT_FIRST then a.hotFirst else a.hotFirst - 1)
  }

  /** So the threshold is this afterwards. */
  function Threshold(a: Adaptive, m: nat): nat {
    if 5 * m < Sum(a.window) && a.ups == 6 && a.hotFirst < MAX_HOT_FIRST then a.hotFirst + 1
    else if 5 * m > Sum(a.window) && a.downs == 6 && a.hotFirst > MIN_HOT_FIRST then a.hotFirst - 1
    else a.hotFirst
  }

  /** reuseCondition: a used-once block without live chunks is always worth reusing; otherwise the threshold
      adapts to a, and a block is reused when there are more used-once blocks than that. */
  ghost predicate ReuseOutcome(s: Bank, a: Adaptive) {
    if VictimCount(s.first) == HIGH_CHUNKS then a == s.adapt
    else Adapts(s.adapt, LeastCount(s), a)
  }

  predicate Reuses(s: Bank, a: Adaptive) {
    VictimCount(s.first) == HIGH_CHUNKS || s.first.n > a.hotFirst
  }

  /** The reuse condition, given the least used-once counter, the number of used-once blocks, the adaptive registers
      and the least count of the other heaps. */
  predicate Reusing(first: nat, used: nat, a: Adaptive, least: nat) {
    first == HIGH_CHUNKS || used > Threshold(a, least)
  }

  lemma ReuseIs(s: Bank, a: Adaptive)
    requires AdaptiveOk(s) && ReuseOutcome(s, a)
    ensures Reuses(s, a) <==> Reusing(VictimCount(s.first), s.first.n, s.adapt, LeastCount(s))
    ensures a.hotFirst <= MAX_HOT_FIRST
  {
    hide VictimCount, LeastCount, Sum;
  }

  /** The live chunks of the block the collector would choose. */
  function LeastCount(s: Bank): nat {
    Lower(VictimCount(s.coldHeap), VictimCount(s.second))
  }

  /** r is s after the chunk at l was overwritten: all three counters of its block went down by one, or its buffer
      slot was cleared. */
  ghost predicate Dropped(blks: nat, s: Bank, l: Loc, r: Bank) {
    match l
    case Invalid => r == s
    case Flash(_, lbn, _, _, _) =>
      HeapOk(blks, s.first) && HeapOk(blks, s.second) && HeapOk(blks, s.coldHeap) && lbn < blks &&
        r == DecAll(blks, s, lbn)
    case Buf(_, hot, slot) => slot < |Log(s, hot).keys| && r == ClearSlot(s, hot, slot)
  }

  /** The block that the collector is at, or else the one it would choose: the least of the heap with the smaller least
      count, of the second usages on a tie. */
  function NextVictim(s: Bank): nat {
    if s.gc.state != GcIdle then s.gc.victim
    else Victim(VictimHeap(s, VictimCount(s.second) <= VictimCount(s.coldHeap)))
  }

  lemma NextVictimIs(s: Bank)
    ensures s.gc.state != GcIdle ==> NextVictim(s) == s.gc.victim
    ensures s.gc.state == GcIdle ==>
      NextVictim(s) == Victim(VictimHeap(s, VictimCount(s.second) <= VictimCount(s.coldHeap)))
  {
  }

  /** How many blocks the collector may choose from. */
  function Candidates(s: Bank): nat {
    s.second.n + s.coldHeap.n
  }

  /** The collector went on to the next page of its victim, or else finished it, and perhaps others, because
      it had filled the cold block. */
  predicate PageMoved(s: Bank, r: Bank) {
    || (r.gc.state == GcRead && r.gc.page == s.gc.page + 1 && r.gc.victim == s.gc.victim
        && |r.clean| == |s.clean| && Candidates(r) == Candidates(s))
    || (r.gc.state == GcIdle && |r.clean| == 2)
  }

  /** How far the collector is from the end of its victim. */
  function Remaining(gc: Gc): int {
    match gc.state
    case GcIdle => 0
    case GcRead => 2 * (PAGES_PER_BLK - gc.page) + 1
    case GcWrite => 2 * (PAGES_PER_BLK - gc.page)
  }

  function Lower(a: nat, b: nat): nat {
    if a < b then a else b
  }

  /** The i-th bank of a search that starts at bank start and goes from column to column. */
  function Tried(nb: nat, nc: nat, start: nat, i: nat): (bank: nat)
    requires start < nb
    ensures bank < nb
  {
    if i == 0 then start else (Tried(nb, nc, start, i - 1) + nc) % nb
  }

  /** The bank in a column of a channel. */
  function BankAt(nc: nat, column: nat, channel: nat): nat {
    column * nc + channel
  }

  lemma ColumnHead(nb: nat, nc: nat, b: nat, i: nat)
    requires 0 < nc && nb % nc == 0 && b < nb && i < nc
    ensures BankAt(nc, b / nc, i) < nb && BankAt(nc, b / nc, i) % nc == i && b / nc <= nb / nc
  {
    Modular.ColumnStart(nb, nc, b, i);
  }

  /** As long as there are columns left the search goes from column to column of the channel. */
  lemma {:induction false} TriedAt(nb: nat, nc: nat, from: nat, channel: nat, i: nat)
    requires 0 < nc && nb % nc == 0 && channel < nc && BankAt(nc, from, channel) < nb && from + i < nb / nc
    ensures BankAt(nc, from + i, channel) < nb
    ensures Tried(nb, nc, BankAt(nc, from, channel), i) == BankAt(nc, from + i, channel)
  {
    Modular.DivMod(nb, nc);
    Modular.InColumns(nb / nc, nc, from + i, channel);
    if i > 0 {
      TriedAt(nb, nc, from, channel, i - 1);
      assert BankAt(nc, from + i - 1, channel) + nc == BankAt(nc, from + i, channel);
      Modular.DivModUnique(BankAt(nc, from + i, channel), nb, 0, BankAt(nc, from + i, channel));
    }
  }

  // ---------- What the methods need of the invariant ----------

  lemma InvParts(blks: nat, b: nat, t: Table, s: Bank)
    requires Inv(blks, b, t, s)
    ensures HeapOk(blks, s.first) && HeapOk(blks, s.second) && HeapOk(blks, s.coldHeap)
    ensures FlashShape(blks, s.flash) && CtrlShape(s.hot) && CtrlShape(s.cold) && AdaptiveOk(s)
    ensures s.cold.usage == ColdLog && s.hot.usage != ColdLog && !s.cold.recycled && s.cold.next == None
  {
  }

  /** The smaller count comes from a heap that is not empty. */
  lemma InitChoice(blks: nat, b: nat, t: Table, s: Bank)
    requires Inv(blks, b, t, s) && Candidates(s) > 0
    ensures VictimHeap(s, !(VictimCount(s.coldHeap) < VictimCount(s.second))).n > 0
  {
    assert At(s.second, 1).value < U16 && At(s.coldHeap, 1).value < U16;
  }

  lemma AdaptKeeps(blks: nat, b: nat, t: Table, s: Bank, r: Bank)
    requires Inv(blks, b, t, s) && r == s.(adapt := r.adapt) && AdaptiveOk(r)
    ensures Inv(blks, b, t, r) && SameData(b, t, s, t, r)
  {
    hide Core, Live, Val, In, ListOf;
    GcRegisters(blks, b, t, s, r);
    GcList(s, r);
    if s.gc.state != GcIdle {
      assert RoleOf(r, s.gc.victim) == RoleOf(s, s.gc.victim);
    }
  }

  function Elements(v: seq<nat>): (r: set<nat>)
    ensures |r| <= |v| && forall l: nat :: l in v <==> l in r
  {
    if |v| == 0 then {} else Elements(v[..|v| - 1]) + {v[|v| - 1]}
  }

  lemma {:induction false} ElementsCount(v: seq<nat>)
    requires forall i: nat, j: nat {:trigger v[i], v[j]} :: i < j < |v| ==> v[i] != v[j]
    ensures |Elements(v)| == |v|
  {
    if |v| > 0 {
      ElementsCount(v[..|v| - 1]);
    }
  }

  /** A block that is not clean has a free node waiting for it in the clean list of its bank. */
  lemma PushFits(blks: nat, s: Bank, v: nat)
    requires Partition(blks, s) && v < blks && RoleOf(s, v) != Clean
    ensures |s.clean| < blks
  {
    hide RoleOf;
    RoleKnown(blks, s, v);
    ElementsCount(s.clean);
    Subset(Elements(s.clean) + {v}, UpTo(blks));
  }

  lemma CollectedCounts(blks: nat, b: nat, t: Table, s: Bank, second: bool)
    requires Inv(blks, b, t, s) && s.gc.state == GcIdle && VictimHeap(s, second).n > 0
    ensures var v := Victim(VictimHeap(s, second));
      && v < blks && HeapOk(blks, s.first) && HeapOk(blks, s.second) && HeapOk(blks, s.coldHeap) &&
           FlashShape(blks, s.flash)
      && |s.clean| < blks && RoleOf(s, v) in {SecondHeap, ColdHeap}
      && var r := Collected(blks, s, v);
         && r.clean == s.clean + [v] && Candidates(r) == Candidates(s) - 1 && r.first.n == s.first.n
         && r.gc.state == GcIdle && r.hot == s.hot && r.cold == s.cold && r.adapt == s.adapt
  {
    hide Val, In, Pos, ResetAndRemove, Valid, Ordered, RoleOf, ForwardFlash, Accounts, AllUniform, Injective;
    VictimFacts(blks, b, t, s, second);
    CollectedRoles(blks, s, Victim(VictimHeap(s, second)));
    PushFits(blks, s, Victim(VictimHeap(s, second)));
  }

  lemma OwnerPositive(blks: nat, b: nat, t: Table, s: Bank, lbn: nat)
    requires Inv(blks, b, t, s) && lbn < blks && OwnerVal(s, lbn) > 0
    ensures In(s.first, lbn) ==> Val(s.first, lbn) > 0
    ensures In(s.second, lbn) ==> Val(s.second, lbn) > 0
    ensures In(s.coldHeap, lbn) ==> Val(s.coldHeap, lbn) > 0
  {
    hide HeapOk, Val, In, FlashShape, ListShape, AllUniform, ForwardBuf, Filled, ForwardFlash, Injective, Accounts,
      Collecting;
    RoleKnown(blks, s, lbn);
  }

  lemma ScanUniform(blks: nat, b: nat, t: Table, s: Bank)
    requires Inv(blks, b, t, s) && s.gc.state != GcIdle
    ensures Uniform(s.gc.list, s.gc.page)
  {
    hide HeapOk, Val, In, RoleOf, ForwardFlash, ForwardBuf, Injective, Accounts, Filled, Live;
    assert UniformList(ListOf(s, s.gc.victim));
  }

  /** Every live chunk of the page is at a list entry with its lpn, flagged exactly when the page is recycled. */
  lemma ScanEntries(blks: nat, b: nat, t: Table, s: Bank, recycled: bool)
    requires Inv(blks, b, t, s) && s.gc.state != GcIdle
    requires recycled <==> exists j: nat {:trigger EntryAt(s.gc.list, s.gc.page, j)} ::
      j < CHUNKS_PER_RECYCLED_PAGE && Flagged(EntryAt(s.gc.list, s.gc.page, j))
    ensures forall k: Key {:trigger Look(t, k)} ::
      InBlock(Look(t, k), b, s.gc.victim) && Look(t, k).page == s.gc.page ==>
      var l := Look(t, k);
      && l == Flash(b, s.gc.victim, s.gc.page, l.chunk, recycled) && k.idx < CHUNKS_PER_PAGE
      && l.chunk < (if recycled then CHUNKS_PER_RECYCLED_PAGE else CHUNKS_PER_PAGE)
      && EntryAt(s.gc.list, s.gc.page, l.chunk) == Lpn(k.lpn, recycled)
  {
    hide HeapOk, Val, In, RoleOf, ForwardBuf, Accounts, Filled, Live, PageOk, ListOf;
    ScanUniform(blks, b, t, s);
    forall k: Key {:trigger Look(t, k)} | InBlock(Look(t, k), b, s.gc.victim) && Look(t, k).page == s.gc.page
      ensures var l := Look(t, k);
        && l.encoded == recycled && k.idx < CHUNKS_PER_PAGE
        && l.chunk < (if recycled then CHUNKS_PER_RECYCLED_PAGE else CHUNKS_PER_PAGE)
        && EntryAt(s.gc.list, s.gc.page, l.chunk) == Lpn(k.lpn, recycled)
    {
      assert Placed(blks, s, k, Look(t, k));
      assert Flagged(EntryAt(s.gc.list, s.gc.page, Look(t, k).chunk)) <==> Look(t, k).encoded;
    }
  }

  lemma OneAtPlace(blks: nat, b: nat, t: Table, s: Bank, l: Loc)
    requires Inv(blks, b, t, s) && OfBank(l, b)
    ensures forall j: Key, k: Key {:trigger Look(t, j), Look(t, k)} :: Look(t, j) == l && Look(t, k) == l ==> j == k
  {
  }

  lemma ActivePage(blks: nat, b: nat, t: Table, s: Bank)
    requires Inv(blks, b, t, s) && s.gc.state != GcIdle
    ensures s.gc.page <= USED_PAGES && s.gc.victim < blks && |s.clean| <= 1
  {
    hide Core, Live, In, RoleOf;
  }

  lemma FinishCounts(blks: nat, b: nat, t: Table, s: Bank)
    requires Inv(blks, b, t, s) && s.gc.state == GcRead && s.gc.page == USED_PAGES
    ensures var v := s.gc.victim;
      && v < blks && HeapOk(blks, s.first) && HeapOk(blks, s.second) && HeapOk(blks, s.coldHeap) &&
           FlashShape(blks, s.flash)
      && |s.clean| < blks && RoleOf(s, v) in {SecondHeap, ColdHeap}
      && var r := Collected(blks, s, v);
         && r.clean == s.clean + [v] && Candidates(r) == Candidates(s) - 1 && r.first.n == s.first.n
         && r.gc.state == GcIdle && r.hot == s.hot && r.cold == s.cold && r.adapt == s.adapt
  {
    hide Val, In, Pos, ResetAndRemove, Valid, Ordered, RoleOf, ForwardFlash, Accounts, AllUniform, Injective, Live,
      HeapOk;
    AllMoved(blks, b, t, s);
    CollectedRoles(blks, s, s.gc.victim);
    PushFits(blks, s, s.gc.victim);
  }

  lemma OpenCountOf(blks: nat, b: nat, t: Table, s: Bank, hot: bool)
    requires Inv(blks, b, t, s) && Log(s, hot).lbn < blks && Ready(Log(s, hot))
    ensures OneRole(s, Log(s, hot).lbn) && RoleOf(s, Log(s, hot).lbn) == if hot then OpenHot else OpenCold
    ensures OwnerVal(s, Log(s, hot).lbn) >= |Live(t, b, Log(s, hot).lbn)| + 8
  {
    hide Core;
    OpenCount(blks, b, t, s, hot);
  }

  lemma BufferNamesOf(blks: nat, b: nat, t: Table, s: Bank, hot: bool)
    requires Inv(blks, b, t, s) && CtrlShape(Log(s, hot)) && Log(s, hot).ptr == Capacity(Log(s, hot))
    ensures Names(t, b, FromBuf(hot), Log(s, hot).keys[..Capacity(Log(s, hot))])
  {
    hide HeapOk, Val, In, ForwardFlash, Injective, AllUniform, Accounts, Partition, FlashShape, ListShape;
    BufferNames(b, t, s, hot);
  }

  lemma {:induction false} CountAll<T>(v: seq<Option<T>>)
    requires forall i :: 0 <= i < |v| ==> v[i].Some?
    ensures CountSome(v) == |v|
  {
    if |v| > 0 {
      CountAll(v[..|v| - 1]);
    }
  }

  /** allChunksInLogAreValid: every slot of the full buffer still holds its chunk. */
  lemma AllHeld(blks: nat, b: nat, t: Table, s: Bank, hot: bool)
    requires Inv(blks, b, t, s) && CtrlShape(Log(s, hot)) && Log(s, hot).ptr == Capacity(Log(s, hot)) &&
      Log(s, hot).allValid
    ensures var c := Log(s, hot);
      && (forall i: nat {:trigger c.keys[i]} :: i < Capacity(c) ==> c.keys[i].Some?)
      && CountSome(c.keys[..Capacity(c)]) == Capacity(c)
  {
    hide HeapOk, Val, In, ForwardFlash, ForwardBuf, Injective, AllUniform, Accounts, Partition, FlashShape,
      ListShape, CountSome;
    var c := Log(s, hot);
    assert forall i: nat {:trigger c.keys[i]} :: i < Capacity(c) ==> c.keys[i].Some?;
    CountAll(c.keys[..Capacity(c)]);
  }

  lemma CountEmpty<T>(v: seq<Option<T>>)
    ensures CountSome(v[..0]) == 0
  {
  }

  lemma FlushedBy(blks: nat, s: Bank, r: Bank, hot: bool)
    requires CtrlShape(Log(s, hot)) && Log(s, hot).lbn < blks && Log(s, hot).page < USED_PAGES &&
      FlashShape(blks, s.flash)
    requires r == s.(first := r.first, second := r.second, coldHeap := r.coldHeap) &&
      HeapsTouched(blks, s, r, Log(s, hot).lbn)
    requires var c := Log(s, hot); OwnerVal(r, c.lbn) + 8 == OwnerVal(s, c.lbn) + CountSome(c.keys[..Capacity(c)])
    ensures var c := Log(s, hot);
      Flushed(blks, s, WithLog(r.(flash := SetPage(r.flash, c.lbn, c.page, Programmed(c.buf))), hot, Emptied(c)), hot)
  {
    hide HeapOk, Val, CountSome, In, FlushRow, ListShape;
    var c := Log(s, hot);
    var v := WithLog(r.(flash := SetPage(r.flash, c.lbn, c.page, Programmed(c.buf))), hot, Emptied(c));
    FlushRoles(s, r, v, hot, c.lbn);
  }

  lemma ColdRollCode(blks: nat, s: Bank)
    requires HeapOk(blks, s.first) && HeapOk(blks, s.second) && HeapOk(blks, s.coldHeap) && FlashShape(blks, s.flash)
    requires s.cold.lbn < blks && OneRole(s, s.cold.lbn) && RoleOf(s, s.cold.lbn) in {OpenHot, OpenCold} &&
      |s.clean| > 0
    requires s.cold.usage == ColdLog && !s.cold.recycled
    ensures Valid(s.coldHeap) && |s.coldHeap.pos| == blks && !In(s.coldHeap, s.cold.lbn)
    ensures ColdRolled(blks, s) ==
      s.(flash := SetPage(s.flash, s.cold.lbn, PAGES_PER_BLK - 1, ListPage(s.cold.lpns)),
         coldHeap := Insert(s.coldHeap, s.cold.lbn), clean := s.clean[1..],
         cold := s.cold.(lpns := EmptyList(), lbn := s.clean[0], page := 0))
  {
    hide Ordered, Insert;
  }

  /** A victim is a block of the second-usage or the cold heap. */
  lemma ActiveCount(blks: nat, b: nat, t: Table, s: Bank)
    requires Inv(blks, b, t, s) && s.gc.state != GcIdle
    ensures Candidates(s) >= 1
  {
    hide Core, Live;
  }

  /** The flush programs an erased page, or goes over a low page taken up for reuse. */
  lemma FlushErased(blks: nat, b: nat, t: Table, s: Bank, hot: bool)
    requires Inv(blks, b, t, s) && Log(s, hot).lbn < blks && Ready(Log(s, hot))
    ensures !Log(s, hot).recycled ==> PageAt(s.flash, Log(s, hot).lbn, Log(s, hot).page) == Erased
    ensures Log(s, hot).recycled ==> LowPage(Log(s, hot).page)
    ensures FreeOfLive(t, b, Log(s, hot).lbn, Log(s, hot).page)
  {
    hide Core;
    ReadyPageErased(blks, b, t, s, hot);
  }

  /** The list of a full block goes to an erased page. */
  lemma ListErased(blks: nat, b: nat, t: Table, s: Bank, hot: bool)
    requires Inv(blks, b, t, s) && Log(s, hot).lbn < blks && Log(s, hot).page <= ListPageOf(Log(s, hot).usage)
    ensures PageAt(s.flash, Log(s, hot).lbn, ListPageOf(Log(s, hot).usage)) == Erased
  {
    hide Core;
    ListPageErased(blks, b, t, s, hot);
  }

  // ---------- Moving chunks ----------

  lemma FlushedFacts(blks: nat, s: Bank, r: Bank, hot: bool)
    requires Flushed(blks, s, r, hot)
    ensures r.gc == s.gc && r.clean == s.clean && r.adapt == s.adapt && Log(r, !hot) == Log(s, !hot)
    ensures Log(r, hot).ptr == 0 && Candidates(r) == Candidates(s) && r.second.n == s.second.n &&
      r.coldHeap.n == s.coldHeap.n
    ensures var c, d := Log(s, hot), Log(r, hot); d == c.(lpns := d.lpns, ptr := 0, allValid := true)
    ensures var c := Log(s, hot);
      && c.lbn < blks && c.page < USED_PAGES && FlashShape(blks, s.flash)
      && r.flash == SetPage(s.flash, c.lbn, c.page, Programmed(c.buf)) && r.first.n == s.first.n
  {
    hide HeapOk, Val;
  }

  lemma FlushedData(blks: nat, b: nat, t: Table, s: Bank, r: Bank, hot: bool)
    requires Inv(blks, b, t, s) && Flushed(blks, s, r, hot)
    requires Log(s, hot).ptr == Capacity(Log(s, hot)) && Ready(Log(s, hot))
    ensures SameData(b, t, s, FlushTable(b, t, Log(s, hot), hot), r)
  {
    hide Core, SameData;
    FlushKeepsData(blks, b, t, s, r, hot);
  }

  /** Placing k in a buffer leaves every other chunk where it is. */
  lemma PutOthers(blks: nat, b: nat, t: Table, s: Bank, hot: bool, k: Key, d: Chunk)
    requires Inv(blks, b, t - {k}, s) && Log(s, hot).ptr < CHUNKS_PER_PAGE
    ensures CtrlShape(Log(s, hot))
    ensures var u, r := t[k := Buf(b, hot, Log(s, hot).ptr)], PutSlot(s, hot, k, d);
      && Fetch(r, Look(u, k)) == d
      && forall j: Key {:trigger Look(u, j)} {:trigger Look(t, j)} :: j != k ==>
           Look(u, j) == Look(t, j) && (OfBank(Look(t, j), b) ==> Fetch(r, Look(u, j)) == Fetch(s, Look(t, j)))
  {
    hide HeapOk, Val, In, RoleOf, ForwardFlash, Accounts, AllUniform, Injective, Filled, FlashShape, ListShape, Live,
      Collecting;
    var u, r := t[k := Buf(b, hot, Log(s, hot).ptr)], PutSlot(s, hot, k, d);
    forall j: Key {:trigger Look(u, j)} | j != k
      ensures Look(u, j) == Look(t, j) && (OfBank(Look(t, j), b) ==> Fetch(r, Look(u, j)) == Fetch(s, Look(t, j)))
    {
      assert Look(t - {k}, j) == Look(t, j);
    }
  }

  lemma PutData(blks: nat, b: nat, t: Table, s: Bank, hot: bool, k: Key, d: Chunk)
    requires Inv(blks, b, t - {k}, s) && Log(s, hot).ptr < CHUNKS_PER_PAGE
    requires OfBank(Look(t, k), b) && Fetch(s, Look(t, k)) == d
    ensures CtrlShape(Log(s, hot))
    ensures SameData(b, t, s, t[k := Buf(b, hot, Log(s, hot).ptr)], PutSlot(s, hot, k, d))
  {
    hide Inv, Fetch, CtrlShape;
    InvParts(blks, b, t - {k}, s);
    PutOthers(blks, b, t, s, hot, k, d);
  }

  lemma WholePage(blks: nat, b: nat, t: Table, s: Bank)
    requires Inv(blks, b, t, s) && s.gc.state == GcWrite && s.gc.inPage == CHUNKS_PER_PAGE
    ensures Names(t, b, FromPage(s.gc.victim, s.gc.page), s.gc.found) && |s.gc.found| == CHUNKS_PER_PAGE <= s.gc.inBlk
    ensures forall i: nat {:trigger s.gc.found[i]} :: i < CHUNKS_PER_PAGE ==>
      s.gc.found[i].Some? && Look(t, s.gc.found[i].value) == Flash(b, s.gc.victim, s.gc.page, i, s.gc.recycled)
  {
    hide Core, CountSome, Live, In, ListOf, Val;
    CountBound(s.gc.found);
  }

  /** Each of the eight chunks of the page goes to its slot of the page the cold log stands on. */
  lemma WholeDest(blks: nat, b: nat, t: Table, s: Bank)
    requires Inv(blks, b, t, s) && s.gc.state == GcWrite && s.gc.inPage == CHUNKS_PER_PAGE
    ensures |s.gc.found| == CHUNKS_PER_PAGE
    ensures forall i: nat {:trigger s.gc.found[i]} :: i < CHUNKS_PER_PAGE ==>
      s.gc.found[i].Some? &&
        Look(WholeTable(b, t, s), s.gc.found[i].value) == Flash(b, s.cold.lbn, s.cold.page, i, false)
  {
    WholePage(blks, b, t, s);
    hide Inv;
  }

  lemma WholeTableIs(b: nat, t: Table, s: Bank)
    ensures WholeTable(b, t, s) ==
      Relocated(t, b, FromPage(s.gc.victim, s.gc.page), CHUNKS_PER_PAGE, s.cold.lbn, s.cold.page, false)
  {
  }

  lemma {:induction false} CountNone<T>(v: seq<Option<T>>)
    requires forall i :: 0 <= i < |v| ==> v[i] == None
    ensures CountSome(v) == 0
  {
    if |v| > 0 {
      CountNone(v[..|v| - 1]);
    }
  }

  /** While chunks of the page are left, the collector is writing and they are at slots not yet passed. */
  lemma PageLeft(blks: nat, b: nat, t: Table, s: Bank, i: nat)
    requires Inv(blks, b, t, s) && s.gc.inPage > 0 && i <= CHUNKS_PER_PAGE
    requires s.gc.state != GcIdle ==> forall j: nat {:trigger s.gc.found[j]} ::
      j < i && j < |s.gc.found| ==> s.gc.found[j] == None
    ensures s.gc.state == GcWrite && |s.gc.found| == CHUNKS_PER_PAGE && i < CHUNKS_PER_PAGE
  {
    hide Core, Live, In, ListOf, Val, CountSome;
    if s.gc.state == GcWrite && i == CHUNKS_PER_PAGE {
      CountNone(s.gc.found);
    }
  }

  /** What the collector knows of the chunk at slot i of the page it is moving. */
  lemma VictimChunk(blks: nat, b: nat, t: Table, s: Bank, i: nat)
    requires Inv(blks, b, t, s) && s.gc.state == GcWrite && i < CHUNKS_PER_PAGE && |s.gc.found| == CHUNKS_PER_PAGE &&
      s.gc.found[i].Some?
    ensures var k := s.gc.found[i].value;
      && Look(t, k) == Flash(b, s.gc.victim, s.gc.page, i, s.gc.recycled) && k.idx < CHUNKS_PER_PAGE
      && Fetch(s, Look(t, k)) == ChunkAt(s.gc.buf, i) && s.gc.inPage <= s.gc.inBlk
      && (|Live(t, b, s.gc.victim)| < Room(s) || (VictimPos(s) == 1 && |s.clean| >= 1))
  {
    hide HeapOk, Live, In, ListOf, Val, CountSome, ForwardFlash, ForwardBuf, Filled, Accounts, AllUniform, Partition,
      Shape;
  }

  lemma TakenData(b: nat, t: Table, s: Bank, i: nat)
    requires i < |s.gc.found| && s.gc.inPage > 0
    ensures VictimPos(Taken(s, i)) == VictimPos(s)
    ensures forall l: Loc {:trigger Fetch(Taken(s, i), l)} :: Fetch(Taken(s, i), l) == Fetch(s, l)
  {
  }

  // ---------- The hot log ----------

  lemma UnfoldHeap(blks: nat, h: HeapState)
    requires HeapOk(blks, h)
    ensures Valid(h) && |h.pos| == blks
  {
  }

  lemma AcceptedData(blks: nat, b: nat, t: Table, s: Bank, page: nat)
    requires HeapOk(blks, s.second) && s.hot.lbn < blks && page < |s.hot.lpns|
    ensures SameData(b, t, s, t, Accepted(blks, s, page)) && SameData(b, t, s, t, s)
    ensures var r := Accepted(blks, s, page); r == s.(second := r.second, hot := s.hot.(lpns := r.hot.lpns))
  {
    SameStoreData(b, t, s, Accepted(blks, s, page));
    SameStoreData(b, t, s, s);
  }

  lemma HotMoved(b: nat, u: Table, t: Table, s: Bank, r: Bank, q: Bank)
    requires SameData(b, t, s, u, r) && q.flash == r.flash && q.hot.buf == r.hot.buf && q.cold.buf == r.cold.buf
    ensures SameData(b, t, s, u, q)
  {
    SameStoreData(b, u, r, q);
    SameDataTransitive(b, t, s, u, r, u, q);
  }

  /** When the reuse condition holds there is a used-once block. */
  lemma ReusePossible(s: Bank)
    requires VictimCount(s.first) == HIGH_CHUNKS || s.first.n > MIN_HOT_FIRST
    ensures s.first.n > 0
  {
  }

  lemma FewUsedOnce(blks: nat, b: nat, t: Table, s: Bank)
    requires Inv(blks, b, t, s) && blks >= MIN_BLKS && |s.clean| == 1 && s.first.n <= s.adapt.hotFirst
    ensures Candidates(s) > 0
  {
    hide HeapOk;
    CandidatesLeft(blks, s);
  }

  /** What the first-usage heap says of the block that is reused. */
  lemma UsedOnceCount(blks: nat, b: nat, t: Table, s: Bank)
    requires Inv(blks, b, t, s) && s.first.n > 0
    ensures Victim(s.first) < blks && VictimCount(s.first) == |Live(t, b, Victim(s.first))| + HIGH_CHUNKS
  {
    hide HeapOk, Victim, VictimCount, Live, ForwardBuf, Filled, AllUniform, FlashShape, CtrlShape, ForwardFlash,
      Injective;
    UsedOnceVictim(blks, b, t, s);
    var v := Victim(s.first);
    RoleKnown(blks, s, v);
    assert Account(b, t, s, v);
  }

  lemma ResetVal(blks: nat, h: HeapState, lbn: nat, value: nat)
    requires HeapOk(blks, h) && lbn < blks && value < U16
    ensures Valid(h) && lbn < |h.pos| && Val(ResetAndRemove(h, lbn, value), lbn) == value
  {
    hide ResetAndRemove;
    RemoveMeaning(h, lbn, value);
  }

  lemma HotFullData(b: nat, t: Table, s: Bank, adv: Bank, closed: Bank, r: Bank)
    requires adv.flash == s.flash && adv.hot.buf == s.hot.buf && adv.cold.buf == s.cold.buf &&
      SameData(b, t, adv, t, closed)
    requires r.flash == closed.flash && r.hot.buf == closed.hot.buf && r.cold.buf == closed.cold.buf
    ensures SameData(b, t, s, t, r)
  {
    SameStoreData(b, t, s, adv);
    SameDataTransitive(b, t, s, t, adv, t, closed);
    HotMoved(b, t, t, s, closed, r);
  }

  lemma InvWithout(blks: nat, b: nat, t: Table, s: Bank, k: Key)
    requires Inv(blks, b, t, s) && Look(t, k) == Invalid && s.gc.state == GcIdle
    ensures Inv(blks, b, t - {k}, s)
  {
    hide HeapOk, Val, In, RoleOf, ListOf, Placed, Live, ListShape, FlashShape, Shape, AllBlank;
    var u := t - {k};
    assert forall j: Key {:trigger Look(u, j)} {:trigger Look(t, j)} :: Look(u, j) == Look(t, j);
    FilledKept(b, t, s, u, s, true);
    FilledKept(b, t, s, u, s, false);
    forall l: nat {:trigger Account(b, u, s, l)} | l < blks
      ensures Account(b, u, s, l)
    {
      assert Account(b, t, s, l);
      LiveSame(t, u, b, l);
    }
  }

  // ---------- A victim that fits the open cold block ----------

  lemma StartSnug(blks: nat, b: nat, t: Table, s: Bank)
    requires Inv(blks, b, t, s) && s.gc.state == GcIdle && Candidates(s) > 0
    ensures var v := Victim(VictimHeap(s, !(VictimCount(s.coldHeap) < VictimCount(s.second))));
      |Live(t, b, v)| == LeastCount(s)
  {
    hide Inv, Live, Victim, VictimCount;
    InitChoice(blks, b, t, s);
    VictimFacts(blks, b, t, s, !(VictimCount(s.coldHeap) < VictimCount(s.second)));
  }

  lemma FlushKeepsSnug(blks: nat, b: nat, t: Table, s: Bank, r: Bank)
    requires Inv(blks, b, t, s) && Flushed(blks, s, r, false) && s.gc.state != GcIdle
    requires s.cold.ptr == Capacity(s.cold) && Ready(s.cold) && s.cold.usage == ColdLog && !s.cold.recycled
    ensures var u, v := FlushTable(b, t, s.cold, false), r.(cold := r.cold.(page := r.cold.page + 1));
      Snug(b, t, s) ==> Snug(b, u, v) && s.cold.page != USED_PAGES - 1
  {
    hide Core, HeapOk, Live, In, RoleOf, FlushRow, CountSome, FlashShape, ListShape;
    var u := FlushTable(b, t, s.cold, false);
    FlushVictim(blks, b, t, s, r, false);
    LiveElsewhere(t, b, FromBuf(false), CHUNKS_PER_PAGE, s.cold.lbn, s.cold.page, false, s.gc.victim);
    assert r.cold.page == s.cold.page && r.cold.ptr == 0 && r.gc == s.gc;
  }

  lemma PutLive(b: nat, t: Table, s: Bank, k: Key)
    ensures Live(t[k := Buf(b, false, s.cold.ptr)], b, s.gc.victim) == Live(t - {k}, b, s.gc.victim)
  {
  }

  lemma WholeKeepsSnug(blks: nat, b: nat, t: Table, s: Bank)
    requires Inv(blks, b, t, s) && s.gc.state == GcWrite && s.gc.inPage == CHUNKS_PER_PAGE && ColdReady(blks, s)
    ensures s.cold.lbn < |s.flash| && s.cold.page < |s.flash[s.cold.lbn]| && s.cold.page < |s.cold.lpns|
    ensures var u, r := WholeTable(b, t, s), WholeMoved(s);
      Snug(b, t, s) ==> Snug(b, u, r.(cold := r.cold.(page := r.cold.page + 1))) && s.cold.page != USED_PAGES - 1
  {
    hide Inv, Live, WholeTable, WholeRow;
    InvParts(blks, b, t, s);
    WholeKeeps(blks, b, t, s);
  }
}
