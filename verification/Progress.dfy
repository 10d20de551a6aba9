/** When a write is sure to finish: how many live chunks the collector's choice may hold, and why nothing that
    happens on the way to the collector makes it harder. */
module Progress {
  import opened Heap
  import opened BankState
  import opened BankSteps
  import opened BankPages
  import opened BankLog
  import opened BankBlocks
  import opened BankHot
  import opened FtlSteps
  import opened PageRuns
  import opened DeviceSteps
  import opened Sides

  /** The reuse condition is sure to choose a used-once block, however the threshold adapts. */
  predicate SureReuse(s: Bank) {
    VictimCount(s.first) == HIGH_CHUNKS || s.first.n > MAX_HOT_FIRST
  }

  /** The next block of the log comes without a collection, or the block that the collector would choose fits the
      open cold block: the one open now when the hot log takes a clean block, a fresh one when the cold log does. */
  predicate NextAssured(s: Bank, hot: bool) {
    || |s.clean| > 2 || (hot && SureReuse(s))
    || LeastCount(s) < (if hot then Room(s) else SECOND_USAGE_CHUNKS)
  }

  /** A full buffer of the log is sure to be flushed to the end. */
  predicate Assured(s: Bank, hot: bool) {
    Log(s, hot).page != LastPage(Log(s, hot).usage) || NextAssured(s, hot)
  }

  /** What assures a write of finishing in s assures it in r. */
  ghost predicate NoWorse(s: Bank, r: Bank) {
    LeastCount(r) <= LeastCount(s) && (SureReuse(s) ==> SureReuse(r))
  }

  lemma StillAssured(s: Bank, r: Bank, hot: bool)
    requires NoWorse(s, r) && (hot ==> Room(r) >= Room(s)) && |r.clean| == |s.clean|
    ensures NextAssured(s, hot) ==> NextAssured(r, hot)
  {
    hide SureReuse, LeastCount, Room;
  }

  lemma LeastNoWorse(s: Bank, r: Bank)
    requires NoWorse(s, r)
    ensures LeastCount(r) <= LeastCount(s)
  {
  }

  /** Another chunk in the buffer takes up room for the cold log only. */
  lemma PutAssured(s: Bank, r: Bank, hot: bool, k: Key, d: Chunk)
    requires NoWorse(s, r) && r.cold.page == s.cold.page && r.cold.ptr == s.cold.ptr && |r.clean| == |s.clean|
    requires CtrlShape(Log(r, hot)) && Log(r, hot).ptr < CHUNKS_PER_PAGE
    ensures NextAssured(s, hot) ==> NextAssured(PutSlot(r, hot, k, d), hot)
  {
  }

  // ---------- The least counter never rises ----------

  /** Every block of g is in h, with a counter that is no larger. */
  ghost predicate Sinks(blks: nat, g: HeapState, h: HeapState) {
    g.n <= h.n && forall l: nat {:trigger In(g, l)} :: l < blks && In(g, l) ==> In(h, l) && Val(h, l) <= Val(g, l)
  }

  lemma LeastSinks(blks: nat, g: HeapState, h: HeapState)
    requires HeapOk(blks, g) && HeapOk(blks, h) && Sinks(blks, g, h)
    ensures VictimCount(h) <= VictimCount(g)
  {
    hide Val, In;
    if h.n > 0 {
      assert At(h, 1).value < U16;
      VictimIsLeast(h);
      if g.n > 0 {
        VictimIsLeast(g);
      }
    }
  }

  /** A used-once block has its high pages to go. */
  lemma UsedOnceFloor(blks: nat, b: nat, t: Table, s: Bank)
    requires Inv(blks, b, t, s) && s.first.n > 0
    ensures VictimCount(s.first) >= HIGH_CHUNKS
  {
    hide Inv, Victim, VictimCount, Live;
    UsedOnceCount(blks, b, t, s);
  }

  lemma UsedOnceLive(blks: nat, b: nat, t: Table, s: Bank, l: nat)
    requires Inv(blks, b, t, s) && l < blks && In(s.first, l)
    ensures Val(s.first, l) == |Live(t, b, l)| + HIGH_CHUNKS
  {
    hide HeapOk, In, Val, Live, ForwardBuf, Filled, AllUniform, FlashShape, CtrlShape, ForwardFlash, Injective;
    RoleKnown(blks, s, l);
    assert Account(b, t, s, l);
  }

  /** What the counters decide: of the used-once blocks, the one with the fewest live chunks is reused, when one has
      none left or when there are more of them than the threshold. */
  lemma ReuseMeans(blks: nat, b: nat, t: Table, s: Bank, a: Adaptive)
    requires Inv(blks, b, t, s)
    ensures Reuses(s, a) <==>
      || s.first.n > a.hotFirst
      || exists l: nat {:trigger Live(t, b, l)} :: l < blks && In(s.first, l) && |Live(t, b, l)| == 0
    ensures s.first.n > 0 ==>
      && Victim(s.first) < blks && In(s.first, Victim(s.first))
      && forall l: nat {:trigger Live(t, b, l)} :: l < blks && In(s.first, l) ==>
           |Live(t, b, Victim(s.first))| <= |Live(t, b, l)|
  {
    assert HeapOk(blks, s.first) by {
      InvParts(blks, b, t, s);
    }
    hide Inv, Live, Val, In, Victim, VictimCount;
    if s.first.n > 0 {
      assert Valid(s.first) && Ordered(s.first) && |s.first.pos| == blks;
      VictimIsLeast(s.first);
      UsedOnceLive(blks, b, t, s, Victim(s.first));
    }
    forall l: nat {:trigger Live(t, b, l)} | l < blks && In(s.first, l)
      ensures s.first.n > 0 && VictimCount(s.first) <= |Live(t, b, l)| + HIGH_CHUNKS
    {
      PresentSome(s.first, l);
      UsedOnceLive(blks, b, t, s, l);
    }
    if s.first.n == 0 {
      assert VictimCount(s.first) == INVALID by {
        EmptyCount(s.first);
      }
    }
  }

  lemma PresentSome(h: HeapState, l: nat)
    requires Valid(h) && l < |h.pos| && In(h, l)
    ensures h.n > 0
  {
  }

  lemma EmptyCount(h: HeapState)
    requires h.n == 0
    ensures VictimCount(h) == INVALID
  {
  }

  lemma SunkNoWorse(blks: nat, s: Bank, r: Bank)
    requires HeapOk(blks, s.first) && HeapOk(blks, s.second) && HeapOk(blks, s.coldHeap)
    requires HeapOk(blks, r.first) && HeapOk(blks, r.second) && HeapOk(blks, r.coldHeap)
    requires Sinks(blks, s.first, r.first) && Sinks(blks, s.second, r.second) && Sinks(blks, s.coldHeap, r.coldHeap)
    requires r.first.n > 0 ==> VictimCount(r.first) >= HIGH_CHUNKS
    ensures NoWorse(s, r)
  {
    hide HeapOk, Val, In;
    LeastSinks(blks, s.first, r.first);
    LeastSinks(blks, s.second, r.second);
    LeastSinks(blks, s.coldHeap, r.coldHeap);
  }

  lemma DecrementSinks(blks: nat, h: HeapState, lbn: nat)
    requires HeapOk(blks, h) && lbn < blks && (In(h, lbn) ==> Val(h, lbn) > 0)
    ensures Sinks(blks, h, DecrementByN(h, lbn, 1)) && HeapOk(blks, DecrementByN(h, lbn, 1))
  {
    hide HeapOk, Valid, DecrementByN, Val, In;
    DecrementOne(blks, h, lbn);
  }

  lemma InsertSinks(blks: nat, h: HeapState, lbn: nat)
    requires HeapOk(blks, h) && lbn < blks && !In(h, lbn)
    ensures Sinks(blks, h, Insert(h, lbn)) && HeapOk(blks, Insert(h, lbn))
  {
    InsertOne(blks, h, lbn);
  }

  lemma TouchedSinks(blks: nat, h: HeapState, g: HeapState, lbn: nat)
    requires Touched(blks, h, g, lbn) && HeapOk(blks, h) && !In(h, lbn)
    ensures Sinks(blks, h, g)
  {
  }

  // ---------- On the way to the collector ----------

  /** Giving up the old copy of a chunk. */
  lemma DropNoWorse(blks: nat, b: nat, t: Table, s: Bank, k: Key, r: Bank)
    requires Inv(blks, b, t, s) && Inv(blks, b, t - {k}, r) && Dropped(blks, s, Look(t, k), r)
    requires Look(t, k) == Invalid || OfBank(Look(t, k), b)
    ensures NoWorse(s, r)
  {
    hide Inv, HeapOk, Val, In, Valid, DecrementByN, Live, RoleOf, VictimCount;
    InvParts(blks, b, t, s);
    InvParts(blks, b, t - {k}, r);
    if Look(t, k).Flash? {
      var lbn := Look(t, k).lbn;
      CounterCoversLive(blks, b, t, s, k);
      OwnerPositive(blks, b, t, s, lbn);
      DecrementSinks(blks, s.first, lbn);
      DecrementSinks(blks, s.second, lbn);
      DecrementSinks(blks, s.coldHeap, lbn);
      if r.first.n > 0 {
        UsedOnceFloor(blks, b, t - {k}, r);
      }
      SunkNoWorse(blks, s, r);
    }
  }

  /** Programming the open block: it is in no heap. */
  lemma FlushNoWorse(blks: nat, b: nat, t: Table, s: Bank, u: Table, r: Bank, hot: bool)
    requires Inv(blks, b, t, s) && Flushed(blks, s, r, hot) && Ready(Log(s, hot))
    requires Inv(blks, b, u, WithLog(r, hot, Advanced(Log(r, hot))))
    ensures NoWorse(s, r) && Room(r) >= Room(s)
  {
    hide Inv, HeapOk, Val, In, Touched, RoleOf, OneRole, VictimCount, FlushRow, ListShape, FlashShape, Live, CountSome;
    var v := WithLog(r, hot, Advanced(Log(r, hot)));
    InvParts(blks, b, t, s);
    InvParts(blks, b, u, v);
    OpenCountOf(blks, b, t, s, hot);
    OpenAside(s, Log(s, hot).lbn);
    TouchedSinks(blks, s.first, r.first, Log(s, hot).lbn);
    TouchedSinks(blks, s.second, r.second, Log(s, hot).lbn);
    TouchedSinks(blks, s.coldHeap, r.coldHeap, Log(s, hot).lbn);
    if v.first.n > 0 {
      UsedOnceFloor(blks, b, u, v);
    }
    SunkNoWorse(blks, s, r);
  }

  lemma OpenAside(s: Bank, lbn: nat)
    requires OneRole(s, lbn) && RoleOf(s, lbn) in {OpenHot, OpenCold}
    ensures !In(s.first, lbn) && !In(s.second, lbn) && !In(s.coldHeap, lbn)
  {
    hide In;
  }

  lemma SinksSelf(blks: nat, h: HeapState)
    ensures Sinks(blks, h, h)
  {
  }

  /** A full block enters its heap. */
  lemma CloseNoWorse(blks: nat, b: nat, t: Table, s: Bank, r: Bank, lbn: nat)
    requires HeapOk(blks, s.first) && HeapOk(blks, s.second) && HeapOk(blks, s.coldHeap) && lbn < blks
    requires (!In(s.first, lbn) && r.first == Insert(s.first, lbn)) || r.first == s.first
    requires (!In(s.second, lbn) && r.second == Insert(s.second, lbn)) || r.second == s.second
    requires (!In(s.coldHeap, lbn) && r.coldHeap == Insert(s.coldHeap, lbn)) || r.coldHeap == s.coldHeap
    requires r.first.n > 0 ==> VictimCount(r.first) >= HIGH_CHUNKS
    ensures NoWorse(s, r)
  {
    hide HeapOk, Val, In, Insert, Valid, VictimCount, Sinks;
    SinksSelf(blks, s.first);
    SinksSelf(blks, s.second);
    SinksSelf(blks, s.coldHeap);
    if r.first != s.first {
      InsertSinks(blks, s.first, lbn);
    }
    if r.second != s.second {
      InsertSinks(blks, s.second, lbn);
    }
    if r.coldHeap != s.coldHeap {
      InsertSinks(blks, s.coldHeap, lbn);
    }
    SunkNoWorse(blks, s, r);
  }

  lemma ClosedNoWorse(blks: nat, b: nat, t: Table, s: Bank, r: Bank)
    requires Inv(blks, b, t, s.(hot := Advanced(s.hot))) && s.hot.lbn < blks
    requires Valid(s.first) && |s.first.pos| == blks && Valid(s.second) && |s.second.pos| == blks
    requires (!In(s.first, s.hot.lbn) && r.first == Insert(s.first, s.hot.lbn)) || r.first == s.first
    requires (!In(s.second, s.hot.lbn) && r.second == Insert(s.second, s.hot.lbn)) || r.second == s.second
    requires r.coldHeap == s.coldHeap && Inv(blks, b, t, NoBlock(blks, r))
    ensures NoWorse(s, r)
  {
    hide Inv, HeapOk, Val, In, Insert, Valid, VictimCount, NoWorse;
    InvParts(blks, b, t, s.(hot := Advanced(s.hot)));
    if r.first.n > 0 {
      UsedOnceFloor(blks, b, t, NoBlock(blks, r));
    }
    CloseNoWorse(blks, b, t, s, r, s.hot.lbn);
  }

  lemma RolledNoWorse(blks: nat, b: nat, t: Table, s: Bank, r: Bank)
    requires HeapOk(blks, s.first) && HeapOk(blks, s.second) && HeapOk(blks, s.coldHeap) && s.cold.lbn < blks
    requires !In(s.coldHeap, s.cold.lbn) && r.coldHeap == Insert(s.coldHeap, s.cold.lbn)
    requires r.first == s.first && r.second == s.second && Inv(blks, b, t, r)
    ensures NoWorse(s, r)
  {
    hide Inv, HeapOk, Val, In, Insert, Valid, VictimCount, NoWorse;
    if r.first.n > 0 {
      UsedOnceFloor(blks, b, t, r);
    }
    CloseNoWorse(blks, b, t, s, r, s.cold.lbn);
  }
}
