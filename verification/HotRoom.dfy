/** When the hot log, its block full, gets the next block with two clean blocks left or regained: said of the bank while
    it has no open hot block, before the full block is closed, and before the write that fills it. */
module HotRoom {
  import opened Heap
  import opened BankState
  import opened BankSteps
  import opened BankPages
  import opened BankLog
  import opened BankBlocks
  import opened BankGc
  import opened BankHot
  import opened FtlSteps
  import opened Progress
  import opened Sides

  // ---------- The next hot block ----------

  /** Finding the next hot block in this state keeps or regains two clean blocks. */
  predicate VacantFits(blks: nat, b: nat, t: Table, s: Bank) {
    || |s.clean| > 2 || Reusing(VictimCount(s.first), s.first.n, s.adapt, LeastCount(s))
    || Spacious(blks, s, ColdSide(b, t, NoBlock(blks, s)))
  }

  /** The most used-once blocks a bank can come to hold by the time it is down to two clean blocks: while more are
      clean every closed block may be one, and from then on there are at most 112. */
  function Bound(used: int, clean: int): int {
    (if used > MAX_HOT_FIRST then used else MAX_HOT_FIRST) + (if clean > 2 then clean - 2 else 0)
  }

  /** That bound does not rise when the next hot block is found, even if a used-once block was just added. */
  predicate LessBound(s: Bank, r: Bank) {
    Bound(r.first.n, |r.clean|) <= Bound(s.first.n - 1, |s.clean|)
  }

  /** That bound does not rise. */
  predicate BoundKept(s: Bank, r: Bank) {
    Bound(r.first.n, |r.clean|) <= Bound(s.first.n, |s.clean|)
  }

  lemma SameBound(s: Bank, r: Bank)
    ensures r.first.n == s.first.n && |r.clean| <= |s.clean| ==> BoundKept(s, r)
  {
  }

  lemma BoundTransitive(s: Bank, r: Bank, q: Bank)
    requires BoundKept(s, r)
    ensures BoundKept(r, q) ==> BoundKept(s, q)
  {
  }

  lemma ClosedBound(s: Bank, r: Bank, q: Bank)
    requires r.first.n <= s.first.n + 1 && |r.clean| == |s.clean|
    ensures LessBound(r, q) ==> BoundKept(s, q)
  {
  }

  lemma BoundFalls(s: Bank, r: Bank)
    ensures r.first.n == s.first.n && |r.clean| == |s.clean| - 1 && |s.clean| > 2 ==> LessBound(s, r)
    ensures r.first.n == s.first.n - 1 && |r.clean| == |s.clean| ==> LessBound(s, r)
    ensures r.first.n == s.first.n <= MAX_HOT_FIRST && |r.clean| <= |s.clean| ==> LessBound(s, r)
  {
  }

  lemma ManyClean(blks: nat, b: nat, t: Table, s: Bank, r: Bank)
    requires |s.clean| > 2 && r.first == s.first && r.clean == s.clean[1..]
    ensures VacantFits(blks, b, t, s) && LessBound(s, r)
  {
  }

  lemma FitsByReuse(blks: nat, b: nat, t: Table, s: Bank)
    ensures Reusing(VictimCount(s.first), s.first.n, s.adapt, LeastCount(s)) ==> VacantFits(blks, b, t, s)
  {
  }

  /** When the first of the last two clean blocks has just been opened for hot data. */
  lemma LastOpened(blks: nat, b: nat, t: Table, s: Bank, r: Bank)
    requires Inv(blks, b, t, NoBlock(blks, s)) && AdaptiveOk(s) && |s.clean| == 2
    requires !Reusing(VictimCount(s.first), s.first.n, s.adapt, LeastCount(s))
    requires r == s.(hot := r.hot, clean := r.clean, adapt := r.adapt) && r.hot.lbn == s.clean[0]
    ensures VacantFits(blks, b, t, s) <==> Spacious(blks, r, ColdSide(b, t, r))
    ensures NextAssured(s, true) ==> LeastCount(r) < Room(r)
    ensures r.first.n == s.first.n <= MAX_HOT_FIRST
  {
    hide Inv, Sum, VictimCount, ColdSide;
    OpenedCold(blks, b, t, s, r);
  }

  /** Opening a clean block for hot data takes no chunk across. */
  lemma OpenedCold(blks: nat, b: nat, t: Table, s: Bank, r: Bank)
    requires Inv(blks, b, t, NoBlock(blks, s)) && |s.clean| > 0 && r.first == s.first && r.hot.lbn == s.clean[0]
    ensures ColdSide(b, t, r) == ColdSide(b, t, NoBlock(blks, s))
  {
    var v := NoBlock(blks, s);
    OpenedHead(blks, b, t, v);
    hide Inv, In;
    forall k: Key
      ensures k in ColdSide(b, t, r) <==> k in ColdSide(b, t, v)
    {
      assert OfBank(Look(t, k), b) && Look(t, k).Flash? ==> Look(t, k).lbn < blks && Look(t, k).lbn != s.clean[0];
    }
  }

  lemma OpenedHead(blks: nat, b: nat, t: Table, s: Bank)
    requires Inv(blks, b, t, s) && |s.clean| > 0
    ensures forall k: Key {:trigger Look(t, k)} :: OfBank(Look(t, k), b) && Look(t, k).Flash? ==>
      Look(t, k).lbn < blks && Look(t, k).lbn != s.clean[0]
  {
    hide HeapOk, Val, In, Accounts, AllUniform, Filled, ForwardBuf, ListShape, FlashShape, RoleOf, AllBlank, Injective,
      Collecting;
    assert OneRole(s, s.clean[0]);
    assert forall k: Key {:trigger Look(t, k)} :: OfBank(Look(t, k), b) && Look(t, k).Flash? ==>
      Placed(blks, s, k, Look(t, k)) && PageOk(s, Look(t, k).lbn, Look(t, k).page, Look(t, k).encoded);
  }

  // ---------- Before the full block is closed ----------

  /** The chunks in the open hot block and the hot buffer. */
  function HotOpen(b: nat, t: Table, s: Bank): set<Key> {
    set k | k in t && OfBank(t[k], b) && InHotLog(s, t[k])
  }

  predicate InHotLog(s: Bank, l: Loc) {
    match l
    case Invalid => false
    case Flash(_, lbn, _, _, _) => lbn == s.hot.lbn
    case Buf(_, hot, _) => hot
  }

  /** When the open hot block is full, with the chunks open in it and its buffer and cold on the cold side: a third
      block is clean, or the block being closed makes the reuse condition hold, or the cold side then has room. A first
      usage leaves one more used-once block; a second usage leaves its chunks to the collector. */
  predicate HotFits(blks: nat, s: Bank, open: set<Key>, cold: set<Key>) {
    || |s.clean| > 2
    || if s.hot.usage == HotFirst then
         || Reusing(Lower(VictimCount(s.first), |open| + HIGH_CHUNKS), s.first.n + 1, s.adapt, LeastCount(s))
         || |cold| < SECOND_USAGE_CHUNKS * (blks - 4 - s.first.n)
       else
         || Reusing(VictimCount(s.first), s.first.n, s.adapt, Lower(LeastCount(s), |open|))
         || Spacious(blks, s, cold + open)
  }

  lemma InsertLeast(blks: nat, h: HeapState, lbn: nat)
    requires HeapOk(blks, h) && lbn < blks && !In(h, lbn)
    ensures Valid(h) && |h.pos| == blks
    ensures VictimCount(Insert(h, lbn)) == Lower(VictimCount(h), Val(h, lbn)) && Insert(h, lbn).n == h.n + 1
  {
    var g := Insert(h, lbn);
    InsertOne(blks, h, lbn);
    CounterBound(blks, h, lbn);
    VictimIsLeast(g);
    hide Insert, Val, In, Victim, Valid, Ordered;
    assert In(g, Victim(g)) && Val(g, Victim(g)) == Val(h, Victim(g)) && In(g, lbn) && Val(g, lbn) == Val(h, lbn);
    if h.n > 0 {
      VictimIsLeast(h);
      assert In(g, Victim(h)) && Val(g, Victim(h)) == Val(h, Victim(h));
    } else {
      assert !In(h, Victim(g));
    }
  }

  /** With the buffer empty, the chunks in the open hot block are what its counter holds besides what it owes. */
  lemma HotOpenCount(blks: nat, b: nat, t: Table, s: Bank)
    requires Inv(blks, b, t, s) && s.hot.lbn < blks && s.hot.ptr == 0 && s.hot.page == ListPageOf(s.hot.usage) &&
      s.hot.next == None
    ensures (if s.hot.usage == HotFirst then Val(s.first, s.hot.lbn) else Val(s.second, s.hot.lbn)) ==
      |HotOpen(b, t, s)| + if s.hot.usage == HotFirst then HIGH_CHUNKS else 0
  {
    hide HeapOk, Val, In, ForwardFlash, Injective, AllUniform, Filled, ListShape, FlashShape, Collecting, AllBlank;
    OpenRole(blks, s, true);
    assert Account(b, t, s, s.hot.lbn);
    forall k: Key
      ensures k in HotOpen(b, t, s) <==> k in Live(t, b, s.hot.lbn)
    {
      assert Look(t, k) == Look(t, k);
    }
    assert HotOpen(b, t, s) == Live(t, b, s.hot.lbn);
  }

  /** Closing the block moves no chunk across after a first usage, and its chunks to the cold side after a second. */
  lemma ClosedSides(blks: nat, b: nat, t: Table, s: Bank, r: Bank)
    requires Inv(blks, b, t, s) && s.hot.lbn < blks && s.hot.ptr == 0 && !In(s.first, s.hot.lbn)
    requires forall l: nat {:trigger In(r.first, l)} :: l < blks ==>
      (In(r.first, l) <==> In(s.first, l) || (s.hot.usage == HotFirst && l == s.hot.lbn))
    ensures ColdSide(b, t, NoBlock(blks, r)) ==
      if s.hot.usage == HotFirst then ColdSide(b, t, s) else ColdSide(b, t, s) + HotOpen(b, t, s)
  {
    PlacedBelow(blks, b, t, s);
    hide Inv, In;
    var v := NoBlock(blks, r);
    forall k: Key
      ensures k in ColdSide(b, t, v) <==>
        k in ColdSide(b, t, s) || (s.hot.usage != HotFirst && k in HotOpen(b, t, s))
    {
      assert OfBank(Look(t, k), b) && Look(t, k).Flash? ==> Look(t, k).lbn < blks;
    }
  }

  /** So the next block is found after the close exactly if the block about to be closed allowed it. */
  lemma ClosedFits(blks: nat, b: nat, t: Table, s: Bank, r: Bank)
    requires Inv(blks, b, t, s.(hot := Advanced(s.hot))) && s.hot.lbn < blks && s.hot.ptr == 0
    requires Advanced(s.hot).page == ListPageOf(s.hot.usage) && Advanced(s.hot).next == None
    requires Valid(s.first) && |s.first.pos| == blks && Valid(s.second) && |s.second.pos| == blks
    requires r.clean == s.clean && r.adapt == s.adapt && r.coldHeap == s.coldHeap
    requires if s.hot.usage == HotFirst
      then !In(s.first, s.hot.lbn) && r.first == Insert(s.first, s.hot.lbn) && r.second == s.second
      else !In(s.second, s.hot.lbn) && r.second == Insert(s.second, s.hot.lbn) && r.first == s.first
    ensures VacantFits(blks, b, t, r) <==> HotFits(blks, s, HotOpen(b, t, s), ColdSide(b, t, s))
    ensures r.first.n == s.first.n + if s.hot.usage == HotFirst then 1 else 0
  {
    hide Inv, HeapOk, In, Val, Valid, Insert, VictimCount, Reusing, HotOpen, ColdSide;
    var adv := s.(hot := Advanced(s.hot));
    InvParts(blks, b, t, adv);
    HotOpenCount(blks, b, t, adv);
    HotOutside(blks, b, t, adv);
    SameSides(b, t, s, adv);
    if s.hot.usage == HotFirst {
      InsertLeast(blks, s.first, s.hot.lbn);
      InsertOne(blks, s.first, s.hot.lbn);
    } else {
      InsertLeast(blks, s.second, s.hot.lbn);
    }
    ClosedSides(blks, b, t, adv, r);
  }

  lemma TouchedLeast(blks: nat, h: HeapState, g: HeapState, lbn: nat)
    requires HeapOk(blks, h) && Touched(blks, h, g, lbn) && !In(h, lbn)
    ensures VictimCount(g) == VictimCount(h)
  {
    hide Val;
    TouchedSinks(blks, h, g, lbn);
    TouchedSinks(blks, g, h, lbn);
    LeastSinks(blks, h, g);
    LeastSinks(blks, g, h);
  }

  /** Programming the hot buffer moves its chunks within the hot log. */
  lemma FlushFits(blks: nat, b: nat, t: Table, s: Bank, r: Bank)
    requires Inv(blks, b, t, s) && Flushed(blks, s, r, true)
    ensures var u := FlushTable(b, t, s.hot, true);
      HotFits(blks, r, HotOpen(b, u, r), ColdSide(b, u, r)) <==> HotFits(blks, s, HotOpen(b, t, s), ColdSide(b, t, s))
    ensures BoundKept(s, r) && BoundKept(r, s)
  {
    hide Inv, HeapOk, Val, FlushRow, ListShape, FlashShape, OwnerVal, CountSome, VictimCount, Reusing, In;
    InvParts(blks, b, t, s);
    HotOutside(blks, b, t, s);
    TouchedLeast(blks, s.first, r.first, s.hot.lbn);
    TouchedLeast(blks, s.second, r.second, s.hot.lbn);
    TouchedLeast(blks, s.coldHeap, r.coldHeap, s.hot.lbn);
    FlushedSides(blks, b, t, s, r);
  }

  lemma FlushedSides(blks: nat, b: nat, t: Table, s: Bank, r: Bank)
    requires Inv(blks, b, t, s) && Flushed(blks, s, r, true)
    ensures var u := FlushTable(b, t, s.hot, true);
      HotOpen(b, u, r) == HotOpen(b, t, s) && ColdSide(b, u, r) == ColdSide(b, t, s)
  {
    hide Inv, HeapOk, Val, FlushRow, ListShape, FlashShape, OwnerVal, CountSome;
    var u := FlushTable(b, t, s.hot, true);
    forall k: Key
      ensures k in HotOpen(b, u, r) <==> k in HotOpen(b, t, s)
      ensures k in ColdSide(b, u, r) <==> k in ColdSide(b, t, s)
    {
      assert Look(u, k) == Look(u, k);
    }
  }

  lemma HotOutside(blks: nat, b: nat, t: Table, s: Bank)
    requires Inv(blks, b, t, s) && s.hot.lbn < blks
    ensures !In(s.first, s.hot.lbn) && !In(s.second, s.hot.lbn) && !In(s.coldHeap, s.hot.lbn)
  {
    hide HeapOk, In, Val, Accounts, ForwardFlash, ForwardBuf, Injective, Filled, AllUniform, AllBlank, Collecting,
      ListShape, FlashShape;
    OpenRole(blks, s, true);
    RoleKnown(blks, s, s.hot.lbn);
    OpenAside(s, s.hot.lbn);
  }

  lemma SameSides(b: nat, t: Table, s: Bank, r: Bank)
    requires r.hot.lbn == s.hot.lbn && r.first == s.first
    ensures HotOpen(b, t, r) == HotOpen(b, t, s) && ColdSide(b, t, r) == ColdSide(b, t, s)
  {
  }

  lemma PlacedBelow(blks: nat, b: nat, t: Table, s: Bank)
    requires Inv(blks, b, t, s)
    ensures forall k: Key {:trigger Look(t, k)} :: OfBank(Look(t, k), b) ==>
      if Look(t, k).Flash? then Look(t, k).lbn < blks else Look(t, k).slot < Log(s, Look(t, k).hot).ptr
  {
    hide HeapOk, Val, In, Accounts, AllUniform, Filled, ListShape, FlashShape, RoleOf, AllBlank, Injective, PageOk,
      Collecting;
    assert forall k: Key {:trigger Look(t, k)} :: OfBank(Look(t, k), b) && Look(t, k).Flash? ==>
      Placed(blks, s, k, Look(t, k));
  }

  // ---------- Before the write ----------

  /** The bank without the old copy of a chunk that is at l. */
  ghost function WithoutOld(blks: nat, s: Bank, l: Loc): Bank {
    match l
    case Invalid => s
    case Flash(_, lbn, _, _, _) =>
      if HeapOk(blks, s.first) && HeapOk(blks, s.second) && HeapOk(blks, s.coldHeap) && lbn < blks
        then DecAll(blks, s, lbn) else s
    case Buf(_, hot, slot) => if slot < |Log(s, hot).keys| then ClearSlot(s, hot, slot) else s
  }

  /** A write of k that fills the open hot block leaves or regains two clean blocks: the chunks of that block are then
      those open now and k, and k is no longer on the cold side. */
  ghost predicate WriteFits(blks: nat, b: nat, t: Table, s: Bank, k: Key) {
    HotFits(blks, WithoutOld(blks, s, Look(t, k)), HotOpen(b, t, s) + {k}, ColdSide(b, t, s) - {k})
  }

  lemma PutFits(blks: nat, b: nat, t: Table, s: Bank, k: Key, d: Chunk, r: Bank)
    requires Inv(blks, b, t, s) && Dropped(blks, s, Look(t, k), r)
    requires Look(t, k) == Invalid || OfBank(Look(t, k), b)
    requires CtrlShape(r.hot) && r.hot.ptr < CHUNKS_PER_PAGE
    ensures var u, q := t[k := Buf(b, true, r.hot.ptr)], PutSlot(r, true, k, d);
      HotFits(blks, q, HotOpen(b, u, q), ColdSide(b, u, q)) <==> WriteFits(blks, b, t, s, k)
  {
    hide Inv, HeapOk, In, ColdSide, HotOpen, VictimCount, Reusing, DecAll;
    var u, q := t[k := Buf(b, true, r.hot.ptr)], PutSlot(r, true, k, d);
    assert r == WithoutOld(blks, s, Look(t, k));
    PutHotSides(blks, b, t, s, k, d, r);
  }

  /** A chunk that the host writes to the hot log is open there, wherever its old copy was. */
  lemma PutHotSides(blks: nat, b: nat, t: Table, s: Bank, k: Key, d: Chunk, r: Bank)
    requires Inv(blks, b, t, s) && Dropped(blks, s, Look(t, k), r)
    requires Look(t, k) == Invalid || OfBank(Look(t, k), b)
    requires CtrlShape(r.hot) && r.hot.ptr < CHUNKS_PER_PAGE
    ensures var u, q := t[k := Buf(b, true, r.hot.ptr)], PutSlot(r, true, k, d);
      HotOpen(b, u, q) == HotOpen(b, t, s) + {k} && ColdSide(b, u, q) == ColdSide(b, t, s) - {k}
  {
    hide Inv, In, Dropped;
    DroppedHot(blks, b, t, s, k, r);
    var u, q := t[k := Buf(b, true, r.hot.ptr)], PutSlot(r, true, k, d);
    forall j: Key
      ensures j in HotOpen(b, u, q) <==> j in HotOpen(b, t, s) || j == k
      ensures j in ColdSide(b, u, q) <==> j in ColdSide(b, t, s) && j != k
    {
      assert Look(u, j) == if j == k then Buf(b, true, r.hot.ptr) else Look(t, j);
    }
  }
}
