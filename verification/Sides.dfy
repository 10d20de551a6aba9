/** The two sides of a bank: the hot log and its used-once blocks, and everything the collector may move data between.
    No step of the cold log or the collector takes a chunk across. */
module Sides {
  import opened Heap
  import opened BankState
  import opened BankSteps
  import opened BankPages
  import opened BankLog
  import opened BankBlocks
  import opened BankGc
  import opened BankHot
  import opened FtlSteps

  /** In the hot buffer, the open hot block or a used-once block. */
  predicate OnHot(s: Bank, l: Loc) {
    match l
    case Invalid => false
    case Flash(_, lbn, _, _, _) => lbn == s.hot.lbn || In(s.first, lbn)
    case Buf(_, hot, _) => hot
  }

  function HotSide(b: nat, t: Table, s: Bank): set<Key> {
    set k | k in t && OfBank(t[k], b) && OnHot(s, t[k])
  }

  /** The bank's other chunks: in the cold buffer, the open cold block or a block the collector may choose. */
  function ColdSide(b: nat, t: Table, s: Bank): set<Key> {
    set k | k in t && OfBank(t[k], b) && !OnHot(s, t[k])
  }

  // ---------- Every step keeps the sides ----------

  lemma SameHot(b: nat, t: Table, s: Bank, u: Table, r: Bank)
    requires forall k: Key {:trigger Look(u, k)} {:trigger Look(t, k)} ::
      OfBank(Look(t, k), b) && OnHot(s, Look(t, k)) <==> OfBank(Look(u, k), b) && OnHot(r, Look(u, k))
    ensures HotSide(b, u, r) == HotSide(b, t, s)
  {
    hide OnHot;
    forall k: Key
      ensures k in HotSide(b, u, r) <==> k in HotSide(b, t, s)
    {
      assert OfBank(Look(t, k), b) && OnHot(s, Look(t, k)) <==> OfBank(Look(u, k), b) && OnHot(r, Look(u, k));
    }
  }

  lemma SameHotFields(b: nat, t: Table, s: Bank, r: Bank)
    requires r.hot.lbn == s.hot.lbn && r.first == s.first
    ensures HotSide(b, t, r) == HotSide(b, t, s)
  {
    SameHot(b, t, s, t, r);
  }

  /** A block the collector or the cold log has to do with is not on the hot side. */
  lemma AsideFromHot(blks: nat, b: nat, t: Table, s: Bank, lbn: nat)
    requires Inv(blks, b, t, s) && lbn < blks && (lbn == s.cold.lbn || RoleOf(s, lbn) in {SecondHeap, ColdHeap})
    ensures lbn != s.hot.lbn && !In(s.first, lbn)
  {
    hide Val, In, ForwardFlash, Accounts, AllUniform, Injective, Filled, ForwardBuf, ListShape, FlashShape, HeapOk,
      Collecting;
    RoleKnown(blks, s, lbn);
  }

  lemma CollectedHot(blks: nat, b: nat, t: Table, s: Bank, v: nat)
    requires Inv(blks, b, t, s) && v < blks && RoleOf(s, v) in {SecondHeap, ColdHeap}
    requires HeapOk(blks, s.first) && HeapOk(blks, s.second) && HeapOk(blks, s.coldHeap) && FlashShape(blks, s.flash)
    ensures HotSide(b, t, Collected(blks, s, v)) == HotSide(b, t, s)
  {
    hide Inv, HeapOk, Val, Pos, ResetAndRemove, RoleOf, FlashShape, Erase;
    AsideFromHot(blks, b, t, s, v);
    FirstUntouched(blks, s.first, v);
    SameHot(b, t, s, t, Collected(blks, s, v));
  }

  lemma FirstUntouched(blks: nat, h: HeapState, v: nat)
    requires HeapOk(blks, h) && v < blks && !In(h, v)
    ensures Valid(h) && |h.pos| == blks
    ensures forall l: nat {:trigger In(ResetAndRemove(h, v, FIRST_USAGE_CHUNKS), l)} ::
      In(ResetAndRemove(h, v, FIRST_USAGE_CHUNKS), l) <==> In(h, l)
  {
    hide ResetAndRemove;
    RemoveAny(blks, h, v, FIRST_USAGE_CHUNKS);
    RemoveMeaning(h, v, FIRST_USAGE_CHUNKS);
  }

  lemma FlushedHot(blks: nat, b: nat, t: Table, s: Bank, r: Bank)
    requires Inv(blks, b, t, s) && Flushed(blks, s, r, false)
    ensures HotSide(b, FlushTable(b, t, s.cold, false), r) == HotSide(b, t, s)
  {
    hide Inv, HeapOk, Val, FlushRow, ListShape, FlashShape, OwnerVal, CountSome;
    AsideFromHot(blks, b, t, s, s.cold.lbn);
    SameHot(b, t, s, FlushTable(b, t, s.cold, false), r);
  }

  lemma WholeHot(blks: nat, b: nat, t: Table, s: Bank)
    requires Inv(blks, b, t, s) && s.gc.state == GcWrite && s.cold.lbn < blks
    requires s.cold.lbn < |s.flash| && s.cold.page < |s.flash[s.cold.lbn]| && s.cold.page < |s.cold.lpns|
    ensures HotSide(b, WholeTable(b, t, s), WholeMoved(s)) == HotSide(b, t, s)
  {
    hide Inv, In, WholeRow;
    VictimAside(blks, b, t, s);
    AsideFromHot(blks, b, t, s, s.cold.lbn);
    SameHot(b, t, s, WholeTable(b, t, s), WholeMoved(s));
  }

  lemma VictimAside(blks: nat, b: nat, t: Table, s: Bank)
    requires Inv(blks, b, t, s) && s.gc.state != GcIdle
    ensures s.gc.victim < blks && RoleOf(s, s.gc.victim) in {SecondHeap, ColdHeap}
    ensures s.gc.victim != s.hot.lbn && !In(s.first, s.gc.victim)
  {
    hide Core, Live, In, RoleOf;
    AsideFromHot(blks, b, t, s, s.gc.victim);
  }

  /** A chunk of the cold side that is put in the cold buffer stays there. */
  lemma PutHot(b: nat, t: Table, s: Bank, k: Key, d: Chunk)
    requires OfBank(Look(t, k), b) && !OnHot(s, Look(t, k))
    requires CtrlShape(s.cold) && s.cold.ptr < CHUNKS_PER_PAGE
    ensures HotSide(b, t[k := Buf(b, false, s.cold.ptr)], PutSlot(s, false, k, d)) == HotSide(b, t, s)
  {
    hide In;
    SameHot(b, t, s, t[k := Buf(b, false, s.cold.ptr)], PutSlot(s, false, k, d));
  }

  lemma DroppedHot(blks: nat, b: nat, t: Table, s: Bank, k: Key, r: Bank)
    requires Inv(blks, b, t, s) && Dropped(blks, s, Look(t, k), r)
    requires Look(t, k) == Invalid || OfBank(Look(t, k), b)
    ensures r.hot.lbn == s.hot.lbn && forall l: nat {:trigger In(r.first, l)} :: In(r.first, l) <==> In(s.first, l)
  {
    hide Inv, HeapOk, Val, In, Valid, DecrementByN, Live, RoleOf;
    InvParts(blks, b, t, s);
    if Look(t, k).Flash? {
      var lbn := Look(t, k).lbn;
      CounterCoversLive(blks, b, t, s, k);
      OwnerPositive(blks, b, t, s, lbn);
      DecrementOne(blks, s.first, lbn);
      NotIn(blks, s.first);
      NotIn(blks, r.first);
    }
  }

  lemma NotIn(blks: nat, h: HeapState)
    requires HeapOk(blks, h)
    ensures forall l: nat {:trigger In(h, l)} :: l >= blks ==> !In(h, l)
  {
  }

  /** A chunk that the host writes to the cold log joins the cold side, wherever its old copy was. */
  lemma PutColdSide(blks: nat, b: nat, t: Table, s: Bank, k: Key, d: Chunk, r: Bank)
    requires Inv(blks, b, t, s) && Dropped(blks, s, Look(t, k), r)
    requires Look(t, k) == Invalid || OfBank(Look(t, k), b)
    requires CtrlShape(r.cold) && r.cold.ptr < CHUNKS_PER_PAGE
    ensures ColdSide(b, t[k := Buf(b, false, r.cold.ptr)], PutSlot(r, false, k, d)) == ColdSide(b, t, s) + {k}
  {
    hide Inv, In, Dropped;
    DroppedHot(blks, b, t, s, k, r);
    var u, q := t[k := Buf(b, false, r.cold.ptr)], PutSlot(r, false, k, d);
    forall j: Key
      ensures j in ColdSide(b, u, q) <==> j in ColdSide(b, t, s) || j == k
    {
      assert Look(u, j) == if j == k then Buf(b, false, r.cold.ptr) else Look(t, j);
    }
  }

  lemma ColdSideKept(b: nat, t: Table, s: Bank, u: Table, r: Bank)
    requires SameData(b, t, s, u, r) && HotSide(b, u, r) == HotSide(b, t, s)
    ensures ColdSide(b, u, r) == ColdSide(b, t, s)
  {
    hide Fetch, OnHot;
    forall k: Key
      ensures k in ColdSide(b, u, r) <==> k in ColdSide(b, t, s)
    {
      assert OfBank(Look(t, k), b) <==> OfBank(Look(u, k), b);
      assert k in HotSide(b, u, r) <==> k in HotSide(b, t, s);
    }
  }

  // ---------- How many chunks the cold side holds ----------

  /** The live chunks of the first n blocks of a heap. */
  function LiveOf(t: Table, b: nat, h: HeapState, n: nat): set<Key> {
    if n == 0 then {} else LiveOf(t, b, h, n - 1) + Live(t, b, At(h, n).lbn)
  }

  lemma {:induction false} LiveOfWhere(t: Table, b: nat, h: HeapState, n: nat)
    requires Valid(h) && n <= h.n
    ensures forall k: Key {:trigger Look(t, k)} :: k in LiveOf(t, b, h, n) ==>
      Look(t, k).Flash? && Look(t, k).bank == b && 1 <= Pos(h, Look(t, k).lbn) <= n
  {
    if n > 0 {
      LiveOfWhere(t, b, h, n - 1);
      assert At(h, n).lbn < |h.pos|;
    }
  }

  lemma {:induction false} LiveOfMany(t: Table, b: nat, h: HeapState, n: nat)
    requires Valid(h) && n <= h.n
    requires forall p: nat {:trigger At(h, p)} :: 1 <= p <= n ==>
      |Live(t, b, At(h, p).lbn)| >= SECOND_USAGE_CHUNKS
    ensures |LiveOf(t, b, h, n)| >= SECOND_USAGE_CHUNKS * n
  {
    if n > 0 {
      LiveOfMany(t, b, h, n - 1);
      LiveOfWhere(t, b, h, n - 1);
      assert Pos(h, At(h, n).lbn) == n;
      forall k | k in Live(t, b, At(h, n).lbn)
        ensures k !in LiveOf(t, b, h, n - 1)
      {
        assert Look(t, k).lbn == At(h, n).lbn;
      }
    }
  }

  lemma {:induction false} LiveOfFew(blks: nat, b: nat, t: Table, s: Bank, h: HeapState, n: nat)
    requires ForwardFlash(blks, b, t, s) && Injective(b, t)
    ensures |LiveOf(t, b, h, n)| <= SECOND_USAGE_CHUNKS * n
  {
    hide ForwardFlash, Injective, Live;
    if n > 0 {
      LiveOfFew(blks, b, t, s, h, n - 1);
      LiveBound(blks, b, t, s, At(h, n).lbn);
      UnionSize(LiveOf(t, b, h, n - 1), Live(t, b, At(h, n).lbn));
    }
  }

  lemma {:induction false} LiveOfAll(t: Table, b: nat, h: HeapState, n: nat, k: Key)
    requires Valid(h) && n <= h.n && Look(t, k).Flash? && Look(t, k).bank == b
    requires 1 <= Pos(h, Look(t, k).lbn) <= n && Look(t, k).lbn < |h.pos|
    ensures k in LiveOf(t, b, h, n)
  {
    if Pos(h, Look(t, k).lbn) < n {
      LiveOfAll(t, b, h, n - 1, k);
    } else {
      assert At(h, n).lbn == Look(t, k).lbn;
    }
  }

  lemma UnionSize<T>(a: set<T>, c: set<T>)
    ensures |a + c| <= |a| + |c|
  {
    assert a + c == a + (c - a);
  }

  /** The chunks in the first n slots of a buffer. */
  function Held(keys: seq<Option<Key>>, n: nat): (r: set<Key>)
    requires n <= |keys|
    ensures |r| <= n && forall i: nat {:trigger keys[i]} :: i < n && keys[i].Some? ==> keys[i].value in r
  {
    if n == 0 then {} else Held(keys, n - 1) + (if keys[n - 1].Some? then {keys[n - 1].value} else {})
  }

  /** An open block has no more live chunks than slots below its page. */
  lemma OpenLive(blks: nat, b: nat, t: Table, s: Bank)
    requires Core(blks, b, t, s) && s.cold.lbn < blks
    ensures |Live(t, b, s.cold.lbn)| <= CHUNKS_PER_PAGE * s.cold.page
  {
    hide HeapOk, Val, In, Accounts, AllUniform, Filled, ForwardBuf, ListShape, FlashShape, RoleOf, AllBlank, Injective;
    OpenRole(blks, s, false);
    var lbn, n := s.cold.lbn, CHUNKS_PER_PAGE * s.cold.page;
    assert forall k: Key {:trigger Look(t, k)} :: InBlock(Look(t, k), b, lbn) ==> Placed(blks, s, k, Look(t, k));
    LiveBelowBound(b, t, lbn, n);
    forall k: Key
      ensures k in Live(t, b, lbn) <==> k in LiveBelow(t, b, lbn, n)
    {
      assert InBlock(Look(t, k), b, lbn) ==> PageOk(s, lbn, Look(t, k).page, Look(t, k).encoded);
    }
    assert Live(t, b, lbn) == LiveBelow(t, b, lbn, n);
  }

  /** Every chunk of the cold side is in the cold buffer, the open cold block or a block the collector may choose. */
  lemma ColdWhere(blks: nat, b: nat, t: Table, s: Bank)
    requires Core(blks, b, t, s) && s.cold.lbn < blks
    ensures s.cold.ptr <= |s.cold.keys|
    ensures ColdSide(b, t, s) <= LiveOf(t, b, s.second, s.second.n) + LiveOf(t, b, s.coldHeap, s.coldHeap.n) +
                                 Live(t, b, s.cold.lbn) + Held(s.cold.keys, s.cold.ptr)
  {
    hide Ordered, Val, Accounts, AllUniform, Filled, ListShape, FlashShape, AllBlank, Injective, LiveOf, Held,
      EntryAt, ListOf;
    forall k | k in ColdSide(b, t, s)
      ensures k in LiveOf(t, b, s.second, s.second.n) + LiveOf(t, b, s.coldHeap, s.coldHeap.n) +
                   Live(t, b, s.cold.lbn) + Held(s.cold.keys, s.cold.ptr)
    {
      var l := Look(t, k);
      if l.Flash? {
        assert Placed(blks, s, k, l) && PageOk(s, l.lbn, l.page, l.encoded);
        RoleKnown(blks, s, l.lbn);
        if In(s.second, l.lbn) {
          LiveOfAll(t, b, s.second, s.second.n, k);
        } else if In(s.coldHeap, l.lbn) {
          LiveOfAll(t, b, s.coldHeap, s.coldHeap.n, k);
        }
      }
    }
  }

  lemma ColdAtMost(blks: nat, b: nat, t: Table, s: Bank)
    requires Inv(blks, b, t, s) && s.cold.lbn < blks
    ensures |ColdSide(b, t, s)| <= SECOND_USAGE_CHUNKS * Candidates(s) + CHUNKS_PER_PAGE * s.cold.page + s.cold.ptr
  {
    hide Core, Collecting, ColdSide, LiveOf, Held, Live;
    ColdWhere(blks, b, t, s);
    PartitionOf(blks, b, t, s);
    OpenLive(blks, b, t, s);
    hide Shape, Partition, ForwardFlash, Injective;
    LiveOfFew(blks, b, t, s, s.second, s.second.n);
    LiveOfFew(blks, b, t, s, s.coldHeap, s.coldHeap.n);
    var second, cold := LiveOf(t, b, s.second, s.second.n), LiveOf(t, b, s.coldHeap, s.coldHeap.n);
    var open, held := Live(t, b, s.cold.lbn), Held(s.cold.keys, s.cold.ptr);
    Subset(ColdSide(b, t, s), second + cold + open + held);
    UnionSize(second + cold + open, held);
    UnionSize(second + cold, open);
    UnionSize(second, cold);
  }

  /** Between collections, a block the collector may choose has as many live chunks as its counter says. */
  lemma CandidateLive(blks: nat, b: nat, t: Table, s: Bank, lbn: nat)
    requires Inv(blks, b, t, s) && s.gc.state == GcIdle && lbn < blks && (In(s.second, lbn) || In(s.coldHeap, lbn))
    ensures |Live(t, b, lbn)| >= LeastCount(s)
    ensures In(s.second, lbn) ==> !In(s.coldHeap, lbn)
  {
    hide Val, FlashShape, ListShape, AllUniform, ForwardBuf, Filled, ForwardFlash, Injective, Collecting, CtrlShape,
      Live;
    RoleKnown(blks, s, lbn);
    assert Account(b, t, s, lbn);
    if In(s.second, lbn) {
      VictimIsLeast(s.second);
    } else {
      VictimIsLeast(s.coldHeap);
    }
  }

  /** The collector takes the block with the fewest live chunks of all that it chooses from. */
  lemma CollectedLeast(blks: nat, b: nat, t: Table, s: Bank)
    requires Inv(blks, b, t, s) && s.gc.state == GcIdle && Candidates(s) > 0
    ensures NextVictim(s) < blks && |Live(t, b, NextVictim(s))| == LeastCount(s)
    ensures RoleOf(s, NextVictim(s)) == SecondHeap || RoleOf(s, NextVictim(s)) == ColdHeap
    ensures forall l: nat {:trigger Live(t, b, l)} :: l < blks && (In(s.second, l) || In(s.coldHeap, l)) ==>
      |Live(t, b, NextVictim(s))| <= |Live(t, b, l)|
  {
    hide Inv, Live, In, Victim, VictimCount, RoleOf;
    InitChoice(blks, b, t, s);
    VictimFacts(blks, b, t, s, !(VictimCount(s.coldHeap) < VictimCount(s.second)));
    forall l: nat {:trigger Live(t, b, l)} | l < blks && (In(s.second, l) || In(s.coldHeap, l))
      ensures |Live(t, b, NextVictim(s))| <= |Live(t, b, l)|
    {
      CandidateLive(blks, b, t, s, l);
    }
  }

  /** If the collector finds only blocks full of live chunks, they are that many. */
  lemma ColdAtLeast(blks: nat, b: nat, t: Table, s: Bank)
    requires Inv(blks, b, t, s) && s.gc.state == GcIdle && LeastCount(s) >= SECOND_USAGE_CHUNKS
    ensures |ColdSide(b, t, s)| >= SECOND_USAGE_CHUNKS * Candidates(s)
  {
    hide Inv, Live, VictimCount, Val, LeastCount;
    InvParts(blks, b, t, s);
    var second, cold := LiveOf(t, b, s.second, s.second.n), LiveOf(t, b, s.coldHeap, s.coldHeap.n);
    forall p: nat {:trigger At(s.second, p)} | 1 <= p <= s.second.n
      ensures |Live(t, b, At(s.second, p).lbn)| >= SECOND_USAGE_CHUNKS
    {
      CandidateLive(blks, b, t, s, At(s.second, p).lbn);
    }
    forall p: nat {:trigger At(s.coldHeap, p)} | 1 <= p <= s.coldHeap.n
      ensures |Live(t, b, At(s.coldHeap, p).lbn)| >= SECOND_USAGE_CHUNKS
    {
      CandidateLive(blks, b, t, s, At(s.coldHeap, p).lbn);
    }
    LiveOfMany(t, b, s.second, s.second.n);
    LiveOfMany(t, b, s.coldHeap, s.coldHeap.n);
    LiveOfWhere(t, b, s.second, s.second.n);
    LiveOfWhere(t, b, s.coldHeap, s.coldHeap.n);
    hide HeapOk, LiveOf;
    forall k | k in second
      ensures k !in cold && k in ColdSide(b, t, s)
    {
      CandidateAside(blks, b, t, s, Look(t, k).lbn);
    }
    forall k | k in cold
      ensures k in ColdSide(b, t, s)
    {
      CandidateAside(blks, b, t, s, Look(t, k).lbn);
    }
    assert second !! cold;
    Subset(second + cold, ColdSide(b, t, s));
  }

  lemma CandidateAside(blks: nat, b: nat, t: Table, s: Bank, lbn: nat)
    requires Inv(blks, b, t, s) && (In(s.second, lbn) || In(s.coldHeap, lbn))
    ensures lbn < blks && lbn != s.hot.lbn && !In(s.first, lbn) && !(In(s.second, lbn) && In(s.coldHeap, lbn))
  {
    hide Val, FlashShape, ListShape, AllUniform, ForwardBuf, Filled, ForwardFlash, Injective, Collecting, CtrlShape,
      Live,
      Accounts, Ordered;
    RoleKnown(blks, s, lbn);
  }

  // ---------- Blocks ----------

  lemma HeapBlocks(blks: nat, h: HeapState)
    requires HeapOk(blks, h)
    ensures |FirstBlocks(h, h.n)| <= h.n
    ensures forall l: nat {:trigger In(h, l)} :: l < blks && In(h, l) ==> l in FirstBlocks(h, h.n)
  {
    FirstBlocksCount(h, h.n);
    assert forall l: nat {:trigger Pos(h, l)} :: l < blks ==> At(h, Pos(h, l)).lbn == l;
  }

  /** Every block is open, clean or in a heap. */
  lemma BlocksCounted(blks: nat, s: Bank)
    requires Shape(blks, s) && Partition(blks, s)
    ensures blks <= 2 + |s.clean| + s.first.n + Candidates(s)
  {
    hide HeapOk, ListShape, FlashShape, CtrlShape, In, FirstBlocks;
    HeapBlocks(blks, s.first);
    HeapBlocks(blks, s.second);
    HeapBlocks(blks, s.coldHeap);
    var all, open, clean := UpTo(blks), {s.hot.lbn, s.cold.lbn}, Elements(s.clean);
    hide Elements, UpTo;
    var first, second, cold := FirstBlocks(s.first, s.first.n), FirstBlocks(s.second, s.second.n),
      FirstBlocks(s.coldHeap, s.coldHeap.n);
    forall l: nat | l in all
      ensures l in open + clean + first + second + cold
    {
      assert OneRole(s, l);
    }
    Subset(all, open + clean + first + second + cold);
    UnionSize(open + clean + first + second, cold);
    UnionSize(open + clean + first, second);
    UnionSize(open + clean, first);
    UnionSize(open, clean);
  }

  lemma BlocksCountedIn(blks: nat, b: nat, t: Table, s: Bank)
    requires Inv(blks, b, t, s)
    ensures blks <= 2 + |s.clean| + s.first.n + Candidates(s)
  {
    hide Shape, Partition, ForwardFlash, ForwardBuf, Injective, Filled, AllUniform, AllBlank, Accounts, Collecting;
    BlocksCounted(blks, s);
  }

  lemma {:induction false} FirstBlocksExact(h: HeapState, n: nat)
    requires Valid(h) && n <= h.n
    ensures |FirstBlocks(h, n)| == n
    ensures forall l: nat {:trigger l in FirstBlocks(h, n)} :: l in FirstBlocks(h, n) ==>
      l < |h.pos| && 1 <= Pos(h, l) <= n
  {
    hide Valid, At, Pos;
    if n > 0 {
      FirstBlocksExact(h, n - 1);
      BlockAt(h, n);
      assert At(h, n).lbn !in FirstBlocks(h, n - 1);
    }
  }

  lemma BlockAt(h: HeapState, p: nat)
    requires Valid(h) && 1 <= p <= h.n
    ensures At(h, p).lbn < |h.pos| && Pos(h, At(h, p).lbn) == p
  {
  }

  lemma HeapBlocksExact(blks: nat, h: HeapState)
    requires HeapOk(blks, h)
    ensures |FirstBlocks(h, h.n)| == h.n
    ensures forall l: nat {:trigger l in FirstBlocks(h, h.n)} :: l in FirstBlocks(h, h.n) ==> l < blks && In(h, l)
  {
    FirstBlocksExact(h, h.n);
  }

  lemma ApartSizes(a: set<nat>, c: set<nat>, d: set<nat>, e: set<nat>)
    requires a !! c && a !! d && a !! e && c !! d && c !! e && d !! e
    ensures |a + c + d + e| == |a| + |c| + |d| + |e|
  {
    assert |a + c| == |a| + |c|;
    assert |a + c + d| == |a + c| + |d|;
  }

  lemma OneOf(blks: nat, s: Bank)
    requires Partition(blks, s)
    ensures forall l: nat {:trigger l in s.clean} {:trigger In(s.first, l)} {:trigger In(s.second, l)}
      {:trigger In(s.coldHeap, l)} :: l < blks ==>
        && (l == s.hot.lbn || l == s.cold.lbn ==>
              l !in s.clean && !In(s.first, l) && !In(s.second, l) && !In(s.coldHeap, l))
        && (l in s.clean ==> !In(s.first, l) && !In(s.second, l) && !In(s.coldHeap, l))
        && (In(s.first, l) ==> !In(s.second, l) && !In(s.coldHeap, l)) && (In(s.second, l) ==> !In(s.coldHeap, l))
    ensures s.cold.lbn < blks ==> s.cold.lbn != s.hot.lbn
    ensures forall l: nat {:trigger l in s.clean} :: l in s.clean ==> l < blks
  {
    hide In;
    forall l: nat | l < blks
      ensures l == s.hot.lbn || l == s.cold.lbn ==>
        l !in s.clean && !In(s.first, l) && !In(s.second, l) && !In(s.coldHeap, l)
      ensures l in s.clean ==> !In(s.first, l) && !In(s.second, l) && !In(s.coldHeap, l)
      ensures In(s.first, l) ==> !In(s.second, l) && !In(s.coldHeap, l)
      ensures In(s.second, l) ==> !In(s.coldHeap, l)
    {
      RoleKnown(blks, s, l);
    }
    if s.cold.lbn < blks {
      RoleKnown(blks, s, s.cold.lbn);
    }
  }

  lemma HeapsApart(blks: nat, g: HeapState, h: HeapState)
    requires HeapOk(blks, g) && HeapOk(blks, h)
    requires forall l: nat {:trigger In(g, l)} :: l < blks && In(g, l) ==> !In(h, l)
    ensures FirstBlocks(g, g.n) !! FirstBlocks(h, h.n)
  {
    hide HeapOk, FirstBlocks, In;
    HeapBlocksExact(blks, g);
    HeapBlocksExact(blks, h);
  }

  /** Blocks that are not in the heap. */
  lemma HeapApartFrom(blks: nat, h: HeapState, others: set<nat>)
    requires HeapOk(blks, h) && forall l: nat {:trigger l in others} :: l in others ==> l < blks && !In(h, l)
    ensures others !! FirstBlocks(h, h.n) && |FirstBlocks(h, h.n)| == h.n
    ensures forall l: nat {:trigger l in FirstBlocks(h, h.n)} :: l in FirstBlocks(h, h.n) ==> l < blks
  {
    hide HeapOk, FirstBlocks, In;
    HeapBlocksExact(blks, h);
  }

  /** No block is counted twice. */
  lemma BlocksApart(blks: nat, s: Bank)
    requires Shape(blks, s) && Partition(blks, s) && s.hot.lbn < blks && s.cold.lbn < blks
    ensures 2 + |s.clean| + s.first.n + Candidates(s) <= blks
  {
    hide HeapOk, ListShape, FlashShape, CtrlShape, FirstBlocks, In, Elements, UpTo, Partition, OneRole, RoleOf;
    CleanDistinct(blks, s);
    OneOf(blks, s);
    HeapsApart(blks, s.first, s.second);
    HeapsApart(blks, s.first, s.coldHeap);
    HeapsApart(blks, s.second, s.coldHeap);
    var others := {s.hot.lbn, s.cold.lbn} + Elements(s.clean);
    HeapApartFrom(blks, s.first, others);
    HeapApartFrom(blks, s.second, others);
    HeapApartFrom(blks, s.coldHeap, others);
    var first, second, cold := FirstBlocks(s.first, s.first.n), FirstBlocks(s.second, s.second.n),
      FirstBlocks(s.coldHeap, s.coldHeap.n);
    assert |others| == 2 + |s.clean| by {
      assert {s.hot.lbn, s.cold.lbn} !! Elements(s.clean);
    }
    ApartSizes(others, first, second, cold);
    Subset(others + first + second + cold, UpTo(blks));
  }

  lemma CleanDistinct(blks: nat, s: Bank)
    requires Partition(blks, s)
    ensures |Elements(s.clean)| == |s.clean|
  {
    hide OneRole;
    ElementsCount(s.clean);
  }

  lemma BlocksApartIn(blks: nat, b: nat, t: Table, s: Bank)
    requires Inv(blks, b, t, s) && s.hot.lbn < blks && s.cold.lbn < blks
    ensures 2 + |s.clean| + s.first.n + Candidates(s) <= blks
  {
    hide Shape, Partition, ForwardFlash, ForwardBuf, Injective, Filled, AllUniform, AllBlank, Accounts, Collecting;
    BlocksApart(blks, s);
  }

  // ---------- When two clean blocks can be had ----------

  /** The chunks do not fill all blocks but the used-once ones, the two open ones and one clean block. */
  predicate Spacious(blks: nat, s: Bank, chunks: set<Key>) {
    |chunks| < SECOND_USAGE_CHUNKS * (blks - 3 - s.first.n)
  }

  /** Two clean blocks and an open cold block that can take a chunk leave less room than that for the cold side. */
  lemma TwoCleanSpacious(blks: nat, b: nat, t: Table, s: Bank)
    requires Inv(blks, b, t, s) && ColdReady(blks, s) && s.hot.lbn < blks && |s.clean| >= 2
    ensures Spacious(blks, s, ColdSide(b, t, s))
  {
    hide Inv, ColdSide;
    ColdAtMost(blks, b, t, s);
    BlocksApartIn(blks, b, t, s);
  }

  /** With one clean block, if the cold side has the room, some block the collector may choose is not full. */
  lemma SpaciousLeast(blks: nat, b: nat, t: Table, s: Bank)
    requires Inv(blks, b, t, s) && s.gc.state == GcIdle && |s.clean| <= 1 && Spacious(blks, s, ColdSide(b, t, s))
    ensures LeastCount(s) < SECOND_USAGE_CHUNKS
  {
    hide Inv, ColdSide, VictimCount;
    if LeastCount(s) >= SECOND_USAGE_CHUNKS {
      ColdAtLeast(blks, b, t, s);
      BlocksCountedIn(blks, b, t, s);
      assert false;
    }
  }

  /** A cold roll-over that starts with s keeps or regains two clean blocks. */
  predicate Fits(blks: nat, s: Bank, chunks: set<Key>) {
    |s.clean| > 2 || Spacious(blks, s, chunks)
  }

  lemma RoomLeast(blks: nat, b: nat, t: Table, s: Bank)
    requires Inv(blks, b, t, s)
    ensures s.gc.state == GcIdle && |s.clean| <= 1 && Spacious(blks, s, ColdSide(b, t, s)) ==>
      LeastCount(s) < SECOND_USAGE_CHUNKS
  {
    hide Inv, ColdSide, LeastCount;
    if s.gc.state == GcIdle && |s.clean| <= 1 && Spacious(blks, s, ColdSide(b, t, s)) {
      SpaciousLeast(blks, b, t, s);
    }
  }

  lemma RoomTwo(blks: nat, b: nat, t: Table, s: Bank)
    requires Inv(blks, b, t, s) && ColdReady(blks, s)
    ensures s.hot.lbn < blks && |s.clean| >= 2 ==> Spacious(blks, s, ColdSide(b, t, s))
  {
    hide Inv, ColdSide;
    if s.hot.lbn < blks && |s.clean| >= 2 {
      TwoCleanSpacious(blks, b, t, s);
    }
  }

  lemma SpaciousSame(blks: nat, s: Bank, r: Bank, chunks: set<Key>)
    requires r.first.n == s.first.n
    ensures Spacious(blks, r, chunks) <==> Spacious(blks, s, chunks)
  {
  }

  // ---------- A victim that crosses from one cold block to the next ----------

  /** A collection with this slack is sure to be carried through: what is left of the victim fits the open cold block,
      or re-entries may nest deep enough and the cold side has room. */
  ghost predicate Carried(blks: nat, b: nat, t: Table, s: Bank, slack: int, fuel: nat) {
    slack > 0 || (fuel + slack > 0 && Spacious(blks, s, ColdSide(b, t, s)))
  }

  lemma SpaciousKept(blks: nat, b: nat, t: Table, s: Bank, u: Table, r: Bank)
    requires SameData(b, t, s, u, r) && HotSide(b, u, r) == HotSide(b, t, s) && r.first.n == s.first.n
    ensures Spacious(blks, r, ColdSide(b, u, r)) <==> Spacious(blks, s, ColdSide(b, t, s))
  {
    hide SameData, HotSide, ColdSide;
    ColdSideKept(b, t, s, u, r);
  }

  lemma SnugSlack(b: nat, t: Table, s: Bank)
    ensures Snug(b, t, s) <==> Slack(b, t, s) > 0
  {
  }

  lemma SameSlack(b: nat, t: Table, s: Bank, r: Bank)
    requires r.cold == s.cold && r.gc.victim == s.gc.victim
    ensures Slack(b, t, r) == Slack(b, t, s)
  {
  }

  lemma RoomBound(blks: nat, b: nat, t: Table, s: Bank)
    requires ColdReady(blks, s)
    ensures 0 < Room(s) <= SECOND_USAGE_CHUNKS && Slack(b, t, s) <= SECOND_USAGE_CHUNKS
  {
  }

  /** Re-entries may nest deep enough to collect any block that is not full of live chunks, one such block after the
      other: every one of them leaves more room than there was. */
  predicate Deep(b: nat, t: Table, s: Bank, fuel: nat) {
    if s.gc.state == GcIdle then fuel + Room(s) > SECOND_USAGE_CHUNKS
      else Slack(b, t, s) > 0 && fuel + Slack(b, t, s) > SECOND_USAGE_CHUNKS
  }

  lemma DeepEnough(blks: nat, b: nat, t: Table, s: Bank, fuel: nat)
    requires ColdReady(blks, s) && s.gc.state == GcIdle
    ensures fuel >= SECOND_USAGE_CHUNKS ==> Deep(b, t, s, fuel)
  {
  }

  /** A fresh cold block has room for 1016 chunks more. */
  lemma RolledSlack(b: nat, t: Table, s: Bank, r: Bank)
    requires s.cold.page == USED_PAGES - 1 && r.cold.page == 0 && r.cold.ptr == s.cold.ptr && r.gc == s.gc
    ensures Slack(b, t, r) == Slack(b, t, s.(cold := s.cold.(page := s.cold.page + 1))) + SECOND_USAGE_CHUNKS
    ensures Slack(b, t, r) <= SECOND_USAGE_CHUNKS
  {
  }

  /** So a collection that is carried through re-enters deep enough. */
  lemma RolledDeep(blks: nat, b: nat, t: Table, s: Bank, r: Bank, fuel: nat)
    requires s.cold.page == USED_PAGES - 1 && r.cold.page == 0 && r.cold.ptr == s.cold.ptr && r.gc == s.gc
    requires SameData(b, t, s, t, r) && HotSide(b, t, r) == HotSide(b, t, s) && r.first.n == s.first.n
    ensures s.gc.state != GcIdle && Snug(b, t, r) ==>
      Carried(blks, b, t, s, Slack(b, t, s.(cold := s.cold.(page := s.cold.page + 1))), fuel) ==>
        Spacious(blks, r, ColdSide(b, t, r)) && Deep(b, t, r, fuel)
  {
    hide SameData, HotSide, ColdSide, Spacious, Slack;
    RolledSlack(b, t, s, r);
    SnugSlack(b, t, r);
    SpaciousKept(blks, b, t, s, t, r);
  }

  /** A flush moves what is in the buffer to the page the block stood on. */
  lemma FlushSlack(blks: nat, b: nat, t: Table, s: Bank, r: Bank)
    requires Inv(blks, b, t, s) && Flushed(blks, s, r, false) && s.gc.state != GcIdle
    requires s.cold.ptr == Capacity(s.cold) && Ready(s.cold) && s.cold.usage == ColdLog && !s.cold.recycled
    ensures Slack(b, FlushTable(b, t, s.cold, false), r.(cold := r.cold.(page := r.cold.page + 1))) == Slack(b, t, s)
  {
    hide Core, HeapOk, Live, In, RoleOf, FlushRow, CountSome, FlashShape, ListShape;
    FlushVictim(blks, b, t, s, r, false);
    LiveElsewhere(t, b, FromBuf(false), CHUNKS_PER_PAGE, s.cold.lbn, s.cold.page, false, s.gc.victim);
    assert r.cold.page == s.cold.page && r.cold.ptr == 0 && r.gc == s.gc;
  }
}
