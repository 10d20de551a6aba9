/** The hot log of a bank: opening and reusing blocks, accepting low pages, programming recycled pages. */
module BankHot {
  import opened Heap
  import opened BankState
  import opened BankSteps
  import opened BankPages
  import opened BankLog
  import opened BankBlocks
  import opened BankGc

  /** The bank while the hot log has no open block. */
  function NoBlock(blks: nat, s: Bank): Bank {
    s.(hot := s.hot.(lbn := blks))
  }

  /** The bank while no low page is accepted for reuse. */
  function NoNext(s: Bank): Bank {
    s.(hot := s.hot.(next := None))
  }

  // ---------- Which pages a second usage goes to ----------

  /** On the high page where the log stands it is known whether the low page after it can be reused: it can before
      page 126 if none of its chunks is live. */
  ghost predicate Tested(b: nat, t: Table, c: Ctrl) {
    c.next == if c.page + 1 < USED_PAGES - 1 && FreeOfLive(t, b, c.lbn, c.page + 1) then Some(c.page + 1) else None
  }

  /** From the page that c stands on, just programmed, to the page of d: the low page after a high page if it tested
      positively there, page 1 after page 0 if none of its chunks is live, otherwise the next high page, where
      the low page after it is tested. */
  ghost predicate SecondMove(b: nat, t: Table, c: Ctrl, d: Ctrl) {
    var taken := c.page % 2 == 0 && (c.next == Some(c.page + 1) || (c.page == 0 && FreeOfLive(t, b, c.lbn, 1)));
    if taken then d.page == c.page + 1 && d.next == Some(d.page) && d.recycled
    else d.page == (if c.page % 2 == 0 then c.page + 2 else c.page + 1) && Tested(b, t, d) && !d.recycled
  }

  lemma MovesLow(b: nat, t: Table, c: Ctrl, d: Ctrl)
    requires c.page % 2 == 0 && d.page == c.page + 1 && d.next == Some(d.page) && d.recycled
    requires c.next == Some(c.page + 1) || (c.page == 0 && FreeOfLive(t, b, c.lbn, 1))
    ensures SecondMove(b, t, c, d)
  {
    hide FreeOfLive, Tested;
  }

  lemma MovesOn(b: nat, t: Table, c: Ctrl, d: Ctrl)
    requires c.page % 2 == 0 && d.page == c.page + 2 && d.usage == HotSecond && Discipline(d) && Tested(b, t, d)
    requires c.next != Some(c.page + 1) && (c.page == 0 ==> !FreeOfLive(t, b, c.lbn, 1))
    ensures SecondMove(b, t, c, d)
  {
    hide FreeOfLive, Tested;
  }

  lemma SameMove(b: nat, t: Table, c: Ctrl, d: Ctrl, e: Ctrl)
    requires d.page == c.page && d.next == c.next && d.lbn == c.lbn
    ensures SecondMove(b, t, c, e) <==> SecondMove(b, t, d, e)
  {
  }

  /** A second usage starts on the first of the pages 0, 1 and 2 that can be programmed: a low page none of whose
      chunks is live, with room for four encoded chunks, or else page 2, with room for eight. */
  ghost predicate FirstPageOk(b: nat, t: Table, c: Ctrl) {
    && (c.page == 0 <==> FreeOfLive(t, b, c.lbn, 0))
    && (c.page == 1 <==> !FreeOfLive(t, b, c.lbn, 0) && FreeOfLive(t, b, c.lbn, 1))
    && c.page <= 2 && (c.recycled <==> c.page <= 1) && (c.page == 2 ==> Tested(b, t, c))
  }

  lemma AllLeft()
    ensures SecondLeft(0) == SecondLeft(1) == SecondLeft(2) == 63
  {
  }

  lemma StartsLow(b: nat, t: Table, c: Ctrl)
    requires c.usage == HotSecond && Discipline(c) && c.page <= 1 && FreeOfLive(t, b, c.lbn, c.page)
    requires c.page == 1 ==> !FreeOfLive(t, b, c.lbn, 0)
    ensures FirstPageOk(b, t, c)
  {
    hide FreeOfLive;
  }

  lemma StartsHigh(b: nat, t: Table, c: Ctrl, d: Ctrl)
    requires c.page == 1 && SecondMove(b, t, c, d) && d.lbn == c.lbn
    requires !FreeOfLive(t, b, c.lbn, 0) && !FreeOfLive(t, b, c.lbn, 1)
    ensures FirstPageOk(b, t, d)
  {
    hide FreeOfLive;
  }

  // ---------- The control block moves on ----------

  /** In its second usage the hot log may move to a later page that owes the same high pages, and switch
      between 4-slot and 8-slot buffering while the buffer is empty. */
  lemma HotStep(blks: nat, b: nat, t: Table, s: Bank, r: Bank)
    requires Inv(blks, b, t, s) && s.gc.state == GcIdle && s.hot.usage == HotSecond && s.hot.ptr == 0
    requires r == s.(hot := s.hot.(page := r.hot.page, recycled := r.hot.recycled))
    requires s.hot.page <= r.hot.page <= USED_PAGES && SecondLeft(r.hot.page) == SecondLeft(s.hot.page)
    ensures Inv(blks, b, t, r)
  {
    hide HeapOk, Val, In, Live, Injective, FlashShape, Uniform;
    SameRolesBy(blks, s, r);
    hide RoleOf;
    forall l: nat {:trigger OneRole(r, l)} | l < blks
      ensures OneRole(r, l)
    {
      assert OneRole(s, l) && RoleOf(r, l) == RoleOf(s, l);
    }
    forall k: Key {:trigger Look(t, k)} | OfBank(Look(t, k), b) && Look(t, k).Flash?
      ensures Placed(blks, r, k, Look(t, k))
    {
      assert Placed(blks, s, k, Look(t, k)) && RoleOf(r, Look(t, k).lbn) == RoleOf(s, Look(t, k).lbn);
    }
    forall l: nat {:trigger ListOf(r, l)} | l < blks
      ensures UniformList(ListOf(r, l)) && (RoleOf(r, l) == FirstHeap ==> ListShape(ListOf(r, l)))
    {
      assert RoleOf(r, l) == RoleOf(s, l) && ListOf(r, l) == ListOf(s, l) && UniformList(ListOf(s, l));
    }
    forall l: nat {:trigger Account(b, t, r, l)} | l < blks
      ensures Account(b, t, r, l)
    {
      assert Account(b, t, s, l) && RoleOf(r, l) == RoleOf(s, l);
    }
    forall l: nat, q: nat {:trigger Blank(r, l, q)} | l < blks && Blank(r, l, q)
      ensures PageAt(r.flash, l, q) == Erased
    {
      assert RoleOf(r, l) == RoleOf(s, l) && Blank(s, l, q);
    }
    FilledKept(b, t, s, t, r, true);
    FilledKept(b, t, s, t, r, false);
  }

  lemma SameRolesBy(blks: nat, s: Bank, r: Bank)
    requires r.hot.lbn == s.hot.lbn && r.cold.lbn == s.cold.lbn && r.first == s.first && r.second == s.second &&
      r.coldHeap == s.coldHeap
    ensures forall l: nat {:trigger RoleOf(r, l)} :: RoleOf(r, l) == RoleOf(s, l)
  {
  }

  /** While it has no open block, the page, usage and mode of the hot control block say nothing. */
  lemma HotVacant(blks: nat, b: nat, t: Table, s: Bank, r: Bank)
    requires Inv(blks, b, t, s) && s.gc.state == GcIdle && s.hot.lbn == blks && s.hot.ptr == 0
    requires r == s.(hot := s.hot.(page := r.hot.page, usage := r.hot.usage, recycled := r.hot.recycled))
    requires r.hot.page <= USED_PAGES && r.hot.usage != ColdLog && r.hot.next == None
    ensures Inv(blks, b, t, r)
  {
    hide HeapOk, Val, In, Live, Injective, FlashShape, Uniform;
    SameRolesBy(blks, s, r);
    forall l: nat | l < blks
      ensures RoleOf(s, l) != OpenHot
    {
      OtherRole(s, true, l);
    }
    hide RoleOf;
    forall l: nat {:trigger OneRole(r, l)} | l < blks
      ensures OneRole(r, l)
    {
      assert OneRole(s, l) && RoleOf(r, l) == RoleOf(s, l);
    }
    forall k: Key {:trigger Look(t, k)} | OfBank(Look(t, k), b) && Look(t, k).Flash?
      ensures Placed(blks, r, k, Look(t, k))
    {
      assert Placed(blks, s, k, Look(t, k)) && RoleOf(r, Look(t, k).lbn) == RoleOf(s, Look(t, k).lbn);
    }
    forall l: nat {:trigger ListOf(r, l)} | l < blks
      ensures UniformList(ListOf(r, l)) && (RoleOf(r, l) == FirstHeap ==> ListShape(ListOf(r, l)))
    {
      assert RoleOf(r, l) == RoleOf(s, l) && ListOf(r, l) == ListOf(s, l) && UniformList(ListOf(s, l));
    }
    forall l: nat {:trigger Account(b, t, r, l)} | l < blks
      ensures Account(b, t, r, l)
    {
      assert Account(b, t, s, l) && RoleOf(r, l) == RoleOf(s, l);
    }
    forall l: nat, q: nat {:trigger Blank(r, l, q)} | l < blks && Blank(r, l, q)
      ensures PageAt(r.flash, l, q) == Erased
    {
      assert RoleOf(r, l) == RoleOf(s, l) && Blank(s, l, q);
    }
    FilledKept(b, t, s, t, r, true);
    FilledKept(b, t, s, t, r, false);
  }

  // ---------- The hot block is full ----------

  lemma HotClosed(blks: nat, b: nat, t: Table, s: Bank)
    requires Inv(blks, b, t, s) && s.gc.state == GcIdle && s.hot.lbn < blks && s.hot.ptr == 0
    requires s.hot.page == ListPageOf(s.hot.usage) && s.hot.next == None
    ensures HeapOk(blks, s.first) && HeapOk(blks, s.second) && HeapOk(blks, s.coldHeap) && FlashShape(blks, s.flash)
    ensures OneRole(s, s.hot.lbn) && RoleOf(s, s.hot.lbn) in {OpenHot, OpenCold}
    ensures !In(s.first, s.hot.lbn) && !In(s.second, s.hot.lbn)
    ensures Inv(blks, b, t, Closed(blks, s, true)) && SameData(b, t, s, t, Closed(blks, s, true))
  {
    hide HeapOk, Val, In, Insert, RoleOf, ForwardFlash, Accounts, AllUniform, Injective, Filled, ForwardBuf, ListShape;
    CloseKeepsCore(blks, b, t, s, true);
    CloseKeepsData(blks, b, t, s, true);
    OpenRole(blks, s, true);
  }

  /** What the source does to a full hot block is Closed, up to the page field. */
  lemma ClosedHotCode(blks: nat, s: Bank)
    requires HeapOk(blks, s.first) && HeapOk(blks, s.second) && HeapOk(blks, s.coldHeap) && FlashShape(blks, s.flash)
    requires s.hot.lbn < blks && OneRole(s, s.hot.lbn) && RoleOf(s, s.hot.lbn) in {OpenHot, OpenCold} &&
      s.hot.usage != ColdLog
    requires !In(s.first, s.hot.lbn) && !In(s.second, s.hot.lbn)
    ensures Valid(s.first) && Valid(s.second) && |s.first.pos| == blks && |s.second.pos| == blks
    ensures var flash := SetPage(s.flash, s.hot.lbn, ListPageOf(s.hot.usage), ListPage(s.hot.lpns));
      Closed(blks, s, true) ==
        NoBlock(blks, if s.hot.usage == HotFirst
                      then s.(flash := flash, first := Insert(s.first, s.hot.lbn), hot := s.hot.(lpns := EmptyList()))
                      else s.(flash := flash, second := Insert(s.second, s.hot.lbn),
                        hot := s.hot.(lpns := EmptyList())))
  {
    hide Ordered, Insert, In;
  }

  // ---------- The next hot block ----------

  lemma HotOpened(blks: nat, b: nat, t: Table, s: Bank)
    requires Inv(blks, b, t, s) && s.gc.state == GcIdle && s.hot.lbn == blks && s.hot.ptr == 0 && |s.clean| > 0
    requires forall p: nat, i: nat {:trigger EntryAt(s.hot.lpns, p, i)} :: EntryAt(s.hot.lpns, p, i) == NoLpn
    ensures Inv(blks, b, t, OpenedClean(s, true)) && SameData(b, t, s, t, OpenedClean(s, true)) && s.clean[0] < blks
  {
    hide Core, Live, SameData;
    OpenCleanKeepsCore(blks, b, t, s, true);
    SameStoreData(b, t, s, OpenedClean(s, true));
    assert s.clean[0] < blks by {
      PartitionOf(blks, b, t, s);
    }
  }

  lemma PartitionOf(blks: nat, b: nat, t: Table, s: Bank)
    requires Core(blks, b, t, s)
    ensures Partition(blks, s) && ForwardFlash(blks, b, t, s) && Injective(b, t) && Shape(blks, s)
  {
  }

  /** The least of the first-usage heap is a used-once block at the root. */
  lemma UsedOnceVictim(blks: nat, b: nat, t: Table, s: Bank)
    requires Inv(blks, b, t, s) && s.first.n > 0
    ensures var v := Victim(s.first);
      && v < blks && Pos(s.first, v) == 1 && VictimCount(s.first) == Val(s.first, v) < U16
      && (s.hot.lbn != v ==> RoleOf(s, v) == FirstHeap)
  {
    hide Ordered, Live, ForwardBuf, Filled, AllUniform, FlashShape, CtrlShape, Accounts, ForwardFlash, Injective;
    VictimIsLeast(s.first);
    RoleKnown(blks, s, Victim(s.first));
  }

  lemma HotReused(blks: nat, b: nat, t: Table, s: Bank)
    requires Inv(blks, b, t, s) && s.gc.state == GcIdle && s.hot.lbn == blks && s.hot.ptr == 0 && s.first.n > 0
    ensures HeapOk(blks, s.first) && HeapOk(blks, s.second) && HeapOk(blks, s.coldHeap)
    ensures var v := Victim(s.first);
      && v < blks && VictimCount(s.first) == Val(s.first, v) < U16
      && Inv(blks, b, t, OpenedReuse(blks, s, v)) && SameData(b, t, s, t, OpenedReuse(blks, s, v))
  {
    hide Core, Live, SameData, Val, Victim, VictimCount;
    UsedOnceVictim(blks, b, t, s);
    assert HeapOk(blks, s.first) && HeapOk(blks, s.second) && HeapOk(blks, s.coldHeap) by {
      PartitionOf(blks, b, t, s);
    }
    var v := Victim(s.first);
    ReuseKeepsCore(blks, b, t, s, v);
    SameStoreData(b, t, s, OpenedReuse(blks, s, v));
  }

  /** canReuseLowPage accepts a page without live chunks. */
  lemma HotAccepted(blks: nat, b: nat, t: Table, s: Bank, page: nat)
    requires Inv(blks, b, t, s) && s.gc.state == GcIdle && s.hot.lbn < blks && s.hot.usage == HotSecond &&
      s.hot.next == None
    requires page < PAGES_PER_BLK && LowPage(page)
    requires FreeOfLive(t, b, s.hot.lbn, page)
    ensures HeapOk(blks, s.second)
    ensures var r := Accepted(blks, s, page); Inv(blks, b, t, r.(hot := r.hot.(next := Some(page))))
  {
    hide Live, Val, In, IncrementByN, RoleOf, OneRole, ListShape, FlashShape;
    OpenHotBound(blks, b, t, s);
    AcceptKeepsCore(blks, b, t, s, page);
  }

  lemma OpenHotBound(blks: nat, b: nat, t: Table, s: Bank)
    requires Core(blks, b, t, s) && s.hot.lbn < blks && s.hot.usage == HotSecond && s.hot.next == None
    ensures Val(s.second, s.hot.lbn) + 8 < U16
  {
    hide HeapOk, Live, Val, In, ForwardBuf, Filled, AllUniform, FlashShape, CtrlShape;
    OpenRole(blks, s, true);
    assert Account(b, t, s, s.hot.lbn);
    LiveBound(blks, b, t, s, s.hot.lbn);
  }

  /** Ahead of the hot log's page, live chunks of low pages are plain and stand at entries with their lpn. */
  lemma AheadEntries(blks: nat, b: nat, t: Table, s: Bank, page: nat)
    requires Inv(blks, b, t, s) && s.hot.lbn < blks && s.hot.usage == HotSecond && s.hot.page <= page && LowPage(page)
    ensures forall k: Key {:trigger Look(t, k)} :: InBlock(Look(t, k), b, s.hot.lbn) && Look(t, k).page == page ==>
      var l := Look(t, k);
      && l == Flash(b, s.hot.lbn, page, l.chunk, false) && l.chunk < CHUNKS_PER_PAGE && k.idx < CHUNKS_PER_PAGE
      && EntryAt(s.hot.lpns, page, l.chunk) == Lpn(k.lpn, false)
  {
    hide HeapOk, Live, Val, In, ForwardBuf, Filled, AllUniform, FlashShape, CtrlShape, Accounts, Collecting;
    OpenRole(blks, s, true);
    forall k: Key {:trigger Look(t, k)} | InBlock(Look(t, k), b, s.hot.lbn) && Look(t, k).page == page
      ensures var l := Look(t, k);
        && l == Flash(b, s.hot.lbn, page, l.chunk, false) && l.chunk < CHUNKS_PER_PAGE && k.idx < CHUNKS_PER_PAGE
        && EntryAt(s.hot.lpns, page, l.chunk) == Lpn(k.lpn, false)
    {
      assert Placed(blks, s, k, Look(t, k));
    }
  }

  // ---------- The collector always finds a candidate ----------

  function UpTo(n: nat): (r: set<nat>)
    ensures forall l: nat :: l in r <==> l < n
    ensures |r| == n
  {
    if n == 0 then {} else UpTo(n - 1) + {n - 1}
  }

  function FirstBlocks(h: HeapState, n: nat): set<nat> {
    if n == 0 then {} else FirstBlocks(h, n - 1) + {At(h, n).lbn}
  }

  lemma {:induction false} FirstBlocksCount(h: HeapState, n: nat)
    ensures |FirstBlocks(h, n)| <= n
    ensures forall p: nat {:trigger At(h, p)} :: 1 <= p <= n ==> At(h, p).lbn in FirstBlocks(h, n)
  {
    if n > 0 {
      FirstBlocksCount(h, n - 1);
    }
  }

  /** One clean block, two open blocks and at most 112 used-once blocks do not exhaust a bank of 116. */
  lemma CandidatesLeft(blks: nat, s: Bank)
    requires Shape(blks, s) && Partition(blks, s) && blks >= MIN_BLKS && |s.clean| == 1 && s.first.n <= MAX_HOT_FIRST
    ensures s.second.n + s.coldHeap.n > 0
  {
    hide Ordered, ListShape, FlashShape, CtrlShape;
    FirstBlocksCount(s.first, s.first.n);
    var all := UpTo(blks);
    var rest := {s.clean[0], s.hot.lbn, s.cold.lbn};
    assert |rest| <= 3;
    var used := FirstBlocks(s.first, s.first.n);
    if s.second.n + s.coldHeap.n == 0 {
      forall l | l in all
        ensures l in rest + used
      {
        assert OneRole(s, l);
        assert In(s.first, l) ==> At(s.first, Pos(s.first, l)).lbn == l;
      }
      Subset(all, rest + used);
    }
  }

  lemma Subset<T>(a: set<T>, c: set<T>)
    requires a <= c
    ensures |a| <= |c|
  {
    assert c == a + (c - a);
  }

  // ---------- A recycled page is programmed ----------

  lemma DecrementOutside(blks: nat, h: HeapState, lbn: nat, n: nat)
    requires HeapOk(blks, h) && lbn < blks && !In(h, lbn) && n <= Val(h, lbn)
    ensures var g := DecrementByN(h, lbn, n); Touched(blks, h, g, lbn) && Val(g, lbn) == Val(h, lbn) - n
  {
    assert At(h, Pos(h, lbn)).value < U16;
    DecrementMeaning(h, lbn, n);
  }

  /** The second-usage counter of the open block loses the slots of the page that hold no chunk. */
  lemma RecycledFlushed(blks: nat, b: nat, t: Table, s: Bank, n: nat)
    requires Inv(blks, b, t, s) && s.hot.lbn < blks && Ready(s.hot) && s.hot.recycled
    requires n == CHUNKS_PER_PAGE - CountSome(s.hot.keys[..CHUNKS_PER_RECYCLED_PAGE])
    ensures HeapOk(blks, s.second)
    ensures Flushed(blks, s, s.(flash := SetPage(s.flash, s.hot.lbn, s.hot.page, Programmed(s.hot.buf)),
                                second := DecrementByN(s.second, s.hot.lbn, n), hot := Emptied(s.hot)), true)
  {
    hide Val, CountSome, In, FlushRow, ListShape, DecrementByN, RoleOf, OneRole, ForwardFlash, Live, Accounts,
      Injective, AllUniform, Ordered, Collecting, Filled;
    var r := s.(flash := SetPage(s.flash, s.hot.lbn, s.hot.page, Programmed(s.hot.buf)),
                second := DecrementByN(s.second, s.hot.lbn, n), hot := Emptied(s.hot));
    OpenCount(blks, b, t, s, true);
    OpenOutside(s);
    HeapsSelf(blks, s, s.hot.lbn);
    DecrementOutside(blks, s.second, s.hot.lbn, n);
    OpenOwner(s, r);
  }

  lemma OpenOutside(s: Bank)
    requires OneRole(s, s.hot.lbn) && RoleOf(s, s.hot.lbn) == OpenHot
    ensures !In(s.first, s.hot.lbn) && !In(s.second, s.hot.lbn) && !In(s.coldHeap, s.hot.lbn)
  {
  }

  lemma OpenOwner(s: Bank, r: Bank)
    requires r.hot.lbn == s.hot.lbn && r.hot.usage == s.hot.usage == HotSecond
    ensures OwnerVal(s, s.hot.lbn) == Val(s.second, s.hot.lbn) && OwnerVal(r, s.hot.lbn) == Val(r.second, s.hot.lbn)
  {
  }
}
