/** Blocks changing hands: a full block enters its heap, a clean block or a used-once block is
    opened, a collected block is erased. */
module BankBlocks {
  import opened Heap
  import opened BankState
  import opened BankSteps
  import opened BankPages
  import opened BankLog

  // ---------- A full block leaves the log ----------

  /** The list of lpns after mem_set_dram(..., INVALID, ...). */
  function EmptyList(): (l: LpnList)
    ensures ListShape(l)
    ensures forall p: nat, i: nat {:trigger EntryAt(l, p, i)} :: EntryAt(l, p, i) == NoLpn
  {
    seq(PAGES_PER_BLK, _ => [NoLpn, NoLpn, NoLpn, NoLpn, NoLpn, NoLpn, NoLpn, NoLpn])
  }

  /** The page that receives the list of lpns of a full block. */
  function ListPageOf(u: Usage): nat {
    if u == HotFirst then FIRST_LIST_PAGE else USED_PAGES
  }

  /** The open block is full: its list goes to flash and it enters the heap of its kind. The
      control block stands for no block (blks) until the next one is chosen. */
  function Closed(blks: nat, s: Bank, hot: bool): Bank
    requires HeapOk(blks, s.first) && HeapOk(blks, s.second) && HeapOk(blks, s.coldHeap) && FlashShape(blks, s.flash)
    requires Log(s, hot).lbn < blks && OneRole(s, Log(s, hot).lbn) && RoleOf(s, Log(s, hot).lbn) in {OpenHot, OpenCold}
  {
    WithLog(s, hot, Log(s, hot).(lpns := EmptyList(), lbn := blks)).(
      flash := SetPage(s.flash, Log(s, hot).lbn, ListPageOf(Log(s, hot).usage), ListPage(Log(s, hot).lpns)),
      first := if Log(s, hot).usage == HotFirst then Insert(s.first, Log(s, hot).lbn) else s.first,
      second := if Log(s, hot).usage == HotSecond then Insert(s.second, Log(s, hot).lbn) else s.second,
      coldHeap := if Log(s, hot).usage == ColdLog then Insert(s.coldHeap, Log(s, hot).lbn) else s.coldHeap)
  }

  lemma InsertOne(blks: nat, h: HeapState, lbn: nat)
    requires HeapOk(blks, h) && lbn < blks && !In(h, lbn)
    ensures var g := Insert(h, lbn);
      && HeapOk(blks, g) && g.n == h.n + 1 && In(g, lbn)
      && (forall l: nat {:trigger Val(g, l)} :: l < blks ==> Val(g, l) == Val(h, l))
      && (forall l: nat {:trigger In(g, l)} :: l < blks && l != lbn ==> (In(g, l) <==> In(h, l)))
  {
    InsertMeaning(h, lbn);
  }

  lemma ClosedRoles(blks: nat, s: Bank, hot: bool)
    requires Shape(blks, s) && Partition(blks, s) && Log(s, hot).lbn < blks
    ensures OneRole(s, Log(s, hot).lbn) && RoleOf(s, Log(s, hot).lbn) in {OpenHot, OpenCold}
    ensures var r, lbn := Closed(blks, s, hot), Log(s, hot).lbn;
      && HeapOk(blks, r.first) && HeapOk(blks, r.second) && HeapOk(blks, r.coldHeap)
      && (forall l: nat {:trigger RoleOf(r, l)} ::
           l < blks ==> RoleOf(r, l) == if l == lbn then ClosedRole(Log(s, hot).usage) else RoleOf(s, l))
      && (forall l: nat {:trigger OneRole(r, l)} :: l < blks ==> OneRole(r, l))
      && (forall l: nat {:trigger Val(r.first, l)} :: l < blks ==> Val(r.first, l) == Val(s.first, l))
      && (forall l: nat {:trigger Val(r.second, l)} :: l < blks ==> Val(r.second, l) == Val(s.second, l))
      && (forall l: nat {:trigger Val(r.coldHeap, l)} :: l < blks ==> Val(r.coldHeap, l) == Val(s.coldHeap, l))
  {
    hide HeapOk, Val, In, Insert, ListShape;
    var lbn := Log(s, hot).lbn;
    RoleKnown(blks, s, lbn);
    match Log(s, hot).usage {
      case ColdLog => InsertOne(blks, s.coldHeap, lbn);
      case HotFirst => InsertOne(blks, s.first, lbn);
      case HotSecond => InsertOne(blks, s.second, lbn);
    }
    var r := Closed(blks, s, hot);
    forall l: nat {:trigger OneRole(r, l)} | l < blks
      ensures OneRole(r, l)
    {
      assert OneRole(s, l);
    }
  }

  function ClosedRole(u: Usage): Role {
    match u
    case ColdLog => ColdHeap
    case HotFirst => FirstHeap
    case HotSecond => SecondHeap
  }

  lemma ClosedLists(blks: nat, s: Bank, hot: bool, l: nat)
    requires Shape(blks, s) && Partition(blks, s) && Log(s, hot).lbn < blks && l < blks
    requires Log(s, hot).page == ListPageOf(Log(s, hot).usage) && (hot ==> Log(s, hot).next == None)
    ensures OneRole(s, Log(s, hot).lbn) && RoleOf(s, Log(s, hot).lbn) in {OpenHot, OpenCold}
    ensures ListOf(Closed(blks, s, hot), l) == ListOf(s, l)
    ensures forall p: nat, e: bool {:trigger PageOk(s, l, p, e)} ::
      PageOk(s, l, p, e) ==> PageOk(Closed(blks, s, hot), l, p, e)
    ensures forall q: nat {:trigger Blank(Closed(blks, s, hot), l, q)} :: Blank(Closed(blks, s, hot), l, q) ==>
      Blank(s, l, q) && (l == Log(s, hot).lbn ==> q != ListPageOf(Log(s, hot).usage))
    ensures Owed(Closed(blks, s, hot), l) ==
      if l != Log(s, hot).lbn then Owed(s, l)
      else if ClosedRole(Log(s, hot).usage) == FirstHeap then HIGH_CHUNKS else Moved(s.gc, l)
    ensures l == Log(s, hot).lbn ==> Owed(s, l) == if ClosedRole(Log(s, hot).usage) == FirstHeap then HIGH_CHUNKS else 0
  {
    hide HeapOk, Val, In, Insert, ListShape, FlashShape, Partition, OneRole, RoleOf;
    RoleKnown(blks, s, l);
    ClosedRoles(blks, s, hot);
    OpenRole(blks, s, hot);
    if l != Log(s, hot).lbn {
      OtherRole(s, hot, l);
    }
    assert RoleOf(Closed(blks, s, hot), l) == if l == Log(s, hot).lbn then ClosedRole(Log(s, hot).usage)
      else RoleOf(s, l);
  }

  lemma CloseKeepsCore(blks: nat, b: nat, t: Table, s: Bank, hot: bool)
    requires Core(blks, b, t, s) && Log(s, hot).lbn < blks
    requires Log(s, hot).page == ListPageOf(Log(s, hot).usage) && (hot ==> Log(s, hot).next == None)
    requires s.gc.state != GcIdle ==> s.gc.victim != Log(s, hot).lbn
    ensures OneRole(s, Log(s, hot).lbn) && RoleOf(s, Log(s, hot).lbn) in {OpenHot, OpenCold}
    ensures Core(blks, b, t, Closed(blks, s, hot))
  {
    hide HeapOk, Val, In, Insert, OneRole, RoleOf, PageOk, Owed, ListOf, Live, Injective, Blank;
    ClosedRoles(blks, s, hot);
    OpenRole(blks, s, hot);
    var r := Closed(blks, s, hot);
    forall k: Key {:trigger Look(t, k)} | OfBank(Look(t, k), b) && Look(t, k).Flash?
      ensures Placed(blks, r, k, Look(t, k))
    {
      assert Placed(blks, s, k, Look(t, k));
      ClosedLists(blks, s, hot, Look(t, k).lbn);
    }
    forall l: nat {:trigger ListOf(r, l)} | l < blks
      ensures UniformList(ListOf(r, l)) && (RoleOf(r, l) == FirstHeap ==> ListShape(ListOf(r, l)))
    {
      ClosedLists(blks, s, hot, l);
      OpenList(blks, s, hot);
      assert UniformList(ListOf(s, l));
      assert RoleOf(r, l) == if l == Log(s, hot).lbn then ClosedRole(Log(s, hot).usage) else RoleOf(s, l);
    }
    forall l: nat {:trigger Account(b, t, r, l)} | l < blks
      ensures Account(b, t, r, l)
    {
      assert Account(b, t, s, l);
      ClosedLists(blks, s, hot, l);
      assert RoleOf(r, l) == if l == Log(s, hot).lbn then ClosedRole(Log(s, hot).usage) else RoleOf(s, l);
    }
    assert Partition(blks, r);
    forall l: nat, q: nat {:trigger Blank(r, l, q)} | l < blks && Blank(r, l, q)
      ensures PageAt(r.flash, l, q) == Erased
    {
      ClosedLists(blks, s, hot, l);
      assert Blank(s, l, q);
    }
    FilledKept(b, t, s, t, r, true);
    FilledKept(b, t, s, t, r, false);
  }

  lemma OpenList(blks: nat, s: Bank, hot: bool)
    requires Partition(blks, s) && Log(s, hot).lbn < blks
    ensures ListOf(s, Log(s, hot).lbn) == Log(s, hot).lpns
  {
    hide Partition, RoleOf;
    OpenRole(blks, s, hot);
  }

  lemma CloseKeepsData(blks: nat, b: nat, t: Table, s: Bank, hot: bool)
    requires Core(blks, b, t, s) && Log(s, hot).lbn < blks && Log(s, hot).page == ListPageOf(Log(s, hot).usage)
    ensures OneRole(s, Log(s, hot).lbn) && RoleOf(s, Log(s, hot).lbn) in {OpenHot, OpenCold}
    ensures SameData(b, t, s, t, Closed(blks, s, hot))
  {
    hide HeapOk, Val, In, Insert, OneRole, RoleOf, ListOf, Injective, AllUniform, Accounts, Filled, Blank, AllBlank;
    ClosedRoles(blks, s, hot);
    OpenRole(blks, s, hot);
    var r := Closed(blks, s, hot);
    forall k: Key | OfBank(Look(t, k), b)
      ensures Fetch(r, Look(t, k)) == Fetch(s, Look(t, k))
    {
      if Look(t, k).Flash? {
        assert Placed(blks, s, k, Look(t, k)) && PageOk(s, Look(t, k).lbn, Look(t, k).page, Look(t, k).encoded);
      }
    }
  }

  /** A step that touches neither flash nor buffers leaves all data where it is. */
  lemma SameStoreData(b: nat, t: Table, s: Bank, r: Bank)
    requires r.flash == s.flash && r.hot.buf == s.hot.buf && r.cold.buf == s.cold.buf
    ensures SameData(b, t, s, t, r)
  {
  }

  // ---------- A clean block is opened ----------

  /** The head of the clean list becomes the open block of the log. */
  function OpenedClean(s: Bank, hot: bool): Bank
    requires |s.clean| > 0
  {
    WithLog(s, hot,
      Log(s, hot).(lbn := s.clean[0], page := 0, usage := if hot then HotFirst else ColdLog, recycled := false)).(
      clean := s.clean[1..])
  }

  lemma OpenedCleanRoles(blks: nat, s: Bank, hot: bool)
    requires Partition(blks, s) && |s.clean| > 0 && Log(s, hot).lbn == blks
    ensures var r, lbn := OpenedClean(s, hot), s.clean[0];
      && lbn < blks && RoleOf(s, lbn) == Clean
      && (forall l: nat {:trigger RoleOf(r, l)} ::
           l < blks ==> RoleOf(r, l) == if l == lbn then (if hot then OpenHot else OpenCold) else RoleOf(s, l))
      && Partition(blks, r)
  {
    hide In;
    var lbn := s.clean[0];
    var r := OpenedClean(s, hot);
    assert OneRole(s, lbn);
    assert forall l: nat :: l in r.clean <==> l in s.clean && l != lbn by {
      assert forall l: nat :: l in s.clean <==> l == lbn || l in s.clean[1..];
      assert lbn !in s.clean[1..];
    }
    forall l: nat {:trigger OneRole(r, l)} | l < blks
      ensures OneRole(r, l) && RoleOf(r, l) == if l == lbn then (if hot then OpenHot else OpenCold) else RoleOf(s, l)
    {
      assert OneRole(s, l);
    }
    assert forall i: nat {:trigger r.clean[i]} :: i < |r.clean| ==> r.clean[i] == s.clean[i + 1];
  }

  lemma CleanIsBlank(s: Bank, lbn: nat, page: nat)
    requires RoleOf(s, lbn) == Clean
    ensures Blank(s, lbn, page)
  {
  }

  /** The page that a full block's list goes to is erased. */
  lemma ListPageErased(blks: nat, b: nat, t: Table, s: Bank, hot: bool)
    requires Core(blks, b, t, s) && Log(s, hot).lbn < blks && Log(s, hot).page <= ListPageOf(Log(s, hot).usage)
    ensures PageAt(s.flash, Log(s, hot).lbn, ListPageOf(Log(s, hot).usage)) == Erased
  {
    hide HeapOk, RoleOf, Partition, ForwardFlash, Accounts, AllUniform, Injective, Filled, ForwardBuf, FlashShape,
      ListShape;
    OpenRole(blks, s, hot);
    assert Blank(s, Log(s, hot).lbn, ListPageOf(Log(s, hot).usage));
  }

  lemma NoLiveInClean(blks: nat, b: nat, t: Table, s: Bank, lbn: nat)
    requires ForwardFlash(blks, b, t, s) && RoleOf(s, lbn) == Clean
    ensures Live(t, b, lbn) == {}
  {
    assert forall k: Key {:trigger Look(t, k)} :: InBlock(Look(t, k), b, lbn) ==> Placed(blks, s, k, Look(t, k));
    assert forall k: Key ::
      k in Live(t, b, lbn) ==> InBlock(Look(t, k), b, lbn) && PageOk(s, lbn, Look(t, k).page, Look(t, k).encoded);
  }

  lemma OpenCleanKeepsCore(blks: nat, b: nat, t: Table, s: Bank, hot: bool)
    requires Core(blks, b, t, s) && |s.clean| > 0 && Log(s, hot).lbn == blks
    requires forall p: nat, i: nat {:trigger EntryAt(Log(s, hot).lpns, p, i)} ::
      EntryAt(Log(s, hot).lpns, p, i) == NoLpn
    requires hot ==> Log(s, hot).ptr == 0
    ensures Core(blks, b, t, OpenedClean(s, hot))
  {
    hide HeapOk, Val, In, OneRole, RoleOf, Live, Injective, Partition, Blank;
    var r := OpenedClean(s, hot);
    var lbn := s.clean[0];
    OpenedCleanRoles(blks, s, hot);
    NoLiveInClean(blks, b, t, s, lbn);
    forall k: Key {:trigger Look(t, k)} | OfBank(Look(t, k), b) && Look(t, k).Flash?
      ensures Placed(blks, r, k, Look(t, k))
    {
      assert Placed(blks, s, k, Look(t, k)) && PageOk(s, Look(t, k).lbn, Look(t, k).page, Look(t, k).encoded);
      assert RoleOf(r, Look(t, k).lbn) == RoleOf(s, Look(t, k).lbn);
      OpenedSame(blks, s, hot, Look(t, k).lbn);
    }
    forall l: nat {:trigger ListOf(r, l)} | l < blks
      ensures UniformList(ListOf(r, l)) && (RoleOf(r, l) == FirstHeap ==> ListShape(ListOf(r, l)))
    {
      assert RoleOf(r, l) == if l == lbn then (if hot then OpenHot else OpenCold) else RoleOf(s, l);
      if l != lbn {
        OpenedSame(blks, s, hot, l);
        assert UniformList(ListOf(s, l));
      }
    }
    forall l: nat {:trigger Account(b, t, r, l)} | l < blks
      ensures Account(b, t, r, l)
    {
      assert Account(b, t, s, l);
      assert RoleOf(r, l) == if l == lbn then (if hot then OpenHot else OpenCold) else RoleOf(s, l);
      if l != lbn {
        OpenedSame(blks, s, hot, l);
      }
    }
    forall l: nat, q: nat {:trigger Blank(r, l, q)} | l < blks && Blank(r, l, q)
      ensures PageAt(r.flash, l, q) == Erased
    {
      if l == lbn {
        CleanIsBlank(s, l, q);
      } else {
        OpenedSame(blks, s, hot, l);
      }
      assert Blank(s, l, q);
    }
    FilledKept(b, t, s, t, r, true);
    FilledKept(b, t, s, t, r, false);
  }

  lemma OpenedSame(blks: nat, s: Bank, hot: bool, l: nat)
    requires Partition(blks, s) && |s.clean| > 0 && Log(s, hot).lbn == blks && l < blks && l != s.clean[0]
    ensures var r := OpenedClean(s, hot);
      RoleOf(r, l) == RoleOf(s, l) && ListOf(r, l) == ListOf(s, l) && Owed(r, l) == Owed(s, l) &&
        OwnerVal(r, l) == OwnerVal(s, l)
      && (forall q: nat {:trigger Blank(r, l, q)} :: Blank(r, l, q) == Blank(s, l, q))
      && forall p: nat, e: bool {:trigger PageOk(r, l, p, e)} :: PageOk(r, l, p, e) == PageOk(s, l, p, e)
  {
    hide RoleOf, Partition, Val;
    OpenedCleanRoles(blks, s, hot);
    assert RoleOf(OpenedClean(s, hot), l) == RoleOf(s, l);
    OtherRole(s, hot, l);
  }

  // ---------- A block used once is opened for its second usage ----------

  lemma RemoveOne(blks: nat, h: HeapState, lbn: nat, value: nat)
    requires HeapOk(blks, h) && lbn < blks && value < U16 && Pos(h, lbn) <= 3
    ensures var g := ResetAndRemove(h, lbn, value);
      && HeapOk(blks, g) && !In(g, lbn) && Val(g, lbn) == value && g.n == (if In(h, lbn) then h.n - 1 else h.n)
      && (forall l: nat {:trigger Val(g, l)} :: l < blks && l != lbn ==> Val(g, l) == Val(h, l))
      && (forall l: nat {:trigger In(g, l)} :: l < blks && l != lbn ==> (In(g, l) <==> In(h, l)))
  {
    RemoveNearRootKeepsOrder(h, lbn, value);
    RemoveMeaning(h, lbn, value);
  }

  lemma ResetOne(blks: nat, h: HeapState, lbn: nat, value: nat)
    requires HeapOk(blks, h) && lbn < blks && value < U16 && !In(h, lbn)
    ensures var g := ResetAndRemove(h, lbn, value);
      && Touched(blks, h, g, lbn) && !In(g, lbn) && Val(g, lbn) == value
      && (forall l: nat {:trigger In(g, l)} :: In(g, l) <==> In(h, l))
  {
    RemoveKeepsOrder(h, lbn, value);
    RemoveMeaning(h, lbn, value);
    assert ResetAndRemove(h, lbn, value).n == h.n;
  }

  /** The first-usage victim becomes the open hot block again: it leaves its heap, its live count
      moves to the second-usage heap, and its list is read back from page 125. */
  function OpenedReuse(blks: nat, s: Bank, lbn: nat): Bank
    requires HeapOk(blks, s.first) && HeapOk(blks, s.second) && HeapOk(blks, s.coldHeap) && lbn < blks &&
      Val(s.first, lbn) < U16
  {
    s.(first := ResetAndRemove(s.first, lbn, FIRST_USAGE_CHUNKS),
       second := ResetAndRemove(s.second, lbn, Val(s.first, lbn)),
       coldHeap := ResetAndRemove(s.coldHeap, lbn, SECOND_USAGE_CHUNKS),
       hot := s.hot.(lbn := lbn, page := 0, usage := HotSecond, recycled := true, next := None,
                     lpns := Stored(PageAt(s.flash, lbn, FIRST_LIST_PAGE))))
  }

  lemma OpenedReuseRoles(blks: nat, s: Bank, lbn: nat)
    requires Shape(blks, s) && Partition(blks, s) && s.hot.lbn == blks && lbn < blks && RoleOf(s, lbn) == FirstHeap
    requires Pos(s.first, lbn) <= 3 && Val(s.first, lbn) < U16
    ensures var r := OpenedReuse(blks, s, lbn);
      && HeapOk(blks, r.first) && HeapOk(blks, r.second) && HeapOk(blks, r.coldHeap)
      && Val(r.second, lbn) == Val(s.first, lbn)
      && (forall l: nat {:trigger RoleOf(r, l)} ::
           l < blks ==> RoleOf(r, l) == if l == lbn then OpenHot else RoleOf(s, l))
      && (forall l: nat {:trigger OneRole(r, l)} :: l < blks ==> OneRole(r, l))
      && (forall l: nat {:trigger OwnerVal(r, l)} :: l < blks && l != lbn ==>
           OwnerVal(r, l) == OwnerVal(s, l) && Val(r.first, l) == Val(s.first, l) &&
             Val(r.second, l) == Val(s.second, l) && Val(r.coldHeap, l) == Val(s.coldHeap, l))
  {
    hide HeapOk, Val, In, ResetAndRemove, ListShape, FlashShape;
    RoleKnown(blks, s, lbn);
    RemoveOne(blks, s.first, lbn, FIRST_USAGE_CHUNKS);
    ResetOne(blks, s.second, lbn, Val(s.first, lbn));
    ResetOne(blks, s.coldHeap, lbn, SECOND_USAGE_CHUNKS);
    var r := OpenedReuse(blks, s, lbn);
    forall l: nat | l < blks
      ensures OneRole(r, l) && RoleOf(r, l) == if l == lbn then OpenHot else RoleOf(s, l)
    {
      assert OneRole(s, l);
    }
  }

  lemma OpenedReuseSame(blks: nat, s: Bank, lbn: nat, l: nat)
    requires Shape(blks, s) && Partition(blks, s) && s.hot.lbn == blks && lbn < blks && RoleOf(s, lbn) == FirstHeap
    requires Pos(s.first, lbn) <= 3 && Val(s.first, lbn) < U16 && l < blks
    ensures var r := OpenedReuse(blks, s, lbn);
      && ListOf(r, l) == ListOf(s, l)
      && (forall p: nat, e: bool {:trigger PageOk(s, l, p, e)} :: PageOk(s, l, p, e) ==> PageOk(r, l, p, e))
      && (forall q: nat {:trigger Blank(r, l, q)} :: Blank(r, l, q) ==> Blank(s, l, q))
      && (l != lbn ==> Owed(r, l) == Owed(s, l)) && Owed(r, lbn) == HIGH_CHUNKS
  {
    hide HeapOk, Val, In, ResetAndRemove, ListShape, FlashShape, Partition, RoleOf, OneRole;
    OpenedReuseRoles(blks, s, lbn);
    assert RoleOf(OpenedReuse(blks, s, lbn), l) == if l == lbn then OpenHot else RoleOf(s, l);
    assert RoleOf(OpenedReuse(blks, s, lbn), lbn) == OpenHot;
    if RoleOf(s, l) == OpenHot {
      OtherRole(s, true, l);
    }
  }

  lemma ReuseKeepsCore(blks: nat, b: nat, t: Table, s: Bank, lbn: nat)
    requires Core(blks, b, t, s) && s.hot.lbn == blks && s.hot.ptr == 0 && lbn < blks && RoleOf(s, lbn) == FirstHeap
    requires Pos(s.first, lbn) <= 3 && Val(s.first, lbn) < U16
    ensures Core(blks, b, t, OpenedReuse(blks, s, lbn))
  {
    hide HeapOk, Val, In, ResetAndRemove, OneRole, RoleOf, Live, Injective, ListOf, PageOk, Owed, FlashShape, Blank;
    var r := OpenedReuse(blks, s, lbn);
    OpenedReuseRoles(blks, s, lbn);
    assert ListShape(r.hot.lpns) by {
      OpenedReuseSame(blks, s, lbn, lbn);
      assert ListShape(ListOf(s, lbn));
      UsedOnceList(s, lbn);
    }
    forall k: Key {:trigger Look(t, k)} | OfBank(Look(t, k), b) && Look(t, k).Flash?
      ensures Placed(blks, r, k, Look(t, k))
    {
      assert Placed(blks, s, k, Look(t, k));
      OpenedReuseSame(blks, s, lbn, Look(t, k).lbn);
    }
    forall l: nat {:trigger ListOf(r, l)} | l < blks
      ensures UniformList(ListOf(r, l)) && (RoleOf(r, l) == FirstHeap ==> ListShape(ListOf(r, l)))
    {
      OpenedReuseSame(blks, s, lbn, l);
      assert UniformList(ListOf(s, l));
      assert RoleOf(r, l) == if l == lbn then OpenHot else RoleOf(s, l);
    }
    forall l: nat {:trigger Account(b, t, r, l)} | l < blks
      ensures Account(b, t, r, l)
    {
      assert Account(b, t, s, l);
      OpenedReuseSame(blks, s, lbn, l);
      assert RoleOf(r, l) == if l == lbn then OpenHot else RoleOf(s, l);
      assert l != lbn ==> OwnerVal(r, l) == OwnerVal(s, l);
      UsedOnceOwed(s, lbn);
    }
    forall l: nat, q: nat {:trigger Blank(r, l, q)} | l < blks && Blank(r, l, q)
      ensures PageAt(r.flash, l, q) == Erased
    {
      OpenedReuseSame(blks, s, lbn, l);
      assert Blank(s, l, q);
    }
    FilledKept(b, t, s, t, r, true);
    FilledKept(b, t, s, t, r, false);
  }

  lemma UsedOnceList(s: Bank, lbn: nat)
    requires RoleOf(s, lbn) == FirstHeap
    ensures ListOf(s, lbn) == Stored(PageAt(s.flash, lbn, FIRST_LIST_PAGE))
  {
  }

  lemma UsedOnceOwed(s: Bank, lbn: nat)
    requires RoleOf(s, lbn) == FirstHeap
    ensures Owed(s, lbn) == HIGH_CHUNKS
  {
  }

  // ---------- A low page is accepted for reuse ----------

  /** canReuseLowPage: the list entries of a low page without live chunks are cleared, and the
      second-usage counter grows by the page's eight slots. */
  function Accepted(blks: nat, s: Bank, page: nat): Bank
    requires HeapOk(blks, s.second) && s.hot.lbn < blks && page < |s.hot.lpns|
  {
    s.(second := IncrementByN(s.second, s.hot.lbn, CHUNKS_PER_PAGE),
       hot := s.hot.(lpns := s.hot.lpns[page := [NoLpn, NoLpn, NoLpn, NoLpn, NoLpn, NoLpn, NoLpn, NoLpn]]))
  }

  lemma IncrementOutside(blks: nat, h: HeapState, lbn: nat, n: nat)
    requires HeapOk(blks, h) && lbn < blks && !In(h, lbn) && Val(h, lbn) + n < U16
    ensures var g := IncrementByN(h, lbn, n); Touched(blks, h, g, lbn) && Val(g, lbn) == Val(h, lbn) + n
  {
    IncrementMeaning(h, lbn, n);
  }

  lemma AcceptKeepsCore(blks: nat, b: nat, t: Table, s: Bank, page: nat)
    requires Core(blks, b, t, s) && s.hot.lbn < blks && s.hot.usage == HotSecond && s.hot.next == None
    requires page < PAGES_PER_BLK && LowPage(page) && Val(s.second, s.hot.lbn) + 8 < U16
    requires FreeOfLive(t, b, s.hot.lbn, page)
    ensures Core(blks, b, t, Accepted(blks, s, page).(hot := Accepted(blks, s, page).hot.(next := Some(page))))
  {
    hide HeapOk, Val, In, IncrementByN, RoleOf, Live, Injective, Partition, FlashShape, Touched, OneRole;
    var lbn := s.hot.lbn;
    var a := Accepted(blks, s, page);
    var r := a.(hot := a.hot.(next := Some(page)));
    AcceptedRoles(blks, s, page);
    OpenRole(blks, s, true);
    forall k: Key {:trigger Look(t, k)} | OfBank(Look(t, k), b) && Look(t, k).Flash?
      ensures Placed(blks, r, k, Look(t, k))
    {
      var l := Look(t, k);
      assert Placed(blks, s, k, l);
      assert RoleOf(r, l.lbn) == RoleOf(s, l.lbn);
      if l.lbn != lbn {
        OtherRole(s, true, l.lbn);
      }
    }
    forall l: nat {:trigger ListOf(r, l)} | l < blks
      ensures UniformList(ListOf(r, l)) && (RoleOf(r, l) == FirstHeap ==> ListShape(ListOf(r, l)))
    {
      assert UniformList(ListOf(s, l)) && RoleOf(r, l) == RoleOf(s, l);
      if l == lbn {
        forall q: nat {:trigger Uniform(r.hot.lpns, q)} | true
          ensures Uniform(r.hot.lpns, q)
        {
          assert Uniform(s.hot.lpns, q);
          assert forall i: nat {:trigger EntryAt(r.hot.lpns, q, i)} ::
            EntryAt(r.hot.lpns, q, i) == if q == page then NoLpn else EntryAt(s.hot.lpns, q, i);
        }
      } else {
        OtherRole(s, true, l);
      }
    }
    forall l: nat {:trigger Account(b, t, r, l)} | l < blks
      ensures Account(b, t, r, l)
    {
      assert Account(b, t, s, l) && RoleOf(r, l) == RoleOf(s, l);
      if l != lbn {
        OtherRole(s, true, l);
      }
    }
    forall l: nat, q: nat {:trigger Blank(r, l, q)} | l < blks && Blank(r, l, q)
      ensures PageAt(r.flash, l, q) == Erased
    {
      assert RoleOf(r, l) == RoleOf(s, l);
      assert Blank(s, l, q);
    }
    FilledKept(b, t, s, t, r, true);
    FilledKept(b, t, s, t, r, false);
  }

  lemma AcceptedRoles(blks: nat, s: Bank, page: nat)
    requires Shape(blks, s) && Partition(blks, s) && s.hot.lbn < blks && page < PAGES_PER_BLK &&
      Val(s.second, s.hot.lbn) + 8 < U16
    ensures var a := Accepted(blks, s, page); var r := a.(hot := a.hot.(next := Some(page)));
      && HeapOk(blks, r.second) && Val(r.second, s.hot.lbn) == Val(s.second, s.hot.lbn) + 8
      && (forall l: nat {:trigger Val(r.second, l)} ::
           l < blks && l != s.hot.lbn ==> Val(r.second, l) == Val(s.second, l))
      && (forall l: nat {:trigger RoleOf(r, l)} :: l < blks ==> RoleOf(r, l) == RoleOf(s, l))
      && Partition(blks, r)
  {
    hide HeapOk, Val, IncrementByN, FlashShape;
    RoleKnown(blks, s, s.hot.lbn);
    IncrementOutside(blks, s.second, s.hot.lbn, 8);
    var a := Accepted(blks, s, page);
    var r := a.(hot := a.hot.(next := Some(page)));
    assert forall l: nat {:trigger In(r.second, l)} :: In(r.second, l) <==> In(s.second, l);
    hide In, Touched;
    forall l: nat {:trigger OneRole(r, l)} | l < blks
      ensures OneRole(r, l)
    {
      assert OneRole(s, l);
    }
  }
}
