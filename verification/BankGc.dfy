/** Garbage collection of one victim block: choosing it, scanning its pages, moving its chunks,
    erasing it. */
module BankGc {
  import opened Heap
  import opened BankState
  import opened BankSteps
  import opened BankPages
  import opened BankLog
  import opened BankBlocks

  // ---------- At most 1016 live chunks ----------

  function LiveBelow(t: Table, b: nat, lbn: nat, n: nat): set<Key> {
    set k | k in t && InBlock(t[k], b, lbn) && t[k].page * 8 + t[k].chunk < n
  }

  /** One slot holds at most one live chunk. */
  lemma OnePerSlot(b: nat, t: Table, lbn: nat, n: nat)
    requires Injective(b, t) && n > 0
    requires forall k: Key {:trigger Look(t, k)} :: InBlock(Look(t, k), b, lbn) ==> Look(t, k).chunk < 8
    ensures |LiveBelow(t, b, lbn, n) - LiveBelow(t, b, lbn, n - 1)| <= 1
  {
    var last := LiveBelow(t, b, lbn, n) - LiveBelow(t, b, lbn, n - 1);
    forall j, k | j in last && k in last
      ensures j == k
    {
      var l, m := Look(t, j), Look(t, k);
      assert InBlock(l, b, lbn) && InBlock(m, b, lbn);
      SameSlot(l.page, l.chunk, m.page, m.chunk);
      assert Place(l) == Place(m);
    }
    if k :| k in last {
      assert last == {k};
    }
  }

  lemma SameSlot(p: nat, c: nat, q: nat, d: nat)
    requires p * 8 + c == q * 8 + d && c < 8 && d < 8
    ensures p == q && c == d
  {
  }

  lemma {:induction false} LiveBelowBound(b: nat, t: Table, lbn: nat, n: nat)
    requires Injective(b, t)
    requires forall k: Key {:trigger Look(t, k)} :: InBlock(Look(t, k), b, lbn) ==> Look(t, k).chunk < 8
    ensures |LiveBelow(t, b, lbn, n)| <= n
  {
    hide Injective;
    if n == 0 {
      assert LiveBelow(t, b, lbn, 0) == {};
    } else {
      LiveBelowBound(b, t, lbn, n - 1);
      OnePerSlot(b, t, lbn, n);
      var last := LiveBelow(t, b, lbn, n) - LiveBelow(t, b, lbn, n - 1);
      assert LiveBelow(t, b, lbn, n) == LiveBelow(t, b, lbn, n - 1) + last;
    }
  }

  /** A block never has more live chunks than its 127 data pages have slots. */
  lemma LiveBound(blks: nat, b: nat, t: Table, s: Bank, lbn: nat)
    requires ForwardFlash(blks, b, t, s) && Injective(b, t)
    ensures |Live(t, b, lbn)| <= SECOND_USAGE_CHUNKS
  {
    assert forall k: Key {:trigger Look(t, k)} :: InBlock(Look(t, k), b, lbn) ==> Placed(blks, s, k, Look(t, k));
    LiveBelowBound(b, t, lbn, SECOND_USAGE_CHUNKS);
    forall k: Key
      ensures k in Live(t, b, lbn) <==> k in LiveBelow(t, b, lbn, SECOND_USAGE_CHUNKS)
    {
      assert InBlock(Look(t, k), b, lbn) ==> PageOk(s, lbn, Look(t, k).page, Look(t, k).encoded);
    }
    assert Live(t, b, lbn) == LiveBelow(t, b, lbn, SECOND_USAGE_CHUNKS);
  }

  // ---------- Erasing the victim ----------

  lemma RemoveAny(blks: nat, h: HeapState, lbn: nat, value: nat)
    requires HeapOk(blks, h) && lbn < blks && value < U16 && (In(h, lbn) ==> Pos(h, lbn) <= 3)
    ensures var g := ResetAndRemove(h, lbn, value);
      && HeapOk(blks, g) && !In(g, lbn) && Val(g, lbn) == value && g.n == (if In(h, lbn) then h.n - 1 else h.n)
      && (forall l: nat {:trigger Val(g, l)} :: l < blks && l != lbn ==> Val(g, l) == Val(h, l))
      && (forall l: nat {:trigger In(g, l)} :: l < blks && l != lbn ==> (In(g, l) <==> In(h, l)))
  {
    if In(h, lbn) {
      RemoveNearRootKeepsOrder(h, lbn, value);
    } else {
      RemoveKeepsOrder(h, lbn, value);
    }
    RemoveMeaning(h, lbn, value);
  }

  function Erase(flash: seq<seq<Page>>, v: nat): (r: seq<seq<Page>>)
    requires v < |flash|
    ensures |r| == |flash| && forall l: nat {:trigger r[l]} ::
      l < |r| ==> |r[l]| == if l == v then PAGES_PER_BLK else |flash[l]|
    ensures forall l: nat, p: nat {:trigger PageAt(r, l, p)} ::
      PageAt(r, l, p) == if l == v then Erased else PageAt(flash, l, p)
  {
    flash[v := seq(PAGES_PER_BLK, _ => Erased)]
  }

  /** The victim leaves every heap at its initial counters, is erased and joins the clean list. */
  function Collected(blks: nat, s: Bank, v: nat): Bank
    requires HeapOk(blks, s.first) && HeapOk(blks, s.second) && HeapOk(blks, s.coldHeap) && v < blks &&
      FlashShape(blks, s.flash)
  {
    s.(first := ResetAndRemove(s.first, v, FIRST_USAGE_CHUNKS),
       second := ResetAndRemove(s.second, v, SECOND_USAGE_CHUNKS),
       coldHeap := ResetAndRemove(s.coldHeap, v, SECOND_USAGE_CHUNKS),
       flash := Erase(s.flash, v), clean := s.clean + [v], gc := s.gc.(state := GcIdle))
  }

  ghost predicate NearRoot(s: Bank, v: nat) {
    (In(s.second, v) ==> Pos(s.second, v) <= 3) && (In(s.coldHeap, v) ==> Pos(s.coldHeap, v) <= 3)
  }

  lemma CollectedRoles(blks: nat, s: Bank, v: nat)
    requires Shape(blks, s) && Partition(blks, s) && v < blks && RoleOf(s, v) in {SecondHeap, ColdHeap} &&
      NearRoot(s, v)
    ensures var r := Collected(blks, s, v);
      && HeapOk(blks, r.first) && HeapOk(blks, r.second) && HeapOk(blks, r.coldHeap)
      && Val(r.first, v) == FIRST_USAGE_CHUNKS && Val(r.second, v) == SECOND_USAGE_CHUNKS &&
           Val(r.coldHeap, v) == SECOND_USAGE_CHUNKS
      && (forall l: nat {:trigger RoleOf(r, l)} :: l < blks ==> RoleOf(r, l) == if l == v then Clean else RoleOf(s, l))
      && Partition(blks, r)
      && (forall l: nat {:trigger RoleOf(r, l)} :: l < blks && l != v ==>
           Val(r.first, l) == Val(s.first, l) && Val(r.second, l) == Val(s.second, l) &&
             Val(r.coldHeap, l) == Val(s.coldHeap, l))
      && r.second.n + r.coldHeap.n == s.second.n + s.coldHeap.n - 1 && r.first.n == s.first.n
  {
    hide HeapOk, Val, In, Pos, ResetAndRemove, ListShape, FlashShape, Erase;
    RoleKnown(blks, s, v);
    RemoveAny(blks, s.first, v, FIRST_USAGE_CHUNKS);
    RemoveAny(blks, s.second, v, SECOND_USAGE_CHUNKS);
    RemoveAny(blks, s.coldHeap, v, SECOND_USAGE_CHUNKS);
    var r := Collected(blks, s, v);
    forall l: nat | l < blks
      ensures OneRole(r, l) && RoleOf(r, l) == if l == v then Clean else RoleOf(s, l)
    {
      assert OneRole(s, l);
      assert l in r.clean <==> l in s.clean || l == v;
    }
    assert v !in s.clean;
  }

  lemma CollectKeepsCore(blks: nat, b: nat, t: Table, s: Bank, v: nat)
    requires Core(blks, b, t, s) && v < blks && RoleOf(s, v) in {SecondHeap, ColdHeap} && NearRoot(s, v)
    requires Live(t, b, v) == {} && (s.gc.state != GcIdle ==> s.gc.victim == v)
    ensures Core(blks, b, t, Collected(blks, s, v))
  {
    hide HeapOk, Val, In, Pos, ResetAndRemove, OneRole, RoleOf, Live, Injective, FlashShape, Partition;
    var r := Collected(blks, s, v);
    CollectedRoles(blks, s, v);
    EraseShape(blks, s.flash, v);
    forall k: Key {:trigger Look(t, k)} | OfBank(Look(t, k), b) && Look(t, k).Flash?
      ensures Placed(blks, r, k, Look(t, k))
    {
      assert Placed(blks, s, k, Look(t, k));
      NotLive(t, b, v, k);
      assert RoleOf(r, Look(t, k).lbn) == RoleOf(s, Look(t, k).lbn);
    }
    forall l: nat {:trigger ListOf(r, l)} | l < blks
      ensures UniformList(ListOf(r, l)) && (RoleOf(r, l) == FirstHeap ==> ListShape(ListOf(r, l)))
    {
      assert RoleOf(r, l) == if l == v then Clean else RoleOf(s, l);
      assert UniformList(ListOf(s, l));
      assert l == v ==> ListOf(r, l) == [];
    }
    forall l: nat {:trigger Account(b, t, r, l)} | l < blks
      ensures Account(b, t, r, l)
    {
      assert Account(b, t, s, l);
      assert RoleOf(r, l) == if l == v then Clean else RoleOf(s, l);
      if l != v {
        CollectedOwed(blks, s, v, l);
        AccountElsewhere(b, t, s, t, r, l);
      }
    }
    forall l: nat, q: nat {:trigger Blank(r, l, q)} | l < blks && Blank(r, l, q)
      ensures PageAt(r.flash, l, q) == Erased
    {
      assert RoleOf(r, l) == if l == v then Clean else RoleOf(s, l);
      assert l != v ==> Blank(s, l, q);
    }
    FilledKept(b, t, s, t, r, true);
    FilledKept(b, t, s, t, r, false);
  }

  lemma CollectedOwed(blks: nat, s: Bank, v: nat, l: nat)
    requires HeapOk(blks, s.first) && HeapOk(blks, s.second) && HeapOk(blks, s.coldHeap) && v < blks &&
      FlashShape(blks, s.flash)
    requires l != v && RoleOf(Collected(blks, s, v), l) == RoleOf(s, l) && (s.gc.state != GcIdle ==> s.gc.victim == v)
    ensures Owed(Collected(blks, s, v), l) == Owed(s, l)
  {
    hide HeapOk, RoleOf, ResetAndRemove, Erase;
  }

  lemma EraseShape(blks: nat, flash: seq<seq<Page>>, v: nat)
    requires FlashShape(blks, flash) && v < blks
    ensures FlashShape(blks, Erase(flash, v))
  {
  }

  lemma NotLive(t: Table, b: nat, v: nat, k: Key)
    requires Live(t, b, v) == {}
    ensures !InBlock(Look(t, k), b, v)
  {
    assert k !in Live(t, b, v);
  }

  lemma CollectKeepsData(blks: nat, b: nat, t: Table, s: Bank, v: nat)
    requires Shape(blks, s) && v < blks && Live(t, b, v) == {}
    ensures SameData(b, t, s, t, Collected(blks, s, v))
  {
    hide HeapOk, Val, In, Pos, ResetAndRemove, Live, CtrlShape;
    forall k: Key | OfBank(Look(t, k), b)
      ensures Fetch(Collected(blks, s, v), Look(t, k)) == Fetch(s, Look(t, k))
    {
      NotLive(t, b, v, k);
    }
  }

  // ---------- The steps of a collection ----------

  /** Registers of the collector may change as long as the books agree. */
  lemma GcRegisters(blks: nat, b: nat, t: Table, s: Bank, r: Bank)
    requires Core(blks, b, t, s) && r == s.(gc := r.gc, adapt := r.adapt)
    requires forall l: nat {:trigger Moved(r.gc, l)} :: l < blks ==> Moved(r.gc, l) == Moved(s.gc, l)
    ensures Core(blks, b, t, r)
  {
    hide Shape, Injective, Live, Val, In, Uniform, AllBlank;
    assert SameLayout(blks, s, r);
    PartitionKept(blks, s, r);
    ForwardFlashKept(blks, b, t, s, t, r);
    UniformKept(blks, s, r);
    BlankKept(blks, s, r);
    ShapeGc(blks, s, r);
    FilledKept(b, t, s, t, r, true);
    FilledKept(b, t, s, t, r, false);
    forall l: nat {:trigger Account(b, t, r, l)} | l < blks
      ensures Account(b, t, r, l)
    {
      assert Account(b, t, s, l) && RoleOf(r, l) == RoleOf(s, l) && Moved(r.gc, l) == Moved(s.gc, l);
      AccountElsewhere(b, t, s, t, r, l);
    }
  }

  lemma ShapeGc(blks: nat, s: Bank, r: Bank)
    requires Shape(blks, s) && r == s.(gc := r.gc, adapt := r.adapt)
    ensures Shape(blks, r)
  {
  }

  /** initGC's registers when the victim has live chunks. */
  function Started(s: Bank, v: nat, count: nat): Gc {
    s.gc.(state := GcRead, victim := v, fromHeap := count, inBlk := 0, page := 0, recycled := false,
          list := Stored(PageAt(s.flash, v, USED_PAGES)))
  }

  /** The heap that initGC picks its victim from. */
  function VictimHeap(s: Bank, second: bool): HeapState {
    if second then s.second else s.coldHeap
  }

  lemma VictimFacts(blks: nat, b: nat, t: Table, s: Bank, second: bool)
    requires Inv(blks, b, t, s) && s.gc.state == GcIdle && VictimHeap(s, second).n > 0
    ensures var v := Victim(VictimHeap(s, second));
      && v < blks && RoleOf(s, v) == (if second then SecondHeap else ColdHeap) && NearRoot(s, v)
      && Pos(VictimHeap(s, second), v) == 1
      && VictimCount(VictimHeap(s, second)) == |Live(t, b, v)| <= SECOND_USAGE_CHUNKS
  {
    hide Valid, Ordered, Val, Live, ForwardBuf, Filled, AllUniform, FlashShape, CtrlShape, Victim, VictimCount;
    VictimIsLeast(VictimHeap(s, second));
    var v := Victim(VictimHeap(s, second));
    RoleKnown(blks, s, v);
    assert Account(b, t, s, v);
    LiveBound(blks, b, t, s, v);
  }

  lemma StartKeeps(blks: nat, b: nat, t: Table, s: Bank, second: bool)
    requires Inv(blks, b, t, s) && s.gc.state == GcIdle && |s.clean| == 1 && VictimHeap(s, second).n > 0
    ensures var h := VictimHeap(s, second);
      Inv(blks, b, t, s.(gc := Started(s, Victim(h), VictimCount(h))))
  {
    hide Core, Valid, Ordered, Victim, VictimCount, Live, Val;
    var h := VictimHeap(s, second);
    var v := Victim(h);
    var r := s.(gc := Started(s, v, VictimCount(h)));
    VictimFacts(blks, b, t, s, second);
    CoreFacts(blks, b, t, s, v);
    GcRegisters(blks, b, t, s, r);
    assert RoleOf(r, v) == RoleOf(s, v);
  }

  lemma CoreFacts(blks: nat, b: nat, t: Table, s: Bank, v: nat)
    requires Core(blks, b, t, s) && v < blks
    ensures OneRole(s, v)
  {
    hide OneRole;
    RoleKnown(blks, s, v);
  }

  // Scanning one page of the victim.

  /** found names exactly the live chunks of the page, all of them at entries with the same flag. */
  ghost predicate Finds(b: nat, t: Table, v: nat, page: nat, recycled: bool, found: seq<Option<Key>>) {
    && |found| == CHUNKS_PER_PAGE
    && (forall i: nat {:trigger found[i]} :: i < CHUNKS_PER_PAGE && found[i].Some? ==>
         Look(t, found[i].value) == Flash(b, v, page, i, recycled))
    && (forall k: Key {:trigger Look(t, k)} :: InBlock(Look(t, k), b, v) && Look(t, k).page == page ==>
         Look(t, k).chunk < CHUNKS_PER_PAGE && found[Look(t, k).chunk] == Some(k))
  }

  /** The registers after a page was scanned: on to the next page when nothing live was found. */
  function ScannedGc(gc: Gc, flash: seq<seq<Page>>, recycled: bool, found: seq<Option<Key>>, buf: seq<Chunk>): Gc {
    var n := CountSome(found);
    var g := gc.(found := found, inPage := n, inBlk := gc.inBlk + n, recycled := recycled);
    if n > 0 then g.(state := GcWrite, buf := buf) else g.(page := gc.page + 1)
  }

  lemma {:induction false} CountZero<T>(v: seq<Option<T>>, i: nat)
    requires CountSome(v) == 0 && i < |v|
    ensures v[i] == None
  {
    if i < |v| - 1 {
      CountZero(v[..|v| - 1], i);
    }
  }

  lemma {:induction false} CountBound<T>(v: seq<Option<T>>)
    ensures CountSome(v) <= |v|
    ensures CountSome(v) == |v| ==> forall i :: 0 <= i < |v| ==> v[i].Some?
  {
    if |v| > 0 {
      CountBound(v[..|v| - 1]);
    }
  }

  lemma ScanKeeps(blks: nat, b: nat, t: Table, s: Bank, recycled: bool, found: seq<Option<Key>>, buf: seq<Chunk>)
    requires Inv(blks, b, t, s) && s.gc.state == GcRead && s.gc.page < USED_PAGES
    requires Finds(b, t, s.gc.victim, s.gc.page, recycled, found)
    requires forall i: nat {:trigger ChunkAt(buf, i)} :: i < CHUNKS_PER_PAGE ==>
      ChunkAt(buf, i) == ChunkOf(PageAt(s.flash, s.gc.victim, s.gc.page), i)
    ensures Inv(blks, b, t, s.(gc := ScannedGc(s.gc, s.flash, recycled, found, buf)))
  {
    hide Core, CountSome, Live, Val, In, ListOf;
    var r := s.(gc := ScannedGc(s.gc, s.flash, recycled, found, buf));
    GcRegisters(blks, b, t, s, r);
    assert RoleOf(r, s.gc.victim) == RoleOf(s, s.gc.victim);
    GcList(s, r);
    if CountSome(found) == 0 {
      forall k: Key {:trigger Look(t, k)} | InBlock(Look(t, k), b, s.gc.victim)
        ensures s.gc.page + 1 <= Look(t, k).page
      {
        if Look(t, k).page == s.gc.page {
          CountZero(found, Look(t, k).chunk);
        }
      }
    }
  }

  lemma GcList(s: Bank, r: Bank)
    requires r == s.(gc := r.gc, adapt := r.adapt)
    ensures forall l: nat {:trigger ListOf(r, l)} :: ListOf(r, l) == ListOf(s, l)
  {
  }

  /** writePage ends with every chunk of the page moved: the collector goes on reading. */
  lemma PageDoneKeeps(blks: nat, b: nat, t: Table, s: Bank)
    requires Inv(blks, b, t, s) && s.gc.state == GcWrite && s.gc.inPage == 0
    ensures Inv(blks, b, t, s.(gc := s.gc.(state := GcRead, recycled := false, page := s.gc.page + 1)))
  {
    hide Core, CountSome, Live, Val, In, ListOf;
    var r := s.(gc := s.gc.(state := GcRead, recycled := false, page := s.gc.page + 1));
    GcRegisters(blks, b, t, s, r);
    assert RoleOf(r, s.gc.victim) == RoleOf(s, s.gc.victim);
    GcList(s, r);
    forall k: Key {:trigger Look(t, k)} | InBlock(Look(t, k), b, s.gc.victim)
      ensures s.gc.page + 1 <= Look(t, k).page
    {
      if Look(t, k).page == s.gc.page {
        CountZero(s.gc.found, Look(t, k).chunk);
      }
    }
  }

  /** After the last page no live chunk is left, and the number found is the number the heap promised. */
  lemma AllMoved(blks: nat, b: nat, t: Table, s: Bank)
    requires Inv(blks, b, t, s) && s.gc.state == GcRead && s.gc.page == USED_PAGES
    ensures Live(t, b, s.gc.victim) == {} && s.gc.inBlk == s.gc.fromHeap
    ensures NearRoot(s, s.gc.victim)
  {
    hide Val, In, ListOf, Partition, Accounts, ForwardBuf, Injective, AllUniform, Shape;
    var v := s.gc.victim;
    assert forall k: Key {:trigger Look(t, k)} ::
      InBlock(Look(t, k), b, v) ==> Placed(blks, s, k, Look(t, k)) && PageOk(s, v, Look(t, k).page, Look(t, k).encoded);
    assert forall k: Key :: k in Live(t, b, v) ==> InBlock(Look(t, k), b, v);
    assert Live(t, b, v) == {};
    RoleKnown(blks, s, v);
  }

  lemma FinishKeeps(blks: nat, b: nat, t: Table, s: Bank)
    requires Inv(blks, b, t, s) && s.gc.state == GcRead && s.gc.page == USED_PAGES
    ensures Inv(blks, b, t, Collected(blks, s, s.gc.victim)) && SameData(b, t, s, t, Collected(blks, s, s.gc.victim))
  {
    hide HeapOk, Val, In, ListOf, Partition, Accounts, ForwardBuf, Injective, AllUniform, FlashShape, CtrlShape,
      ForwardFlash, SameData, Filled;
    AllMoved(blks, b, t, s);
    CollectKeepsCore(blks, b, t, s, s.gc.victim);
    CollectKeepsData(blks, b, t, s, s.gc.victim);
  }

  /** initGC on a victim without live chunks erases it at once. */
  lemma EmptyVictimKeeps(blks: nat, b: nat, t: Table, s: Bank, second: bool)
    requires Inv(blks, b, t, s) && s.gc.state == GcIdle && VictimHeap(s, second).n > 0 &&
      VictimCount(VictimHeap(s, second)) == 0
    ensures var v := Victim(VictimHeap(s, second));
      && Live(t, b, v) == {} && v < blks && RoleOf(s, v) in {SecondHeap, ColdHeap} && NearRoot(s, v)
      && Inv(blks, b, t, Collected(blks, s, v)) && SameData(b, t, s, t, Collected(blks, s, v))
  {
    hide HeapOk, Val, In, ListOf, Partition, Accounts, ForwardBuf, Injective, AllUniform, FlashShape, CtrlShape,
      ForwardFlash, SameData,
      Filled, Victim, VictimCount, Live;
    VictimFacts(blks, b, t, s, second);
    CollectKeepsCore(blks, b, t, s, Victim(VictimHeap(s, second)));
    CollectKeepsData(blks, b, t, s, Victim(VictimHeap(s, second)));
  }

  // ---------- A page with eight live chunks moves in one program operation ----------

  /** r is s after the page in the collector's buffer was programmed to the open cold block and its
      metadata written, before increaseLpn. */
  function WholeMoved(s: Bank): Bank
    requires s.cold.lbn < |s.flash| && s.cold.page < |s.flash[s.cold.lbn]| && s.cold.page < |s.cold.lpns|
  {
    s.(flash := SetPage(s.flash, s.cold.lbn, s.cold.page, Programmed(s.gc.buf)),
       cold := s.cold.(lpns := s.cold.lpns[s.cold.page := WholeRow(s.gc)]),
       gc := s.gc.(state := GcRead, inPage := 0, recycled := false, page := s.gc.page + 1))
  }

  /** The lpns of the page's chunks, copied to the cold block's list. */
  function WholeRow(gc: Gc): (row: seq<Entry>)
    ensures |row| == CHUNKS_PER_PAGE
  {
    seq(CHUNKS_PER_PAGE, i requires 0 <= i < CHUNKS_PER_PAGE =>
      if i < |gc.found| && gc.found[i].Some? then Lpn(gc.found[i].value.lpn, false) else NoLpn)
  }

  function WholeTable(b: nat, t: Table, s: Bank): Table {
    Relocated(t, b, FromPage(s.gc.victim, s.gc.page), CHUNKS_PER_PAGE, s.cold.lbn, s.cold.page, false)
  }

  lemma WholeNames(blks: nat, b: nat, t: Table, s: Bank)
    requires Inv(blks, b, t, s) && s.gc.state == GcWrite && s.gc.inPage == CHUNKS_PER_PAGE
    ensures var src := FromPage(s.gc.victim, s.gc.page);
      && Describes(t, b, src, CHUNKS_PER_PAGE, WholeRow(s.gc), false)
      && |Moving(t, b, src, CHUNKS_PER_PAGE)| == CHUNKS_PER_PAGE
  {
    hide Core, CountSome, Live, In, ListOf, Val, Moving;
    var src := FromPage(s.gc.victim, s.gc.page);
    assert Names(t, b, src, s.gc.found);
    MovingCount(t, b, src, s.gc.found, CHUNKS_PER_PAGE);
    assert s.gc.found[..CHUNKS_PER_PAGE] == s.gc.found;
  }

  lemma WholePrograms(blks: nat, s: Bank)
    requires Shape(blks, s) && Partition(blks, s) && s.cold.lbn < blks && s.cold.page < USED_PAGES
    ensures var r := WholeMoved(s); var v := r.(cold := Advanced(r.cold));
      && Programs(blks, s, v, false, Programmed(s.gc.buf), WholeRow(s.gc)) && Shape(blks, v)
      && Owed(v, s.cold.lbn) + 8 == Owed(s, s.cold.lbn) && OwnerVal(v, s.cold.lbn) == OwnerVal(s, s.cold.lbn)
      && (forall l: nat {:trigger RoleOf(v, l)} :: RoleOf(v, l) == RoleOf(s, l))
  {
    hide Partition, HeapOk, Val, RoleOf, PageOk, WholeRow, Blank;
    var r := WholeMoved(s);
    var v := r.(cold := Advanced(r.cold));
    forall l: nat
      ensures RoleOf(v, l) == RoleOf(s, l)
    {
      FlushRoles(s, r, v, false, l);
    }
    WholeShape(blks, s);
    OpenRole(blks, s, false);
    AdvancePages(blks, s, v, false);
  }

  lemma WholeShape(blks: nat, s: Bank)
    requires Shape(blks, s) && s.cold.lbn < blks && s.cold.page < USED_PAGES
    ensures ListShape(s.cold.lpns[s.cold.page := WholeRow(s.gc)]) && FlashShape(blks, WholeMoved(s).flash)
    ensures Touched(blks, s.first, s.first, s.cold.lbn) && Touched(blks, s.second, s.second, s.cold.lbn) &&
      Touched(blks, s.coldHeap, s.coldHeap, s.cold.lbn)
  {
    hide HeapOk;
  }

  lemma WholeUniform(s: Bank)
    requires s.cold.page < |s.cold.lpns|
    ensures Uniform(s.cold.lpns[s.cold.page := WholeRow(s.gc)], s.cold.page)
  {
    var l := s.cold.lpns[s.cold.page := WholeRow(s.gc)];
    assert forall i: nat {:trigger EntryAt(l, s.cold.page, i)} ::
      i < CHUNKS_PER_PAGE ==> EntryAt(l, s.cold.page, i) == WholeRow(s.gc)[i];
  }

  lemma WholeKeeps(blks: nat, b: nat, t: Table, s: Bank)
    requires Inv(blks, b, t, s) && s.gc.state == GcWrite && s.gc.inPage == CHUNKS_PER_PAGE
    requires s.cold.lbn < blks && s.cold.page < USED_PAGES
    ensures var r := WholeMoved(s); Inv(blks, b, WholeTable(b, t, s), r.(cold := Advanced(r.cold)))
    ensures |Live(WholeTable(b, t, s), b, s.gc.victim)| == |Live(t, b, s.gc.victim)| - CHUNKS_PER_PAGE
  {
    hide Partition, ForwardFlash, Injective, AllUniform, Accounts, HeapOk, In, Val, RoleOf, Names, Describes,
      WholeRow, PageOk,
      CountSome, Uniform, Moving, Programs, Cleared, Touched, OwnerVal, Owed, Live, ListOf, Blank, AllBlank;
    var r := WholeMoved(s);
    var v := r.(cold := Advanced(r.cold));
    var u := WholeTable(b, t, s);
    var src := FromPage(s.gc.victim, s.gc.page);
    WholeNames(blks, b, t, s);
    WholePrograms(blks, s);
    WholeUniform(s);
    OpenRole(blks, s, false);
    FilledKept(b, t, s, u, v, true);
    FilledKept(b, t, s, u, v, false);
    ProgrammedCore(blks, b, t, s, v, false, Programmed(s.gc.buf), WholeRow(s.gc), src, CHUNKS_PER_PAGE, false);
    LiveGives(t, b, src, CHUNKS_PER_PAGE, s.cold.lbn, s.cold.page, false);
    WholeVictim(blks, s);
  }

  lemma WholeVictim(blks: nat, s: Bank)
    requires Shape(blks, s) && Partition(blks, s) && s.cold.lbn < blks && s.cold.page < USED_PAGES
    requires s.gc.victim < blks && RoleOf(s, s.gc.victim) in {SecondHeap, ColdHeap}
    ensures var r := WholeMoved(s); var v := r.(cold := Advanced(r.cold));
      && ListOf(v, s.gc.victim) == ListOf(s, s.gc.victim) && VictimPos(v) == VictimPos(s)
  {
    hide HeapOk, Val, PageOk, WholeRow, ListShape, Partition;
    OpenRole(blks, s, false);
  }

  lemma WholeKeepsData(blks: nat, b: nat, t: Table, s: Bank)
    requires Inv(blks, b, t, s) && s.gc.state == GcWrite && s.gc.inPage == CHUNKS_PER_PAGE
    requires s.cold.lbn < blks && s.cold.page < USED_PAGES
    ensures SameData(b, t, s, WholeTable(b, t, s), WholeMoved(s))
  {
    hide Partition, Injective, AllUniform, Accounts, HeapOk, In, Val, RoleOf, WholeRow, CountSome, ListOf, Touched,
      Names, Describes, Live;
    var u := WholeTable(b, t, s);
    WholePrograms(blks, s);
    forall k: Key | OfBank(Look(t, k), b)
      ensures OfBank(Look(u, k), b) && Fetch(WholeMoved(s), Look(u, k)) == Fetch(s, Look(t, k))
    {
      if Look(t, k).Flash? {
        assert Placed(blks, s, k, Look(t, k)) && PageOk(s, Look(t, k).lbn, Look(t, k).page, Look(t, k).encoded);
      }
    }
  }

  // ---------- The open cold block is full ----------

  /** increaseLpnColdBlk on a full block: it enters the cold heap and a clean block is opened. */
  function ColdRolled(blks: nat, s: Bank): Bank
    requires HeapOk(blks, s.first) && HeapOk(blks, s.second) && HeapOk(blks, s.coldHeap) && FlashShape(blks, s.flash)
    requires s.cold.lbn < blks && OneRole(s, s.cold.lbn) && RoleOf(s, s.cold.lbn) in {OpenHot, OpenCold} &&
      |s.clean| > 0
    requires s.cold.usage == ColdLog
  {
    OpenedClean(Closed(blks, s, false), false)
  }

  /** When the collector's own writes fill the cold block, the victim was at the root of its heap and is
      still near it; and what is left of it fits the fresh block, so this happens once per victim. */
  lemma ColdRollKeeps(blks: nat, b: nat, t: Table, s: Bank)
    requires Inv(blks, b, t, s) && s.cold.lbn < blks && s.cold.page == USED_PAGES && s.cold.ptr < CHUNKS_PER_PAGE
    requires s.gc.state == GcIdle ==> |s.clean| >= 1
    requires s.gc.state != GcIdle ==> s.gc.inBlk - s.gc.inPage > s.cold.ptr
    ensures |s.clean| > 0 && OneRole(s, s.cold.lbn) && RoleOf(s, s.cold.lbn) in {OpenHot, OpenCold}
    ensures var r := ColdRolled(blks, s);
      && Inv(blks, b, t, r) && SameData(b, t, s, t, r)
      && (s.gc.state != GcIdle ==> Snug(b, t, r))
      && r.cold.page == 0 && r.cold.lbn < blks && r.cold.ptr == s.cold.ptr && |r.clean| == |s.clean| - 1 && r.gc == s.gc
      && r.hot == s.hot && r.first == s.first && r.second == s.second && r.coldHeap.n == s.coldHeap.n + 1 &&
           r.adapt == s.adapt
  {
    hide HeapOk, Val, In, Insert, RoleOf, PageOk, Owed, ListOf, Live, Injective, ForwardFlash, ForwardBuf,
      AllUniform, Accounts, Partition, ListShape;
    RoleKnown(blks, s, s.cold.lbn);
    OpenRole(blks, s, false);
    ColdRollRoom(blks, b, t, s);
    CloseKeepsCore(blks, b, t, s, false);
    CloseKeepsData(blks, b, t, s, false);
    var c := Closed(blks, s, false);
    OpenCleanKeepsCore(blks, b, t, c, false);
    OpenedCleanRoles(blks, c, false);
    SameStoreData(b, t, c, OpenedClean(c, false));
    SameDataTransitive(b, t, s, t, c, t, OpenedClean(c, false));
    ColdRollCounts(blks, s);
    if s.gc.state != GcIdle {
      ColdRollVictim(blks, b, t, s);
    }
  }

  lemma ColdRollCounts(blks: nat, s: Bank)
    requires Shape(blks, s) && Partition(blks, s) && s.cold.lbn < blks && |s.clean| > 0
    ensures OneRole(s, s.cold.lbn) && RoleOf(s, s.cold.lbn) in {OpenHot, OpenCold}
    ensures ColdRolled(blks, s).coldHeap.n == s.coldHeap.n + 1
  {
    hide Partition, RoleOf;
    RoleKnown(blks, s, s.cold.lbn);
    OpenRole(blks, s, false);
  }

  lemma ColdRollVictim(blks: nat, b: nat, t: Table, s: Bank)
    requires Shape(blks, s) && Partition(blks, s) && s.cold.lbn < blks && s.cold.page == USED_PAGES && |s.clean| > 0
    requires s.gc.victim < blks && RoleOf(s, s.gc.victim) in {SecondHeap, ColdHeap} && VictimPos(s) == 1
    ensures OneRole(s, s.cold.lbn) && RoleOf(s, s.cold.lbn) in {OpenHot, OpenCold}
    ensures var r := ColdRolled(blks, s);
      && RoleOf(r, s.gc.victim) == RoleOf(s, s.gc.victim) && ListOf(r, s.gc.victim) == ListOf(s, s.gc.victim)
      && VictimPos(r) <= 3
      && (forall p: nat {:trigger PageAt(r.flash, s.gc.victim, p)} ::
           PageAt(r.flash, s.gc.victim, p) == PageAt(s.flash, s.gc.victim, p))
  {
    hide Val, RoleOf, PageOk, Owed, ListOf, Partition, ListShape, OneRole, Insert, Pos, In;
    var v := s.gc.victim;
    RoleKnown(blks, s, s.cold.lbn);
    OpenRole(blks, s, false);
    ClosedRoles(blks, s, false);
    ClosedLists(blks, s, false, v);
    var c := Closed(blks, s, false);
    assert Partition(blks, c) by {
      ClosedPartition(blks, s);
    }
    OpenedCleanRoles(blks, c, false);
    assert RoleOf(c, v) == RoleOf(s, v);
    OpenedSame(blks, c, false, v);
    VictimStaysNear(blks, s);
  }

  lemma ClosedPartition(blks: nat, s: Bank)
    requires Shape(blks, s) && Partition(blks, s) && s.cold.lbn < blks
    ensures OneRole(s, s.cold.lbn) && RoleOf(s, s.cold.lbn) in {OpenHot, OpenCold} &&
      Partition(blks, Closed(blks, s, false))
  {
    hide HeapOk, OneRole, RoleOf, Insert;
    ClosedRoles(blks, s, false);
  }

  lemma VictimStaysNear(blks: nat, s: Bank)
    requires Shape(blks, s) && Partition(blks, s) && s.cold.lbn < blks && s.gc.victim < blks
    requires RoleOf(s, s.gc.victim) in {SecondHeap, ColdHeap} && VictimPos(s) == 1
    ensures OneRole(s, s.cold.lbn) && RoleOf(s, s.cold.lbn) in {OpenHot, OpenCold}
    ensures VictimPos(Closed(blks, s, false)) <= 3
  {
    hide Ordered, ListShape, FlashShape, Insert;
    RoleKnown(blks, s, s.cold.lbn);
    RoleKnown(blks, s, s.gc.victim);
    if !In(s.second, s.gc.victim) {
      InsertLeavesRootNear(s.coldHeap, s.cold.lbn, s.gc.victim);
    }
  }

  lemma ColdRollRoom(blks: nat, b: nat, t: Table, s: Bank)
    requires Inv(blks, b, t, s) && s.cold.lbn < blks && s.cold.page == USED_PAGES
    requires s.gc.state == GcIdle ==> |s.clean| >= 1
    ensures |s.clean| > 0
    ensures s.gc.state != GcIdle ==> VictimPos(s) == 1 && s.gc.victim != s.cold.lbn
  {
    hide Core, Live, In, ListOf;
  }
}
