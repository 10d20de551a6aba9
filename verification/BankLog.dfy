/** Flushing a write buffer to the open block of its log, and moving on in the log. */
module BankLog {
  import opened Heap
  import opened BankState
  import opened BankSteps
  import opened BankPages

  // ---------- Data: what the map resolves to ----------

  /** The bank's chunks are mapped in u exactly when they are in t, still in the bank and to the same
      contents; entries of other banks are untouched. */
  ghost predicate SameData(b: nat, t: Table, s: Bank, u: Table, r: Bank) {
    forall k: Key {:trigger Look(u, k)} {:trigger Look(t, k)} ::
      if OfBank(Look(t, k), b) then OfBank(Look(u, k), b) && Fetch(r, Look(u, k)) == Fetch(s, Look(t, k))
      else Look(u, k) == Look(t, k)
  }

  lemma SameDataTransitive(b: nat, t: Table, s: Bank, u: Table, r: Bank, v: Table, q: Bank)
    requires SameData(b, t, s, u, r) && SameData(b, u, r, v, q)
    ensures SameData(b, t, s, v, q)
  {
    hide Fetch;
    forall k: Key
      ensures if OfBank(Look(t, k), b) then OfBank(Look(v, k), b) && Fetch(q, Look(v, k)) == Fetch(s, Look(t, k))
        else Look(v, k) == Look(t, k)
    {
      assert Look(u, k) == Look(u, k);
    }
  }

  // ---------- Flushing a write buffer ----------

  /** The list entries that a flush writes for the page; a recycled page keeps its entries 4 to 7. */
  function FlushRow(c: Ctrl): (row: seq<Entry>)
    requires CtrlShape(c)
    ensures |row| == CHUNKS_PER_PAGE
  {
    seq(CHUNKS_PER_PAGE, i requires 0 <= i < CHUNKS_PER_PAGE =>
      if i >= Capacity(c) then EntryAt(c.lpns, c.page, i)
      else if c.keys[i].Some? then Lpn(c.keys[i].value.lpn, c.recycled) else NoLpn)
  }

  /** The control block on its next page, before the log decides what that page is. A block whose last
      page was just programmed stands on page 127 (125 after a first usage). */
  function Advanced(c: Ctrl): Ctrl {
    match c.usage
    case ColdLog => c.(page := c.page + 1)
    case HotFirst => c.(page := if c.page == 0 then 1 else c.page + 2)
    case HotSecond => c.(page := c.page + 1, next := if c.recycled then None else c.next)
  }

  /** The control block right after its buffer went to flash. */
  function Emptied(c: Ctrl): Ctrl
    requires CtrlShape(c) && c.page < USED_PAGES
  {
    c.(lpns := c.lpns[c.page := FlushRow(c)], ptr := 0, allValid := true)
  }

  /** The log is at a page it may program. */
  ghost predicate Ready(c: Ctrl) {
    c.page < USED_PAGES && Discipline(c)
  }

  /** r is s after its full buffer was programmed and its metadata written, before increaseLpn. */
  ghost predicate Flushed(blks: nat, s: Bank, r: Bank, hot: bool) {
    var c := Log(s, hot);
    && c.lbn < blks && CtrlShape(c) && c.page < USED_PAGES && FlashShape(blks, s.flash)
    && r == WithLog(s, hot, Emptied(c)).(flash := SetPage(s.flash, c.lbn, c.page, Programmed(c.buf)),
                                         first := r.first, second := r.second, coldHeap := r.coldHeap)
    && Touched(blks, s.first, r.first, c.lbn) && Touched(blks, s.second, r.second, c.lbn) &&
         Touched(blks, s.coldHeap, r.coldHeap, c.lbn)
    && OwnerVal(r, c.lbn) + 8 == OwnerVal(s, c.lbn) + CountSome(c.keys[..Capacity(c)])
  }

  function FlushTable(b: nat, t: Table, c: Ctrl, hot: bool): Table {
    Relocated(t, b, FromBuf(hot), Capacity(c), c.lbn, c.page, c.recycled)
  }

  lemma BufferNames(b: nat, t: Table, s: Bank, hot: bool)
    requires ForwardBuf(b, t, s) && Filled(b, t, s, hot) && CtrlShape(Log(s, hot)) &&
      Log(s, hot).ptr == Capacity(Log(s, hot))
    ensures Names(t, b, FromBuf(hot), Log(s, hot).keys[..Capacity(Log(s, hot))])
    ensures Describes(t, b, FromBuf(hot), Capacity(Log(s, hot)), FlushRow(Log(s, hot)), Log(s, hot).recycled)
  {
    hide ListShape;
    var c := Log(s, hot);
    forall k: Key {:trigger Look(t, k)} | From(FromBuf(hot), b, Look(t, k))
      ensures Look(t, k).slot < Capacity(c) && c.keys[Look(t, k).slot] == Some(k)
    {
    }
  }

  lemma AdvancePages(blks: nat, s: Bank, r: Bank, hot: bool)
    requires Partition(blks, s) && Log(s, hot).lbn < blks && Ready(Log(s, hot))
    requires s.cold.usage == ColdLog && s.hot.usage != ColdLog && s.cold.next == None
    requires RoleOf(r, Log(s, hot).lbn) == RoleOf(s, Log(s, hot).lbn)
    requires var c, d := Log(s, hot), Log(r, hot);
      d.page == Advanced(c).page && d.next == Advanced(c).next && d.usage == c.usage
    ensures var lbn, page := Log(s, hot).lbn, Log(s, hot).page;
      && (forall q: nat, e: bool {:trigger PageOk(r, lbn, q, e)} {:trigger PageOk(s, lbn, q, e)} ::
           PageOk(s, lbn, q, e) ==> q != page && PageOk(r, lbn, q, e))
      && (forall q: nat {:trigger Blank(r, lbn, q)} :: Blank(r, lbn, q) ==> q != page && Blank(s, lbn, q))
      && PageOk(r, lbn, page, Log(s, hot).recycled) && Owed(r, lbn) + 8 == Owed(s, lbn)
  {
    hide RoleOf, Partition;
    OpenRole(blks, s, hot);
  }

  /** NAND pages are programmed once after an erase: the page the log stands on is erased, unless it is a low
      page taken up for reuse, which is programmed over on purpose. No live chunk is on it in either case. */
  lemma ReadyPageErased(blks: nat, b: nat, t: Table, s: Bank, hot: bool)
    requires Core(blks, b, t, s) && Log(s, hot).lbn < blks && Ready(Log(s, hot))
    ensures !Log(s, hot).recycled ==> PageAt(s.flash, Log(s, hot).lbn, Log(s, hot).page) == Erased
    ensures Log(s, hot).recycled ==> LowPage(Log(s, hot).page)
    ensures FreeOfLive(t, b, Log(s, hot).lbn, Log(s, hot).page)
  {
    hide HeapOk, RoleOf, Partition, Accounts, AllUniform, Injective, Filled, ForwardBuf, FlashShape,
      ListShape;
    OpenRole(blks, s, hot);
    assert !Log(s, hot).recycled ==> Blank(s, Log(s, hot).lbn, Log(s, hot).page);
  }

  lemma FlushPrograms(blks: nat, s: Bank, r: Bank, hot: bool)
    requires Shape(blks, s) && Partition(blks, s) && Flushed(blks, s, r, hot) && Ready(Log(s, hot))
    ensures var c, v := Log(s, hot), WithLog(r, hot, Advanced(Log(r, hot)));
      && Programs(blks, s, v, hot, Programmed(c.buf), FlushRow(c))
      && Owed(v, c.lbn) + 8 == Owed(s, c.lbn)
      && OwnerVal(v, c.lbn) + 8 == OwnerVal(s, c.lbn) + CountSome(c.keys[..Capacity(c)])
  {
    hide Partition, HeapOk, Val, In, RoleOf, FlushRow, PageOk, CountSome, Blank;
    var c := Log(s, hot);
    var v := WithLog(r, hot, Advanced(Log(r, hot)));
    FlushRoles(s, r, v, hot, c.lbn);
    AdvancePages(blks, s, v, hot);
    assert OwnerVal(v, c.lbn) == OwnerVal(r, c.lbn);
  }

  lemma FlushedShape(blks: nat, s: Bank, r: Bank, hot: bool)
    requires Shape(blks, s) && Flushed(blks, s, r, hot) && Ready(Log(s, hot)) && Cleared(s.hot)
    ensures var v := WithLog(r, hot, Advanced(Log(r, hot))); Shape(blks, v) && Cleared(v.hot)
  {
    hide HeapOk, Val, In, RoleOf, FlushRow, PageOk, CountSome;
    var c := Log(s, hot);
    var d := Advanced(Emptied(c));
    if hot && d.usage == HotSecond && d.next.Some? {
      assert forall i: nat {:trigger EntryAt(d.lpns, d.next.value, i)} ::
        EntryAt(d.lpns, d.next.value, i) == EntryAt(c.lpns, d.next.value, i);
    }
  }

  lemma FlushKeepsCore(blks: nat, b: nat, t: Table, s: Bank, r: Bank, hot: bool)
    requires Core(blks, b, t, s) && Flushed(blks, s, r, hot)
    requires Log(s, hot).ptr == Capacity(Log(s, hot)) && Ready(Log(s, hot))
    ensures Core(blks, b, FlushTable(b, t, Log(s, hot), hot), WithLog(r, hot, Advanced(Log(r, hot))))
  {
    hide Partition, ForwardFlash, Injective, AllUniform, Accounts, HeapOk, In, Val, RoleOf, Names, Describes,
      FlushRow, PageOk,
      CountSome, Uniform, Moving, Programs, Cleared, FlashShape, ListShape, Touched, OwnerVal, Owed, Blank, AllBlank;
    var c := Log(s, hot);
    var v := WithLog(r, hot, Advanced(Log(r, hot)));
    var u := FlushTable(b, t, c, hot);
    BufferNames(b, t, s, hot);
    MovingCount(t, b, FromBuf(hot), c.keys[..Capacity(c)], Capacity(c));
    assert c.keys[..Capacity(c)][..Capacity(c)] == c.keys[..Capacity(c)];
    FlushPrograms(blks, s, r, hot);
    FlushedShape(blks, s, r, hot);
    FlushUniform(s, c, hot);
    FilledKept(b, t, s, u, v, !hot);
    assert Filled(b, u, v, hot);
    assert if hot then Filled(b, u, v, true) && Filled(b, u, v, false)
      else Filled(b, u, v, false) && Filled(b, u, v, true);
    ProgrammedCore(blks, b, t, s, v, hot, Programmed(c.buf), FlushRow(c), FromBuf(hot), Capacity(c), c.recycled);
  }

  lemma FlushRoles(s: Bank, r: Bank, v: Bank, hot: bool, l: nat)
    requires r.first.pos == s.first.pos && r.first.n == s.first.n && r.second.pos == s.second.pos &&
      r.second.n == s.second.n
    requires r.coldHeap.pos == s.coldHeap.pos && r.coldHeap.n == s.coldHeap.n
    requires v.first == r.first && v.second == r.second && v.coldHeap == r.coldHeap
    requires r.hot.lbn == s.hot.lbn == v.hot.lbn && r.cold.lbn == s.cold.lbn == v.cold.lbn
    ensures RoleOf(r, l) == RoleOf(s, l) == RoleOf(v, l)
  {
  }

  lemma FlushUniform(s: Bank, c: Ctrl, hot: bool)
    requires CtrlShape(c) && Ready(c) && Cleared(s.hot) && c == Log(s, hot) &&
      (c.recycled ==> hot && c.usage == HotSecond)
    ensures Uniform(c.lpns[c.page := FlushRow(c)], c.page)
  {
    var l := c.lpns[c.page := FlushRow(c)];
    forall i: nat {:trigger EntryAt(l, c.page, i)} | i < CHUNKS_PER_PAGE
      ensures !c.recycled ==> !Flagged(EntryAt(l, c.page, i))
      ensures c.recycled ==>
        EntryAt(l, c.page, i) == NoLpn || (i < CHUNKS_PER_RECYCLED_PAGE && Flagged(EntryAt(l, c.page, i)))
    {
      assert c.recycled ==> EntryAt(c.lpns, c.page, i) == NoLpn;
    }
  }

  lemma FlushKeeps(blks: nat, b: nat, t: Table, s: Bank, r: Bank, hot: bool)
    requires Inv(blks, b, t, s) && Flushed(blks, s, r, hot) && (hot ==> s.gc.state == GcIdle)
    requires Log(s, hot).ptr == Capacity(Log(s, hot)) && Ready(Log(s, hot))
    ensures Inv(blks, b, FlushTable(b, t, Log(s, hot), hot), WithLog(r, hot, Advanced(Log(r, hot))))
  {
    hide Core, HeapOk, Val, In, RoleOf, ListOf, FlushRow, PageOk, CountSome, Scanned, Shape, OwnerVal, Owed;
    var v := WithLog(r, hot, Advanced(Log(r, hot)));
    FlushKeepsCore(blks, b, t, s, r, hot);
    if s.gc.state != GcIdle {
      FlushVictim(blks, b, t, s, r, hot);
      var u := FlushTable(b, t, Log(s, hot), hot);
      assert forall k: Key {:trigger Look(u, k)} {:trigger Look(t, k)} ::
        InBlock(Look(u, k), b, s.gc.victim) || InBlock(Look(t, k), b, s.gc.victim) ==> Look(u, k) == Look(t, k);
      CollectingKept(blks, b, t, s, u, v);
    }
  }

  lemma FlushVictim(blks: nat, b: nat, t: Table, s: Bank, r: Bank, hot: bool)
    requires Core(blks, b, t, s) && Flushed(blks, s, r, hot) && Ready(Log(s, hot)) &&
      Log(s, hot).ptr == Capacity(Log(s, hot))
    requires s.gc.victim < blks && RoleOf(s, s.gc.victim) in {SecondHeap, ColdHeap} && !hot
    ensures Log(s, hot).lbn != s.gc.victim
    ensures var v := WithLog(r, hot, Advanced(Log(r, hot)));
      && RoleOf(v, s.gc.victim) == RoleOf(s, s.gc.victim) && ListOf(v, s.gc.victim) == ListOf(s, s.gc.victim)
      && VictimPos(v) == VictimPos(s) && Room(v) == Room(s) && v.clean == s.clean && v.gc == s.gc
      && (forall p: nat {:trigger PageAt(v.flash, s.gc.victim, p)} ::
           PageAt(v.flash, s.gc.victim, p) == PageAt(s.flash, s.gc.victim, p))
  {
    hide HeapOk, Val, FlushRow, PageOk, CountSome, OneRole, FlashShape, ListShape;
    var v := WithLog(r, hot, Advanced(Log(r, hot)));
    assert v.first.pos == s.first.pos && v.second.pos == s.second.pos && v.coldHeap.pos == s.coldHeap.pos;
    FlushRoles(s, r, v, hot, s.gc.victim);
    hide RoleOf;
    OpenRole(blks, s, hot);
  }

  lemma FlushKeepsData(blks: nat, b: nat, t: Table, s: Bank, r: Bank, hot: bool)
    requires Core(blks, b, t, s) && Flushed(blks, s, r, hot)
    requires Log(s, hot).ptr == Capacity(Log(s, hot)) && Ready(Log(s, hot))
    ensures SameData(b, t, s, FlushTable(b, t, Log(s, hot), hot), r)
  {
    hide Partition, Injective, AllUniform, Accounts, HeapOk, In, Val, RoleOf, FlushRow, CountSome, ListOf, Touched,
      Names, Describes, Blank, AllBlank;
    var c := Log(s, hot);
    var u := FlushTable(b, t, c, hot);
    BufferNames(b, t, s, hot);
    FlushPrograms(blks, s, r, hot);
    forall k: Key | OfBank(Look(t, k), b)
      ensures OfBank(Look(u, k), b) && Fetch(r, Look(u, k)) == Fetch(s, Look(t, k))
    {
      if Look(t, k).Flash? {
        assert Placed(blks, s, k, Look(t, k)) && PageOk(s, Look(t, k).lbn, Look(t, k).page, Look(t, k).encoded);
      }
    }
  }

  // ---------- Slot by slot ----------

  /** One slot of the flush loop: its chunk, if it still has one, is mapped to the programmed page. */
  lemma RelocatedStep(t: Table, b: nat, src: Source, opts: seq<Option<Key>>, i: nat, lbn: nat, page: nat, encoded: bool)
    requires Names(t, b, src, opts) && i < |opts|
    ensures Relocated(t, b, src, i + 1, lbn, page, encoded) ==
            (var u := Relocated(t, b, src, i, lbn, page, encoded);
             if opts[i].Some? then u[opts[i].value := Flash(b, lbn, page, i, encoded)] else u)
  {
    var u := Relocated(t, b, src, i, lbn, page, encoded);
    var v := Relocated(t, b, src, i + 1, lbn, page, encoded);
    var w := if opts[i].Some? then u[opts[i].value := Flash(b, lbn, page, i, encoded)] else u;
    assert opts[i].Some? ==> SlotOf(Look(t, opts[i].value)) == i;
    forall k: Key
      ensures (k in v <==> k in w) && (k in v ==> v[k] == w[k])
    {
      assert Look(t, k) == Look(t, k);
      assert From(src, b, Look(t, k)) ==> opts[SlotOf(Look(t, k))] == Some(k);
    }
  }

  lemma RelocatedNone(t: Table, b: nat, src: Source, lbn: nat, page: nat, encoded: bool)
    ensures Relocated(t, b, src, 0, lbn, page, encoded) == t
  {
    var u := Relocated(t, b, src, 0, lbn, page, encoded);
    forall k: Key
      ensures (k in u <==> k in t) && (k in u ==> u[k] == t[k])
    {
      assert Look(t, k) == Look(t, k);
    }
  }

  lemma CountStep<T>(v: seq<Option<T>>, i: nat)
    requires i < |v|
    ensures CountSome(v[..i + 1]) == CountSome(v[..i]) + if v[i].Some? then 1 else 0
  {
    assert v[..i + 1][..i] == v[..i];
  }

  /** The heaps of r differ from those of s only in lbn's counters. */
  ghost predicate HeapsTouched(blks: nat, s: Bank, r: Bank, lbn: nat) {
    Touched(blks, s.first, r.first, lbn) && Touched(blks, s.second, r.second, lbn) &&
      Touched(blks, s.coldHeap, r.coldHeap, lbn)
  }

  lemma HeapsSelf(blks: nat, s: Bank, lbn: nat)
    requires HeapOk(blks, s.first) && HeapOk(blks, s.second) && HeapOk(blks, s.coldHeap)
    ensures HeapsTouched(blks, s, s, lbn)
  {
  }

  /** The three decrements for a slot without a chunk: the open block's owning counter loses one. */
  lemma DecOpen(blks: nat, s: Bank, r: Bank, lbn: nat)
    requires HeapsTouched(blks, s, r, lbn) && lbn < blks && OneRole(s, lbn) && RoleOf(s, lbn) in {OpenHot, OpenCold}
    requires r == s.(first := r.first, second := r.second, coldHeap := r.coldHeap) && OwnerVal(r, lbn) > 0
    ensures HeapOk(blks, r.first) && HeapOk(blks, r.second) && HeapOk(blks, r.coldHeap)
    ensures HeapsTouched(blks, s, DecAll(blks, r, lbn), lbn) &&
      OwnerVal(DecAll(blks, r, lbn), lbn) == OwnerVal(r, lbn) - 1
  {
    hide Valid, Ordered, DecrementByN, Val;
    assert !In(r.first, lbn) && !In(r.second, lbn) && !In(r.coldHeap, lbn);
    hide In, HeapOk;
    DecrementOne(blks, r.first, lbn);
    DecrementOne(blks, r.second, lbn);
    DecrementOne(blks, r.coldHeap, lbn);
  }

  /** The open block's counter covers the page about to be programmed. */
  lemma OpenCount(blks: nat, b: nat, t: Table, s: Bank, hot: bool)
    requires Core(blks, b, t, s) && Log(s, hot).lbn < blks && Ready(Log(s, hot))
    ensures OneRole(s, Log(s, hot).lbn) && RoleOf(s, Log(s, hot).lbn) == if hot then OpenHot else OpenCold
    ensures OwnerVal(s, Log(s, hot).lbn) >= |Live(t, b, Log(s, hot).lbn)| + 8
  {
    hide HeapOk, Val, In, Live, ForwardFlash, ForwardBuf, Injective, AllUniform, Filled;
    RoleKnown(blks, s, Log(s, hot).lbn);
    OpenRole(blks, s, hot);
    assert Account(b, t, s, Log(s, hot).lbn);
  }
}
