/** Each elementary change the write path and the collector make to a bank keeps the invariant. */
module BankSteps {
  import opened Heap
  import opened BankState

  // ---------- Live sets ----------

  lemma LiveSame(t: Table, u: Table, b: nat, lbn: nat)
    requires forall k: Key {:trigger Look(u, k)} {:trigger Look(t, k)} ::
      InBlock(Look(t, k), b, lbn) <==> InBlock(Look(u, k), b, lbn)
    ensures Live(t, b, lbn) == Live(u, b, lbn)
  {
    forall k: Key
      ensures k in Live(t, b, lbn) <==> k in Live(u, b, lbn)
    {
      assert InBlock(Look(t, k), b, lbn) <==> InBlock(Look(u, k), b, lbn);
    }
  }

  lemma LiveLess(t: Table, u: Table, b: nat, lbn: nat, k: Key)
    requires InBlock(Look(t, k), b, lbn) && u == t - {k}
    ensures |Live(u, b, lbn)| == |Live(t, b, lbn)| - 1
  {
    assert Live(t, b, lbn) == Live(u, b, lbn) + {k};
  }

  // ---------- What a step that leaves block ownership alone keeps ----------

  /** The control block keeps its place in the log and its list; only the buffer may differ. */
  ghost predicate SameOpen(c: Ctrl, d: Ctrl) {
    d.lbn == c.lbn && d.page == c.page && d.lpns == c.lpns && d.usage == c.usage && d.next == c.next &&
      d.recycled == c.recycled
  }

  /** The blocks play the same roles in s and r, and the same lists and flash pages stand. */
  ghost predicate SameLayout(blks: nat, s: Bank, r: Bank) {
    && SameOpen(s.hot, r.hot) && SameOpen(s.cold, r.cold) && r.flash == s.flash && r.clean == s.clean
    && SameRoles(blks, s, r)
  }

  ghost predicate SameRoles(blks: nat, s: Bank, r: Bank) {
    forall l: nat {:trigger RoleOf(r, l)} :: l < blks ==>
      && (In(s.first, l) <==> In(r.first, l)) && (In(s.second, l) <==> In(r.second, l))
      && (In(s.coldHeap, l) <==> In(r.coldHeap, l)) && RoleOf(r, l) == RoleOf(s, l)
  }

  lemma RoleKnown(blks: nat, s: Bank, lbn: nat)
    requires Partition(blks, s) && lbn < blks
    ensures OneRole(s, lbn)
  {
  }

  lemma PartitionKept(blks: nat, s: Bank, r: Bank)
    requires Partition(blks, s) && SameLayout(blks, s, r)
    ensures Partition(blks, r)
  {
    forall l: nat {:trigger OneRole(r, l)} | l < blks
      ensures OneRole(r, l)
    {
      assert OneRole(s, l) && RoleOf(r, l) == RoleOf(s, l);
    }
  }

  /** u maps no chunk elsewhere than t does; it may have lost some. */
  ghost predicate SubTable(t: Table, u: Table) {
    forall k: Key {:trigger Look(u, k)} :: Look(u, k) == Look(t, k) || Look(u, k) == Invalid
  }

  /** The flash entries of u are entries of t. */
  ghost predicate SubFlash(t: Table, u: Table) {
    forall k: Key {:trigger Look(u, k)} :: Look(u, k).Flash? ==> Look(u, k) == Look(t, k)
  }

  lemma ForwardFlashKept(blks: nat, b: nat, t: Table, s: Bank, u: Table, r: Bank)
    requires ForwardFlash(blks, b, t, s) && SameLayout(blks, s, r) && SubFlash(t, u)
    ensures ForwardFlash(blks, b, u, r)
  {
    forall k: Key {:trigger Look(u, k)} | OfBank(Look(u, k), b) && Look(u, k).Flash?
      ensures Placed(blks, r, k, Look(u, k))
    {
      var l := Look(t, k);
      assert Placed(blks, s, k, l) && RoleOf(r, l.lbn) == RoleOf(s, l.lbn);
    }
  }

  lemma InjectiveKept(b: nat, t: Table, u: Table)
    requires Injective(b, t) && SubTable(t, u)
    ensures Injective(b, u)
  {
    forall j: Key, k: Key {:trigger Look(u, j), Look(u, k)} | OfBank(Look(u, j), b) &&
      Place(Look(u, j)) == Place(Look(u, k))
      ensures j == k
    {
      assert Look(t, j) == Look(u, j) && Look(t, k) == Look(u, k);
    }
  }

  lemma BlankKept(blks: nat, s: Bank, r: Bank)
    requires AllBlank(blks, s) && SameLayout(blks, s, r)
    ensures AllBlank(blks, r)
  {
    forall l: nat, page: nat {:trigger Blank(r, l, page)} | l < blks && Blank(r, l, page)
      ensures PageAt(r.flash, l, page) == Erased
    {
      assert RoleOf(r, l) == RoleOf(s, l) && Blank(s, l, page);
    }
  }

  lemma UniformKept(blks: nat, s: Bank, r: Bank)
    requires AllUniform(blks, s) && SameLayout(blks, s, r)
    ensures AllUniform(blks, r)
  {
    forall l: nat {:trigger ListOf(r, l)} | l < blks
      ensures UniformList(ListOf(r, l)) && (RoleOf(r, l) == FirstHeap ==> ListShape(ListOf(r, l)))
    {
      assert RoleOf(r, l) == RoleOf(s, l) && ListOf(r, l) == ListOf(s, l);
    }
  }

  /** A block's account stands when its role, its live chunks, its counters and what is owed do. */
  lemma AccountElsewhere(b: nat, t: Table, s: Bank, u: Table, r: Bank, l: nat)
    requires Account(b, t, s, l) && RoleOf(r, l) == RoleOf(s, l) && Live(u, b, l) == Live(t, b, l)
    requires Val(r.first, l) == Val(s.first, l) && Val(r.second, l) == Val(s.second, l) &&
      Val(r.coldHeap, l) == Val(s.coldHeap, l)
    requires Owed(r, l) == Owed(s, l) && (RoleOf(s, l) == OpenHot ==> r.hot.usage == s.hot.usage)
    ensures Account(b, u, r, l)
  {
  }

  lemma FilledKept(b: nat, t: Table, s: Bank, u: Table, r: Bank, hot: bool)
    requires Filled(b, t, s, hot)
    requires var c, d := Log(s, hot), Log(r, hot); d.keys == c.keys && d.ptr == c.ptr && d.allValid == c.allValid
    requires forall k: Key {:trigger Look(u, k)} ::
      Look(t, k).Buf? && Look(t, k).hot == hot ==> Look(u, k) == Look(t, k)
    ensures Filled(b, u, r, hot)
  {
  }

  /** The collection in progress is undisturbed by a step that leaves the victim alone. */
  lemma CollectingKept(blks: nat, b: nat, t: Table, s: Bank, u: Table, r: Bank)
    requires Collecting(blks, b, t, s) && r.gc == s.gc
    requires s.gc.state != GcIdle ==>
      && RoleOf(r, s.gc.victim) == RoleOf(s, s.gc.victim) && ListOf(r, s.gc.victim) == ListOf(s, s.gc.victim)
      && VictimPos(r) == VictimPos(s) && |r.clean| == |s.clean|
      && (Room(r) >= Room(s) || |Live(t, b, s.gc.victim)| < Room(r) || (VictimPos(s) == 1 && |s.clean| >= 1))
      && (forall k: Key {:trigger Look(u, k)} {:trigger Look(t, k)} ::
           InBlock(Look(u, k), b, s.gc.victim) || InBlock(Look(t, k), b, s.gc.victim) ==> Look(u, k) == Look(t, k))
      && (forall p: nat {:trigger PageAt(r.flash, s.gc.victim, p)} ::
           PageAt(r.flash, s.gc.victim, p) == PageAt(s.flash, s.gc.victim, p))
    ensures Collecting(blks, b, u, r)
  {
    if s.gc.state != GcIdle {
      LiveSame(t, u, b, s.gc.victim);
    }
  }

  // ---------- A chunk is unmapped ----------

  /** The three decrements the source makes for an overwritten chunk of a flash block. */
  function DecAll(blks: nat, s: Bank, lbn: nat): Bank
    requires HeapOk(blks, s.first) && HeapOk(blks, s.second) && HeapOk(blks, s.coldHeap) && lbn < blks
  {
    s.(first := DecrementByN(s.first, lbn, 1), second := DecrementByN(s.second, lbn, 1),
      coldHeap := DecrementByN(s.coldHeap, lbn, 1))
  }

  lemma DecrementOne(blks: nat, h: HeapState, lbn: nat)
    requires HeapOk(blks, h) && lbn < blks && (In(h, lbn) ==> Val(h, lbn) > 0)
    ensures var g := DecrementByN(h, lbn, 1);
      && HeapOk(blks, g) && (Val(h, lbn) > 0 ==> Val(g, lbn) == Val(h, lbn) - 1)
      && (!In(h, lbn) ==> g.pos == h.pos && g.n == h.n)
      && (forall l: nat {:trigger In(g, l)} :: l < blks ==> (In(g, l) <==> In(h, l)))
      && (forall l: nat {:trigger Val(g, l)} :: l < blks && l != lbn ==> Val(g, l) == Val(h, l))
  {
    assert At(h, Pos(h, lbn)).value < U16;
    DecrementMeaning(h, lbn, 1);
  }

  /** The counters of the block in all three heaps went down by one, in 16 bits; no other counter changed. */
  ghost predicate AllThreeDropped(blks: nat, s: Bank, lbn: nat, r: Bank) {
    && Val(r.first, lbn) == (Val(s.first, lbn) - 1) % U16 && Val(r.second, lbn) == (Val(s.second, lbn) - 1) % U16
    && Val(r.coldHeap, lbn) == (Val(s.coldHeap, lbn) - 1) % U16
    && forall l: nat {:trigger Val(r.first, l)} {:trigger Val(r.second, l)} {:trigger Val(r.coldHeap, l)} ::
         l < blks && l != lbn ==>
           && Val(r.first, l) == Val(s.first, l) && Val(r.second, l) == Val(s.second, l)
           && Val(r.coldHeap, l) == Val(s.coldHeap, l)
  }

  lemma DropsAllThree(blks: nat, s: Bank, lbn: nat)
    requires HeapOk(blks, s.first) && HeapOk(blks, s.second) && HeapOk(blks, s.coldHeap) && lbn < blks
    requires In(s.first, lbn) ==> Val(s.first, lbn) > 0
    requires In(s.second, lbn) ==> Val(s.second, lbn) > 0
    requires In(s.coldHeap, lbn) ==> Val(s.coldHeap, lbn) > 0
    ensures AllThreeDropped(blks, s, lbn, DecAll(blks, s, lbn))
  {
    hide DecrementByN, Val, In;
    DecrementMeaning(s.first, lbn, 1);
    DecrementMeaning(s.second, lbn, 1);
    DecrementMeaning(s.coldHeap, lbn, 1);
  }

  lemma DecAllEffect(blks: nat, s: Bank, lbn: nat)
    requires HeapOk(blks, s.first) && HeapOk(blks, s.second) && HeapOk(blks, s.coldHeap) && lbn < blks
    requires OneRole(s, lbn) && (RoleOf(s, lbn) in {FirstHeap, SecondHeap, ColdHeap} ==> OwnerVal(s, lbn) > 0)
    ensures var r := DecAll(blks, s, lbn);
      && HeapOk(blks, r.first) && HeapOk(blks, r.second) && HeapOk(blks, r.coldHeap)
      && SameLayout(blks, s, r) && r.hot == s.hot && r.cold == s.cold && r.gc == s.gc && r.adapt == s.adapt
      && (OwnerVal(s, lbn) > 0 ==> OwnerVal(r, lbn) == OwnerVal(s, lbn) - 1)
      && forall l: nat {:trigger RoleOf(r, l)} :: l < blks && l != lbn ==>
           Val(r.first, l) == Val(s.first, l) && Val(r.second, l) == Val(s.second, l) &&
             Val(r.coldHeap, l) == Val(s.coldHeap, l)
  {
    hide HeapOk, Valid, DecrementByN, Val, In;
    DecrementOne(blks, s.first, lbn);
    DecrementOne(blks, s.second, lbn);
    DecrementOne(blks, s.coldHeap, lbn);
  }

  /** The counter of lbn after n of its chunks were dropped, in one of the three heaps. */
  function Drops(h: HeapState, lbn: nat, n: nat): (r: HeapState)
    requires Valid(h) && lbn < |h.pos|
    ensures Valid(r) && |r.pos| == |h.pos|
  {
    if n == 0 then h else DecrementByN(Drops(h, lbn, n - 1), lbn, 1)
  }

  /** In a heap that the block is not in, nothing keeps the counter above zero: it wraps in 16 bits. */
  lemma {:induction false} OutsiderDrops(blks: nat, h: HeapState, lbn: nat, n: nat)
    requires HeapOk(blks, h) && lbn < blks && !In(h, lbn) && n < U16
    ensures HeapOk(blks, Drops(h, lbn, n)) && !In(Drops(h, lbn, n), lbn)
    ensures Val(Drops(h, lbn, n), lbn) == Minus16(Val(h, lbn), n)
  {
    hide HeapOk, DecrementByN, Val, In, Valid, Minus16;
    CounterBound(blks, h, lbn);
    if n > 0 {
      OutsiderDrops(blks, h, lbn, n - 1);
      OutsiderDrop(blks, Drops(h, lbn, n - 1), lbn);
      MinusStep(Val(h, lbn), n);
    } else {
      MinusNone(Val(h, lbn));
    }
  }

  lemma CounterBound(blks: nat, h: HeapState, lbn: nat)
    requires HeapOk(blks, h) && lbn < blks
    ensures Val(h, lbn) < U16 && Valid(h) && lbn < |h.pos|
  {
    assert At(h, Pos(h, lbn)).value < U16;
  }

  lemma OutsiderDrop(blks: nat, h: HeapState, lbn: nat)
    requires HeapOk(blks, h) && lbn < blks && !In(h, lbn)
    ensures Valid(h) && lbn < |h.pos|
    ensures var g := DecrementByN(h, lbn, 1); HeapOk(blks, g) && !In(g, lbn) && Val(g, lbn) == Minus16(Val(h, lbn), 1)
  {
    hide DecrementByN;
    DecrementMeaning(h, lbn, 1);
  }

  lemma MinusStep(value: nat, n: nat)
    requires value < U16 && 0 < n < U16
    ensures Minus16(Minus16(value, n - 1), 1) == Minus16(value, n)
  {
  }

  lemma MinusNone(value: nat)
    requires value < U16
    ensures Minus16(value, 0) == value
  {
  }

  /** So it happens: when the 1016 chunks of a cold block have all been overwritten, its counter in the first-usage
      heap stands at 65528. Nobody reads it there, and it is reset before the block enters that heap. */
  lemma CounterWraps(blks: nat, h: HeapState, lbn: nat)
    requires HeapOk(blks, h) && lbn < blks && !In(h, lbn) && Val(h, lbn) == FIRST_USAGE_CHUNKS
    ensures Val(Drops(h, lbn, SECOND_USAGE_CHUNKS), lbn) == 65528
  {
    hide HeapOk, Val, In;
    OutsiderDrops(blks, h, lbn, SECOND_USAGE_CHUNKS);
  }

  /** The counter of a block's owner covers its live chunks, so it is not zero when one of them is dropped. */
  lemma CounterCoversLive(blks: nat, b: nat, t: Table, s: Bank, k: Key)
    requires Inv(blks, b, t, s) && OfBank(Look(t, k), b) && Look(t, k).Flash?
    ensures Look(t, k).lbn < blks && RoleOf(s, Look(t, k).lbn) != Clean
    ensures OwnerVal(s, Look(t, k).lbn) >= |Live(t, b, Look(t, k).lbn)| > 0
  {
    hide HeapOk, Val, In, FlashShape, ListShape, AllUniform, ForwardBuf, Filled;
    var lbn := Look(t, k).lbn;
    assert Placed(blks, s, k, Look(t, k)) && PageOk(s, lbn, Look(t, k).page, Look(t, k).encoded);
    assert Account(b, t, s, lbn) && k in Live(t, b, lbn);
  }

  lemma UnlinkFlash(blks: nat, b: nat, t: Table, s: Bank, k: Key)
    requires Inv(blks, b, t, s) && s.gc.state == GcIdle
    requires OfBank(Look(t, k), b) && Look(t, k).Flash?
    ensures Look(t, k).lbn < blks && Inv(blks, b, t - {k}, DecAll(blks, s, Look(t, k).lbn))
  {
    hide HeapOk, Valid, Ordered, FlashShape, ListShape, Injective, AllUniform, Uniform, DecrementByN, Val, In,
      Partition, AllBlank;
    var lbn := Look(t, k).lbn;
    assert Placed(blks, s, k, Look(t, k));
    RoleKnown(blks, s, lbn);
    assert OneRole(s, lbn) && Account(b, t, s, lbn);
    assert k in Live(t, b, lbn);
    DecAllEffect(blks, s, lbn);
    var r := DecAll(blks, s, lbn);
    var u := t - {k};
    assert SubTable(t, u);
    PartitionKept(blks, s, r);
    ForwardFlashKept(blks, b, t, s, u, r);
    InjectiveKept(b, t, u);
    UniformKept(blks, s, r);
    BlankKept(blks, s, r);
    FilledKept(b, t, s, u, r, true);
    FilledKept(b, t, s, u, r, false);
    forall l: nat {:trigger Account(b, u, r, l)} | l < blks
      ensures Account(b, u, r, l)
    {
      assert Account(b, t, s, l) && RoleOf(r, l) == RoleOf(s, l);
      if l == lbn {
        LiveLess(t, u, b, lbn, k);
      } else {
        LiveSame(t, u, b, l);
        AccountElsewhere(b, t, s, u, r, l);
      }
    }
  }

  /** A buffer slot whose chunk was overwritten by the host: cleared, and the flush told to look. */
  function ClearSlot(s: Bank, hot: bool, i: nat): Bank
    requires i < |Log(s, hot).keys|
  {
    var c := Log(s, hot);
    WithLog(s, hot, c.(keys := c.keys[i := None], allValid := false))
  }

  function WithLog(s: Bank, hot: bool, c: Ctrl): Bank {
    if hot then s.(hot := c) else s.(cold := c)
  }

  /** s and r differ in write-buffer contents only. */
  ghost predicate SameButBuffers(s: Bank, r: Bank) {
    && SameOpen(s.hot, r.hot) && SameOpen(s.cold, r.cold)
    && r == s.(hot := r.hot, cold := r.cold)
  }

  lemma BuffersKeep(blks: nat, b: nat, t: Table, s: Bank, u: Table, r: Bank)
    requires Partition(blks, s) && ForwardFlash(blks, b, t, s) && AllUniform(blks, s) && Accounts(blks, b, t, s) &&
      AllBlank(blks, s)
    requires SameButBuffers(s, r) && SubFlash(t, u)
    requires forall k: Key {:trigger Look(t, k)} ::
      OfBank(Look(t, k), b) && Look(t, k).Flash? ==> Look(u, k) == Look(t, k)
    ensures Partition(blks, r) && ForwardFlash(blks, b, u, r) && AllUniform(blks, r) && Accounts(blks, b, u, r) &&
      AllBlank(blks, r)
  {
    hide Partition, ForwardFlash, AllUniform, AllBlank;
    assert SameLayout(blks, s, r);
    PartitionKept(blks, s, r);
    ForwardFlashKept(blks, b, t, s, u, r);
    UniformKept(blks, s, r);
    BlankKept(blks, s, r);
    forall l: nat {:trigger Account(b, u, r, l)} | l < blks
      ensures Account(b, u, r, l)
    {
      assert Account(b, t, s, l) && RoleOf(r, l) == RoleOf(s, l);
      LiveSame(t, u, b, l);
      AccountElsewhere(b, t, s, u, r, l);
    }
  }

  lemma FilledCleared(b: nat, t: Table, s: Bank, k: Key, hot: bool)
    requires Filled(b, t, s, hot) && Filled(b, t, s, !hot) && Look(t, k).Buf? && Look(t, k).hot == hot
    requires Look(t, k).slot < |Log(s, hot).keys| && Log(s, hot).keys[Look(t, k).slot] == Some(k)
    ensures Filled(b, t - {k}, ClearSlot(s, hot, Look(t, k).slot), hot) &&
      Filled(b, t - {k}, ClearSlot(s, hot, Look(t, k).slot), !hot)
  {
    var r, u := ClearSlot(s, hot, Look(t, k).slot), t - {k};
    var c, d := Log(s, hot), Log(r, hot);
    forall i: nat {:trigger d.keys[i]} | i < d.ptr && i < |d.keys|
      ensures d.keys[i].Some? ==> Look(u, d.keys[i].value) == Buf(b, hot, i)
    {
      if i != Look(t, k).slot {
        assert d.keys[i] == c.keys[i];
      }
    }
    FilledKept(b, t, s, u, r, !hot);
  }

  lemma UnlinkBuf(blks: nat, b: nat, t: Table, s: Bank, k: Key)
    requires Inv(blks, b, t, s) && s.gc.state == GcIdle
    requires OfBank(Look(t, k), b) && Look(t, k).Buf?
    ensures Look(t, k).slot < |Log(s, Look(t, k).hot).keys|
    ensures Inv(blks, b, t - {k}, ClearSlot(s, Look(t, k).hot, Look(t, k).slot))
  {
    hide HeapOk, Valid, Ordered, FlashShape, ListShape, Injective, AllUniform, Val, In, Partition, ForwardFlash,
      Accounts, Filled, AllBlank;
    var l := Look(t, k);
    var r := ClearSlot(s, l.hot, l.slot);
    var u := t - {k};
    assert SubTable(t, u);
    assert Log(s, l.hot).keys[l.slot] == Some(k);
    BuffersKeep(blks, b, t, s, u, r);
    InjectiveKept(b, t, u);
    assert if l.hot then Filled(b, t, s, l.hot) && Filled(b, t, s, !l.hot)
      else Filled(b, t, s, !l.hot) && Filled(b, t, s, l.hot);
    FilledCleared(b, t, s, k, l.hot);
    assert if l.hot then Filled(b, u, r, true) && Filled(b, u, r, false)
      else Filled(b, u, r, false) && Filled(b, u, r, true);
  }

  /** A chunk about to be moved leaves the victim: its flag is cleared and one fewer is left in the page. */
  function Taken(s: Bank, i: nat): Bank
    requires i < |s.gc.found| && s.gc.inPage > 0
  {
    s.(gc := s.gc.(found := s.gc.found[i := None], inPage := s.gc.inPage - 1))
  }

  lemma {:induction false} CountUpdate<T>(v: seq<Option<T>>, i: nat)
    requires i < |v| && v[i].Some?
    ensures CountSome(v) > 0 && CountSome(v[i := None]) == CountSome(v) - 1
  {
    var n := |v| - 1;
    if i == n {
      assert v[i := None][..n] == v[..n];
    } else {
      CountUpdate(v[..n], i);
      assert v[i := None][..n] == v[..n][i := None];
    }
  }

  lemma UnlinkVictim(blks: nat, b: nat, t: Table, s: Bank, i: nat)
    requires Inv(blks, b, t, s) && s.gc.state == GcWrite
    requires i < CHUNKS_PER_PAGE && s.gc.found[i].Some?
    ensures var k := s.gc.found[i].value;
      && s.gc.inPage > 0 && Inv(blks, b, t - {k}, Taken(s, i))
      && |Live(t - {k}, b, s.gc.victim)| == |Live(t, b, s.gc.victim)| - 1
  {
    hide HeapOk, Valid, Ordered, FlashShape, ListShape, Injective, AllUniform, Val, In, Partition, ForwardFlash,
      Uniform, CountSome, AllBlank;
    var k := s.gc.found[i].value;
    var v := s.gc.victim;
    CountUpdate(s.gc.found, i);
    var r := Taken(s, i);
    var u := t - {k};
    assert SubTable(t, u) && SameLayout(blks, s, r);
    PartitionKept(blks, s, r);
    ForwardFlashKept(blks, b, t, s, u, r);
    InjectiveKept(b, t, u);
    UniformKept(blks, s, r);
    BlankKept(blks, s, r);
    FilledKept(b, t, s, u, r, true);
    FilledKept(b, t, s, u, r, false);
    LiveLess(t, u, b, v, k);
    forall l: nat {:trigger Account(b, u, r, l)} | l < blks
      ensures Account(b, u, r, l)
    {
      assert Account(b, t, s, l) && RoleOf(r, l) == RoleOf(s, l);
      if l != v {
        LiveSame(t, u, b, l);
        AccountElsewhere(b, t, s, u, r, l);
      }
    }
    TakenScanned(b, t, s, i);
  }

  lemma TakenScanned(b: nat, t: Table, s: Bank, i: nat)
    requires Scanned(b, t, s) && Injective(b, t) && i < CHUNKS_PER_PAGE && s.gc.found[i].Some? && s.gc.inPage > 0
    ensures Scanned(b, t - {s.gc.found[i].value}, Taken(s, i))
  {
    hide CountSome;
    var k := s.gc.found[i].value;
    var u := t - {k};
    var r := Taken(s, i);
    CountUpdate(s.gc.found, i);
    forall x: nat {:trigger r.gc.found[x]} | x < CHUNKS_PER_PAGE && r.gc.found[x].Some?
      ensures Look(u, r.gc.found[x].value) == Flash(b, r.gc.victim, r.gc.page, x, r.gc.recycled)
    {
      assert s.gc.found[x].Some?;
    }
    forall x: Key {:trigger Look(u, x)} | InBlock(Look(u, x), b, r.gc.victim) && Look(u, x).page == r.gc.page
      ensures Look(u, x).chunk < CHUNKS_PER_PAGE && r.gc.found[Look(u, x).chunk] == Some(x)
    {
      assert s.gc.found[Look(t, x).chunk] == Some(x);
    }
  }

  // ---------- A chunk is placed in a write buffer ----------

  /** writeChunkNew and updateDramBufMetadata: chunk k with contents d takes the next slot. */
  function PutSlot(s: Bank, hot: bool, k: Key, d: Chunk): Bank
    requires Log(s, hot).ptr < |Log(s, hot).buf| && Log(s, hot).ptr < |Log(s, hot).keys|
  {
    var c := Log(s, hot);
    WithLog(s, hot, c.(buf := c.buf[c.ptr := d], keys := c.keys[c.ptr := Some(k)], ptr := c.ptr + 1))
  }

  lemma Link(blks: nat, b: nat, t: Table, s: Bank, hot: bool, k: Key, d: Chunk)
    requires Inv(blks, b, t, s) && Look(t, k) == Invalid && k.idx < CHUNKS_PER_PAGE
    requires Log(s, hot).ptr < Capacity(Log(s, hot))
    requires s.gc.state != GcIdle && !hot ==>
      |Live(t, b, s.gc.victim)| + 1 < Room(s) || (VictimPos(s) == 1 && |s.clean| >= 1)
    ensures Inv(blks, b, t[k := Buf(b, hot, Log(s, hot).ptr)], PutSlot(s, hot, k, d))
  {
    hide HeapOk, Valid, Ordered, FlashShape, ListShape, AllUniform, Val, In, Partition, ForwardFlash, Accounts,
      AllBlank;
    var c := Log(s, hot);
    var r := PutSlot(s, hot, k, d);
    var u := t[k := Buf(b, hot, c.ptr)];
    BuffersKeep(blks, b, t, s, u, r);
    CollectingKept(blks, b, t, s, u, r);
    LinkInjective(b, t, s, hot, k);
    FilledPut(b, t, s, hot, k, d);
    FilledKept(b, t, s, u, r, !hot);
    assert if hot then Filled(b, u, r, true) && Filled(b, u, r, false)
      else Filled(b, u, r, false) && Filled(b, u, r, true);
  }

  lemma FilledPut(b: nat, t: Table, s: Bank, hot: bool, k: Key, d: Chunk)
    requires Filled(b, t, s, hot) && Look(t, k) == Invalid
    requires Log(s, hot).ptr < |Log(s, hot).buf| && Log(s, hot).ptr < |Log(s, hot).keys|
    ensures Filled(b, t[k := Buf(b, hot, Log(s, hot).ptr)], PutSlot(s, hot, k, d), hot)
  {
    var c := Log(s, hot);
    var d' := Log(PutSlot(s, hot, k, d), hot);
    forall i: nat {:trigger d'.keys[i]} | i < d'.ptr && i < |d'.keys|
      ensures d'.keys[i].Some? ==> Look(t[k := Buf(b, hot, c.ptr)], d'.keys[i].value) == Buf(b, hot, i)
      ensures d'.allValid ==> d'.keys[i].Some?
    {
      if i < c.ptr {
        assert d'.keys[i] == c.keys[i];
      }
    }
  }

  lemma LinkInjective(b: nat, t: Table, s: Bank, hot: bool, k: Key)
    requires Injective(b, t) && ForwardBuf(b, t, s) && k.idx < CHUNKS_PER_PAGE
    ensures Injective(b, t[k := Buf(b, hot, Log(s, hot).ptr)])
  {
    var u := t[k := Buf(b, hot, Log(s, hot).ptr)];
    assert forall i: Key {:trigger Look(u, i)} ::
      Look(u, i) == if i == k then Buf(b, hot, Log(s, hot).ptr) else Look(t, i);
  }
}
