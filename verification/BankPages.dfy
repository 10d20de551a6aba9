/** Programming one page of an open block: the chunks of a write buffer, or of a page of the
    collector's victim, move to a fresh flash page. */
module BankPages {
  import opened Heap
  import opened BankState
  import opened BankSteps

  // ---------- The map after a page of chunks has moved ----------

  /** Where the chunks of a programmed page come from. */
  datatype Source = FromBuf(hot: bool) | FromPage(lbn: nat, page: nat)

  predicate From(src: Source, b: nat, l: Loc) {
    match src
    case FromBuf(hot) => l.Buf? && l.bank == b && l.hot == hot
    case FromPage(lbn, page) => InBlock(l, b, lbn) && l.page == page
  }

  function SlotOf(l: Loc): nat {
    match l
    case Flash(_, _, _, chunk, _) => chunk
    case Buf(_, _, slot) => slot
    case Invalid => 0
  }

  /** Chunks at slots below n of the source now stand at the same slots of a flash page. */
  function Relocated(t: Table, b: nat, src: Source, n: nat, lbn: nat, page: nat, encoded: bool): (u: Table)
    ensures forall k: Key {:trigger Look(u, k)} ::
      Look(u, k) == if From(src, b, Look(t, k)) &&
        SlotOf(Look(t, k)) < n then Flash(b, lbn, page, SlotOf(Look(t, k)), encoded) else Look(t, k)
  {
    map k | k in t ::
      if From(src, b, t[k]) && SlotOf(t[k]) < n then Flash(b, lbn, page, SlotOf(t[k]), encoded) else t[k]
  }

  function Moving(t: Table, b: nat, src: Source, n: nat): set<Key> {
    set k | k in t && From(src, b, t[k]) && SlotOf(t[k]) < n
  }

  /** opts names the chunks of the source, slot by slot. */
  ghost predicate Names(t: Table, b: nat, src: Source, opts: seq<Option<Key>>) {
    && (forall i: nat {:trigger opts[i]} :: i < |opts| && opts[i].Some? ==>
         From(src, b, Look(t, opts[i].value)) && SlotOf(Look(t, opts[i].value)) == i)
    && (forall k: Key {:trigger Look(t, k)} :: From(src, b, Look(t, k)) ==>
         SlotOf(Look(t, k)) < |opts| && opts[SlotOf(Look(t, k))] == Some(k))
  }

  lemma {:induction false} MovingCount(t: Table, b: nat, src: Source, opts: seq<Option<Key>>, n: nat)
    requires Names(t, b, src, opts) && n <= |opts|
    ensures |Moving(t, b, src, n)| == CountSome(opts[..n])
  {
    if n == 0 {
      assert Moving(t, b, src, 0) == {};
    } else {
      MovingCount(t, b, src, opts, n - 1);
      assert opts[..n][..n - 1] == opts[..n - 1];
      var o := opts[n - 1];
      var last := if o.Some? then {o.value} else {};
      forall k: Key
        ensures k in Moving(t, b, src, n) <==> k in Moving(t, b, src, n - 1) || k in last
      {
        assert From(src, b, Look(t, k)) ==> opts[SlotOf(Look(t, k))] == Some(k);
      }
      assert Moving(t, b, src, n) == Moving(t, b, src, n - 1) + last;
    }
  }

  /** The flash block receives exactly the moving chunks. */
  lemma LiveReceives(t: Table, b: nat, src: Source, n: nat, lbn: nat, page: nat, encoded: bool)
    requires src.FromPage? ==> src.lbn != lbn
    ensures |Live(Relocated(t, b, src, n, lbn, page, encoded), b, lbn)| == |Live(t, b, lbn)| + |Moving(t, b, src, n)|
  {
    var u := Relocated(t, b, src, n, lbn, page, encoded);
    forall k: Key
      ensures k in Live(u, b, lbn) <==> k in Live(t, b, lbn) || k in Moving(t, b, src, n)
    {
      assert Look(u, k) == Look(u, k);
    }
    assert Live(u, b, lbn) == Live(t, b, lbn) + Moving(t, b, src, n);
    assert Live(t, b, lbn) !! Moving(t, b, src, n);
  }

  lemma LiveGives(t: Table, b: nat, src: Source, n: nat, lbn: nat, page: nat, encoded: bool)
    requires src.FromPage? && src.lbn != lbn
    ensures |Live(Relocated(t, b, src, n, lbn, page, encoded), b, src.lbn)| ==
      |Live(t, b, src.lbn)| - |Moving(t, b, src, n)|
  {
    var u := Relocated(t, b, src, n, lbn, page, encoded);
    forall k: Key
      ensures k in Live(t, b, src.lbn) <==> k in Live(u, b, src.lbn) || k in Moving(t, b, src, n)
    {
      assert Look(u, k) == Look(u, k);
    }
    assert Live(t, b, src.lbn) == Live(u, b, src.lbn) + Moving(t, b, src, n);
    assert Live(u, b, src.lbn) !! Moving(t, b, src, n);
  }

  lemma LiveElsewhere(t: Table, b: nat, src: Source, n: nat, lbn: nat, page: nat, encoded: bool, l: nat)
    requires l != lbn && (src.FromPage? ==> l != src.lbn)
    ensures Live(Relocated(t, b, src, n, lbn, page, encoded), b, l) == Live(t, b, l)
  {
    LiveSame(t, Relocated(t, b, src, n, lbn, page, encoded), b, l);
  }

  // ---------- The bank after a page has been programmed ----------

  function SetPage(flash: seq<seq<Page>>, lbn: nat, page: nat, p: Page): (r: seq<seq<Page>>)
    requires lbn < |flash| && page < |flash[lbn]|
    ensures |r| == |flash| && forall l: nat {:trigger r[l]} :: l < |r| ==> |r[l]| == |flash[l]|
    ensures forall l: nat, q: nat {:trigger PageAt(r, l, q)} ::
      PageAt(r, l, q) == if l == lbn && q == page then p else PageAt(flash, l, q)
  {
    flash[lbn := flash[lbn][page := p]]
  }

  /** A heap whose counter for lbn may have changed, lbn being outside it. */
  ghost predicate Touched(blks: nat, h: HeapState, g: HeapState, lbn: nat) {
    && HeapOk(blks, g) && g.pos == h.pos && g.n == h.n
    && forall l: nat {:trigger Val(g, l)} :: l < blks && l != lbn ==> Val(g, l) == Val(h, l)
  }

  /** r is s after page c.page of the open block of log c was programmed with p and described by row;
      the control block has moved on to its next page. */
  ghost predicate Programs(blks: nat, s: Bank, r: Bank, hot: bool, p: Page, row: seq<Entry>) {
    var c, d := Log(s, hot), Log(r, hot);
    && c.lbn < blks && c.page < USED_PAGES && FlashShape(blks, s.flash) && |c.lpns| == PAGES_PER_BLK
    && |row| == CHUNKS_PER_PAGE
    && r.flash == SetPage(s.flash, c.lbn, c.page, p)
    && d.lbn == c.lbn && d.lpns == c.lpns[c.page := row] && d.usage == c.usage && d.recycled == c.recycled
    && Log(r, !hot) == Log(s, !hot) && r.clean == s.clean && r.adapt == s.adapt
    && Touched(blks, s.first, r.first, c.lbn) && Touched(blks, s.second, r.second, c.lbn) &&
         Touched(blks, s.coldHeap, r.coldHeap, c.lbn)
    && (forall q: nat, e: bool {:trigger PageOk(r, c.lbn, q, e)} {:trigger PageOk(s, c.lbn, q, e)} ::
         PageOk(s, c.lbn, q, e) ==> q != c.page && PageOk(r, c.lbn, q, e))
    && PageOk(r, c.lbn, c.page, c.recycled)
    && (forall q: nat {:trigger Blank(r, c.lbn, q)} :: Blank(r, c.lbn, q) ==> q != c.page && Blank(s, c.lbn, q))
  }

  lemma ProgramsRoles(blks: nat, s: Bank, r: Bank, hot: bool, p: Page, row: seq<Entry>, l: nat)
    requires Programs(blks, s, r, hot, p, row)
    ensures RoleOf(r, l) == RoleOf(s, l) && (OneRole(r, l) <==> OneRole(s, l))
  {
    hide HeapOk, FlashShape, PageOk, Blank;
    assert (In(r.first, l) <==> In(s.first, l)) && (In(r.second, l) <==> In(s.second, l)) &&
      (In(r.coldHeap, l) <==> In(s.coldHeap, l));
    hide In, Touched;
  }

  lemma ProgramsLists(blks: nat, s: Bank, r: Bank, hot: bool, p: Page, row: seq<Entry>, l: nat)
    requires Programs(blks, s, r, hot, p, row) && l < blks && OneRole(s, l)
    ensures l != Log(s, hot).lbn ==>
      ListOf(r, l) == ListOf(s, l) && forall q: nat, e: bool {:trigger PageOk(r, l, q, e)} ::
        PageOk(r, l, q, e) == PageOk(s, l, q, e)
    ensures l != Log(s, hot).lbn ==> forall q: nat {:trigger Blank(r, l, q)} :: Blank(r, l, q) == Blank(s, l, q)
    ensures l == Log(s, hot).lbn ==> ListOf(s, l) == Log(s, hot).lpns && ListOf(r, l) == Log(r, hot).lpns
  {
    hide Touched, FlashShape, In;
    ProgramsRoles(blks, s, r, hot, p, row, l);
  }

  /** Entry row[i] describes the chunk that moved to slot i. */
  ghost predicate Describes(t: Table, b: nat, src: Source, n: nat, row: seq<Entry>, encoded: bool) {
    && |row| == CHUNKS_PER_PAGE && n <= (if encoded then CHUNKS_PER_RECYCLED_PAGE else CHUNKS_PER_PAGE)
    && forall k: Key {:trigger Look(t, k)} :: From(src, b, Look(t, k)) ==>
         SlotOf(Look(t, k)) < n && row[SlotOf(Look(t, k))] == Lpn(k.lpn, encoded)
  }

  lemma ProgrammedForward(blks: nat, b: nat, t: Table, s: Bank, r: Bank, hot: bool, p: Page, row: seq<Entry>,
      src: Source, n: nat, encoded: bool)
    requires Partition(blks, s) && ForwardFlash(blks, b, t, s)
    requires Programs(blks, s, r, hot, p, row) && Describes(t, b, src, n, row, encoded) &&
      encoded == Log(s, hot).recycled
    ensures ForwardFlash(blks, b, Relocated(t, b, src, n, Log(s, hot).lbn, Log(s, hot).page, encoded), r)
  {
    hide Partition, Touched, FlashShape, RoleOf, ListOf, PageOk, OneRole, Blank;
    var c := Log(s, hot);
    var u := Relocated(t, b, src, n, c.lbn, c.page, encoded);
    forall k: Key {:trigger Look(u, k)} | OfBank(Look(u, k), b) && Look(u, k).Flash?
      ensures Placed(blks, r, k, Look(u, k))
    {
      var l := Look(t, k);
      RoleKnown(blks, s, c.lbn);
      ProgramsLists(blks, s, r, hot, p, row, c.lbn);
      if !From(src, b, l) {
        assert Placed(blks, s, k, l);
        RoleKnown(blks, s, l.lbn);
        ProgramsLists(blks, s, r, hot, p, row, l.lbn);
      }
    }
  }

  lemma ProgrammedInjective(blks: nat, b: nat, t: Table, s: Bank, r: Bank, hot: bool, p: Page, row: seq<Entry>,
      src: Source, n: nat, encoded: bool)
    requires ForwardFlash(blks, b, t, s) && Injective(b, t)
    requires Programs(blks, s, r, hot, p, row) && Describes(t, b, src, n, row, encoded)
    ensures Injective(b, Relocated(t, b, src, n, Log(s, hot).lbn, Log(s, hot).page, encoded))
  {
    hide Touched, FlashShape, RoleOf, ListOf, PageOk, OneRole, Blank;
    var c := Log(s, hot);
    var u := Relocated(t, b, src, n, c.lbn, c.page, encoded);
    // The page being programmed held no live chunk.
    assert forall k: Key {:trigger Look(t, k)} ::
      OfBank(Look(t, k), b) && Look(t, k).Flash? && Look(t, k).lbn == c.lbn ==>
      Look(t, k).page != c.page by {
      forall k: Key | OfBank(Look(t, k), b) && Look(t, k).Flash? && Look(t, k).lbn == c.lbn
        ensures Look(t, k).page != c.page
      {
        assert Placed(blks, s, k, Look(t, k)) && PageOk(s, c.lbn, Look(t, k).page, Look(t, k).encoded);
      }
    }
    assert forall k: Key {:trigger Look(u, k)} ::
      Look(u, k) == if From(src, b, Look(t, k)) then Flash(b, c.lbn, c.page, SlotOf(Look(t, k)), encoded)
        else Look(t, k);
  }

  lemma ProgrammedUniform(blks: nat, s: Bank, r: Bank, hot: bool, p: Page, row: seq<Entry>)
    requires Partition(blks, s) && AllUniform(blks, s)
    requires Programs(blks, s, r, hot, p, row) && Uniform(Log(r, hot).lpns, Log(s, hot).page)
    ensures AllUniform(blks, r)
  {
    hide Touched, FlashShape, RoleOf, ListOf, PageOk, OneRole, Partition, Blank;
    var c := Log(s, hot);
    OpenRole(blks, s, hot);
    forall l: nat {:trigger ListOf(r, l)} | l < blks
      ensures UniformList(ListOf(r, l)) && (RoleOf(r, l) == FirstHeap ==> ListShape(ListOf(r, l)))
    {
      RoleKnown(blks, s, l);
      ProgramsRoles(blks, s, r, hot, p, row, l);
      ProgramsLists(blks, s, r, hot, p, row, l);
      assert UniformList(ListOf(s, l));
      if l == c.lbn {
        forall q: nat {:trigger Uniform(ListOf(r, l), q)} | q != c.page
          ensures Uniform(ListOf(r, l), q)
        {
          assert Uniform(ListOf(s, l), q);
          assert forall i: nat {:trigger EntryAt(ListOf(r, l), q, i)} ::
            EntryAt(ListOf(r, l), q, i) == EntryAt(ListOf(s, l), q, i);
        }
      }
    }
  }

  lemma ProgrammedBlank(blks: nat, s: Bank, r: Bank, hot: bool, p: Page, row: seq<Entry>)
    requires Partition(blks, s) && AllBlank(blks, s) && Programs(blks, s, r, hot, p, row)
    ensures AllBlank(blks, r)
  {
    hide Touched, FlashShape, RoleOf, ListOf, PageOk, OneRole, Partition, Blank;
    forall l: nat, q: nat {:trigger Blank(r, l, q)} | l < blks && Blank(r, l, q)
      ensures PageAt(r.flash, l, q) == Erased
    {
      RoleKnown(blks, s, l);
      ProgramsLists(blks, s, r, hot, p, row, l);
      assert Blank(s, l, q);
    }
  }

  /** What the programmed page changes in the books: the owner's counter and what is owed it, and
      for a page moved out of the victim, how many chunks were moved. */
  ghost predicate Settles(b: nat, t: Table, s: Bank, r: Bank, hot: bool, src: Source, n: nat) {
    var lbn := Log(s, hot).lbn;
    && OwnerVal(r, lbn) + 8 == OwnerVal(s, lbn) + |Moving(t, b, src, n)|
    && Owed(r, lbn) + 8 == Owed(s, lbn)
    && match src
       case FromBuf(_) => r.gc == s.gc
       case FromPage(v, _) =>
         && RoleOf(s, v) in {SecondHeap, ColdHeap} && r.gc.victim == s.gc.victim == v
         && Moved(r.gc, v) == Moved(s.gc, v) + |Moving(t, b, src, n)|
  }

  lemma ProgrammedAccounts(blks: nat, b: nat, t: Table, s: Bank, r: Bank, hot: bool, p: Page, row: seq<Entry>,
      src: Source, n: nat, encoded: bool)
    requires Partition(blks, s) && Accounts(blks, b, t, s)
    requires Programs(blks, s, r, hot, p, row) && Settles(b, t, s, r, hot, src, n)
    ensures Accounts(blks, b, Relocated(t, b, src, n, Log(s, hot).lbn, Log(s, hot).page, encoded), r)
  {
    hide FlashShape, HeapOk, PageOk, OneRole, Partition, In, Val, Live, Moving, RoleOf, Blank;
    var c := Log(s, hot);
    var u := Relocated(t, b, src, n, c.lbn, c.page, encoded);
    ProgramsRoles(blks, s, r, hot, p, row, c.lbn);
    OpenRole(blks, s, hot);
    forall l: nat {:trigger Account(b, u, r, l)} | l < blks
      ensures Account(b, u, r, l)
    {
      assert Account(b, t, s, l);
      ProgramsRoles(blks, s, r, hot, p, row, l);
      if l == c.lbn {
        LiveReceives(t, b, src, n, c.lbn, c.page, encoded);
      } else {
        OtherRole(s, hot, l);
        if src.FromPage? && l == src.lbn {
          LiveGives(t, b, src, n, c.lbn, c.page, encoded);
        } else {
          LiveElsewhere(t, b, src, n, c.lbn, c.page, encoded, l);
          AccountElsewhere(b, t, s, u, r, l);
        }
      }
    }
  }

  lemma OpenRole(blks: nat, s: Bank, hot: bool)
    requires Partition(blks, s) && Log(s, hot).lbn < blks
    ensures RoleOf(s, Log(s, hot).lbn) == if hot then OpenHot else OpenCold
  {
    RoleKnown(blks, s, Log(s, hot).lbn);
  }

  lemma OtherRole(s: Bank, hot: bool, l: nat)
    requires l != Log(s, hot).lbn
    ensures RoleOf(s, l) != if hot then OpenHot else OpenCold
  {
  }

  lemma ProgrammedCore(blks: nat, b: nat, t: Table, s: Bank, r: Bank, hot: bool, p: Page, row: seq<Entry>,
      src: Source, n: nat, encoded: bool)
    requires Core(blks, b, t, s) && Shape(blks, r) && Cleared(r.hot)
    requires Programs(blks, s, r, hot, p, row) && Describes(t, b, src, n, row, encoded) &&
      Settles(b, t, s, r, hot, src, n)
    requires Uniform(Log(r, hot).lpns, Log(s, hot).page) && encoded == Log(s, hot).recycled
    requires var u := Relocated(t, b, src, n, Log(s, hot).lbn, Log(s, hot).page, encoded);
      ForwardBuf(b, u, r) && Filled(b, u, r, true) && Filled(b, u, r, false)
    ensures Core(blks, b, Relocated(t, b, src, n, Log(s, hot).lbn, Log(s, hot).page, encoded), r)
  {
    hide Shape, ForwardFlash, Injective, AllUniform, Accounts, Filled, ForwardBuf, Describes, Settles, Uniform,
      Cleared, FlashShape, Touched, PageOk, Blank, AllBlank;
    ProgrammedForward(blks, b, t, s, r, hot, p, row, src, n, encoded);
    ProgrammedInjective(blks, b, t, s, r, hot, p, row, src, n, encoded);
    ProgrammedBlank(blks, s, r, hot, p, row);
    ProgrammedUniform(blks, s, r, hot, p, row);
    ProgrammedAccounts(blks, b, t, s, r, hot, p, row, src, n, encoded);
    forall l: nat {:trigger OneRole(r, l)} | l < blks
      ensures OneRole(r, l)
    {
      ProgramsRoles(blks, s, r, hot, p, row, l);
    }
  }
}
