/** Where the chunks of a victim's page go, one after the other: to the next slots of the cold buffer, which is
    flushed to the open cold block when it is full. */
module ColdMoves {
  import opened BankState
  import opened BankSteps
  import opened BankGc
  import opened BankPages
  import opened BankLog
  import opened Nand
  import FtlSteps

  function WithChunk(buf: seq<Chunk>, i: nat, d: Chunk): (r: seq<Chunk>)
    ensures |r| == |buf|
  {
    if i < |buf| then buf[i := d] else buf
  }

  /** Chunk k joins the cold buffer, and the buffer goes to flash if that fills it; the log stays in its block. */
  ghost predicate ColdPut(b: nat, t: Table, s: Bank, k: Key, u: Table, r: Bank) {
    var v := t[k := Buf(b, false, s.cold.ptr)];
    && r.cold.lbn == s.cold.lbn
    && if s.cold.ptr + 1 < CHUNKS_PER_PAGE then u == v && r.cold.ptr == s.cold.ptr + 1 && r.cold.page == s.cold.page
       else u == FlushTable(b, v, s.cold, false) && r.cold.ptr == 0 && r.cold.page == s.cold.page + 1
  }

  /** The place that x counts to, from the start of the cold buffer of s on, when n chunks have been put there: the page
      the log stands on receives the first eight once they are all there. */
  function PutPlace(b: nat, s: Bank, n: nat, x: nat): Loc {
    if n < CHUNKS_PER_PAGE then Buf(b, false, x)
    else if x < CHUNKS_PER_PAGE then Flash(b, s.cold.lbn, s.cold.page, x, false)
    else Buf(b, false, x - CHUNKS_PER_PAGE)
  }

  /** How many of the chunks found in the first i slots of the page there are, with those in the cold buffer. */
  function PutSoFar(s: Bank, i: nat): nat
    requires i <= |s.gc.found|
  {
    s.cold.ptr + CountSome(s.gc.found[..i])
  }

  /** Where a chunk is after those found in the first i slots of the page were moved, if it was at l. */
  function Dest(b: nat, s: Bank, i: nat, l: Loc): Loc
    requires i <= |s.gc.found|
  {
    match l
    case Invalid => l
    case Buf(bank, hot, x) => if bank == b && !hot then PutPlace(b, s, PutSoFar(s, i), x) else l
    case Flash(bank, lbn, page, chunk, _) =>
      if bank == b && lbn == s.gc.victim && page == s.gc.page && chunk < i
      then PutPlace(b, s, PutSoFar(s, i), PutSoFar(s, chunk)) else l
  }

  /** The chunks found in the first i slots were moved in order, and the map changed in no other way. */
  ghost predicate Gathered(b: nat, t: Table, s: Bank, i: nat, u: Table, r: Bank)
    requires i <= |s.gc.found|
  {
    var n := PutSoFar(s, i);
    && r.cold.lbn == s.cold.lbn
    && r.cold.page == (if n < CHUNKS_PER_PAGE then s.cold.page else s.cold.page + 1)
    && r.cold.ptr == (if n < CHUNKS_PER_PAGE then n else n - CHUNKS_PER_PAGE)
    && forall k: Key {:trigger Look(u, k)} {:trigger Look(t, k)} :: Look(u, k) == Dest(b, s, i, Look(t, k))
  }

  lemma GatheredNone(b: nat, t: Table, s: Bank)
    requires s.cold.ptr < CHUNKS_PER_PAGE
    ensures Gathered(b, t, s, 0, t, s)
  {
    assert s.gc.found[..0] == [];
  }

  /** What the collector knows of the page it is moving. */
  ghost predicate PageKnown(b: nat, t: Table, s: Bank) {
    && |s.gc.found| == CHUNKS_PER_PAGE
    && (forall i: nat {:trigger s.gc.found[i]} :: i < CHUNKS_PER_PAGE && s.gc.found[i].Some? ==>
         Look(t, s.gc.found[i].value) == Flash(b, s.gc.victim, s.gc.page, i, s.gc.recycled))
    && (forall k: Key {:trigger Look(t, k)} :: InBlock(Look(t, k), b, s.gc.victim) && Look(t, k).page == s.gc.page ==>
         Look(t, k).chunk < CHUNKS_PER_PAGE && s.gc.found[Look(t, k).chunk] == Some(k))
  }

  /** The chunks in the cold buffer are in the slots that are filled. */
  ghost predicate SlotsBelow(b: nat, t: Table, s: Bank) {
    forall k: Key {:trigger Look(t, k)} :: OfBank(Look(t, k), b) && Look(t, k).Buf? && !Look(t, k).hot ==>
      Look(t, k).slot < s.cold.ptr
  }

  lemma PageKnownOf(blks: nat, b: nat, t: Table, s: Bank)
    requires Inv(blks, b, t, s) && s.gc.state == GcWrite
    ensures PageKnown(b, t, s) && SlotsBelow(b, t, s) && s.cold.usage == ColdLog && !s.cold.recycled
    ensures CountSome(s.gc.found) == s.gc.inPage
  {
    hide Live, CountSome, RoleOf, ListOf, HeapOk, Accounts, Partition, ForwardFlash, AllUniform, AllBlank, Filled,
      FlashShape, ListShape;
  }

  /** A slot without a live chunk. */
  lemma GatheredSkip(b: nat, t: Table, s: Bank, i: nat, u: Table, r: Bank)
    requires PageKnown(b, t, s) && i < CHUNKS_PER_PAGE && s.gc.found[i] == None && Gathered(b, t, s, i, u, r)
    ensures Gathered(b, t, s, i + 1, u, r)
  {
    SameSoFar(s, i);
    forall k: Key {:trigger Look(u, k)}
      ensures Look(u, k) == Dest(b, s, i + 1, Look(t, k))
    {
      SameDest(b, t, s, i, k);
      hide Dest, PageKnown;
      assert Look(u, k) == Dest(b, s, i, Look(t, k));
    }
    hide Dest, PageKnown, PutSoFar;
  }

  lemma SameSoFar(s: Bank, i: nat)
    requires i < |s.gc.found| && s.gc.found[i] == None
    ensures PutSoFar(s, i + 1) == PutSoFar(s, i)
  {
    CountStep(s.gc.found, i);
  }

  lemma SameDest(b: nat, t: Table, s: Bank, i: nat, k: Key)
    requires PageKnown(b, t, s) && i < CHUNKS_PER_PAGE && s.gc.found[i] == None
    ensures Dest(b, s, i + 1, Look(t, k)) == Dest(b, s, i, Look(t, k))
  {
    SameSoFar(s, i);
    hide PutSoFar;
  }

  lemma {:induction false} CountWithin<T>(v: seq<Option<T>>, i: nat, j: nat)
    requires i <= j <= |v|
    ensures CountSome(v[..i]) <= CountSome(v[..j]) <= CountSome(v[..i]) + j - i
  {
    if i < j {
      CountWithin(v, i, j - 1);
      CountStep(v, j - 1);
    }
  }

  /** Each chunk found is put in the slot that comes next. */
  lemma GatheredPut(b: nat, t: Table, s: Bank, i: nat, u: Table, r: Bank, v: Table, q: Bank)
    requires PageKnown(b, t, s) && i < CHUNKS_PER_PAGE && s.gc.found[i].Some? && Gathered(b, t, s, i, u, r)
    requires s.cold.ptr < CHUNKS_PER_PAGE && s.cold.usage == ColdLog && !r.cold.recycled
    requires ColdPut(b, u, r, s.gc.found[i].value, v, q)
    requires SlotsBelow(b, t, s)
    ensures Gathered(b, t, s, i + 1, v, q)
  {
    CountStep(s.gc.found, i);
    CountWithin(s.gc.found, 0, i);
    hide CountSome;
    forall k: Key {:trigger Look(v, k)}
      ensures Look(v, k) == Dest(b, s, i + 1, Look(t, k))
    {
      assert Look(u, k) == Dest(b, s, i, Look(t, k));
      PutDest(b, t, s, i, u, r, v, q, k);
      hide Dest, PageKnown, SlotsBelow, ColdPut, PutSoFar;
    }
    hide Dest, PageKnown, SlotsBelow;
  }

  lemma PutDest(b: nat, t: Table, s: Bank, i: nat, u: Table, r: Bank, v: Table, q: Bank, k: Key)
    requires PageKnown(b, t, s) && SlotsBelow(b, t, s) && i < CHUNKS_PER_PAGE && s.gc.found[i].Some?
    requires s.cold.ptr < CHUNKS_PER_PAGE && s.cold.usage == ColdLog && !r.cold.recycled
    requires var n := PutSoFar(s, i);
      && r.cold.lbn == s.cold.lbn && r.cold.page == (if n < CHUNKS_PER_PAGE then s.cold.page else s.cold.page + 1)
      && r.cold.ptr == (if n < CHUNKS_PER_PAGE then n else n - CHUNKS_PER_PAGE)
    requires ColdPut(b, u, r, s.gc.found[i].value, v, q) && Look(u, k) == Dest(b, s, i, Look(t, k))
    ensures Look(v, k) == Dest(b, s, i + 1, Look(t, k))
  {
    CountStep(s.gc.found, i);
    CountWithin(s.gc.found, 0, i);
    var l := Look(t, k);
    if l.Flash? && l.chunk <= i {
      CountWithin(s.gc.found, l.chunk, i);
    }
    hide CountSome;
  }

  /** The cold buffer when those found in the first i slots are in it, as far as it holds them. */
  function Filling(s: Bank, i: nat): (buf: seq<Chunk>)
    requires i <= |s.gc.found|
    ensures |buf| == |s.cold.buf|
  {
    if i == 0 then s.cold.buf
    else if s.gc.found[i - 1].Some? then WithChunk(Filling(s, i - 1), PutSoFar(s, i - 1), ChunkAt(s.gc.buf, i - 1))
    else Filling(s, i - 1)
  }

  /** Once it is full it stays as it is. */
  lemma {:induction false} FillingFull(s: Bank, i: nat, j: nat)
    requires i <= j <= |s.gc.found| && PutSoFar(s, i) >= |s.cold.buf|
    ensures Filling(s, j) == Filling(s, i)
  {
    hide CountSome;
    if i < j {
      CountWithin(s.gc.found, i, j - 1);
      FillingFull(s, i, j - 1);
    }
  }

  /** When none is left, all were found in the slots that were passed. */
  lemma {:induction false} NoneLeft(s: Bank, i: nat, j: nat)
    requires i <= j <= |s.gc.found| && forall x: nat {:trigger s.gc.found[x]} :: i <= x < j ==> s.gc.found[x] == None
    ensures PutSoFar(s, j) == PutSoFar(s, i) && Filling(s, j) == Filling(s, i)
  {
    if i < j {
      NoneLeft(s, i, j - 1);
      CountStep(s.gc.found, j - 1);
    }
  }

  lemma {:induction false} GatheredAll(b: nat, t: Table, s: Bank, i: nat, j: nat, u: Table, r: Bank)
    requires PageKnown(b, t, s) && i <= j <= CHUNKS_PER_PAGE && Gathered(b, t, s, i, u, r)
    requires forall x: nat {:trigger s.gc.found[x]} :: i <= x < j ==> s.gc.found[x] == None
    ensures Gathered(b, t, s, j, u, r)
  {
    hide Gathered, PageKnown;
    if i < j {
      GatheredAll(b, t, s, i, j - 1, u, r);
      assert |s.gc.found| == CHUNKS_PER_PAGE by {
        FoundEight(b, t, s);
      }
      GatheredSkip(b, t, s, j - 1, u, r);
    }
  }

  lemma FoundEight(b: nat, t: Table, s: Bank)
    requires PageKnown(b, t, s)
    ensures |s.gc.found| == CHUNKS_PER_PAGE
  {
  }

  // ---------- With the operations on flash ----------

  /** Chunk k, with contents d, has joined the cold buffer of s, and nothing was programmed, or that filled the buffer
      and it was programmed first of all. */
  ghost predicate PutOne(b: nat, t: Table, s: Bank, k: Key, d: Chunk, ops: seq<NandOp>, done: bool, u: Table, r: Bank,
      more: seq<NandOp>)
  {
    var c := s.cold;
    && (c.ptr + 1 < CHUNKS_PER_PAGE || c.page != USED_PAGES - 1 ==>
          done && ColdPut(b, t, s, k, u, r) && r.gc.state == GcWrite)
    && if c.ptr + 1 < CHUNKS_PER_PAGE then more == ops && r.cold.buf == WithChunk(c.buf, c.ptr, d)
       else ops + [Program(c.lbn, c.page, Programmed(WithChunk(c.buf, c.ptr, d)))] <= more
  }

  lemma PutInBuffer(b: nat, t: Table, s: Bank, k: Key, d: Chunk, ops: seq<NandOp>, u: Table, r: Bank)
    requires s.gc.state == GcWrite && s.cold.ptr < |s.cold.buf| && s.cold.ptr < |s.cold.keys|
    requires u == t[k := Buf(b, false, s.cold.ptr)] && r == PutSlot(s, false, k, d)
    ensures s.cold.ptr + 1 < CHUNKS_PER_PAGE ==> PutOne(b, t, s, k, d, ops, true, u, r, ops)
  {
  }

  lemma PutAndFlushed(b: nat, t: Table, s: Bank, k: Key, d: Chunk, ops: seq<NandOp>, u: Table, r: Bank, done: bool,
      v: Table, q: Bank, more: seq<NandOp>)
    requires s.gc.state == GcWrite && s.cold.ptr < |s.cold.buf| && s.cold.ptr < |s.cold.keys|
    requires u == t[k := Buf(b, false, s.cold.ptr)] && r == PutSlot(s, false, k, d)
    requires s.cold.ptr + 1 >= CHUNKS_PER_PAGE && !s.cold.recycled
    requires s.cold.page != USED_PAGES - 1 ==>
      && done && v == FlushTable(b, u, r.cold, false) && q.cold.lbn == r.cold.lbn && q.cold.ptr == 0
      && q.cold.page == r.cold.page + 1 && q.gc == r.gc
    requires ops + [Program(r.cold.lbn, r.cold.page, Programmed(r.cold.buf))] <= more
    ensures PutOne(b, t, s, k, d, ops, done, v, q, more)
  {
  }

  lemma PutSameCold(b: nat, t: Table, s: Bank, r: Bank, k: Key, d: Chunk, ops: seq<NandOp>, done: bool, u: Table,
      q: Bank,
      more: seq<NandOp>)
    requires PutOne(b, t, s, k, d, ops, done, u, q, more) && r.cold == s.cold
    ensures PutOne(b, t, r, k, d, ops, done, u, q, more)
  {
  }

  /** The chunks found in the first i slots of the page were moved in order, each to the slot of the cold buffer that
      came next; nothing was programmed, or the full buffer was first of all. */
  ghost predicate InTurn(b: nat, t: Table, s: Bank, i: nat, ops: seq<NandOp>, u: Table, r: Bank, more: seq<NandOp>)
    requires i <= |s.gc.found|
  {
    && (PutSoFar(s, i) < CHUNKS_PER_PAGE || s.cold.page != USED_PAGES - 1 ==> Gathered(b, t, s, i, u, r))
    && if PutSoFar(s, i) < CHUNKS_PER_PAGE then more == ops && r.cold.buf == Filling(s, i)
       else ops + [Program(s.cold.lbn, s.cold.page, Programmed(Filling(s, i)))] <= more
  }

  lemma TurnStart(b: nat, t: Table, s: Bank, ops: seq<NandOp>)
    requires s.cold.ptr < CHUNKS_PER_PAGE
    ensures InTurn(b, t, s, 0, ops, t, s, ops)
  {
    GatheredNone(b, t, s);
    assert s.gc.found[..0] == [];
  }

  lemma TurnSkip(b: nat, t: Table, s: Bank, i: nat, ops: seq<NandOp>, u: Table, r: Bank, more: seq<NandOp>)
    requires PageKnown(b, t, s) && i < CHUNKS_PER_PAGE == |s.gc.found| && s.gc.found[i] == None
    requires InTurn(b, t, s, i, ops, u, r, more)
    ensures InTurn(b, t, s, i + 1, ops, u, r, more)
  {
    hide PageKnown, Gathered;
    CountStep(s.gc.found, i);
    hide CountSome;
    if Gathered(b, t, s, i, u, r) {
      GatheredSkip(b, t, s, i, u, r);
    }
  }

  lemma TurnPut(b: nat, t: Table, s: Bank, i: nat, ops: seq<NandOp>, u: Table, r: Bank, mid: seq<NandOp>, done: bool,
      v: Table, q: Bank, more: seq<NandOp>)
    requires PageKnown(b, t, s) && SlotsBelow(b, t, s) && i < CHUNKS_PER_PAGE == |s.gc.found| && s.gc.found[i].Some?
    requires s.cold.ptr < CHUNKS_PER_PAGE == |s.cold.buf| && s.cold.usage == ColdLog && !r.cold.recycled
    requires InTurn(b, t, s, i, ops, u, r, mid) && mid <= more
    requires PutOne(b, u, r, s.gc.found[i].value, ChunkAt(s.gc.buf, i), mid, done, v, q, more)
    ensures InTurn(b, t, s, i + 1, ops, v, q, more)
    ensures PutSoFar(s, i + 1) < CHUNKS_PER_PAGE || s.cold.page != USED_PAGES - 1 ==> done && q.gc.state == GcWrite
  {
    hide PageKnown, SlotsBelow, FlushTable, WithChunk;
    CountStep(s.gc.found, i);
    CountWithin(s.gc.found, 0, i);
    hide CountSome;
    if PutSoFar(s, i) < CHUNKS_PER_PAGE || s.cold.page != USED_PAGES - 1 {
      GatheredSlots(b, t, s, i, u, r);
      hide Gathered;
      if ColdPut(b, u, r, s.gc.found[i].value, v, q) {
        GatheredPut(b, t, s, i, u, r, v, q);
      }
    }
    FillingStep(s, i);
  }

  lemma GatheredSlots(b: nat, t: Table, s: Bank, i: nat, u: Table, r: Bank)
    requires i <= |s.gc.found| && Gathered(b, t, s, i, u, r)
    ensures var n := PutSoFar(s, i);
      && r.cold.lbn == s.cold.lbn && r.cold.page == (if n < CHUNKS_PER_PAGE then s.cold.page else s.cold.page + 1)
      && r.cold.ptr == (if n < CHUNKS_PER_PAGE then n else n - CHUNKS_PER_PAGE)
  {
  }

  lemma FillingStep(s: Bank, i: nat)
    requires i < |s.gc.found| && s.gc.found[i].Some?
    ensures Filling(s, i + 1) == WithChunk(Filling(s, i), PutSoFar(s, i), ChunkAt(s.gc.buf, i))
    ensures PutSoFar(s, i) >= |s.cold.buf| ==> Filling(s, i + 1) == Filling(s, i)
  {
  }

  lemma TurnFull(b: nat, t: Table, s: Bank, i: nat, ops: seq<NandOp>, u: Table, r: Bank, more: seq<NandOp>)
    requires i <= CHUNKS_PER_PAGE == |s.gc.found| && CHUNKS_PER_PAGE == |s.cold.buf|
    requires PutSoFar(s, i) >= CHUNKS_PER_PAGE && s.cold.page == USED_PAGES - 1 && InTurn(b, t, s, i, ops, u, r, more)
    ensures InTurn(b, t, s, CHUNKS_PER_PAGE, ops, u, r, more)
  {
    CountWithin(s.gc.found, i, CHUNKS_PER_PAGE);
    FillingFull(s, i, CHUNKS_PER_PAGE);
  }

  lemma TurnEnd(b: nat, t: Table, s: Bank, i: nat, ops: seq<NandOp>, u: Table, r: Bank, more: seq<NandOp>)
    requires PageKnown(b, t, s) && i <= CHUNKS_PER_PAGE == |s.gc.found| && InTurn(b, t, s, i, ops, u, r, more)
    requires forall x: nat {:trigger s.gc.found[x]} :: i <= x < CHUNKS_PER_PAGE ==> s.gc.found[x] == None
    ensures InTurn(b, t, s, CHUNKS_PER_PAGE, ops, u, r, more)
  {
    hide PageKnown, Gathered;
    NoneLeft(s, i, CHUNKS_PER_PAGE);
    if Gathered(b, t, s, i, u, r) {
      GatheredAll(b, t, s, i, CHUNKS_PER_PAGE, u, r);
    }
  }

  lemma TurnSameCold(b: nat, t: Table, s: Bank, ops: seq<NandOp>, u: Table, r: Bank, q: Bank, more: seq<NandOp>)
    requires |s.gc.found| == CHUNKS_PER_PAGE && InTurn(b, t, s, CHUNKS_PER_PAGE, ops, u, r, more) && q.cold == r.cold
    ensures InTurn(b, t, s, CHUNKS_PER_PAGE, ops, u, q, more)
  {
  }

  lemma NoneFound(blks: nat, b: nat, t: Table, s: Bank)
    requires Inv(blks, b, t, s) && s.gc.state == GcWrite && s.gc.inPage == 0
    ensures forall x: nat {:trigger s.gc.found[x]} :: x < |s.gc.found| ==> s.gc.found[x] == None
  {
    PageKnownOf(blks, b, t, s);
    hide Inv, PageKnown, SlotsBelow;
    forall x: nat | x < |s.gc.found|
      ensures s.gc.found[x] == None
    {
      CountZero(s.gc.found, x);
    }
  }

  // ---------- What is left of the page ----------

  /** The collector is still at the page, and the chunks found in slots from i on are left. */
  ghost predicate LeftFrom(s: Bank, r: Bank, i: nat) {
    && |s.gc.found| == |r.gc.found| == CHUNKS_PER_PAGE && r.gc == s.gc.(found := r.gc.found, inPage := r.gc.inPage)
    && forall j: nat {:trigger r.gc.found[j]} :: j < CHUNKS_PER_PAGE ==>
         r.gc.found[j] == if j < i then None else s.gc.found[j]
  }

  lemma LeftAll(s: Bank)
    requires |s.gc.found| == CHUNKS_PER_PAGE
    ensures LeftFrom(s, s, 0)
  {
  }

  lemma LeftSkip(s: Bank, r: Bank, i: nat)
    requires LeftFrom(s, r, i) && i < CHUNKS_PER_PAGE && r.gc.found[i] == None
    ensures LeftFrom(s, r, i + 1)
  {
  }

  /** The collector is at slot i of the page of s, or it is idle since the full cold block was followed by another. */
  ghost predicate Underway(s: Bank, r: Bank, i: nat)
    requires i <= |s.gc.found|
  {
    || (LeftFrom(s, r, i) && r.gc.state == GcWrite && r.gc.victim == s.gc.victim && r.gc.page == s.gc.page
        && |r.clean| == |s.clean| && FtlSteps.Candidates(r) == FtlSteps.Candidates(s))
    || (r.gc.state == GcIdle && |r.clean| == 2 && PutSoFar(s, i) >= CHUNKS_PER_PAGE && s.cold.page == USED_PAGES - 1)
  }

  lemma UnderwayStart(s: Bank)
    requires |s.gc.found| == CHUNKS_PER_PAGE && s.gc.state == GcWrite
    ensures Underway(s, s, 0)
  {
    LeftAll(s);
  }

  /** While chunks are left of the page, the collector is at it and has what was found in slot i. */
  lemma UnderwayMore(blks: nat, b: nat, t: Table, s: Bank, r: Bank, i: nat)
    requires i <= |s.gc.found| == CHUNKS_PER_PAGE && Underway(s, r, i) && Inv(blks, b, t, r) && r.gc.inPage > 0
    ensures r.gc.state == GcWrite && i < CHUNKS_PER_PAGE == |r.gc.found|
    ensures r.gc.found[i] == s.gc.found[i] && r.gc.buf == s.gc.buf
  {
    hide Inv, PutSoFar;
    FtlSteps.PageLeft(blks, b, t, r, i);
  }

  /** Once none are left, none were found in the slots from i on. */
  lemma UnderwayNone(blks: nat, b: nat, t: Table, s: Bank, r: Bank, i: nat)
    requires i <= |s.gc.found| == CHUNKS_PER_PAGE && Underway(s, r, i) && Inv(blks, b, t, r) && r.gc.inPage == 0
    ensures if r.gc.state == GcIdle
      then |r.clean| == 2 && PutSoFar(s, i) >= CHUNKS_PER_PAGE && s.cold.page == USED_PAGES - 1
      else
        && r.gc.state == GcWrite && r.gc.victim == s.gc.victim && r.gc.page == s.gc.page
        && |r.clean| == |s.clean| && FtlSteps.Candidates(r) == FtlSteps.Candidates(s)
        && forall x: nat {:trigger s.gc.found[x]} :: i <= x < CHUNKS_PER_PAGE ==> s.gc.found[x] == None
  {
    hide Inv, PutSoFar, LeftFrom;
    if r.gc.state != GcIdle {
      LeftNone(blks, b, t, s, r, i);
    }
  }

  lemma UnderwayPut(s: Bank, r: Bank, q: Bank, i: nat)
    requires i < |s.gc.found| == CHUNKS_PER_PAGE && Underway(s, r, i) && r.gc.state == GcWrite
    requires || (i < |r.gc.found| && r.gc.inPage > 0 && q.gc == Taken(r, i).gc && q.clean == r.clean
                 && FtlSteps.Candidates(q) == FtlSteps.Candidates(r))
             || (q.gc.state == GcIdle && |q.clean| == 2)
    requires PutSoFar(s, i + 1) < CHUNKS_PER_PAGE || s.cold.page != USED_PAGES - 1 ==> q.gc.state == GcWrite
    ensures Underway(s, q, i + 1)
  {
    hide PutSoFar;
  }

  lemma UnderwaySkip(s: Bank, r: Bank, i: nat)
    requires i < |s.gc.found| == |r.gc.found| == CHUNKS_PER_PAGE
    requires Underway(s, r, i) && r.gc.state == GcWrite && r.gc.found[i] == None
    ensures Underway(s, r, i + 1)
  {
    hide PutSoFar;
    LeftSkip(s, r, i);
  }

  lemma LeftNone(blks: nat, b: nat, t: Table, s: Bank, r: Bank, i: nat)
    requires Inv(blks, b, t, r) && r.gc.state == GcWrite && r.gc.inPage == 0 && LeftFrom(s, r, i)
    ensures forall x: nat {:trigger s.gc.found[x]} :: i <= x < CHUNKS_PER_PAGE ==>
      x < |s.gc.found| && s.gc.found[x] == None
  {
    NoneFound(blks, b, t, r);
    hide Inv;
    assert forall x: nat {:trigger s.gc.found[x]} :: i <= x < CHUNKS_PER_PAGE ==> r.gc.found[x] == s.gc.found[x];
  }
}
