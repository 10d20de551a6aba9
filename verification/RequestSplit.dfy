/** Host requests: a range of sectors is cut into pieces that the write path stores one chunk at a
    time and the read path fetches one page at a time. */
module RequestSplit {
  import opened BankState
  import opened AddressCodec
  import Modular

  const HOT_THRESHOLD: nat := 128  // nSectsHotThreshold; lbaHotThreshold is off

  /** n sectors of logical page lpn from sector offset on, sent to a bank. */
  datatype Piece = Piece(lpn: nat, offset: nat, n: nat, bank: nat)

  function Start(p: Piece): nat {
    SECTORS_PER_PAGE * p.lpn + p.offset
  }

  function End(p: Piece): nat {
    Start(p) + p.n
  }

  /** The pieces follow each other without gap or overlap from sector from up to, not including, sector to. */
  predicate Tiles(pieces: seq<Piece>, from: nat, to: nat) {
    if |pieces| == 0 then from == to
    else
      var last := pieces[|pieces| - 1];
      End(last) == to && Tiles(pieces[..|pieces| - 1], from, Start(last))
  }

  lemma {:induction false} TilesAppend(a: seq<Piece>, c: seq<Piece>, from: nat, mid: nat, to: nat)
    requires Tiles(a, from, mid) && Tiles(c, mid, to)
    ensures Tiles(a + c, from, to)
  {
    if |c| == 0 {
      assert a + c == a;
    } else {
      TilesAppend(a, c[..|c| - 1], from, mid, Start(c[|c| - 1]));
      assert (a + c)[..|a + c| - 1] == a + c[..|c| - 1];
    }
  }

  /** How many pieces contain a sector. */
  function Covering(pieces: seq<Piece>, sector: nat): nat {
    if |pieces| == 0 then 0
    else
      var last := pieces[|pieces| - 1];
      Covering(pieces[..|pieces| - 1], sector) + if Start(last) <= sector < End(last) then 1 else 0
  }

  /** Tiling pieces contain every sector of the range exactly once and no other sector. */
  lemma {:induction false} TilesCover(pieces: seq<Piece>, from: nat, to: nat, sector: nat)
    requires Tiles(pieces, from, to)
    ensures from <= to && Covering(pieces, sector) == if from <= sector < to then 1 else 0
  {
    if |pieces| > 0 {
      TilesCover(pieces[..|pieces| - 1], from, Start(pieces[|pieces| - 1]), sector);
    }
  }

  /** Not empty, and inside one chunk. */
  predicate Leaf(p: Piece) {
    0 < p.n && p.offset < SECTORS_PER_PAGE && p.offset % SECTORS_PER_CHUNK + p.n <= SECTORS_PER_CHUNK
  }

  predicate Leaves(pieces: seq<Piece>) {
    forall i :: 0 <= i < |pieces| ==> Leaf(pieces[i])
  }

  /** Exactly one chunk. */
  predicate WholeChunk(p: Piece) {
    p.offset % SECTORS_PER_CHUNK == 0 && p.offset < SECTORS_PER_PAGE && p.n == SECTORS_PER_CHUNK
  }

  predicate WholeChunks(pieces: seq<Piece>) {
    forall i :: 0 <= i < |pieces| ==> WholeChunk(pieces[i])
  }

  /** The piece went to the bank of the chunk it is part of. */
  predicate AtHome(p: Piece, nb: nat)
    requires nb > 0
  {
    p.bank == ChooseNewBank(p.lpn * CHUNKS_PER_PAGE + p.offset / SECTORS_PER_CHUNK, nb)
  }

  predicate AllAtHome(pieces: seq<Piece>, nb: nat)
    requires nb > 0
  {
    forall i :: 0 <= i < |pieces| ==> AtHome(pieces[i], nb)
  }

  /** The first piece of a request would run over the end of its chunk. */
  predicate Straddling(lba: nat, nSects: nat) {
    lba % SECTORS_PER_CHUNK != 0 && nSects > SECTORS_PER_CHUNK - lba % SECTORS_PER_CHUNK &&
      lba % SECTORS_PER_PAGE < SECTORS_PER_PAGE - SECTORS_PER_CHUNK
  }

  lemma HomeAppend(a: seq<Piece>, c: seq<Piece>, nb: nat)
    requires nb > 0
    ensures AllAtHome(a + c, nb) <==> AllAtHome(a, nb) && AllAtHome(c, nb)
  {
    if AllAtHome(a + c, nb) {
      assert forall i :: 0 <= i < |a| ==> a[i] == (a + c)[i];
      assert forall i :: 0 <= i < |c| ==> c[i] == (a + c)[|a| + i];
    }
  }

  /** The request starts and ends on chunk boundaries. */
  predicate Aligned(lba: nat, nSects: nat) {
    lba % SECTORS_PER_CHUNK == 0 && nSects % SECTORS_PER_CHUNK == 0
  }

  /** Logical pages that a request touches. */
  function PagesTouched(lba: nat, nSects: nat): nat {
    if nSects == 0 then 0 else (lba + nSects - 1) / SECTORS_PER_PAGE - lba / SECTORS_PER_PAGE + 1
  }

  /** Sectors left in the chunk that a sector offset lies in. */
  function RoomInChunk(sectOffset: nat): nat {
    SECTORS_PER_CHUNK - sectOffset % SECTORS_PER_CHUNK
  }

  /** The pieces of one call, at most two because it asks for at most eight sectors. */
  function PiecesOfCall(lpn: nat, sectOffset: nat, nSects: nat, bank: nat): seq<Piece> {
    var room := RoomInChunk(sectOffset);
    if nSects <= room then [Piece(lpn, sectOffset, nSects, bank)]
    else [Piece(lpn, sectOffset, room, bank), Piece(lpn, sectOffset + room, nSects - room, bank)]
  }

  /** The sectors of the next piece, as writeChunkOld computes them. */
  function NextPiece(offset: nat, remaining: nat): nat {
    if offset % SECTORS_PER_CHUNK + remaining < SECTORS_PER_CHUNK then remaining
      else SECTORS_PER_CHUNK - offset % SECTORS_PER_CHUNK
  }

  lemma CallSteps(lpn: nat, sectOffset: nat, nSects: nat, bank: nat)
    requires 0 < nSects <= SECTORS_PER_CHUNK
    ensures var call, n := PiecesOfCall(lpn, sectOffset, nSects, bank), NextPiece(sectOffset, nSects);
      && 0 < n <= nSects && call[0] == Piece(lpn, sectOffset, n, bank)
      && (n == nSects ==> call == [call[0]])
      && (n < nSects ==>
           NextPiece(sectOffset + n, nSects - n) == nSects - n &&
             call == [call[0], Piece(lpn, sectOffset + n, nSects - n, bank)])
  {
  }

  lemma CallPieces(lpn: nat, sectOffset: nat, nSects: nat, nb: nat)
    requires nb > 0 && 0 < nSects <= SECTORS_PER_CHUNK && sectOffset < SECTORS_PER_PAGE
    ensures var pieces := PiecesOfCall(lpn, sectOffset, nSects,
      ChooseNewBank(lpn * CHUNKS_PER_PAGE + sectOffset / SECTORS_PER_CHUNK, nb));
      && Tiles(pieces, SECTORS_PER_PAGE * lpn + sectOffset, SECTORS_PER_PAGE * lpn + sectOffset + nSects)
      && |pieces| > 0 && End(pieces[|pieces| - 1]) == SECTORS_PER_PAGE * lpn + sectOffset + nSects
      && (sectOffset + nSects <= SECTORS_PER_PAGE ==> Leaves(pieces))
      && (sectOffset % SECTORS_PER_CHUNK == 0 && nSects == SECTORS_PER_CHUNK ==> WholeChunks(pieces))
      && (nSects <= RoomInChunk(sectOffset) ==> AllAtHome(pieces, nb))
      && (nb > 1 && nSects > RoomInChunk(sectOffset) ==> !AllAtHome(pieces, nb))
  {
    var chunk := lpn * CHUNKS_PER_PAGE + sectOffset / SECTORS_PER_CHUNK;
    var bank := ChooseNewBank(chunk, nb);
    var pieces := PiecesOfCall(lpn, sectOffset, nSects, bank);
    if nSects <= RoomInChunk(sectOffset) {
      assert pieces[..0] == [];
    } else {
      TwoTiles(pieces[0], pieces[1]);
      if nb > 1 {
        Modular.CloseApart(chunk, chunk + 1, nb);
        assert (sectOffset + RoomInChunk(sectOffset)) / SECTORS_PER_CHUNK == sectOffset / SECTORS_PER_CHUNK + 1;
        hide ChooseNewBank;
        assert !AtHome(pieces[1], nb) by {
          assert ChooseNewBank(chunk, nb) == chunk % nb;
        }
      }
    }
  }

  lemma CallBank(lpn: nat, sectOffset: nat, nSects: nat, bank: nat)
    ensures var call := PiecesOfCall(lpn, sectOffset, nSects, bank);
      forall i: nat {:trigger call[i]} :: i < |call| ==> call[i].bank == bank
  {
  }

  lemma BankOfSector(lpn: nat, sectOffset: nat, nb: nat)
    requires nb > 0
    ensures ChooseNewBank(lpn * CHUNKS_PER_PAGE + sectOffset / SECTORS_PER_CHUNK, nb) ==
      (SECTORS_PER_PAGE * lpn + sectOffset) / SECTORS_PER_CHUNK % nb
  {
  }

  lemma TwoTiles(p: Piece, q: Piece)
    requires Start(q) == End(p)
    ensures Tiles([p, q], Start(p), End(q))
  {
    assert [p, q][..1] == [p] && [p][..0] == [];
  }

  /** The sectors that the next call of the write loop asks for. */
  function NextCall(sectOffset: nat, remaining: nat): (n: nat)
    requires sectOffset < SECTORS_PER_PAGE
    ensures n <= SECTORS_PER_CHUNK && sectOffset + n <= SECTORS_PER_PAGE && n <= remaining && (remaining > 0 ==> n > 0)
    ensures n == remaining || sectOffset + n == SECTORS_PER_PAGE || n == SECTORS_PER_CHUNK
  {
    if sectOffset + remaining < SECTORS_PER_PAGE then
      if remaining < SECTORS_PER_CHUNK then remaining else SECTORS_PER_CHUNK
    else
      if SECTORS_PER_PAGE - sectOffset < SECTORS_PER_CHUNK then SECTORS_PER_PAGE - sectOffset else SECTORS_PER_CHUNK
  }

  /** What the source computes: its sum has 32 bits. */
  function NextCall32(sectOffset: nat, remaining: nat): (n: nat)
    requires sectOffset < SECTORS_PER_PAGE && remaining < U32
  {
    if (sectOffset + remaining) % U32 < SECTORS_PER_PAGE then
      if remaining < SECTORS_PER_CHUNK then remaining else SECTORS_PER_CHUNK
    else
      if SECTORS_PER_PAGE - sectOffset < SECTORS_PER_CHUNK then SECTORS_PER_PAGE - sectOffset else SECTORS_PER_CHUNK
  }

  /** The sum of a request's first offset and length wraps, and then a call misses the end of a page. */
  predicate Overrunning(lba: nat, nSects: nat) {
    lba % SECTORS_PER_PAGE + nSects >= U32 && lba % SECTORS_PER_CHUNK != 0
  }

  lemma SumWraps(sectOffset: nat, remaining: nat)
    requires sectOffset < SECTORS_PER_PAGE && remaining < U32
    ensures sectOffset + remaining < U32 || sectOffset <= SECTORS_PER_PAGE - SECTORS_PER_CHUNK ==>
      NextCall32(sectOffset, remaining) == NextCall(sectOffset, remaining)
    ensures sectOffset + remaining >= U32 ==> NextCall32(sectOffset, remaining) == SECTORS_PER_CHUNK
  {
    if sectOffset + remaining >= U32 {
      Modular.DivModUnique(sectOffset + remaining, U32, 1, sectOffset + remaining - U32);
    } else {
      Modular.DivModUnique(sectOffset + remaining, U32, 0, sectOffset + remaining);
    }
  }

  /** How an overrunning request goes on: until the call that misses the end of the page the sum wraps at an offset
      that is not chunk aligned; from then on everything goes one page too low. */
  ghost predicate OverrunSoFar(lba: nat, nSects: nat, pieces: seq<Piece>, lpn: nat, sectOffset: nat, remaining: nat) {
    var at := SECTORS_PER_PAGE * lpn + sectOffset;
    if sectOffset + remaining >= U32 then at + remaining == lba + nSects && sectOffset % SECTORS_PER_CHUNK != 0
    else
      && at + remaining + SECTORS_PER_PAGE == lba + nSects && |pieces| > 0
      && (remaining == 0 ==> End(pieces[|pieces| - 1]) == at)
  }

  lemma OverrunStart(lba: nat, nSects: nat)
    requires Overrunning(lba, nSects)
    ensures OverrunSoFar(lba, nSects, [], lba / SECTORS_PER_PAGE, lba % SECTORS_PER_PAGE, nSects)
  {
    assert lba % SECTORS_PER_PAGE % SECTORS_PER_CHUNK == lba % SECTORS_PER_CHUNK;
  }

  lemma OverrunStep(lba: nat, nSects: nat, pieces: seq<Piece>, more: seq<Piece>, lpn: nat, sectOffset: nat,
      remaining: nat)
    requires OverrunSoFar(lba, nSects, pieces, lpn, sectOffset, remaining)
    requires sectOffset < SECTORS_PER_PAGE && 0 < remaining < U32 && |more| > 0
    requires End(more[|more| - 1]) == SECTORS_PER_PAGE * lpn + sectOffset + NextCall32(sectOffset, remaining)
    ensures var n := NextCall32(sectOffset, remaining); var next := (sectOffset + n) % SECTORS_PER_PAGE;
      && 0 < n <= SECTORS_PER_CHUNK && n <= remaining
      && OverrunSoFar(lba, nSects, pieces + more, if next == 0 then lpn + 1 else lpn, next, remaining - n)
  {
    hide NextCall32, NextCall;
    SumWraps(sectOffset, remaining);
    var n := NextCall32(sectOffset, remaining);
    assert (pieces + more)[|pieces + more| - 1] == more[|more| - 1];
    if sectOffset + n < SECTORS_PER_PAGE {
      Modular.DivModUnique(sectOffset + n, SECTORS_PER_PAGE, 0, sectOffset + n);
    } else {
      Modular.DivModUnique(sectOffset + n, SECTORS_PER_PAGE, 1, sectOffset + n - SECTORS_PER_PAGE);
    }
  }

  lemma OverrunEnd(lba: nat, nSects: nat, pieces: seq<Piece>, lpn: nat, sectOffset: nat)
    requires OverrunSoFar(lba, nSects, pieces, lpn, sectOffset, 0) && sectOffset < SECTORS_PER_PAGE
    ensures !Tiles(pieces, lba, lba + nSects)
  {
  }

  /** Only the first call can run over the end of a chunk; after it the loop is chunk aligned, or else done. */
  lemma CallsAligned(lba: nat, nSects: nat, sectOffset: nat)
    requires sectOffset == lba % SECTORS_PER_PAGE && nSects > 0
    ensures NextCall(sectOffset, nSects) <= RoomInChunk(sectOffset) <==> !Straddling(lba, nSects)
    ensures !Straddling(lba, nSects) ==>
      (sectOffset + NextCall(sectOffset, nSects)) % SECTORS_PER_PAGE % SECTORS_PER_CHUNK == 0 ||
        NextCall(sectOffset, nSects) == nSects
  {
    SameInChunk(lba);
    var inChunk := sectOffset % SECTORS_PER_CHUNK;
    var chunk := sectOffset / SECTORS_PER_CHUNK;
    assert sectOffset == SECTORS_PER_CHUNK * chunk + inChunk && chunk < CHUNKS_PER_PAGE;
  }

  lemma SameInChunk(lba: nat)
    ensures lba % SECTORS_PER_PAGE % SECTORS_PER_CHUNK == lba % SECTORS_PER_CHUNK
  {
  }

  lemma AlignedCalls(sectOffset: nat, remaining: nat)
    requires sectOffset < SECTORS_PER_PAGE && sectOffset % SECTORS_PER_CHUNK == 0
    ensures NextCall(sectOffset, remaining) <= RoomInChunk(sectOffset)
    ensures (sectOffset + NextCall(sectOffset, remaining)) % SECTORS_PER_PAGE % SECTORS_PER_CHUNK == 0 ||
      NextCall(sectOffset, remaining) == remaining
  {
  }

  /** How far the write loop knows whether all its pieces went home. */
  ghost predicate HomeSoFar(lba: nat, nSects: nat, nb: nat, pieces: seq<Piece>, sectOffset: nat, remaining: nat)
    requires nb > 0
  {
    && (if remaining == nSects then pieces == [] && sectOffset == lba % SECTORS_PER_PAGE
        else (nb > 1 ==> (AllAtHome(pieces, nb) <==> !Straddling(lba, nSects))) &&
               (!Straddling(lba, nSects) ==> AllAtHome(pieces, nb)))
    && (remaining < nSects && !Straddling(lba, nSects) ==> sectOffset % SECTORS_PER_CHUNK == 0 || remaining == 0)
  }

  lemma HomeStep(lba: nat, nSects: nat, nb: nat, pieces: seq<Piece>, more: seq<Piece>, sectOffset: nat, remaining: nat)
    requires nb > 0 && HomeSoFar(lba, nSects, nb, pieces, sectOffset, remaining) && sectOffset < SECTORS_PER_PAGE &&
      0 < remaining <= nSects
    requires NextCall(sectOffset, remaining) <= RoomInChunk(sectOffset) ==> AllAtHome(more, nb)
    requires nb > 1 && NextCall(sectOffset, remaining) > RoomInChunk(sectOffset) ==> !AllAtHome(more, nb)
    ensures var n := NextCall(sectOffset, remaining);
      HomeSoFar(lba, nSects, nb, pieces + more, (sectOffset + n) % SECTORS_PER_PAGE, remaining - n)
  {
    hide AllAtHome, NextCall, RoomInChunk, Straddling;
    if remaining == nSects {
      CallsAligned(lba, nSects, sectOffset);
      assert pieces + more == more;
    } else if sectOffset % SECTORS_PER_CHUNK == 0 {
      AlignedCalls(sectOffset, remaining);
    }
    HomeAppend(pieces, more, nb);
  }

  lemma HomeAtStart(lba: nat, nSects: nat, nb: nat)
    requires nb > 0
    ensures HomeSoFar(lba, nSects, nb, [], lba % SECTORS_PER_PAGE, nSects)
  {
  }

  lemma HomeAtEnd(lba: nat, nSects: nat, nb: nat, pieces: seq<Piece>, sectOffset: nat)
    requires nb > 0 && HomeSoFar(lba, nSects, nb, pieces, sectOffset, 0)
    ensures nb > 1 ==> (AllAtHome(pieces, nb) <==> !Straddling(lba, nSects))
    ensures !Straddling(lba, nSects) ==> Dealt(pieces, nb)
  {
    if AllAtHome(pieces, nb) {
      HomeIsDealt(pieces, nb);
    }
  }

  /** Every piece goes to the bank whose turn it is: bank 0 has chunk 0 of the device, and so on in rounds. */
  predicate Dealt(pieces: seq<Piece>, nb: nat)
    requires nb > 0
  {
    forall i: nat {:trigger pieces[i]} :: i < |pieces| ==> pieces[i].bank == Start(pieces[i]) / SECTORS_PER_CHUNK % nb
  }

  lemma HomeIsDealt(pieces: seq<Piece>, nb: nat)
    requires nb > 0 && AllAtHome(pieces, nb)
    ensures Dealt(pieces, nb)
  {
    forall i: nat {:trigger pieces[i]} | i < |pieces|
      ensures pieces[i].bank == Start(pieces[i]) / SECTORS_PER_CHUNK % nb
    {
      assert AtHome(pieces[i], nb);
      assert Start(pieces[i]) / SECTORS_PER_CHUNK ==
        pieces[i].lpn * CHUNKS_PER_PAGE + pieces[i].offset / SECTORS_PER_CHUNK;
    }
  }

  lemma PagesByEnd(lba: nat, nSects: nat, end: nat)
    requires nSects > 0 && lba + nSects <= SECTORS_PER_PAGE * end < lba + nSects + SECTORS_PER_PAGE
    ensures PagesTouched(lba, nSects) == end - lba / SECTORS_PER_PAGE
  {
  }

  /** Buffer ids count the pages handled so far, modulo the number of buffers. */
  function BufferId(pages: nat, buffers: nat): nat
    requires buffers > 0
  {
    pages % buffers
  }

  /** Every buffer comes round again: the id is that of a buffer, and a whole number of rounds behind the pages. */
  lemma BufferIdRounds(pages: nat, buffers: nat)
    requires buffers > 0
    ensures BufferId(pages, buffers) < buffers && (pages - BufferId(pages, buffers)) % buffers == 0
  {
    Modular.DivMod(pages, buffers);
    Modular.DivModUnique(pages - BufferId(pages, buffers), buffers, pages / buffers, 0);
  }

  /** The pages that the sectors of a request lie in. */
  function PagesOf(lba: nat, nSects: nat): set<nat> {
    set sector | lba <= sector < lba + nSects :: sector / SECTORS_PER_PAGE
  }

  lemma PagesCounted(lba: nat, nSects: nat)
    ensures |PagesOf(lba, nSects)| == PagesTouched(lba, nSects)
  {
    if nSects == 0 {
      assert PagesOf(lba, 0) == {};
    } else {
      var first, n := lba / SECTORS_PER_PAGE, PagesTouched(lba, nSects);
      forall page: nat
        ensures page in PagesOf(lba, nSects) <==> first <= page < first + n
      {
        if first <= page < first + n {
          var sector := if page == first then lba else SECTORS_PER_PAGE * page;
          assert sector / SECTORS_PER_PAGE == page && lba <= sector < lba + nSects;
        }
      }
      RangeSize(PagesOf(lba, nSects), first, n);
    }
  }

  lemma {:induction false} RangeSize(pages: set<nat>, first: nat, n: nat)
    requires forall page: nat :: page in pages <==> first <= page < first + n
    ensures |pages| == n
  {
    if n == 0 {
      assert pages == {};
    } else {
      RangeSize(pages - {first + n - 1}, first, n - 1);
    }
  }

  lemma BufferIdStart(id: nat, buffers: nat)
    requires id < buffers
    ensures BufferId(id, buffers) == id
  {
    Modular.DivModUnique(id, buffers, 0, id);
  }

  lemma BufferIdStep(pages: nat, buffers: nat)
    requires buffers > 0
    ensures BufferId(BufferId(pages, buffers) + 1, buffers) == BufferId(pages + 1, buffers)
  {
    Modular.WrapStep(pages, buffers);
  }

  lemma NextOffset(sectOffset: nat, n: nat)
    requires sectOffset + n <= SECTORS_PER_PAGE
    ensures (sectOffset + n) % SECTORS_PER_PAGE == if sectOffset + n == SECTORS_PER_PAGE then 0 else sectOffset + n
  {
  }

  // ---------- The write loop ----------

  /** The write loop when what is left starts at sectOffset of page lpn. */
  ghost predicate WrittenSoFar(lba: nat, nSects: nat, nb: nat, id: nat, numWr: nat,
      pieces: seq<Piece>, lpn: nat, sectOffset: nat, remaining: nat, bufId: nat)
    requires nb > 0 && numWr > 0
  {
    var first := lba / SECTORS_PER_PAGE;
    && SECTORS_PER_PAGE * lpn + sectOffset + remaining == lba + nSects && lpn >= first
    && Tiles(pieces, lba, SECTORS_PER_PAGE * lpn + sectOffset) && Leaves(pieces)
    && bufId == BufferId(id + (lpn - first), numWr) && (remaining == nSects ==> lpn == first)
    && HomeSoFar(lba, nSects, nb, pieces, sectOffset, remaining)
    && (sectOffset + remaining >= U32 ==> sectOffset % SECTORS_PER_CHUNK == 0)
    && (Aligned(lba, nSects) ==>
          sectOffset % SECTORS_PER_CHUNK == 0 && remaining % SECTORS_PER_CHUNK == 0 && WholeChunks(pieces))
  }

  lemma WriteStart(lba: nat, nSects: nat, nb: nat, id: nat, numWr: nat)
    requires nb > 0 && id < numWr
    ensures if Overrunning(lba, nSects)
      then OverrunSoFar(lba, nSects, [], lba / SECTORS_PER_PAGE, lba % SECTORS_PER_PAGE, nSects)
            else WrittenSoFar(lba, nSects, nb, id, numWr, [], lba / SECTORS_PER_PAGE, lba % SECTORS_PER_PAGE, nSects,
              id)
  {
    hide Tiles, Leaves, AllAtHome, BufferId, Straddling, OverrunSoFar, HomeSoFar;
    if Overrunning(lba, nSects) {
      OverrunStart(lba, nSects);
    } else {
      NoPieces(lba, nb);
      HomeAtStart(lba, nSects, nb);
      BufferIdStart(id, numWr);
      assert lba % SECTORS_PER_PAGE % SECTORS_PER_CHUNK == lba % SECTORS_PER_CHUNK;
    }
  }

  lemma CallBounds(sectOffset: nat, remaining: nat)
    requires sectOffset < SECTORS_PER_PAGE && 0 < remaining < U32
    ensures 0 < NextCall32(sectOffset, remaining) <= SECTORS_PER_CHUNK && NextCall32(sectOffset, remaining) <= remaining
  {
    hide NextCall32;
    SumWraps(sectOffset, remaining);
  }

  lemma AlignedStep(sectOffset: nat, remaining: nat)
    requires sectOffset < SECTORS_PER_PAGE && remaining > 0
    ensures var n := NextCall(sectOffset, remaining);
      sectOffset % SECTORS_PER_CHUNK == 0 && remaining % SECTORS_PER_CHUNK == 0 ==>
        && n == SECTORS_PER_CHUNK && (sectOffset + n) % SECTORS_PER_PAGE % SECTORS_PER_CHUNK == 0
        && (remaining - n) % SECTORS_PER_CHUNK == 0
  {
  }

  lemma WriteStep(lba: nat, nSects: nat, nb: nat, id: nat, numWr: nat,
      pieces: seq<Piece>, more: seq<Piece>, lpn: nat, sectOffset: nat, remaining: nat, bufId: nat)
    requires nb > 0 && id < numWr && sectOffset < SECTORS_PER_PAGE && 0 < remaining < U32 && remaining <= nSects
    requires WrittenSoFar(lba, nSects, nb, id, numWr, pieces, lpn, sectOffset, remaining, bufId)
    requires var n, at := NextCall32(sectOffset, remaining), SECTORS_PER_PAGE * lpn + sectOffset;
      && (sectOffset % SECTORS_PER_CHUNK == 0 && n == SECTORS_PER_CHUNK ==> WholeChunks(more))
      && Tiles(more, at, at + n) && (sectOffset + n <= SECTORS_PER_PAGE ==> Leaves(more))
      && (n <= RoomInChunk(sectOffset) ==> AllAtHome(more, nb))
      && (nb > 1 && n > RoomInChunk(sectOffset) ==> !AllAtHome(more, nb))
    ensures var n := NextCall32(sectOffset, remaining); var next := (sectOffset + n) % SECTORS_PER_PAGE;
      && 0 < n <= remaining
      && WrittenSoFar(lba, nSects, nb, id, numWr, pieces + more, if next == 0 then lpn + 1
           else lpn, next, remaining - n,
                      if next == 0 then BufferId(bufId + 1, numWr) else bufId)
  {
    hide Tiles, Leaves, AllAtHome, BufferId, Straddling, HomeSoFar, NextCall32, NextCall, RoomInChunk, WholeChunks,
      Aligned;
    SumWraps(sectOffset, remaining);
    AlignedStep(sectOffset, remaining);
    var n := NextCall(sectOffset, remaining);
    TilesAppend(pieces, more, lba, SECTORS_PER_PAGE * lpn + sectOffset, SECTORS_PER_PAGE * lpn + sectOffset + n);
    HomeStep(lba, nSects, nb, pieces, more, sectOffset, remaining);
    LeavesAppend(pieces, more);
    NextOffset(sectOffset, n);
    if Aligned(lba, nSects) {
      ChunksAppend(pieces, more);
    }
    BufferIdStep(id + (lpn - lba / SECTORS_PER_PAGE), numWr);
  }

  lemma WriteEnd(lba: nat, nSects: nat, nb: nat, id: nat, numWr: nat, pieces: seq<Piece>, lpn: nat, sectOffset: nat,
      bufId: nat)
    requires nb > 0 && id < numWr && sectOffset < SECTORS_PER_PAGE
    requires WrittenSoFar(lba, nSects, nb, id, numWr, pieces, lpn, sectOffset, 0, bufId)
    ensures Tiles(pieces, lba, lba + nSects) && Leaves(pieces) &&
      (nb > 1 ==> (AllAtHome(pieces, nb) <==> !Straddling(lba, nSects)))
    ensures !Straddling(lba, nSects) ==> Dealt(pieces, nb)
    ensures Aligned(lba, nSects) ==> WholeChunks(pieces)
    ensures (if sectOffset != 0 then BufferId(bufId + 1, numWr) else bufId) ==
      BufferId(id + PagesTouched(lba, nSects) + (if nSects == 0 && lba % SECTORS_PER_PAGE != 0 then 1 else 0), numWr)
  {
    hide Tiles, Leaves, AllAtHome, BufferId, Straddling, PagesTouched, Dealt;
    HomeAtEnd(lba, nSects, nb, pieces, sectOffset);
    if nSects > 0 {
      PagesByEnd(lba, nSects, if sectOffset == 0 then lpn else lpn + 1);
    }
    EmptyRequest(lba);
    BufferIdStep(id + (lpn - lba / SECTORS_PER_PAGE), numWr);
  }

  // ---------- The read loop ----------

  /** Not empty, and inside one page. */
  predicate InPages(pieces: seq<Piece>) {
    forall i :: 0 <= i < |pieces| ==> 0 < pieces[i].n && pieces[i].offset + pieces[i].n <= SECTORS_PER_PAGE
  }

  /** One piece a page: each but the first starts where its page does, each but the last ends where its page does. */
  predicate PageByPage(pieces: seq<Piece>, lba: nat) {
    forall i: nat {:trigger pieces[i]} :: i < |pieces| ==>
      && pieces[i].lpn == lba / SECTORS_PER_PAGE + i
      && pieces[i].offset == (if i == 0 then lba % SECTORS_PER_PAGE else 0)
      && (i + 1 < |pieces| ==> pieces[i].offset + pieces[i].n == SECTORS_PER_PAGE)
  }

  /** The sectors that the next call of the read loop asks for; the sum has 32 bits. */
  function NextRead32(sectOffset: nat, remaining: nat): (n: nat)
    requires sectOffset < SECTORS_PER_PAGE
    ensures sectOffset + remaining < U32 ==>
      n == if sectOffset + remaining < SECTORS_PER_PAGE then remaining else SECTORS_PER_PAGE - sectOffset
    ensures remaining < U32 <= sectOffset + remaining ==> n == remaining
  {
    if (sectOffset + remaining) % U32 < SECTORS_PER_PAGE then remaining else SECTORS_PER_PAGE - sectOffset
  }

  /** The read loop when what is left starts at sectOffset of page lpn, after a page for each piece; a request whose
      sum wraps is done after a single piece. */
  ghost predicate ReadSoFar(lba: nat, nSects: nat, pieces: seq<Piece>, lpn: nat, sectOffset: nat, remaining: nat) {
    var first := lba / SECTORS_PER_PAGE;
    && remaining <= nSects && Tiles(pieces, lba, lba + nSects - remaining) && lpn == first + |pieces|
    && (pieces == [] ==> remaining == nSects && sectOffset == lba % SECTORS_PER_PAGE)
    && (if lba % SECTORS_PER_PAGE + nSects >= U32 then pieces != [] ==> remaining == 0 && !InPages(pieces)
        else
          && InPages(pieces) && PageByPage(pieces, lba) && (pieces != [] ==> sectOffset == 0 && nSects > 0)
          && (pieces != [] && remaining > 0 ==>
                pieces[|pieces| - 1].offset + pieces[|pieces| - 1].n == SECTORS_PER_PAGE)
          && if remaining > 0 then SECTORS_PER_PAGE * lpn + sectOffset + remaining == lba + nSects
             else pieces != [] ==> lba + nSects <= SECTORS_PER_PAGE * lpn < lba + nSects + SECTORS_PER_PAGE)
  }

  lemma ReadStart(lba: nat, nSects: nat)
    ensures ReadSoFar(lba, nSects, [], lba / SECTORS_PER_PAGE, lba % SECTORS_PER_PAGE, nSects)
  {
    NoPieces(lba, 1);
    hide Tiles;
  }

  lemma ReadStep(lba: nat, nSects: nat, pieces: seq<Piece>, lpn: nat, sectOffset: nat, remaining: nat)
    requires ReadSoFar(lba, nSects, pieces, lpn, sectOffset, remaining)
    requires sectOffset < SECTORS_PER_PAGE && 0 < remaining <= nSects < U32
    ensures var n := NextRead32(sectOffset, remaining);
      && n <= remaining
      && ReadSoFar(lba, nSects, pieces + [Piece(lpn, sectOffset, n, 0)], lpn + 1, 0, remaining - n)
  {
    hide Tiles, NextRead32;
    var n := NextRead32(sectOffset, remaining);
    var p := Piece(lpn, sectOffset, n, 0);
    Modular.DivMod(lba, SECTORS_PER_PAGE);
    OnePiece(pieces, p, lba);
    assert (pieces + [p])[|pieces|] == p;
    assert forall i: nat {:trigger (pieces + [p])[i]} :: i < |pieces| ==> (pieces + [p])[i] == pieces[i];
  }

  lemma ReadEnd(lba: nat, nSects: nat, pieces: seq<Piece>, lpn: nat, sectOffset: nat)
    requires ReadSoFar(lba, nSects, pieces, lpn, sectOffset, 0) && nSects < U32
    ensures Tiles(pieces, lba, lba + nSects)
    ensures InPages(pieces) <==> lba % SECTORS_PER_PAGE + nSects < U32
    ensures lba % SECTORS_PER_PAGE + nSects < U32 ==>
      |pieces| == PagesTouched(lba, nSects) && PageByPage(pieces, lba)
  {
    hide Tiles, InPages, PagesTouched;
    EmptyRequest(lba);
    if pieces != [] && lba % SECTORS_PER_PAGE + nSects < U32 {
      PagesByEnd(lba, nSects, lpn);
    }
  }

  class Requests {
    const nb: nat     // NUM_BANKS
    const numWr: nat  // NUM_WR_BUFFERS
    const numRd: nat  // NUM_RD_BUFFERS
    var writeBufId: nat
    var readBufId: nat

    constructor (numBanks: nat, numWriteBuffers: nat, numReadBuffers: nat)
      ensures nb == numBanks && numWr == numWriteBuffers && numRd == numReadBuffers && writeBufId == 0 && readBufId == 0
    {
      nb, numWr, numRd := numBanks, numWriteBuffers, numReadBuffers;
      writeBufId, readBufId := 0, 0;
    }

    /** writeToLogBlk on less than a page: the bank is that of the first chunk, also for what runs into the next one. */
    method WriteToLogBlk(lpn: nat, sectOffset: nat, nSects: nat) returns (pieces: seq<Piece>)
      requires nb > 0 && 0 < nSects <= SECTORS_PER_CHUNK && sectOffset < SECTORS_PER_PAGE
      ensures Tiles(pieces, SECTORS_PER_PAGE * lpn + sectOffset, SECTORS_PER_PAGE * lpn + sectOffset + nSects)
      ensures |pieces| > 0 && End(pieces[|pieces| - 1]) == SECTORS_PER_PAGE * lpn + sectOffset + nSects
      ensures sectOffset + nSects <= SECTORS_PER_PAGE ==> Leaves(pieces)
      ensures sectOffset % SECTORS_PER_CHUNK == 0 && nSects == SECTORS_PER_CHUNK ==> WholeChunks(pieces)
      ensures forall i: nat {:trigger pieces[i]} :: i < |pieces| ==>
        pieces[i].bank == (SECTORS_PER_PAGE * lpn + sectOffset) / SECTORS_PER_CHUNK % nb
      ensures nSects <= RoomInChunk(sectOffset) ==> AllAtHome(pieces, nb)
      ensures nb > 1 && nSects > RoomInChunk(sectOffset) ==> !AllAtHome(pieces, nb)
    {
      hide PiecesOfCall, NextPiece, Tiles, Leaves, WholeChunks, AllAtHome, RoomInChunk, ChooseNewBank;
      var bank := ChooseNewBank(lpn * CHUNKS_PER_PAGE + sectOffset / SECTORS_PER_CHUNK, nb);
      var offset: nat, remaining: nat := sectOffset, nSects;
      ghost var call := PiecesOfCall(lpn, sectOffset, nSects, bank);
      CallSteps(lpn, sectOffset, nSects, bank);
      pieces := [];
      while remaining != 0
        invariant offset + remaining == sectOffset + nSects
        invariant || (pieces == [] && offset == sectOffset)
                  || (pieces == [call[0]] && offset == sectOffset + call[0].n)
                  || (pieces == call && remaining == 0)
      {
        var n := NextPiece(offset, remaining);
        pieces := pieces + [Piece(lpn, offset, n, bank)];
        offset := offset + n;
        remaining := remaining - n;
      }
      CallPieces(lpn, sectOffset, nSects, nb);
      CallBank(lpn, sectOffset, nSects, bank);
      BankOfSector(lpn, sectOffset, nb);
    }

    /** ftl_write. Unless the 32-bit sum of the first offset and the length wraps on a request that is not chunk
        aligned, the pieces tile the range, each inside one chunk; they all go to their chunk's home bank exactly when
        the first call does not run over the end of its chunk; and the write buffer id moves on by the pages touched
        (by one, too, for an empty request that is not page aligned). On those requests they do not tile it. */
    method FtlWrite(lba: nat, nSects: nat) returns (hot: bool, pieces: seq<Piece>)
      requires nb > 0 && writeBufId < numWr && nSects < U32
      modifies this`writeBufId
      ensures hot <==> nSects < HOT_THRESHOLD
      ensures Tiles(pieces, lba, lba + nSects) <==> !Overrunning(lba, nSects)
      ensures Aligned(lba, nSects) ==> WholeChunks(pieces)
      ensures !Overrunning(lba, nSects) ==>
        && Leaves(pieces) && (nb > 1 ==> (AllAtHome(pieces, nb) <==> !Straddling(lba, nSects)))
        && writeBufId ==
             BufferId(old(writeBufId) + PagesTouched(lba, nSects)
               + (if nSects == 0 && lba % SECTORS_PER_PAGE != 0 then 1 else 0), numWr)
      ensures !Overrunning(lba, nSects) && !Straddling(lba, nSects) ==> Dealt(pieces, nb)
      ensures writeBufId < numWr
      ensures !Overrunning(lba, nSects) ==>
        var handled := if nSects == 0 && lba % SECTORS_PER_PAGE != 0 then 1 else |PagesOf(lba, nSects)|;
        (old(writeBufId) + handled - writeBufId) % numWr == 0
    {
      hide AllAtHome, Leaves, Tiles, PiecesOfCall, NextCall, NextCall32, RoomInChunk, Straddling, PagesTouched,
        HomeSoFar,
        BufferId, Overrunning, OverrunSoFar, End, WholeChunks, Aligned, Dealt, PagesOf;
      hot := !(nSects >= HOT_THRESHOLD);
      var lpn: nat, sectOffset: nat, remaining: nat := lba / SECTORS_PER_PAGE, lba % SECTORS_PER_PAGE, nSects;
      ghost var id := writeBufId;
      pieces := [];
      WriteStart(lba, nSects, nb, id, numWr);
      while remaining != 0
        invariant sectOffset < SECTORS_PER_PAGE && remaining <= nSects && writeBufId < numWr
        invariant if Overrunning(lba, nSects) then OverrunSoFar(lba, nSects, pieces, lpn, sectOffset, remaining)
                  else WrittenSoFar(lba, nSects, nb, id, numWr, pieces, lpn, sectOffset, remaining, writeBufId)
      {
        var n := NextCall32(sectOffset, remaining);
        CallBounds(sectOffset, remaining);
        var more := WriteToLogBlk(lpn, sectOffset, n);
        if Overrunning(lba, nSects) {
          OverrunStep(lba, nSects, pieces, more, lpn, sectOffset, remaining);
        } else {
          WriteStep(lba, nSects, nb, id, numWr, pieces, more, lpn, sectOffset, remaining, writeBufId);
        }
        pieces := pieces + more;
        sectOffset := (sectOffset + n) % SECTORS_PER_PAGE;
        remaining := remaining - n;
        if sectOffset == 0 {
          lpn := lpn + 1;
          BufferIdRounds(writeBufId + 1, numWr);
          writeBufId := BufferId(writeBufId + 1, numWr);
        }
      }
      AlignedFits(lba, nSects);
      if Overrunning(lba, nSects) {
        OverrunEnd(lba, nSects, pieces, lpn, sectOffset);
      } else {
        WriteEnd(lba, nSects, nb, id, numWr, pieces, lpn, sectOffset, writeBufId);
      }
      BufferIdRounds(writeBufId + 1, numWr);
      if sectOffset != 0 {
        writeBufId := BufferId(writeBufId + 1, numWr);
      }
      EmptyRequest(lba);
      PagesCounted(lba, nSects);
      BufferIdRounds(id + PagesTouched(lba, nSects) + (if nSects == 0 && lba % SECTORS_PER_PAGE != 0 then 1 else 0),
        numWr);
    }

    /** ftl_read: the requests to the read path tile the range, and each takes one read buffer. They are one for each
        page touched, exactly unless the 32-bit sum of the first offset and the length wraps; then a single request
        asks for all. */
    method FtlRead(lba: nat, nSects: nat) returns (pieces: seq<Piece>)
      requires readBufId < numRd && nSects < U32
      modifies this`readBufId
      ensures Tiles(pieces, lba, lba + nSects) && readBufId == BufferId(old(readBufId) + |pieces|, numRd)
      ensures readBufId < numRd && (old(readBufId) + |pieces| - readBufId) % numRd == 0
      ensures InPages(pieces) <==> lba % SECTORS_PER_PAGE + nSects < U32
      ensures lba % SECTORS_PER_PAGE + nSects < U32 ==>
        |pieces| == PagesTouched(lba, nSects) && PageByPage(pieces, lba)
    {
      hide ReadSoFar, BufferId, PagesTouched, Tiles, InPages, PageByPage;
      var lpn: nat, sectOffset: nat, remaining: nat := lba / SECTORS_PER_PAGE, lba % SECTORS_PER_PAGE, nSects;
      ghost var id := readBufId;
      pieces := [];
      ReadStart(lba, nSects);
      BufferIdStart(id, numRd);
      while remaining != 0
        invariant sectOffset < SECTORS_PER_PAGE && remaining <= nSects
        invariant ReadSoFar(lba, nSects, pieces, lpn, sectOffset, remaining)
        invariant readBufId == BufferId(id + |pieces|, numRd)
      {
        var n := NextRead32(sectOffset, remaining);
        ReadStep(lba, nSects, pieces, lpn, sectOffset, remaining);
        BufferIdStep(id + |pieces|, numRd);
        pieces := pieces + [Piece(lpn, sectOffset, n, 0)];
        readBufId := BufferId(readBufId + 1, numRd);
        sectOffset := 0;
        remaining := remaining - n;
        lpn := lpn + 1;
      }
      ReadEnd(lba, nSects, pieces, lpn, sectOffset);
      BufferIdRounds(id + |pieces|, numRd);
    }
  }

  lemma AlignedFits(lba: nat, nSects: nat)
    ensures Aligned(lba, nSects) ==> !Overrunning(lba, nSects)
  {
  }

  lemma EmptyRequest(lba: nat)
    ensures PagesTouched(lba, 0) == 0 && !Straddling(lba, 0)
  {
  }

  lemma NoPieces(lba: nat, nb: nat)
    requires nb > 0
    ensures Tiles([], lba, lba) && Leaves([]) && AllAtHome([], nb)
  {
  }

  lemma LeavesAppend(a: seq<Piece>, c: seq<Piece>)
    requires Leaves(a) && Leaves(c)
    ensures Leaves(a + c)
  {
  }

  lemma ChunksAppend(a: seq<Piece>, c: seq<Piece>)
    requires WholeChunks(a) && WholeChunks(c)
    ensures WholeChunks(a + c)
  {
  }

  lemma OnePiece(pieces: seq<Piece>, p: Piece, from: nat)
    requires Tiles(pieces, from, Start(p))
    ensures Tiles(pieces + [p], from, End(p))
  {
    assert (pieces + [p])[..|pieces|] == pieces;
  }
}
