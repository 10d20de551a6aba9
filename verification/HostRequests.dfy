/** Host requests from end to end: what ftl_write stores chunk by chunk and what ftl_read brings back. */
module HostRequests {
  import opened BankState
  import opened DeviceSteps
  import opened ReadPath
  import opened RequestSplit
  import opened Sides
  import opened WriteRuns
  import AddressCodec
  import Ftl
  import Modular

  /** The chunk a sector is part of. */
  function ChunkOfSector(sector: nat): Key {
    Key(sector / SECTORS_PER_PAGE, sector % SECTORS_PER_PAGE / SECTORS_PER_CHUNK)
  }

  function FirstSector(k: Key): nat {
    SECTORS_PER_PAGE * k.lpn + SECTORS_PER_CHUNK * k.idx
  }

  /** What chunk k holds after the first n chunks of data were written from sector lba on. */
  function Overlaid(k: Key, lba: nat, data: seq<Chunk>, n: nat, before: Chunk): Chunk
    requires n <= |data|
  {
    if lba <= FirstSector(k) < lba + SECTORS_PER_CHUNK * n then data[(FirstSector(k) - lba) / SECTORS_PER_CHUNK]
      else before
  }

  /** The chunk writes of a chunk-aligned request. */
  function ChunkWrites(lba: nat, data: seq<Chunk>, hot: bool): (cmds: seq<Cmd>)
    ensures |cmds| == |data|
    ensures forall i: nat {:trigger cmds[i]} :: i < |data| ==>
      cmds[i] == Cmd(ChunkOfSector(lba + SECTORS_PER_CHUNK * i), hot, data[i])
  {
    seq(|data|, i requires 0 <= i < |data| => Cmd(ChunkOfSector(lba + SECTORS_PER_CHUNK * i), hot, data[i]))
  }

  lemma ChunkNumbered(lba: nat, i: nat, k: Key)
    requires lba % SECTORS_PER_CHUNK == 0 && k.idx < CHUNKS_PER_PAGE
    ensures ChunkOfSector(lba + SECTORS_PER_CHUNK * i) == k <==> FirstSector(k) == lba + SECTORS_PER_CHUNK * i
    ensures FirstSector(k) % SECTORS_PER_CHUNK == 0
  {
    var m := lba / SECTORS_PER_CHUNK + i;
    var sector := lba + SECTORS_PER_CHUNK * i;
    assert sector == SECTORS_PER_CHUNK * m;
    Modular.DivModUnique(sector, SECTORS_PER_PAGE, m / CHUNKS_PER_PAGE, SECTORS_PER_CHUNK * (m % CHUNKS_PER_PAGE));
    Modular.DivModUnique(FirstSector(k), SECTORS_PER_CHUNK, CHUNKS_PER_PAGE * k.lpn + k.idx, 0);
    if FirstSector(k) == sector {
      Modular.DivModUnique(m, CHUNKS_PER_PAGE, k.lpn, k.idx);
    }
  }

  /** Writing the chunks of a request in order lays the data over what was there. */
  lemma {:induction false} WritesOverlay(lba: nat, data: seq<Chunk>, hot: bool, n: nat, k: Key, before: Chunk)
    requires lba % SECTORS_PER_CHUNK == 0 && n <= |data| && k.idx < CHUNKS_PER_PAGE
    ensures Latest(ChunkWrites(lba, data, hot)[..n], k, before) == Overlaid(k, lba, data, n, before)
  {
    hide ChunkOfSector, FirstSector;
    if n > 0 {
      var cmds := ChunkWrites(lba, data, hot);
      assert cmds[..n][..n - 1] == cmds[..n - 1];
      WritesOverlay(lba, data, hot, n - 1, k, before);
      ChunkNumbered(lba, n - 1, k);
    }
  }

  /** Tiling pieces start where the piece before them ends. */
  lemma {:induction false} TilesJoin(pieces: seq<Piece>, from: nat, to: nat, i: nat)
    requires Tiles(pieces, from, to) && i < |pieces|
    ensures Start(pieces[i]) == if i == 0 then from else End(pieces[i - 1])
    ensures i == |pieces| - 1 ==> End(pieces[i]) == to
  {
    var last := |pieces| - 1;
    if i < last {
      TilesJoin(pieces[..last], from, Start(pieces[last]), i);
    } else if last > 0 {
      TilesJoin(pieces[..last], from, Start(pieces[last]), last - 1);
    }
  }

  lemma {:induction false} ChunkPieces(pieces: seq<Piece>, from: nat, to: nat)
    requires Tiles(pieces, from, to) && WholeChunks(pieces)
    ensures to == from + SECTORS_PER_CHUNK * |pieces|
    ensures forall i: nat {:trigger pieces[i]} :: i < |pieces| ==>
      Key(pieces[i].lpn, pieces[i].offset / SECTORS_PER_CHUNK) == ChunkOfSector(from + SECTORS_PER_CHUNK * i)
  {
    if |pieces| > 0 {
      var last := pieces[|pieces| - 1];
      ChunkPieces(pieces[..|pieces| - 1], from, Start(last));
      Modular.DivModUnique(Start(last), SECTORS_PER_PAGE, last.lpn, last.offset);
    }
  }

  method CommandsFor(pieces: seq<Piece>, lba: nat, data: seq<Chunk>, hot: bool) returns (cmds: seq<Cmd>)
    requires |pieces| == |data|
    requires forall i: nat {:trigger pieces[i]} :: i < |pieces| ==>
      Key(pieces[i].lpn, pieces[i].offset / SECTORS_PER_CHUNK) == ChunkOfSector(lba + SECTORS_PER_CHUNK * i)
    ensures cmds == ChunkWrites(lba, data, hot)
    ensures forall i :: 0 <= i < |cmds| ==> cmds[i].key.idx < CHUNKS_PER_PAGE && cmds[i].hot == hot
  {
    cmds := [];
    for i := 0 to |pieces|
      invariant |cmds| == i && cmds == ChunkWrites(lba, data, hot)[..i]
    {
      var p := pieces[i];
      cmds := cmds + [Cmd(Key(p.lpn, p.offset / SECTORS_PER_CHUNK), hot, data[i])];
    }
  }

  /** A chunk-aligned host write. The first n chunks of the range read as the new data, and no chunk outside it reads
      differently; n is all of them unless a write left its bank short of clean blocks with no way to get more, and that
      does not happen while every bank has room for its chunks. */
  method HostWrite(f: Ftl.Ftl, q: Requests, lba: nat, nSects: nat, data: seq<Chunk>, fuel: nat) returns (n: nat)
    requires f.Steady() && q.nb == f.nb && q.writeBufId < q.numWr
    requires Aligned(lba, nSects) && nSects < AddressCodec.U32 && SECTORS_PER_CHUNK * |data| == nSects
    modifies f, q`writeBufId
    ensures f.Whole() && n <= |data|
    ensures forall k: Key {:trigger f.Contents(k)} :: k.idx < CHUNKS_PER_PAGE ==>
      f.Contents(k) == Overlaid(k, lba, data, n, old(f.Contents(k)))
    ensures n < |data| ==> n > 0 && |f.banks[Home(f.nb, ChunkOfSector(lba + SECTORS_PER_CHUNK * (n - 1)))].clean| < 2
    ensures fuel > 0 && nSects >= HOT_THRESHOLD ==>
      AllSpacious(f.nb, f.blks, old(f.table), old(f.banks), ChunkWrites(lba, data, false)) ==>
        n == |data| && f.Steady()
    ensures var writes := ChunkWrites(lba, data, nSects < HOT_THRESHOLD);
      fuel >= SECOND_USAGE_CHUNKS && AllRoomy(f.nb, f.blks, old(f.table), old(f.banks), writes) ==>
        n == |data| && f.Steady()
    ensures fuel >= SECOND_USAGE_CHUNKS && !f.Steady() ==>
      n > 0 && var b := Home(f.nb, ChunkOfSector(lba + SECTORS_PER_CHUNK * (n - 1)));
               !Spacious(f.blks, f.banks[b], ColdSide(b, f.table, f.banks[b]))
  {
    hide Tiles, WholeChunks, Straddling, Overrunning, Leaves, AllSpacious, AllRoomy, Spacious, ColdSide, Home,
      Aligned, Overlaid, Ftl.Ftl.Whole,
      Ftl.Ftl.Steady;
    HasBanks(f);
    AlignedFits(lba, nSects);
    var hot, pieces := q.FtlWrite(lba, nSects);
    ChunkPieces(pieces, lba, lba + nSects);
    var cmds := CommandsFor(pieces, lba, data, hot);
    n := f.Run(cmds, fuel);
    forall k: Key | k.idx < CHUNKS_PER_PAGE
      ensures f.Contents(k) == Overlaid(k, lba, data, n, old(f.Contents(k)))
    {
      AlignedStart(lba, nSects);
      WritesOverlay(lba, data, hot, n, k, old(f.Contents(k)));
    }
  }

  lemma HasBanks(f: Ftl.Ftl)
    requires f.Steady()
    ensures f.nb > 0
  {
  }

  lemma AlignedStart(lba: nat, nSects: nat)
    requires Aligned(lba, nSects)
    ensures lba % SECTORS_PER_CHUNK == 0
  {
  }

  // ---------- Reading ----------

  /** What the host gets for sector number sector. */
  ghost function ReadsAs(f: Ftl.Ftl, sector: nat): Sector
    reads f
  {
    Sector(f.Contents(ChunkOfSector(sector)), sector % SECTORS_PER_CHUNK)
  }

  /** None of the n sectors from sector lba on is part of a chunk in a far slot of an encoded page. */
  ghost predicate NoFarSector(t: Table, lba: nat, n: nat) {
    forall sector: nat {:trigger ChunkOfSector(sector)} :: lba <= sector < lba + n ==>
      !Far(t, ChunkOfSector(sector).lpn, ChunkOfSector(sector).idx)
  }

  lemma SectorOf(lpn: nat, j: nat)
    requires j < SECTORS_PER_PAGE
    ensures ChunkOfSector(SECTORS_PER_PAGE * lpn + j) == Key(lpn, j / SECTORS_PER_CHUNK)
    ensures (SECTORS_PER_PAGE * lpn + j) % SECTORS_PER_CHUNK == j % SECTORS_PER_CHUNK
  {
    Modular.DivModUnique(SECTORS_PER_PAGE * lpn + j, SECTORS_PER_PAGE, lpn, j);
    Modular.DivModUnique(SECTORS_PER_PAGE * lpn + j, SECTORS_PER_CHUNK, CHUNKS_PER_PAGE * lpn + j / SECTORS_PER_CHUNK,
      j % SECTORS_PER_CHUNK);
  }

  /** Every chunk that a request within a page rounds out to has a requested sector. */
  lemma NoFarPiece(t: Table, lba: nat, nSects: nat, p: Piece)
    requires NoFarSector(t, lba, nSects) && lba <= Start(p) && End(p) <= lba + nSects
    requires 0 < p.n && p.offset + p.n <= SECTORS_PER_PAGE
    ensures NoneFar(t, p.lpn, p.offset / SECTORS_PER_CHUNK, (p.offset + p.n + 7) / SECTORS_PER_CHUNK)
  {
    hide Far;
    forall i: nat {:trigger Far(t, p.lpn, i)}
      | p.offset / SECTORS_PER_CHUNK <= i < (p.offset + p.n + 7) / SECTORS_PER_CHUNK
      ensures !Far(t, p.lpn, i)
    {
      var j := if SECTORS_PER_CHUNK * i < p.offset then p.offset else SECTORS_PER_CHUNK * i;
      SectorOf(p.lpn, j);
      assert ChunkOfSector(SECTORS_PER_PAGE * p.lpn + j) == Key(p.lpn, i);
    }
  }

  /** What place i of FTL_BUF(0) holds when the turn of page lpn comes in a read from sector lba on, as far as that can
      be told: before the first page, what it held at first; after a page without far chunks, chunk i of that page if
      that was asked for; and the last far chunk of a page leaves its place as it was. */
  ghost function PlaceBefore(f: Ftl.Ftl, mem: seq<Chunk>, lba: nat, lpn: nat, i: nat): (held: Option<Chunk>)
    reads f
    decreases lpn
  {
    if lpn <= lba / SECTORS_PER_PAGE then Some(InBuf(mem, i))
    else PlaceAfter(f, PlaceBefore(f, mem, lba, lpn - 1, i), lpn - 1,
      if lpn - 1 == lba / SECTORS_PER_PAGE then lba % SECTORS_PER_PAGE / SECTORS_PER_CHUNK else 0, i)
  }

  /** What it holds after a page was read from chunk first on, given what it held before. */
  ghost function PlaceAfter(f: Ftl.Ftl, held: Option<Chunk>, lpn: nat, first: nat, i: nat): Option<Chunk>
    reads f
  {
    if NoneFar(f.table, lpn, first, CHUNKS_PER_PAGE) then (if first <= i then Some(f.Contents(Key(lpn, i))) else held)
    else if first <= i && LastFar(f.table, lpn, i, CHUNKS_PER_PAGE) then held
    else None
  }

  /** The places hold what can be told of them. */
  ghost predicate PlacesAsTold(f: Ftl.Ftl, mem: seq<Chunk>, lba: nat, lpn: nat, now: seq<Chunk>)
    reads f
  {
    forall i: nat {:trigger InBuf(now, i)} :: i < CHUNKS_PER_PAGE && PlaceBefore(f, mem, lba, lpn, i).Some? ==>
      InBuf(now, i) == PlaceBefore(f, mem, lba, lpn, i).value
  }

  lemma PlacesAtFirst(f: Ftl.Ftl, mem: seq<Chunk>, lba: nat)
    ensures PlacesAsTold(f, mem, lba, lba / SECTORS_PER_PAGE, mem)
  {
  }

  /** One piece of a read: its sectors as they are in the read buffer, and what it leaves in FTL_BUF(0). */
  method ReadPiece(f: Ftl.Ftl, r: PageReader, p: Piece) returns (out: seq<Sector>)
    requires f.Whole() && f.nb >= 8 && r.Shaped() && 0 < p.n && p.offset + p.n <= SECTORS_PER_PAGE
    modifies r.chunksDone, r.mem, r.temp, r.rd
    ensures |out| == p.n
    ensures NoneFar(f.table, p.lpn, p.offset / SECTORS_PER_CHUNK, (p.offset + p.n + 7) / SECTORS_PER_CHUNK) ==>
      forall j: nat {:trigger out[j]} :: j < p.n ==> out[j] == ReadsAs(f, Start(p) + j)
    ensures forall j: nat {:trigger out[j]} :: j < p.n ==>
      var i, last := (p.offset + j) / SECTORS_PER_CHUNK, (p.offset + p.n + 7) / SECTORS_PER_CHUNK;
      LastFar(f.table, p.lpn, i, last) ==>
        out[j] == Sector(old(InBuf(r.mem[..], i)), (p.offset + j) % SECTORS_PER_CHUNK)
    ensures forall j: nat {:trigger out[j]} :: j < p.n ==>
      var i, last := (p.offset + j) / SECTORS_PER_CHUNK, (p.offset + p.n + 7) / SECTORS_PER_CHUNK;
      Spared(f.table, p.lpn, i, last) ==> out[j] == ReadsAs(f, Start(p) + j)
    ensures p.offset + p.n == SECTORS_PER_PAGE ==>
      forall i: nat {:trigger InBuf(r.mem[..], i)} :: i < CHUNKS_PER_PAGE ==>
        var held := PlaceAfter(f, Some(old(InBuf(r.mem[..], i))), p.lpn, p.offset / SECTORS_PER_CHUNK, i);
        held.Some? ==> InBuf(r.mem[..], i) == held.value
  {
    hide NoneFar, LastFar, InBuf, Spared, Readable, ReadInTurn, Ftl.Ftl.Whole;
    ReadFromLogBlk(f, r, p.lpn, p.offset, p.n);
    out := r.rd[p.offset..p.offset + p.n];
    forall j: nat | j < p.n
      ensures out[j] == r.rd[p.offset + j] && ReadsAs(f, Start(p) + j) ==
        Sector(f.Contents(Key(p.lpn, (p.offset + j) / SECTORS_PER_CHUNK)), (p.offset + j) % SECTORS_PER_CHUNK)
    {
      SectorOf(p.lpn, p.offset + j);
    }
  }

  /** The first chunk after those that a request asks for in page lpn. */
  function LastAsked(lba: nat, nSects: nat, lpn: nat): nat {
    if SECTORS_PER_PAGE * (lpn + 1) <= lba + nSects then CHUNKS_PER_PAGE
    else ((lba + nSects) % SECTORS_PER_PAGE + 7) / SECTORS_PER_CHUNK
  }

  lemma LastAskedIs(lba: nat, nSects: nat, p: Piece)
    requires End(p) <= lba + nSects && 0 < p.n && p.offset + p.n <= SECTORS_PER_PAGE
    requires p.offset + p.n == SECTORS_PER_PAGE || End(p) == lba + nSects
    ensures LastAsked(lba, nSects, p.lpn) == (p.offset + p.n + 7) / SECTORS_PER_CHUNK
  {
    if p.offset + p.n < SECTORS_PER_PAGE {
      Modular.DivModUnique(lba + nSects, SECTORS_PER_PAGE, p.lpn, p.offset + p.n);
    }
  }

  lemma PlacesAfter(f: Ftl.Ftl, mem: seq<Chunk>, lba: nat, p: Piece, before: seq<Chunk>, now: seq<Chunk>)
    requires PlacesAsTold(f, mem, lba, p.lpn, before) && p.lpn >= lba / SECTORS_PER_PAGE
    requires p.offset == if p.lpn == lba / SECTORS_PER_PAGE then lba % SECTORS_PER_PAGE else 0
    requires forall i: nat {:trigger InBuf(now, i)} :: i < CHUNKS_PER_PAGE ==>
      var held := PlaceAfter(f, Some(InBuf(before, i)), p.lpn, p.offset / SECTORS_PER_CHUNK, i);
      held.Some? ==> InBuf(now, i) == held.value
    ensures PlacesAsTold(f, mem, lba, p.lpn + 1, now)
  {
    hide InBuf, NoneFar, LastFar;
    forall i: nat {:trigger InBuf(now, i)} | i < CHUNKS_PER_PAGE && PlaceBefore(f, mem, lba, p.lpn + 1, i).Some?
      ensures InBuf(now, i) == PlaceBefore(f, mem, lba, p.lpn + 1, i).value
    {
      assert InBuf(before, i) == InBuf(before, i);
    }
  }

  /** What the host gets for a sector of the last far chunk of its page: what the place of the chunk held before that
      page was read, as far as that can be told. */
  ghost predicate StaleIs(f: Ftl.Ftl, mem: seq<Chunk>, lba: nat, nSects: nat, sector: nat, got: Sector)
    reads f
  {
    var k := ChunkOfSector(sector);
    var held := PlaceBefore(f, mem, lba, k.lpn, k.idx);
    LastFar(f.table, k.lpn, k.idx, LastAsked(lba, nSects, k.lpn)) && held.Some? ==>
      got == Sector(held.value, sector % SECTORS_PER_CHUNK)
  }

  /** The sectors of one piece. */
  lemma StalePiece(f: Ftl.Ftl, mem: seq<Chunk>, lba: nat, nSects: nat, p: Piece, before: seq<Chunk>, j: nat,
      got: Sector)
    requires End(p) <= lba + nSects && 0 < p.n && p.offset + p.n <= SECTORS_PER_PAGE && j < p.n
    requires p.offset + p.n == SECTORS_PER_PAGE || End(p) == lba + nSects
    requires PlacesAsTold(f, mem, lba, p.lpn, before)
    requires var i, last := (p.offset + j) / SECTORS_PER_CHUNK, (p.offset + p.n + 7) / SECTORS_PER_CHUNK;
      LastFar(f.table, p.lpn, i, last) ==> got == Sector(InBuf(before, i), (p.offset + j) % SECTORS_PER_CHUNK)
    ensures StaleIs(f, mem, lba, nSects, Start(p) + j, got)
  {
    hide InBuf, LastFar, PlaceBefore;
    LastAskedIs(lba, nSects, p);
    SectorOf(p.lpn, p.offset + j);
    assert (p.offset + j) / SECTORS_PER_CHUNK < CHUNKS_PER_PAGE;
    var i := (p.offset + j) / SECTORS_PER_CHUNK;
    assert InBuf(before, i) == InBuf(before, i);
  }

  /** The sector's chunk is not in a far slot, and no chunk requested after it in its page is put in its place. */
  ghost predicate SparedSector(t: Table, lba: nat, nSects: nat, sector: nat) {
    var k := ChunkOfSector(sector);
    Spared(t, k.lpn, k.idx, LastAsked(lba, nSects, k.lpn))
  }

  lemma SparedPiece(t: Table, lba: nat, nSects: nat, p: Piece, j: nat)
    requires End(p) <= lba + nSects && 0 < p.n && p.offset + p.n <= SECTORS_PER_PAGE && j < p.n
    requires p.offset + p.n == SECTORS_PER_PAGE || End(p) == lba + nSects
    ensures SparedSector(t, lba, nSects, Start(p) + j) ==
      Spared(t, p.lpn, (p.offset + j) / SECTORS_PER_CHUNK, (p.offset + p.n + 7) / SECTORS_PER_CHUNK)
  {
    hide Spared;
    LastAskedIs(lba, nSects, p);
    SectorOf(p.lpn, p.offset + j);
  }

  /** What was read so far is what the sectors read as if none is in a far chunk; in any case StaleIs holds of it. */
  ghost predicate Delivered(f: Ftl.Ftl, mem: seq<Chunk>, lba: nat, nSects: nat, out: seq<Sector>)
    reads f
  {
    && (NoFarSector(f.table, lba, nSects) ==>
          forall j: nat {:trigger out[j]} :: j < |out| ==> out[j] == ReadsAs(f, lba + j))
    && (forall j: nat {:trigger out[j]} :: j < |out| && SparedSector(f.table, lba, nSects, lba + j) ==>
          out[j] == ReadsAs(f, lba + j))
    && forall j: nat {:trigger out[j]} :: j < |out| ==> StaleIs(f, mem, lba, nSects, lba + j, out[j])
  }

  lemma OnePieceMore(f: Ftl.Ftl, mem: seq<Chunk>, lba: nat, nSects: nat, out: seq<Sector>, p: Piece,
      before: seq<Chunk>, more: seq<Sector>)
    requires Delivered(f, mem, lba, nSects, out) && Start(p) == lba + |out| && |more| == p.n
    requires End(p) <= lba + nSects && 0 < p.n && p.offset + p.n <= SECTORS_PER_PAGE
    requires p.offset + p.n == SECTORS_PER_PAGE || End(p) == lba + nSects
    requires PlacesAsTold(f, mem, lba, p.lpn, before)
    requires NoneFar(f.table, p.lpn, p.offset / SECTORS_PER_CHUNK, (p.offset + p.n + 7) / SECTORS_PER_CHUNK) ==>
      forall j: nat {:trigger more[j]} :: j < p.n ==> more[j] == ReadsAs(f, Start(p) + j)
    requires forall j: nat {:trigger more[j]} :: j < p.n ==>
      var i, last := (p.offset + j) / SECTORS_PER_CHUNK, (p.offset + p.n + 7) / SECTORS_PER_CHUNK;
      LastFar(f.table, p.lpn, i, last) ==> more[j] == Sector(InBuf(before, i), (p.offset + j) % SECTORS_PER_CHUNK)
    requires forall j: nat {:trigger more[j]} :: j < p.n ==>
      var i, last := (p.offset + j) / SECTORS_PER_CHUNK, (p.offset + p.n + 7) / SECTORS_PER_CHUNK;
      Spared(f.table, p.lpn, i, last) ==> more[j] == ReadsAs(f, Start(p) + j)
    ensures Delivered(f, mem, lba, nSects, out + more)
  {
    hide NoneFar, NoFarSector, ReadsAs, StaleIs, PlacesAsTold, LastFar, InBuf, Spared, SparedSector;
    if NoFarSector(f.table, lba, nSects) {
      NoFarPiece(f.table, lba, nSects, p);
    }
    forall j: nat {:trigger (out + more)[j]} | j < |out + more|
      ensures NoFarSector(f.table, lba, nSects) ==> (out + more)[j] == ReadsAs(f, lba + j)
      ensures SparedSector(f.table, lba, nSects, lba + j) ==> (out + more)[j] == ReadsAs(f, lba + j)
      ensures StaleIs(f, mem, lba, nSects, lba + j, (out + more)[j])
    {
      if j < |out| {
        assert (out + more)[j] == out[j];
      } else {
        StalePiece(f, mem, lba, nSects, p, before, j - |out|, more[j - |out|]);
        SparedPiece(f.table, lba, nSects, p, j - |out|);
      }
    }
  }

  /** A host read. The host gets the requested sectors in order, each as it was last written if its chunk is spared,
      all of them when none is part of a chunk in a far slot of an encoded page. The last far chunk of a page brings
      what its place in FTL_BUF(0) held before: in the first page what was there at first, later what the page before
      left there. */
  method HostRead(f: Ftl.Ftl, q: Requests, r: PageReader, lba: nat, nSects: nat) returns (out: seq<Sector>)
    requires f.Whole() && f.nb >= 8 && r.Shaped() && q.readBufId < q.numRd
    requires lba % SECTORS_PER_PAGE + nSects < AddressCodec.U32
    modifies q`readBufId, r.chunksDone, r.mem, r.temp, r.rd
    ensures |out| == nSects
    ensures NoFarSector(f.table, lba, nSects) ==>
      forall j: nat {:trigger out[j]} :: j < nSects ==> out[j] == ReadsAs(f, lba + j)
    ensures forall j: nat {:trigger out[j]} :: j < nSects && SparedSector(f.table, lba, nSects, lba + j) ==>
      out[j] == ReadsAs(f, lba + j)
    ensures forall j: nat {:trigger out[j]} :: j < nSects ==>
      StaleIs(f, old(r.mem[..]), lba, nSects, lba + j, out[j])
  {
    hide Tiles, NoneFar, NoFarSector, Ftl.Ftl.Whole, ReadsAs, StaleIs, PlacesAsTold, PlaceAfter, LastFar, InBuf,
      SparedSector, Spared;
    var pieces := q.FtlRead(lba, nSects);
    out := [];
    ghost var next, mem := lba, r.mem[..];
    PlacesAtFirst(f, mem, lba);
    for i := 0 to |pieces|
      invariant r.Shaped() && unchanged(f) && next == lba + |out| && next <= lba + nSects
      invariant next == if i == 0 then lba else End(pieces[i - 1])
      invariant i < |pieces| ==> PlacesAsTold(f, mem, lba, lba / SECTORS_PER_PAGE + i, r.mem[..])
      invariant Delivered(f, mem, lba, nSects, out)
    {
      ghost var before := r.mem[..];
      var p := pieces[i];
      TilesJoin(pieces, lba, lba + nSects, i);
      TilesWithin(pieces, lba, lba + nSects, i);
      var more := ReadPiece(f, r, p);
      OnePieceMore(f, mem, lba, nSects, out, p, before, more);
      if i + 1 < |pieces| {
        PlacesAfter(f, mem, lba, p, before, r.mem[..]);
      }
      out := out + more;
      next := End(p);
    }
    if |pieces| > 0 {
      TilesJoin(pieces, lba, lba + nSects, |pieces| - 1);
    } else {
      NoPiecesNoSectors(lba, lba + nSects);
    }
  }

  lemma {:induction false} TilesWithin(pieces: seq<Piece>, from: nat, to: nat, i: nat)
    requires Tiles(pieces, from, to) && i < |pieces|
    ensures from <= Start(pieces[i]) && End(pieces[i]) <= to
  {
    var last := |pieces| - 1;
    if i < last {
      TilesWithin(pieces[..last], from, Start(pieces[last]), i);
    } else if last > 0 {
      TilesWithin(pieces[..last], from, Start(pieces[last]), last - 1);
    }
  }

  lemma NoPiecesNoSectors(from: nat, to: nat)
    requires Tiles([], from, to)
    ensures from == to
  {
  }
}
