/** Reading a logical page: the chunks that share a flash page are read together. */
module ReadPath {
  import opened BankState
  import opened DeviceSteps
  import Ftl

  /** Every mapped chunk is in a bank of the device, at one of the eight offsets of a flash page. */
  ghost predicate Readable(t: Table, banks: seq<Bank>) {
    forall k: Key {:trigger Look(t, k)} :: Look(t, k) != Invalid ==>
      Look(t, k).bank < |banks| && (Look(t, k).Flash? ==> Look(t, k).chunk < CHUNKS_PER_PAGE)
  }

  /** One sector of a chunk. */
  datatype Sector = Sector(chunk: Chunk, offset: nat)

  /** chunksInSameFlashPage, for two chunks that are both plain or both encoded. */
  predicate SamePage(l: Loc, m: Loc) {
    l.Flash? && m.Flash? && l.encoded == m.encoded && l.bank == m.bank && l.lbn == m.lbn && l.page == m.page
  }

  /** The chunks of lpn after i and below n that are in the flash page of chunk i. */
  function Mates(t: Table, lpn: nat, i: nat, n: nat): (r: seq<nat>)
    ensures forall j: nat :: j in r <==> i < j < n && SamePage(Look(t, Key(lpn, i)), Look(t, Key(lpn, j)))
    decreases n
  {
    if n <= i + 1 then []
    else Mates(t, lpn, i, n - 1) + if SamePage(Look(t, Key(lpn, i)), Look(t, Key(lpn, n - 1))) then [n - 1] else []
  }

  /** Chunk i is the first of more than three requested chunks in one encoded page. */
  predicate Crowded(t: Table, lpn: nat, i: nat, n: nat) {
    Look(t, Key(lpn, i)).Flash? && Look(t, Key(lpn, i)).encoded && 1 + |Mates(t, lpn, i, n)| > 3
  }

  /** A later chunk of the same page has no more mates after it. */
  lemma {:induction false} FewerMates(t: Table, lpn: nat, i: nat, j: nat, n: nat)
    requires i <= j && SamePage(Look(t, Key(lpn, i)), Look(t, Key(lpn, j)))
    ensures |Mates(t, lpn, j, n)| <= |Mates(t, lpn, i, n)|
  {
    if n > j + 1 {
      FewerMates(t, lpn, i, j, n - 1);
    }
  }

  /** A page that is not crowded at its first chunk is not crowded at a later one. */
  lemma MatesCrowd(t: Table, lpn: nat, i: nat, n: nat)
    ensures forall j: nat {:trigger Crowded(t, lpn, j, n)} ::
      j in Mates(t, lpn, i, n) && Crowded(t, lpn, j, n) ==> Crowded(t, lpn, i, n)
    ensures Crowded(t, lpn, i, n) ==> Look(t, Key(lpn, i)).Flash? && Look(t, Key(lpn, i)).encoded
  {
    forall j: nat | j in Mates(t, lpn, i, n) && Crowded(t, lpn, j, n)
      ensures Crowded(t, lpn, i, n)
    {
      FewerMates(t, lpn, i, j, n);
    }
  }

  lemma {:induction false} MatesOfFirst(t: Table, lpn: nat, i: nat, n: nat)
    requires forall j: nat :: i < j < n ==> !SamePage(Look(t, Key(lpn, i)), Look(t, Key(lpn, j)))
    ensures |Mates(t, lpn, i, n)| == 0
  {
    if n > i + 1 {
      MatesOfFirst(t, lpn, i, n - 1);
    }
  }

  /** Chunk i is the only requested one of an encoded page, in a slot other than the first: it is fetched alone. */
  ghost predicate Stray(t: Table, lpn: nat, i: nat, first: nat, last: nat) {
    && Look(t, Key(lpn, i)).Flash? && Look(t, Key(lpn, i)).encoded && Look(t, Key(lpn, i)).chunk != 0
    && forall j: nat {:trigger Key(lpn, j)} ::
         first <= j < last && j != i ==> !SamePage(Look(t, Key(lpn, i)), Look(t, Key(lpn, j)))
  }

  // ---------- One chunk of an encoded page ----------

  /** Where FTL_BUF(0) starts, in chunks, when DRAM is taken from one page before it: COPY_BUF ends there. */
  const FTL_BUF: nat := 8

  /** DRAM after readOneChunkEncoded. The chunk arrives in TEMP_BUF at its offset in the flash page; then the first
      chunk of TEMP_BUF, whatever it is, is copied as far before the place of chunk idx as that offset. */
  function EncodedFetched(mem: seq<Chunk>, temp: seq<Chunk>, page: Page, idx: nat, slot: nat): seq<Chunk>
    requires |mem| == FTL_BUF + CHUNKS_PER_PAGE && |temp| == CHUNKS_PER_PAGE && idx < CHUNKS_PER_PAGE &&
      slot < CHUNKS_PER_PAGE
  {
    mem[FTL_BUF + idx - slot := temp[slot := ChunkOf(page, slot)][0]]
  }

  /** So the place of chunk idx gets the chunk, whatever was in DRAM, exactly when the chunk is the page's first. */
  lemma EncodedFetchRight(idx: nat, slot: nat)
    requires idx < CHUNKS_PER_PAGE && slot < CHUNKS_PER_PAGE
    ensures (forall mem: seq<Chunk>, temp: seq<Chunk>, page: Page ::
               |mem| == FTL_BUF + CHUNKS_PER_PAGE && |temp| == CHUNKS_PER_PAGE ==>
                 EncodedFetched(mem, temp, page, idx, slot)[FTL_BUF + idx] == ChunkOf(page, slot)) <==> slot == 0
  {
    if slot != 0 {
      EncodedFetchWrong(idx, slot);
    }
  }

  /** A chunk in any other slot is missed: it leaves a place that held nothing as it was. */
  lemma EncodedFetchWrong(idx: nat, slot: nat)
    requires idx < CHUNKS_PER_PAGE && 0 < slot < CHUNKS_PER_PAGE
    ensures var mem, temp := seq(FTL_BUF + CHUNKS_PER_PAGE, _ => AllOnes), seq(CHUNKS_PER_PAGE, _ => AllOnes);
      var page := Programmed(seq(CHUNKS_PER_PAGE, _ => Data([1])));
      EncodedFetched(mem, temp, page, idx, slot)[FTL_BUF + idx] == AllOnes && ChunkOf(page, slot) == Data([1])
  {
  }

  /** With eight banks no page is ever crowded, so the encoded read never stops. */
  lemma NeverCrowded(nb: nat, t: Table, lpn: nat, i: nat, n: nat)
    requires nb >= 8 && Affine(nb, t) && n <= CHUNKS_PER_PAGE
    ensures !Crowded(t, lpn, i, n)
  {
    forall j: nat | i < j < n
      ensures !SamePage(Look(t, Key(lpn, i)), Look(t, Key(lpn, j)))
    {
      if Look(t, Key(lpn, i)) != Invalid && Look(t, Key(lpn, j)) != Invalid {
        ChunksApart(nb, t, lpn, i, j);
      }
    }
    MatesOfFirst(t, lpn, i, n);
  }

  /** Chunk i is in a slot other than the first of an encoded page. */
  predicate Far(t: Table, lpn: nat, i: nat) {
    Look(t, Key(lpn, i)).Flash? && Look(t, Key(lpn, i)).encoded && Look(t, Key(lpn, i)).chunk != 0
  }

  /** Chunk i is in a far slot, and no later chunk below n is. */
  ghost predicate LastFar(t: Table, lpn: nat, i: nat, n: nat) {
    Far(t, lpn, i) && forall j: nat {:trigger Far(t, lpn, j)} :: i < j < n ==> !Far(t, lpn, j)
  }

  predicate NoneFar(t: Table, lpn: nat, first: nat, n: nat) {
    forall i: nat {:trigger Far(t, lpn, i)} :: first <= i < n ==> !Far(t, lpn, i)
  }

  /** With eight banks every chunk of an encoded page is fetched alone. */
  lemma FarIsStray(nb: nat, t: Table, lpn: nat, first: nat, last: nat)
    requires nb >= 8 && Affine(nb, t) && last <= CHUNKS_PER_PAGE
    ensures forall i: nat {:trigger Stray(t, lpn, i, first, last)} {:trigger Far(t, lpn, i)} ::
      first <= i < last ==> (Stray(t, lpn, i, first, last) <==> Far(t, lpn, i))
  {
    forall i: nat, j: nat | first <= i < last && first <= j < last && i != j
      ensures !SamePage(Look(t, Key(lpn, i)), Look(t, Key(lpn, j)))
    {
      if Look(t, Key(lpn, i)) != Invalid && Look(t, Key(lpn, j)) != Invalid {
        ChunksApart(nb, t, lpn, if i < j then i else j, if i < j then j else i);
      }
    }
  }

  /** Chunk i is stray, and none from it up to n is. */
  ghost predicate LastStray(t: Table, lpn: nat, i: nat, first: nat, n: nat, last: nat) {
    Stray(t, lpn, i, first, last) && forall j: nat {:trigger Stray(t, lpn, j, first, last)} ::
      i < j < n ==> !Stray(t, lpn, j, first, last)
  }

  lemma MatesNotStray(t: Table, lpn: nat, i: nat, first: nat, last: nat)
    requires first <= i < last
    ensures forall j: nat {:trigger Stray(t, lpn, j, first, last)} ::
      j in Mates(t, lpn, i, last) ==> !Stray(t, lpn, j, first, last)
  {
    assert Key(lpn, i).lpn == lpn;
  }

  lemma {:induction false} NoMates(t: Table, lpn: nat, i: nat, n: nat)
    ensures |Mates(t, lpn, i, n)| == 0 <==> forall j: nat {:trigger Key(lpn, j)} ::
      i < j < n ==> !SamePage(Look(t, Key(lpn, i)), Look(t, Key(lpn, j)))
  {
    var mates := Mates(t, lpn, i, n);
    if |mates| > 0 {
      assert mates[0] in mates && Key(lpn, mates[0]).lpn == lpn;
    }
    if j: nat :| i < j < n && SamePage(Look(t, Key(lpn, i)), Look(t, Key(lpn, j))) {
      assert j in mates;
    }
  }

  /** The map of a consistent device names only places that exist. */
  lemma WholeReadable(f: Ftl.Ftl)
    requires f.Whole()
    ensures Readable(f.table, f.banks)
  {
    hide Inv;
    forall k: Key {:trigger Look(f.table, k)} | Look(f.table, k) != Invalid
      ensures Look(f.table, k).bank < |f.banks| &&
        (Look(f.table, k).Flash? ==> Look(f.table, k).chunk < CHUNKS_PER_PAGE)
    {
      var b := Home(f.nb, k);
      assert Look(f.table, k).bank == b && Inv(f.blks, b, f.table, f.banks[b]);
      if Look(f.table, k).Flash? {
        PlacedChunk(f.blks, b, f.table, f.banks[b], k);
      }
    }
  }

  lemma PlacedChunk(blks: nat, b: nat, t: Table, s: Bank, k: Key)
    requires Inv(blks, b, t, s) && OfBank(Look(t, k), b) && Look(t, k).Flash?
    ensures Look(t, k).chunk < CHUNKS_PER_PAGE
  {
    assert Placed(blks, s, k, Look(t, k));
  }

  // ---------- Chunks that share no flash page, read in turn ----------

  /** The part of DRAM the read path works on: COPY_BUF's last page with FTL_BUF(0), and TEMP_BUF. */
  datatype Buffers = Buffers(mem: seq<Chunk>, temp: seq<Chunk>)

  predicate Sized(r: Buffers) {
    |r.mem| == FTL_BUF + CHUNKS_PER_PAGE && |r.temp| == CHUNKS_PER_PAGE
  }

  /** Chunk idx is read alone. */
  function OneRead(t: Table, banks: seq<Bank>, lpn: nat, idx: nat, r: Buffers): (q: Buffers)
    requires Sized(r) && idx < CHUNKS_PER_PAGE && Readable(t, banks)
    ensures Sized(q)
  {
    var l := Look(t, Key(lpn, idx));
    if l.Flash? && l.encoded then
      var page := PageAt(banks[l.bank].flash, l.lbn, l.page);
      Buffers(EncodedFetched(r.mem, r.temp, page, idx, l.chunk), r.temp[l.chunk := ChunkOf(page, l.chunk)])
    else Buffers(r.mem[FTL_BUF + idx := Resolve(t, banks, Key(lpn, idx))], r.temp)
  }

  lemma OneReadPlain(t: Table, banks: seq<Bank>, lpn: nat, idx: nat, r: Buffers)
    requires Sized(r) && idx < CHUNKS_PER_PAGE && Readable(t, banks) && !Look(t, Key(lpn, idx)).Flash?
    ensures OneRead(t, banks, lpn, idx, r) == Buffers(r.mem[FTL_BUF + idx := Resolve(t, banks, Key(lpn, idx))], r.temp)
  {
  }

  /** The chunks from first up to n, one after the other. */
  function ReadInTurn(t: Table, banks: seq<Bank>, lpn: nat, first: nat, n: nat, r: Buffers): (q: Buffers)
    requires Sized(r) && n <= CHUNKS_PER_PAGE && Readable(t, banks)
    ensures Sized(q)
  {
    if n <= first then r else OneRead(t, banks, lpn, n - 1, ReadInTurn(t, banks, lpn, first, n - 1, r))
  }

  /** No two of the chunks from first up to last share a flash page. */
  ghost predicate Apart(t: Table, lpn: nat, first: nat, last: nat) {
    forall i: nat, j: nat {:trigger Key(lpn, i), Key(lpn, j)} :: first <= i < j < last ==>
      !SamePage(Look(t, Key(lpn, i)), Look(t, Key(lpn, j)))
  }

  /** The fetch of chunk j goes wrong and is put in the place of chunk i. */
  predicate Hits(t: Table, lpn: nat, j: nat, i: nat) {
    Far(t, lpn, j) && i + Look(t, Key(lpn, j)).chunk == j
  }

  /** Chunk i is not in a far slot, and no chunk after it, up to n, is put in its place. */
  predicate Spared(t: Table, lpn: nat, i: nat, n: nat) {
    !Far(t, lpn, i) && forall j: nat {:trigger Hits(t, lpn, j, i)} :: i < j < n ==> !Hits(t, lpn, j, i)
  }

  /** A spared chunk comes back, whatever was in DRAM and whatever happens to the others. */
  lemma {:induction false} SparedRead(t: Table, banks: seq<Bank>, lpn: nat, first: nat, n: nat, r: Buffers, i: nat)
    requires Sized(r) && first <= i < n <= CHUNKS_PER_PAGE && Readable(t, banks) && Spared(t, lpn, i, n)
    ensures InBuf(ReadInTurn(t, banks, lpn, first, n, r).mem, i) == Resolve(t, banks, Key(lpn, i))
  {
    hide Hits;
    if i < n - 1 {
      SparedRead(t, banks, lpn, first, n - 1, r, i);
      assert !Hits(t, lpn, n - 1, i);
      OtherPlace(t, banks, lpn, n - 1, ReadInTurn(t, banks, lpn, first, n - 1, r), i);
    }
  }

  lemma OtherPlace(t: Table, banks: seq<Bank>, lpn: nat, idx: nat, r: Buffers, i: nat)
    requires Sized(r) && i < idx < CHUNKS_PER_PAGE && Readable(t, banks) && !Hits(t, lpn, idx, i)
    ensures InBuf(OneRead(t, banks, lpn, idx, r).mem, i) == InBuf(r.mem, i)
  {
  }

  /** With eight banks no two chunks of a logical page share a flash page. */
  lemma ApartByBanks(nb: nat, t: Table, lpn: nat, first: nat, last: nat)
    requires nb >= 8 && Affine(nb, t) && last <= CHUNKS_PER_PAGE
    ensures Apart(t, lpn, first, last)
  {
    forall i: nat, j: nat {:trigger Key(lpn, i), Key(lpn, j)} | first <= i < j < last
      ensures !SamePage(Look(t, Key(lpn, i)), Look(t, Key(lpn, j)))
    {
      if Look(t, Key(lpn, i)) != Invalid && Look(t, Key(lpn, j)) != Invalid {
        ChunksApart(nb, t, lpn, i, j);
      }
    }
  }

  lemma ApartMates(t: Table, lpn: nat, first: nat, idx: nat, last: nat)
    requires first <= idx < last
    ensures Apart(t, lpn, first, last) || !Look(t, Key(lpn, idx)).Flash? ==> |Mates(t, lpn, idx, last)| == 0
  {
    if Apart(t, lpn, first, last) || !Look(t, Key(lpn, idx)).Flash? {
      MatesOfFirst(t, lpn, idx, last);
    }
  }

  /** What TEMP_BUF begins with when chunk n comes to be read: the last chunk before it that is the first of an encoded
      page, or what was there. */
  function TempHead(t: Table, banks: seq<Bank>, lpn: nat, first: nat, n: nat, before: Chunk): Chunk {
    if n <= first then before
    else
      var l := Look(t, Key(lpn, n - 1));
      if l.Flash? && l.encoded && l.chunk == 0 then Resolve(t, banks, Key(lpn, n - 1))
      else TempHead(t, banks, lpn, first, n - 1, before)
  }

  lemma {:induction false} TempInTurn(t: Table, banks: seq<Bank>, lpn: nat, first: nat, n: nat, r: Buffers)
    requires Sized(r) && n <= CHUNKS_PER_PAGE && Readable(t, banks)
    ensures ReadInTurn(t, banks, lpn, first, n, r).temp[0] == TempHead(t, banks, lpn, first, n, r.temp[0])
  {
    if n > first {
      TempInTurn(t, banks, lpn, first, n - 1, r);
      assert Look(t, Key(lpn, n - 1)) != Invalid ==> Look(t, Key(lpn, n - 1)).bank < |banks|;
    }
  }

  /** A chunk that is not spared: its place gets the head of TEMP_BUF when the last chunk that hits it is read; and if
      none does, which leaves that it is in a far slot itself, its place is as it was. */
  lemma {:induction false} NotSparedRead(t: Table, banks: seq<Bank>, lpn: nat, first: nat, n: nat, r: Buffers, i: nat)
    requires Sized(r) && first <= i < n <= CHUNKS_PER_PAGE && Readable(t, banks) && !Spared(t, lpn, i, n)
    ensures InBuf(ReadInTurn(t, banks, lpn, first, n, r).mem, i) ==
      if exists j: nat {:trigger Hits(t, lpn, j, i)} :: i < j < n && Hits(t, lpn, j, i)
      then TempHead(t, banks, lpn, first, LastHit(t, lpn, i, n), r.temp[0]) else InBuf(r.mem, i)
  {
    hide Readable, Resolve;
    var last := ReadInTurn(t, banks, lpn, first, n - 1, r);
    TempInTurn(t, banks, lpn, first, n - 1, r);
    if i == n - 1 {
      BeforeTurn(t, banks, lpn, first, i, r, i);
      assert !exists j: nat {:trigger Hits(t, lpn, j, i)} :: i < j < n && Hits(t, lpn, j, i);
    } else if !Hits(t, lpn, n - 1, i) {
      assert Spared(t, lpn, i, n - 1) ==> Spared(t, lpn, i, n);
      NotSparedRead(t, banks, lpn, first, n - 1, r, i);
      assert InBuf(ReadInTurn(t, banks, lpn, first, n, r).mem, i) == InBuf(last.mem, i);
    }
  }

  /** The last chunk below n that hits the place of chunk i, or i. */
  function LastHit(t: Table, lpn: nat, i: nat, n: nat): nat {
    if n <= i + 1 then i else if Hits(t, lpn, n - 1, i) then n - 1 else LastHit(t, lpn, i, n - 1)
  }

  /** Until its turn comes the place of a chunk is as it was. */
  lemma {:induction false} BeforeTurn(t: Table, banks: seq<Bank>, lpn: nat, first: nat, n: nat, r: Buffers, i: nat)
    requires Sized(r) && n <= i < CHUNKS_PER_PAGE && Readable(t, banks)
    ensures InBuf(ReadInTurn(t, banks, lpn, first, n, r).mem, i) == InBuf(r.mem, i)
  {
    hide Readable, Resolve;
    if n > first {
      BeforeTurn(t, banks, lpn, first, n - 1, r, i);
    }
  }

  // ---------- Which chunks are done ----------

  /** While chunk idx is next: all before it are done; chunks of one encoded page are done together, and then the page
      is not crowded. */
  ghost predicate Together(t: Table, lpn: nat, first: nat, idx: nat, last: nat, done: seq<bool>) {
    && |done| == CHUNKS_PER_PAGE >= last
    && (forall i: nat, j: nat {:trigger done[i], done[j]} :: first <= i < last && first <= j < last ==>
          Look(t, Key(lpn, i)).Flash? && Look(t, Key(lpn, i)).encoded &&
            SamePage(Look(t, Key(lpn, i)), Look(t, Key(lpn, j))) ==>
            done[i] == done[j])
    && (forall i: nat {:trigger Crowded(t, lpn, i, last)} {:trigger done[i]} ::
         idx <= i < last && done[i] ==> !Crowded(t, lpn, i, last))
    && (forall i: nat {:trigger done[i]} :: first <= i < idx && i < last ==> done[i])
  }

  /** Chunk idx was read, with some of its mates: all of them if its page is encoded. */
  lemma TogetherStep(t: Table, lpn: nat, first: nat, idx: nat, last: nat, before: seq<bool>, after: seq<bool>)
    requires Together(t, lpn, first, idx, last, before) && first <= idx < last && !before[idx]
    requires |after| == CHUNKS_PER_PAGE && !Crowded(t, lpn, idx, last)
    requires forall j: nat {:trigger after[j]} :: j < CHUNKS_PER_PAGE ==>
      (if before[j] || j == idx then after[j] else after[j] ==> j in Mates(t, lpn, idx, last))
    requires Look(t, Key(lpn, idx)).Flash? && Look(t, Key(lpn, idx)).encoded ==> forall j: nat ::
      j in Mates(t, lpn, idx, last) ==> after[j]
    ensures Together(t, lpn, first, idx + 1, last, after)
  {
    hide Crowded;
    MatesCrowd(t, lpn, idx, last);
  }

  lemma MatesUndone(t: Table, lpn: nat, first: nat, idx: nat, last: nat, done: seq<bool>)
    requires Together(t, lpn, first, idx, last, done) && first <= idx < last && !done[idx]
    ensures Look(t, Key(lpn, idx)).Flash? && Look(t, Key(lpn, idx)).encoded ==> forall j: nat ::
      j in Mates(t, lpn, idx, last) ==> !done[j]
  {
  }

  /** Only chunk idx, of an encoded page, is stray when it comes to be read and has no mates. */
  lemma StrayNow(t: Table, lpn: nat, first: nat, idx: nat, last: nat, done: seq<bool>)
    requires Together(t, lpn, first, idx, last, done) && first <= idx < last && !done[idx]
    ensures Stray(t, lpn, idx, first, last) <==> Far(t, lpn, idx) && |Mates(t, lpn, idx, last)| == 0
  {
    NoMates(t, lpn, idx, last);
    if Far(t, lpn, idx) && |Mates(t, lpn, idx, last)| == 0 {
      forall j: nat {:trigger Key(lpn, j)} | first <= j < last && j != idx
        ensures !SamePage(Look(t, Key(lpn, idx)), Look(t, Key(lpn, j)))
      {
        assert j < idx ==> done[j] != done[idx];
      }
    }
  }

  // ---------- What reading one chunk does ----------

  /** The place of chunk i in FTL_BUF(0). */
  function InBuf(mem: seq<Chunk>, i: nat): Chunk {
    if FTL_BUF + i < |mem| then mem[FTL_BUF + i] else AllOnes
  }

  /** It went wrong: one place before that of chunk idx changed, and that of idx did not. */
  ghost predicate Missed(idx: nat, done0: seq<bool>, mem0: seq<Chunk>, done1: seq<bool>, mem1: seq<Chunk>)
    requires |done0| == |done1| == CHUNKS_PER_PAGE
  {
    && (forall j: nat {:trigger InBuf(mem1, j)} :: idx <= j < CHUNKS_PER_PAGE ==> InBuf(mem1, j) == InBuf(mem0, j))
    && forall j: nat {:trigger done1[j]} :: j < CHUNKS_PER_PAGE ==> done1[j] == (done0[j] || j == idx)
  }

  /** It went well: the chunks now done, idx among them, are in their places, and nothing else changed. */
  ghost predicate Fetched(t: Table, banks: seq<Bank>, lpn: nat, idx: nat, last: nat,
      done0: seq<bool>, mem0: seq<Chunk>, done1: seq<bool>, mem1: seq<Chunk>)
    requires |done0| == |done1| == CHUNKS_PER_PAGE > idx && |mem0| == |mem1| == FTL_BUF + CHUNKS_PER_PAGE
  {
    && mem1[..FTL_BUF] == mem0[..FTL_BUF] && done1[idx]
    && (forall j: nat {:trigger done1[j]} :: j < CHUNKS_PER_PAGE ==>
         (done0[j] ==> done1[j]) && (done1[j] && !done0[j] ==> j == idx || j in Mates(t, lpn, idx, last)))
    && forall j: nat {:trigger InBuf(mem1, j)} :: j < CHUNKS_PER_PAGE ==>
         InBuf(mem1, j) == if j == idx || (done1[j] && !done0[j]) then Resolve(t, banks, Key(lpn, j))
           else InBuf(mem0, j)
  }

  // ---------- The read so far, when chunk idx is next ----------

  /** Only requested chunks are done; those done ahead of their turn are not stray. */
  ghost predicate DoneSoFar(t: Table, lpn: nat, first: nat, idx: nat, last: nat, done: seq<bool>)
    requires |done| == CHUNKS_PER_PAGE
  {
    forall i: nat {:trigger done[i]} :: i < CHUNKS_PER_PAGE && done[i] ==>
      first <= i < last && (idx <= i ==> !Stray(t, lpn, i, first, last))
  }

  ghost predicate NoneStray(t: Table, lpn: nat, first: nat, n: nat, last: nat) {
    forall i: nat {:trigger Stray(t, lpn, i, first, last)} :: first <= i < n ==> !Stray(t, lpn, i, first, last)
  }

  /** The chunks that are done are in their places; DRAM held before at first. */
  ghost predicate RightSoFar(t: Table, banks: seq<Bank>, lpn: nat, before: seq<Chunk>, done: seq<bool>, mem: seq<Chunk>)
    requires |done| == CHUNKS_PER_PAGE && |before| == |mem| == FTL_BUF + CHUNKS_PER_PAGE
  {
    && mem[..FTL_BUF] == before[..FTL_BUF]
    && forall i: nat {:trigger InBuf(mem, i)} :: i < CHUNKS_PER_PAGE ==>
         InBuf(mem, i) == if done[i] then Resolve(t, banks, Key(lpn, i)) else InBuf(before, i)
  }

  /** The places of chunks to come are as they were. */
  ghost predicate AheadKept(idx: nat, before: seq<Chunk>, done: seq<bool>, mem: seq<Chunk>)
    requires |done| == CHUNKS_PER_PAGE
  {
    forall i: nat {:trigger InBuf(mem, i)} ::
      idx <= i < CHUNKS_PER_PAGE && !done[i] ==> InBuf(mem, i) == InBuf(before, i)
  }

  /** The place of the last stray chunk so far is as it was. */
  ghost predicate StrayKept(t: Table, lpn: nat, first: nat, idx: nat, last: nat, before: seq<Chunk>, mem: seq<Chunk>) {
    forall i: nat {:trigger InBuf(mem, i)} ::
      first <= i < idx && i < CHUNKS_PER_PAGE && LastStray(t, lpn, i, first, idx, last) ==>
      InBuf(mem, i) == InBuf(before, i)
  }

  ghost predicate ReadSoFar(t: Table, banks: seq<Bank>, lpn: nat, first: nat, idx: nat, last: nat,
      before: seq<Chunk>, done: seq<bool>, mem: seq<Chunk>)
    requires |done| == CHUNKS_PER_PAGE && |before| == |mem| == FTL_BUF + CHUNKS_PER_PAGE
  {
    && DoneSoFar(t, lpn, first, idx, last, done) && Together(t, lpn, first, idx, last, done)
    && (NoneStray(t, lpn, first, idx, last) ==> RightSoFar(t, banks, lpn, before, done, mem))
    && AheadKept(idx, before, done, mem) && StrayKept(t, lpn, first, idx, last, before, mem)
  }

  lemma TogetherSoFar(t: Table, banks: seq<Bank>, lpn: nat, first: nat, idx: nat, last: nat, before: seq<Chunk>,
      done: seq<bool>, mem: seq<Chunk>)
    requires |done| == CHUNKS_PER_PAGE && |before| == |mem| == FTL_BUF + CHUNKS_PER_PAGE
    requires ReadSoFar(t, banks, lpn, first, idx, last, before, done, mem)
    ensures Together(t, lpn, first, idx, last, done)
  {
  }

  lemma StrayKeptPast(t: Table, lpn: nat, first: nat, idx: nat, last: nat, before: seq<Chunk>,
      mem0: seq<Chunk>, mem1: seq<Chunk>)
    requires StrayKept(t, lpn, first, idx, last, before, mem0) && !Stray(t, lpn, idx, first, last) &&
      idx < CHUNKS_PER_PAGE
    requires forall i: nat {:trigger InBuf(mem1, i)} :: first <= i < idx ==> InBuf(mem1, i) == InBuf(mem0, i)
    ensures StrayKept(t, lpn, first, idx + 1, last, before, mem1)
  {
    hide Stray, InBuf;
  }

  lemma StrayKeptAt(t: Table, lpn: nat, first: nat, idx: nat, last: nat, before: seq<Chunk>, mem: seq<Chunk>)
    requires Stray(t, lpn, idx, first, last) && InBuf(mem, idx) == InBuf(before, idx)
    ensures StrayKept(t, lpn, first, idx + 1, last, before, mem)
  {
    hide Stray, InBuf;
  }

  lemma FetchedStep(t: Table, banks: seq<Bank>, lpn: nat, first: nat, idx: nat, last: nat, before: seq<Chunk>,
      done0: seq<bool>, mem0: seq<Chunk>, done1: seq<bool>, mem1: seq<Chunk>)
    requires |done0| == |done1| == CHUNKS_PER_PAGE && |before| == |mem0| == |mem1| == FTL_BUF + CHUNKS_PER_PAGE
    requires first <= idx < last <= CHUNKS_PER_PAGE && !done0[idx] && !Stray(t, lpn, idx, first, last)
    requires ReadSoFar(t, banks, lpn, first, idx, last, before, done0, mem0)
    requires Fetched(t, banks, lpn, idx, last, done0, mem0, done1, mem1) &&
      Together(t, lpn, first, idx + 1, last, done1)
    ensures ReadSoFar(t, banks, lpn, first, idx + 1, last, before, done1, mem1)
  {
    hide Resolve, Stray, SamePage, Crowded, InBuf, StrayKept;
    MatesNotStray(t, lpn, idx, first, last);
    DoneBefore(t, lpn, first, idx, last, done0);
    hide Together;
    StrayKeptPast(t, lpn, first, idx, last, before, mem0, mem1);
    assert NoneStray(t, lpn, first, idx + 1, last) ==> NoneStray(t, lpn, first, idx, last);
  }

  lemma DoneBefore(t: Table, lpn: nat, first: nat, idx: nat, last: nat, done: seq<bool>)
    requires Together(t, lpn, first, idx, last, done) && idx <= last
    ensures forall i: nat {:trigger done[i]} :: first <= i < idx ==> done[i]
  {
  }

  lemma MissedStep(t: Table, banks: seq<Bank>, lpn: nat, first: nat, idx: nat, last: nat, before: seq<Chunk>,
      done0: seq<bool>, mem0: seq<Chunk>, done1: seq<bool>, mem1: seq<Chunk>)
    requires |done0| == |done1| == CHUNKS_PER_PAGE && |before| == |mem0| == |mem1| == FTL_BUF + CHUNKS_PER_PAGE
    requires first <= idx < last <= CHUNKS_PER_PAGE && !done0[idx] && Stray(t, lpn, idx, first, last)
    requires ReadSoFar(t, banks, lpn, first, idx, last, before, done0, mem0)
    requires Missed(idx, done0, mem0, done1, mem1) && Together(t, lpn, first, idx + 1, last, done1)
    ensures ReadSoFar(t, banks, lpn, first, idx + 1, last, before, done1, mem1)
  {
    hide Resolve, Stray, SamePage, Crowded, InBuf, StrayKept, RightSoFar, Together;
    assert InBuf(mem1, idx) == InBuf(before, idx);
    StrayKeptAt(t, lpn, first, idx, last, before, mem1);
    assert !NoneStray(t, lpn, first, idx + 1, last);
  }

  /** A chunk whose turn comes when it is done already. */
  lemma AlreadyRead(t: Table, banks: seq<Bank>, lpn: nat, first: nat, idx: nat, last: nat, before: seq<Chunk>,
      done: seq<bool>, mem: seq<Chunk>)
    requires |done| == CHUNKS_PER_PAGE && |before| == |mem| == FTL_BUF + CHUNKS_PER_PAGE
    requires first <= idx < last <= CHUNKS_PER_PAGE && done[idx]
    requires ReadSoFar(t, banks, lpn, first, idx, last, before, done, mem)
    ensures ReadSoFar(t, banks, lpn, first, idx + 1, last, before, done, mem) && !Crowded(t, lpn, idx, last)
  {
    hide Resolve, Stray, Crowded, SamePage, InBuf, StrayKept, RightSoFar;
    assert !Stray(t, lpn, idx, first, last);
    StrayKeptPast(t, lpn, first, idx, last, before, mem, mem);
    assert NoneStray(t, lpn, first, idx + 1, last) ==> NoneStray(t, lpn, first, idx, last);
  }

  lemma ReadStart(t: Table, banks: seq<Bank>, lpn: nat, first: nat, last: nat, done: seq<bool>, mem: seq<Chunk>)
    requires |done| == CHUNKS_PER_PAGE >= last && |mem| == FTL_BUF + CHUNKS_PER_PAGE
    requires forall j: nat :: j < CHUNKS_PER_PAGE ==> !done[j]
    ensures ReadSoFar(t, banks, lpn, first, first, last, mem, done, mem)
  {
    hide Resolve, Stray, Crowded, SamePage, InBuf;
  }

  /** The read at its end. When no requested chunk is stray, every one of them got what it reads as and nothing else
      changed; and the place of the last stray one was left as it was. */
  ghost predicate ReadOutcome(t: Table, banks: seq<Bank>, lpn: nat, first: nat, last: nat, before: seq<Chunk>,
      mem: seq<Chunk>)
    requires |before| == |mem| == FTL_BUF + CHUNKS_PER_PAGE
  {
    && (NoneStray(t, lpn, first, last, last) ==>
          && mem[..FTL_BUF] == before[..FTL_BUF]
          && forall i: nat {:trigger InBuf(mem, i)} :: i < CHUNKS_PER_PAGE ==>
               InBuf(mem, i) == if first <= i < last then Resolve(t, banks, Key(lpn, i)) else InBuf(before, i))
    && StrayKept(t, lpn, first, last, last, before, mem)
  }

  lemma ReadAll(t: Table, banks: seq<Bank>, lpn: nat, first: nat, last: nat, before: seq<Chunk>,
      done: seq<bool>, mem: seq<Chunk>)
    requires |done| == CHUNKS_PER_PAGE && |before| == |mem| == FTL_BUF + CHUNKS_PER_PAGE &&
      first <= last <= CHUNKS_PER_PAGE
    requires ReadSoFar(t, banks, lpn, first, last, last, before, done, mem)
    ensures ReadOutcome(t, banks, lpn, first, last, before, mem)
  {
    hide Resolve, Stray, Crowded, SamePage, InBuf, StrayKept;
    assert forall i: nat {:trigger done[i]} :: i < CHUNKS_PER_PAGE ==> (done[i] <==> first <= i < last);
  }

  lemma ReadOutcomeFar(nb: nat, t: Table, banks: seq<Bank>, lpn: nat, first: nat, last: nat,
      before: seq<Chunk>, mem: seq<Chunk>)
    requires nb >= 8 && Affine(nb, t) && last <= CHUNKS_PER_PAGE && |before| == |mem| == FTL_BUF + CHUNKS_PER_PAGE
    requires ReadOutcome(t, banks, lpn, first, last, before, mem)
    ensures forall i: nat {:trigger InBuf(mem, i)} :: i < CHUNKS_PER_PAGE ==>
      && (NoneFar(t, lpn, first, last) ==>
            InBuf(mem, i) == if first <= i < last then Resolve(t, banks, Key(lpn, i)) else InBuf(before, i))
      && (first <= i < last && LastFar(t, lpn, i, last) ==> InBuf(mem, i) == InBuf(before, i))
  {
    hide Stray, Far, Resolve, InBuf;
    FarIsStray(nb, t, lpn, first, last);
  }

  class PageReader {
    const chunksDone: array<bool>
    const mem: array<Chunk>   // the last page of COPY_BUF, then FTL_BUF(0)
    const temp: array<Chunk>  // TEMP_BUF
    const rd: array<Sector>   // the read buffer RD_BUF_PTR(g_ftl_read_buf_id)

    ghost predicate Shaped()
      reads this
    {
      && chunksDone.Length == temp.Length == CHUNKS_PER_PAGE && mem.Length == FTL_BUF + CHUNKS_PER_PAGE
      && mem != temp && rd.Length == SECTORS_PER_PAGE
    }

    constructor ()
      ensures Shaped() && fresh(chunksDone) && fresh(mem) && fresh(temp) && fresh(rd)
    {
      chunksDone := new bool[CHUNKS_PER_PAGE](_ => false);
      mem := new Chunk[FTL_BUF + CHUNKS_PER_PAGE](_ => AllOnes);
      temp := new Chunk[CHUNKS_PER_PAGE](_ => AllOnes);
      rd := new Sector[SECTORS_PER_PAGE](_ => Sector(AllOnes, 0));
    }

    /** setupFlashPageRead and setupFlashPageReadEncoded: chunk idx and the later ones, not yet read, that
        are in its flash page. */
    method SetupFlashPageRead(t: Table, lpn: nat, idx: nat, last: nat) returns (chunks: seq<nat>)
      requires Shaped() && idx < last <= CHUNKS_PER_PAGE && Look(t, Key(lpn, idx)).Flash?
      ensures |chunks| > 0 && chunks[0] == idx
      ensures forall j: nat :: j in chunks <==>
        (j == idx || (idx < j < last && !chunksDone[j] && SamePage(Look(t, Key(lpn, idx)), Look(t, Key(lpn, j)))))
      ensures (forall j: nat ::
        j in Mates(t, lpn, idx, last) ==> !chunksDone[j]) ==> |chunks| == 1 + |Mates(t, lpn, idx, last)|
    {
      chunks := [idx];
      for j := idx + 1 to last
        invariant |chunks| > 0 && chunks[0] == idx
        invariant forall i: nat :: i in chunks <==>
          (i == idx || (idx < i < j && !chunksDone[i] && SamePage(Look(t, Key(lpn, idx)), Look(t, Key(lpn, i)))))
        invariant (forall i: nat ::
          i in Mates(t, lpn, idx, j) ==> !chunksDone[i]) ==> |chunks| == 1 + |Mates(t, lpn, idx, j)|
      {
        if !chunksDone[j] && SamePage(Look(t, Key(lpn, idx)), Look(t, Key(lpn, j))) {
          chunks := chunks + [j];
        }
      }
    }

    /** readCompletePage and readCompletePageEncoded: one read of the flash page serves all its chunks. */
    method ReadCompletePage(t: Table, banks: seq<Bank>, lpn: nat, idx: nat, chunks: seq<nat>)
      requires Shaped() && Readable(t, banks) && Look(t, Key(lpn, idx)).Flash?
      requires forall j: nat ::
        j in chunks ==> j < CHUNKS_PER_PAGE && SamePage(Look(t, Key(lpn, idx)), Look(t, Key(lpn, j)))
      modifies chunksDone, mem, temp
      ensures forall j: nat :: j < CHUNKS_PER_PAGE ==> chunksDone[j] == (old(chunksDone[j]) || j in chunks)
      ensures forall j: nat :: j < CHUNKS_PER_PAGE ==>
        mem[FTL_BUF + j] == if j in chunks then Resolve(t, banks, Key(lpn, j)) else old(mem[FTL_BUF + j])
      ensures mem[..FTL_BUF] == old(mem[..FTL_BUF])
    {
      var l := Look(t, Key(lpn, idx));
      var page := PageAt(banks[l.bank].flash, l.lbn, l.page);
      for i := 0 to CHUNKS_PER_PAGE
        invariant forall j :: 0 <= j < i ==> temp[j] == ChunkOf(page, j)
        invariant mem[..] == old(mem[..]) && chunksDone[..] == old(chunksDone[..])
      {
        temp[i] := ChunkOf(page, i);
      }
      for i := 0 to |chunks|
        invariant forall j :: 0 <= j < CHUNKS_PER_PAGE ==> temp[j] == ChunkOf(page, j)
        invariant forall j: nat :: j < CHUNKS_PER_PAGE ==> chunksDone[j] == (old(chunksDone[j]) || j in chunks[..i])
        invariant mem[..FTL_BUF] == old(mem[..FTL_BUF])
        invariant forall j: nat :: j < CHUNKS_PER_PAGE ==>
          mem[FTL_BUF + j] == if j in chunks[..i] then Resolve(t, banks, Key(lpn, j)) else old(mem[FTL_BUF + j])
      {
        assert chunks[..i + 1] == chunks[..i] + [chunks[i]];
        var j := chunks[i];
        assert j in chunks;
        mem[FTL_BUF + j] := temp[Look(t, Key(lpn, j)).chunk];
        chunksDone[j] := true;
      }
    }

    /** readOneChunk: the flash controller puts the chunk in its place. */
    method ReadOneChunk(t: Table, banks: seq<Bank>, lpn: nat, idx: nat)
      requires Shaped() && Readable(t, banks) && idx < CHUNKS_PER_PAGE && Look(t, Key(lpn, idx)).Flash?
      modifies mem
      ensures mem[..] == old(mem[..])[FTL_BUF + idx := Resolve(t, banks, Key(lpn, idx))]
    {
      var l := Look(t, Key(lpn, idx));
      var dst := FTL_BUF + idx - l.chunk;
      mem[dst + l.chunk] := ChunkOf(PageAt(banks[l.bank].flash, l.lbn, l.page), l.chunk);
    }

    /** readOneChunkEncoded. */
    method ReadOneChunkEncoded(t: Table, banks: seq<Bank>, lpn: nat, idx: nat)
      requires Shaped() && Readable(t, banks) && idx < CHUNKS_PER_PAGE && Look(t, Key(lpn, idx)).Flash?
      modifies mem, temp
      ensures var l := Look(t, Key(lpn, idx));
        var page := PageAt(banks[l.bank].flash, l.lbn, l.page);
        && mem[..] == EncodedFetched(old(mem[..]), old(temp[..]), page, idx, l.chunk)
        && temp[..] == old(temp[..])[l.chunk := ChunkOf(page, l.chunk)]
    {
      var l := Look(t, Key(lpn, idx));
      var dst := FTL_BUF + idx - l.chunk;
      temp[l.chunk] := ChunkOf(PageAt(banks[l.bank].flash, l.lbn, l.page), l.chunk);
      mem[dst] := temp[0];
    }

    /** chunkInFlashLog and chunkInFlashLogEncoded: chunk idx is read, together with its undone mates when
        they are more than two (more than one in an encoded page). */
    method ChunkInFlashLog(t: Table, banks: seq<Bank>, lpn: nat, idx: nat, last: nat) returns (stopped: bool)
      requires Shaped() && Readable(t, banks) && idx < last <= CHUNKS_PER_PAGE && chunksDone[idx]
      requires Look(t, Key(lpn, idx)).Flash?
      requires Look(t, Key(lpn, idx)).encoded ==> forall j: nat :: j in Mates(t, lpn, idx, last) ==> !chunksDone[j]
      modifies chunksDone, mem, temp
      ensures stopped <==> Crowded(t, lpn, idx, last)
      ensures !stopped ==>
        if Far(t, lpn, idx) && |Mates(t, lpn, idx, last)| == 0
        then Missed(idx, old(chunksDone[..]), old(mem[..]), chunksDone[..], mem[..])
        else Fetched(t, banks, lpn, idx, last, old(chunksDone[..]), old(mem[..]), chunksDone[..], mem[..])
      ensures !stopped && Look(t, Key(lpn, idx)).encoded ==> forall j: nat ::
        j in Mates(t, lpn, idx, last) ==> chunksDone[j]
      ensures |Mates(t, lpn, idx, last)| == 0 ==>
        && Buffers(mem[..], temp[..]) == OneRead(t, banks, lpn, idx, Buffers(old(mem[..]), old(temp[..])))
        && chunksDone[..] == old(chunksDone[..])
    {
      var l := Look(t, Key(lpn, idx));
      var chunks := SetupFlashPageRead(t, lpn, idx, last);
      if l.encoded {
        if |chunks| > 3 {
          return true;
        }
        if |chunks| > 1 {
          ReadCompletePage(t, banks, lpn, idx, chunks);
        } else {
          ReadOneChunkEncoded(t, banks, lpn, idx);
        }
      } else {
        if |chunks| > 2 {
          ReadCompletePage(t, banks, lpn, idx, chunks);
        } else {
          ReadOneChunk(t, banks, lpn, idx);
        }
      }
      return false;
    }

    /** One requested chunk that is not done yet. */
    method ReadChunk(t: Table, banks: seq<Bank>, lpn: nat, first: nat, idx: nat, last: nat) returns (stopped: bool)
      requires Shaped() && Readable(t, banks) && first <= idx < last <= CHUNKS_PER_PAGE
      requires !chunksDone[idx] && Together(t, lpn, first, idx, last, chunksDone[..])
      modifies chunksDone, mem, temp
      ensures stopped <==> Crowded(t, lpn, idx, last)
      ensures !stopped ==> Together(t, lpn, first, idx + 1, last, chunksDone[..]) && chunksDone[idx]
      ensures !stopped ==>
        if Stray(t, lpn, idx, first, last) then Missed(idx, old(chunksDone[..]), old(mem[..]), chunksDone[..], mem[..])
        else Fetched(t, banks, lpn, idx, last, old(chunksDone[..]), old(mem[..]), chunksDone[..], mem[..])
      ensures |Mates(t, lpn, idx, last)| == 0 ==>
        && Buffers(mem[..], temp[..]) == OneRead(t, banks, lpn, idx, Buffers(old(mem[..]), old(temp[..])))
        && chunksDone[..] == old(chunksDone[..])[idx := true]
    {
      ghost var before := chunksDone[..];
      StrayNow(t, lpn, first, idx, last, before);
      MatesUndone(t, lpn, first, idx, last, before);
      MatesCrowd(t, lpn, idx, last);
      hide Crowded, Stray, Together, SamePage, OneRead;
      if !Look(t, Key(lpn, idx)).Flash? {
        OneReadPlain(t, banks, lpn, idx, Buffers(mem[..], temp[..]));
      }
      chunksDone[idx] := true;
      match Look(t, Key(lpn, idx)) {
        case Invalid =>
          mem[FTL_BUF + idx] := AllOnes;
          stopped := false;
        case Buf(bank, hot, slot) =>
          mem[FTL_BUF + idx] := ChunkAt(Log(banks[bank], hot).buf, slot);
          stopped := false;
        case Flash(_, _, _, _, _) =>
          stopped := ChunkInFlashLog(t, banks, lpn, idx, last);
      }
      if !stopped {
        TogetherStep(t, lpn, first, idx, last, before, chunksDone[..]);
      }
    }

    /** The requested sectors go from FTL_BUF(0) to the same place of the read buffer. */
    method CopyToHost(sectOffset: nat, nSects: nat)
      requires Shaped() && sectOffset + nSects <= SECTORS_PER_PAGE
      modifies rd
      ensures forall j: nat {:trigger rd[j]} :: j < SECTORS_PER_PAGE ==>
        rd[j] == if sectOffset <= j < sectOffset + nSects
                 then Sector(InBuf(mem[..], j / SECTORS_PER_CHUNK), j % SECTORS_PER_CHUNK) else old(rd[j])
    {
      for n := 0 to nSects
        invariant forall j: nat {:trigger rd[j]} :: j < SECTORS_PER_PAGE ==>
          rd[j] == if sectOffset <= j < sectOffset + n
                   then Sector(InBuf(mem[..], j / SECTORS_PER_CHUNK), j % SECTORS_PER_CHUNK) else old(rd[j])
      {
        var j := sectOffset + n;
        rd[j] := Sector(mem[FTL_BUF + j / SECTORS_PER_CHUNK], j % SECTORS_PER_CHUNK);
      }
    }

    /** rebuildPageToFtlBuf: the requested part of a logical page is put together in FTL_BUF(0). It stops on an encoded
        page with more than three requested chunks. */
    method RebuildPage(t: Table, banks: seq<Bank>, lpn: nat, sectOffset: nat, nSects: nat) returns (stopped: bool)
      requires Shaped() && sectOffset + nSects <= SECTORS_PER_PAGE && Readable(t, banks)
      modifies chunksDone, mem, temp
      ensures var first, last := sectOffset / SECTORS_PER_CHUNK, (sectOffset + nSects + 7) / SECTORS_PER_CHUNK;
        && (stopped <==> exists i: nat {:trigger Crowded(t, lpn, i, last)} ::
             first <= i < last && Crowded(t, lpn, i, last))
        && (!stopped ==> ReadOutcome(t, banks, lpn, first, last, old(mem[..]), mem[..]))
        && var before := Buffers(old(mem[..]), old(temp[..]));
           (!stopped && Apart(t, lpn, first, last) ==>
             Buffers(mem[..], temp[..]) == ReadInTurn(t, banks, lpn, first, last, before))
    {
      hide Resolve, Crowded, SamePage, Stray, ReadSoFar, Missed, Fetched, Together, ReadOutcome, Apart, OneRead,
        Readable;
      var first := sectOffset / SECTORS_PER_CHUNK;
      var last := (sectOffset + nSects + 7) / SECTORS_PER_CHUNK;
      for i := 0 to CHUNKS_PER_PAGE
        invariant forall j :: 0 <= j < i ==> !chunksDone[j]
        invariant mem[..] == old(mem[..]) && temp[..] == old(temp[..])
      {
        chunksDone[i] := false;
      }
      ReadStart(t, banks, lpn, first, last, chunksDone[..], mem[..]);
      for idx := first to last
        invariant forall i: nat {:trigger Crowded(t, lpn, i, last)} :: first <= i < idx ==> !Crowded(t, lpn, i, last)
        invariant ReadSoFar(t, banks, lpn, first, idx, last, old(mem[..]), chunksDone[..], mem[..])
        invariant Apart(t, lpn, first, last) ==>
          && Buffers(mem[..], temp[..]) ==
               ReadInTurn(t, banks, lpn, first, idx, Buffers(old(mem[..]), old(temp[..])))
          && forall j :: idx <= j < CHUNKS_PER_PAGE ==> !chunksDone[j]
      {
        ApartMates(t, lpn, first, idx, last);
        ghost var done0, mem0 := chunksDone[..], mem[..];
        TogetherSoFar(t, banks, lpn, first, idx, last, old(mem[..]), done0, mem0);
        if !chunksDone[idx] {
          stopped := ReadChunk(t, banks, lpn, first, idx, last);
          if stopped {
            return;
          }
          if Stray(t, lpn, idx, first, last) {
            MissedStep(t, banks, lpn, first, idx, last, old(mem[..]), done0, mem0, chunksDone[..], mem[..]);
          } else {
            FetchedStep(t, banks, lpn, first, idx, last, old(mem[..]), done0, mem0, chunksDone[..], mem[..]);
          }
        } else {
          AlreadyRead(t, banks, lpn, first, idx, last, old(mem[..]), done0, mem0);
        }
      }
      ReadAll(t, banks, lpn, first, last, old(mem[..]), chunksDone[..], mem[..]);
      return false;
    }
  }

  /** A host read of part of a logical page, on a device of at least eight banks. When no requested chunk lies in a far
      slot of an encoded page, every requested sector is read as it was last written. Otherwise the sectors of the last
      such chunk are what its place in FTL_BUF(0) happened to hold. Nothing else reaches the read buffer. */
  method ReadFromLogBlk(f: Ftl.Ftl, r: PageReader, lpn: nat, sectOffset: nat, nSects: nat)
    requires f.Whole() && f.nb >= 8 && r.Shaped() && sectOffset + nSects <= SECTORS_PER_PAGE
    modifies r.chunksDone, r.mem, r.temp, r.rd
    ensures var first, last := sectOffset / SECTORS_PER_CHUNK, (sectOffset + nSects + 7) / SECTORS_PER_CHUNK;
      forall j: nat {:trigger r.rd[j]} :: j < SECTORS_PER_PAGE ==>
        var i := j / SECTORS_PER_CHUNK;
        && (!(sectOffset <= j < sectOffset + nSects) ==> r.rd[j] == old(r.rd[j]))
        && (sectOffset <= j < sectOffset + nSects && NoneFar(f.table, lpn, first, last) ==>
              r.rd[j] == Sector(f.Contents(Key(lpn, i)), j % SECTORS_PER_CHUNK))
        && (sectOffset <= j < sectOffset + nSects && LastFar(f.table, lpn, i, last) ==>
              r.rd[j] == Sector(old(InBuf(r.mem[..], i)), j % SECTORS_PER_CHUNK))
    ensures var first, last := sectOffset / SECTORS_PER_CHUNK, (sectOffset + nSects + 7) / SECTORS_PER_CHUNK;
      forall i: nat {:trigger InBuf(r.mem[..], i)} :: i < CHUNKS_PER_PAGE ==>
        && (NoneFar(f.table, lpn, first, last) ==>
              InBuf(r.mem[..], i) == if first <= i < last then f.Contents(Key(lpn, i)) else old(InBuf(r.mem[..], i)))
        && (first <= i < last && LastFar(f.table, lpn, i, last) ==>
              InBuf(r.mem[..], i) == old(InBuf(r.mem[..], i)))
    ensures var last := (sectOffset + nSects + 7) / SECTORS_PER_CHUNK;
      forall j: nat {:trigger r.rd[j]} :: sectOffset <= j < sectOffset + nSects ==>
        var i := j / SECTORS_PER_CHUNK;
        Spared(f.table, lpn, i, last) ==> r.rd[j] == Sector(f.Contents(Key(lpn, i)), j % SECTORS_PER_CHUNK)
    ensures Readable(f.table, f.banks)
    ensures var first, last := sectOffset / SECTORS_PER_CHUNK, (sectOffset + nSects + 7) / SECTORS_PER_CHUNK;
      var before := Buffers(old(r.mem[..]), old(r.temp[..]));
      Buffers(r.mem[..], r.temp[..]) == ReadInTurn(f.table, f.banks, lpn, first, last, before)
  {
    hide ReadOutcome, Crowded, Far, Resolve, InBuf, Readable, Spared, OneRead;
    var first, last := sectOffset / SECTORS_PER_CHUNK, (sectOffset + nSects + 7) / SECTORS_PER_CHUNK;
    WholeReadable(f);
    ghost var before := r.mem[..];
    var stopped := r.RebuildPage(f.table, f.banks, lpn, sectOffset, nSects);
    forall i: nat {:trigger Crowded(f.table, lpn, i, last)}
      ensures !Crowded(f.table, lpn, i, last)
    {
      NeverCrowded(f.nb, f.table, lpn, i, last);
    }
    ReadOutcomeFar(f.nb, f.table, f.banks, lpn, first, last, before, r.mem[..]);
    ApartByBanks(f.nb, f.table, lpn, first, last);
    ghost var start := Buffers(before, old(r.temp[..]));
    forall i: nat {:trigger Spared(f.table, lpn, i, last)} | first <= i < last && Spared(f.table, lpn, i, last)
      ensures InBuf(r.mem[..], i) == f.Contents(Key(lpn, i))
    {
      SparedRead(f.table, f.banks, lpn, first, last, start, i);
    }
    r.CopyToHost(sectOffset, nSects);
  }
}
