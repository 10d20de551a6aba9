/** Chunk addresses: a place in flash or in a write buffer packed into a 32-bit word, the words of the
    lists of lpns, and the index into the chunk map. */
module AddressCodec {
  import opened BankState
  import opened Heap
  import Modular

  const U32: nat := 0x1_0000_0000
  const FLAG: nat := 0x8000_0000  // ColdLogBufBitFlag and StartOwLogLpn
  const CHUNKS_PER_BLK: nat := 1024
  const CHUNK_ADDR_BYTES: nat := 4

  /** word | FLAG */
  function SetFlag(word: nat): nat
    requires word < U32
  {
    if word < FLAG then word + FLAG else word
  }

  /** word & FLAG != 0 */
  predicate HasFlag(word: nat)
    requires word < U32
  {
    word >= FLAG
  }

  /** word & ~FLAG */
  function Masked(word: nat): (r: nat)
    requires word < U32
    ensures r < FLAG
  {
    word % FLAG
  }

  // ---------- The macros, for L log blocks per bank ----------

  function ChunkToBank(chunk: nat, blks: nat): nat
    requires blks > 0
  {
    chunk / (blks * CHUNKS_PER_BLK)
  }

  function ChunkToChunkOffsetInBank(chunk: nat, blks: nat): nat
    requires blks > 0
  {
    chunk % (blks * CHUNKS_PER_BLK)
  }

  function ChunkToLbn(chunk: nat, blks: nat): nat
    requires blks > 0
  {
    ChunkToChunkOffsetInBank(chunk, blks) / CHUNKS_PER_PAGE / PAGES_PER_BLK
  }

  function ChunkToPageOffset(chunk: nat, blks: nat): nat
    requires blks > 0
  {
    ChunkToChunkOffsetInBank(chunk, blks) / CHUNKS_PER_PAGE % PAGES_PER_BLK
  }

  function ChunkToSectOffset(chunk: nat, blks: nat): nat
    requires blks > 0
  {
    ChunkToChunkOffsetInBank(chunk, blks) % CHUNKS_PER_PAGE * SECTORS_PER_CHUNK
  }

  function DramLogBufLpn(blks: nat): nat
    requires blks > 0
  {
    blks * PAGES_PER_BLK - 1
  }

  datatype ChunkLocation = Invalid | FlashWLog | FlashWLogEncoded | DRAMHotLog | DRAMColdLog

  function FindChunkLocation(chunk: nat, blks: nat): ChunkLocation
    requires blks > 0 && chunk < U32
  {
    if chunk == INVALID then ChunkLocation.Invalid
    else if HasFlag(chunk) then
      if ChunkToChunkOffsetInBank(Masked(chunk), blks) >= DramLogBufLpn(blks) * CHUNKS_PER_PAGE then DRAMColdLog
        else FlashWLogEncoded
    else
      if ChunkToChunkOffsetInBank(chunk, blks) >= DramLogBufLpn(blks) * CHUNKS_PER_PAGE then DRAMHotLog else FlashWLog
  }

  // ---------- Packing and unpacking ----------

  /** A place the firmware gives an address to; the last page of a block never holds chunks. */
  predicate Addressable(l: Loc, nb: nat, blks: nat) {
    match l
    case Invalid => true
    case Flash(bank, lbn, page, chunk, _) => bank < nb && lbn < blks && page < USED_PAGES && chunk < CHUNKS_PER_PAGE
    case Buf(bank, _, slot) => bank < nb && slot < CHUNKS_PER_PAGE
  }

  /** bank * LOG_BLK_PER_BANK * CHUNKS_PER_BLK + offset, in 32-bit arithmetic. */
  function Word(bank: nat, offset: nat, blks: nat): (word: nat)
    ensures word < U32
  {
    (bank * blks * CHUNKS_PER_BLK + offset) % U32
  }

  lemma WordBelowFlag(bank: nat, offset: nat, blks: nat)
    requires bank * blks * CHUNKS_PER_BLK + offset < FLAG
    ensures Word(bank, offset, blks) == bank * blks * CHUNKS_PER_BLK + offset
  {
  }

  /** The word as the source computes it. */
  function Encode(l: Loc, blks: nat): (word: nat)
    requires blks > 0
    ensures word < U32
  {
    match l
    case Invalid => INVALID
    case Flash(bank, lbn, page, chunk, encoded) =>
      var word := Word(bank, (lbn * PAGES_PER_BLK + page) * CHUNKS_PER_PAGE + chunk, blks);
      if encoded then SetFlag(word) else word
    case Buf(bank, hot, slot) =>
      var word := Word(bank, DramLogBufLpn(blks) * CHUNKS_PER_PAGE + slot, blks);
      if hot then word else SetFlag(word)
  }

  /** What the read and write paths take a word for: classified first, then masked and taken apart. */
  function Decode(chunk: nat, blks: nat): Loc
    requires blks > 0 && chunk < U32
  {
    var c := Masked(chunk);
    match FindChunkLocation(chunk, blks)
    case Invalid => Loc.Invalid
    case FlashWLog => Flash(ChunkToBank(c, blks), ChunkToLbn(c, blks), ChunkToPageOffset(c, blks),
      c % CHUNKS_PER_PAGE, false)
    case FlashWLogEncoded => Flash(ChunkToBank(c, blks), ChunkToLbn(c, blks), ChunkToPageOffset(c, blks),
      c % CHUNKS_PER_PAGE, true)
    case DRAMHotLog => Buf(ChunkToBank(c, blks), true, ChunkToSectOffset(c, blks) / SECTORS_PER_CHUNK)
    case DRAMColdLog => Buf(ChunkToBank(c, blks), false, ChunkToSectOffset(c, blks) / SECTORS_PER_CHUNK)
  }

  /** The offset in the bank of a place. */
  function OffsetOf(l: Loc, blks: nat): nat
    requires blks > 0 && l != Loc.Invalid
  {
    match l
    case Flash(_, lbn, page, chunk, _) => (lbn * PAGES_PER_BLK + page) * CHUNKS_PER_PAGE + chunk
    case Buf(_, _, slot) => DramLogBufLpn(blks) * CHUNKS_PER_PAGE + slot
  }

  lemma OffsetBound(l: Loc, nb: nat, blks: nat)
    requires blks > 0 && l != Loc.Invalid && Addressable(l, nb, blks)
    ensures OffsetOf(l, blks) < blks * CHUNKS_PER_BLK
    ensures l.Flash? <==> OffsetOf(l, blks) < DramLogBufLpn(blks) * CHUNKS_PER_PAGE
  {
  }

  /** Below 2^31 an encoded word is bank times bank size plus offset, and the macros undo it. */
  lemma PlainParts(bank: nat, offset: nat, nb: nat, blks: nat)
    requires blks > 0 && bank < nb && offset < blks * CHUNKS_PER_BLK && nb * (blks * CHUNKS_PER_BLK) < FLAG
    ensures var c := bank * blks * CHUNKS_PER_BLK + offset;
      && c < FLAG - 1 && ChunkToBank(c, blks) == bank && ChunkToChunkOffsetInBank(c, blks) == offset
  {
    var size := blks * CHUNKS_PER_BLK;
    assert bank * blks * CHUNKS_PER_BLK == bank * size;
    Modular.TimesMonotone(bank, nb, size);
    Modular.DivModUnique(bank * size + offset, size, bank, offset);
  }

  lemma ChunkOfWord(bank: nat, offset: nat, blks: nat)
    ensures (bank * blks * CHUNKS_PER_BLK + offset) % CHUNKS_PER_PAGE == offset % CHUNKS_PER_PAGE
  {
    var q := bank * blks * 128;
    assert bank * blks * CHUNKS_PER_BLK + offset == 8 * q + offset;
  }

  /** A packed word, flagged or not, decodes to the place its bank and offset name. */
  lemma DecodeParts(c: nat, flag: bool, bank: nat, offset: nat, blks: nat)
    requires blks > 0 && c < FLAG - 1 && ChunkToBank(c, blks) == bank && ChunkToChunkOffsetInBank(c, blks) == offset
    requires c % CHUNKS_PER_PAGE == offset % CHUNKS_PER_PAGE
    ensures Decode(if flag then SetFlag(c) else c, blks) ==
      if offset >= DramLogBufLpn(blks) * CHUNKS_PER_PAGE then Buf(bank, !flag, offset % CHUNKS_PER_PAGE)
      else Flash(bank, offset / CHUNKS_PER_PAGE / PAGES_PER_BLK, offset / CHUNKS_PER_PAGE % PAGES_PER_BLK,
        offset % CHUNKS_PER_PAGE, flag)
  {
    hide ChunkToBank, ChunkToChunkOffsetInBank, DramLogBufLpn;
    assert Masked(c) == c && Masked(SetFlag(c)) == c;
  }

  lemma OffsetParts(l: Loc, nb: nat, blks: nat)
    requires blks > 0 && l != Loc.Invalid && Addressable(l, nb, blks)
    ensures var offset := OffsetOf(l, blks);
      && (l.Flash? ==>
           && offset / CHUNKS_PER_PAGE / PAGES_PER_BLK == l.lbn && offset / CHUNKS_PER_PAGE % PAGES_PER_BLK == l.page
           && offset % CHUNKS_PER_PAGE == l.chunk)
      && (l.Buf? ==> offset % CHUNKS_PER_PAGE == l.slot)
  {
  }

  /** Every addressable place is packed without loss, and no place but Invalid is packed as INVALID. */
  lemma RoundTrip(l: Loc, nb: nat, blks: nat)
    requires blks > 0 && nb * (blks * CHUNKS_PER_BLK) < FLAG && Addressable(l, nb, blks)
    ensures Decode(Encode(l, blks), blks) == l
    ensures Encode(l, blks) == INVALID <==> l == Loc.Invalid
  {
    if l != Loc.Invalid {
      hide Decode, ChunkToBank, ChunkToChunkOffsetInBank;
      var offset := OffsetOf(l, blks);
      OffsetBound(l, nb, blks);
      OffsetParts(l, nb, blks);
      PlainParts(l.bank, offset, nb, blks);
      ChunkOfWord(l.bank, offset, blks);
      var c := l.bank * blks * CHUNKS_PER_BLK + offset;
      EncodeParts(l, c, nb, blks);
      hide OffsetOf, Encode, DramLogBufLpn;
      DecodeParts(c, if l.Flash? then l.encoded else !l.hot, l.bank, offset, blks);
    }
  }

  lemma EncodeParts(l: Loc, c: nat, nb: nat, blks: nat)
    requires blks > 0 && l != Loc.Invalid && c == l.bank * blks * CHUNKS_PER_BLK + OffsetOf(l, blks) < FLAG - 1
    ensures var flag := if l.Flash? then l.encoded else !l.hot;
      Encode(l, blks) == (if flag then SetFlag(c) else c) && Encode(l, blks) != INVALID
  {
    WordBelowFlag(l.bank, OffsetOf(l, blks), blks);
    hide Word;
  }

  /** Different places have different addresses. */
  lemma Distinct(l: Loc, m: Loc, nb: nat, blks: nat)
    requires blks > 0 && nb * (blks * CHUNKS_PER_BLK) < FLAG && Addressable(l, nb, blks) && Addressable(m, nb, blks)
    ensures Encode(l, blks) == Encode(m, blks) <==> l == m
  {
    RoundTrip(l, nb, blks);
    RoundTrip(m, nb, blks);
  }

  /** Addresses run through the places in order, from 0 on: chunk by chunk, page by page, block by block and bank by
      bank, the hot buffer of a bank where the list page of its last block is. Encoded chunks and the cold buffer have
      the addresses of the plain chunks and the hot buffer, flagged. */
  lemma AddressesInOrder(bank: nat, lbn: nat, page: nat, chunk: nat, nb: nat, blks: nat)
    requires blks > 0 && nb * (blks * CHUNKS_PER_BLK) < FLAG
    requires bank < nb && lbn < blks && page < USED_PAGES && chunk < CHUNKS_PER_PAGE
    ensures var word := Encode(Flash(bank, lbn, page, chunk, false), blks);
      && (bank == lbn == page == chunk == 0 ==> word == 0)
      && (chunk + 1 < CHUNKS_PER_PAGE ==> Encode(Flash(bank, lbn, page, chunk + 1, false), blks) == word + 1)
      && (page + 1 < USED_PAGES ==> Encode(Flash(bank, lbn, page + 1, chunk, false), blks) == word + CHUNKS_PER_PAGE)
      && (lbn + 1 < blks ==> Encode(Flash(bank, lbn + 1, page, chunk, false), blks) == word + CHUNKS_PER_BLK)
      && (bank + 1 < nb ==> Encode(Flash(bank + 1, lbn, page, chunk, false), blks) == word + blks * CHUNKS_PER_BLK)
      && (lbn + 1 == blks && page + 1 == USED_PAGES ==>
            Encode(Buf(bank, true, chunk), blks) == word + CHUNKS_PER_PAGE)
      && Encode(Flash(bank, lbn, page, chunk, true), blks) == word + FLAG
    ensures Encode(Buf(bank, false, chunk), blks) == Encode(Buf(bank, true, chunk), blks) + FLAG
  {
    hide Encode;
    var base := bank * (blks * CHUNKS_PER_BLK);
    FlashWord(bank, lbn, page, chunk, false, nb, blks);
    FlashWord(bank, lbn, page, chunk, true, nb, blks);
    BufWord(bank, true, chunk, nb, blks);
    BufWord(bank, false, chunk, nb, blks);
    if chunk + 1 < CHUNKS_PER_PAGE {
      FlashWord(bank, lbn, page, chunk + 1, false, nb, blks);
    }
    if page + 1 < USED_PAGES {
      FlashWord(bank, lbn, page + 1, chunk, false, nb, blks);
    }
    if lbn + 1 < blks {
      FlashWord(bank, lbn + 1, page, chunk, false, nb, blks);
    }
    if bank + 1 < nb {
      FlashWord(bank + 1, lbn, page, chunk, false, nb, blks);
      assert (bank + 1) * (blks * CHUNKS_PER_BLK) == base + blks * CHUNKS_PER_BLK;
    }
  }

  lemma FlashWord(bank: nat, lbn: nat, page: nat, chunk: nat, encoded: bool, nb: nat, blks: nat)
    requires blks > 0 && nb * (blks * CHUNKS_PER_BLK) < FLAG
    requires bank < nb && lbn < blks && page < USED_PAGES && chunk < CHUNKS_PER_PAGE
    ensures Encode(Flash(bank, lbn, page, chunk, encoded), blks) ==
      bank * (blks * CHUNKS_PER_BLK) + lbn * CHUNKS_PER_BLK + page * CHUNKS_PER_PAGE + chunk +
        (if encoded then FLAG else 0)
  {
    PlainWord(Flash(bank, lbn, page, chunk, encoded), nb, blks);
    hide Encode;
  }

  lemma BufWord(bank: nat, hot: bool, slot: nat, nb: nat, blks: nat)
    requires blks > 0 && nb * (blks * CHUNKS_PER_BLK) < FLAG && bank < nb && slot < CHUNKS_PER_PAGE
    ensures Encode(Buf(bank, hot, slot), blks) ==
      bank * (blks * CHUNKS_PER_BLK) + blks * CHUNKS_PER_BLK - CHUNKS_PER_PAGE + slot + (if hot then 0 else FLAG)
  {
    PlainWord(Buf(bank, hot, slot), nb, blks);
    hide Encode;
  }

  lemma PlainWord(l: Loc, nb: nat, blks: nat)
    requires blks > 0 && nb * (blks * CHUNKS_PER_BLK) < FLAG && Addressable(l, nb, blks) && l != Loc.Invalid
    ensures Encode(l, blks) == l.bank * (blks * CHUNKS_PER_BLK) + OffsetOf(l, blks) +
      (if (l.Flash? && l.encoded) || (l.Buf? && !l.hot) then FLAG else 0)
  {
    hide Encode, OffsetOf, ChunkToBank, ChunkToChunkOffsetInBank;
    var offset := OffsetOf(l, blks);
    OffsetBound(l, nb, blks);
    PlainParts(l.bank, offset, nb, blks);
    EncodeParts(l, l.bank * blks * CHUNKS_PER_BLK + offset, nb, blks);
    assert l.bank * blks * CHUNKS_PER_BLK == l.bank * (blks * CHUNKS_PER_BLK);
  }

  /** A device of exactly 2^31 chunks is one too large: the last slot of the last cold buffer is INVALID. */
  lemma LastColdSlotLost(nb: nat, blks: nat)
    requires nb > 0 && blks > 0 && nb * (blks * CHUNKS_PER_BLK) == FLAG
    ensures Addressable(Buf(nb - 1, false, 7), nb, blks) && Encode(Buf(nb - 1, false, 7), blks) == INVALID
  {
    var size := blks * CHUNKS_PER_BLK;
    assert (nb - 1) * blks * CHUNKS_PER_BLK == (nb - 1) * size == nb * size - size;
  }

  /** The only word that is taken for the last slot of a hot buffer is the number of that bank's last chunk. */
  lemma LastHotSlotWord(word: nat, bank: nat, blks: nat)
    requires blks > 0 && word < U32
    ensures Decode(word, blks) == Buf(bank, true, 7) ==>
      word < FLAG && word == bank * (blks * CHUNKS_PER_BLK) + blks * CHUNKS_PER_BLK - 1
  {
    hide ChunkToBank, ChunkToChunkOffsetInBank;
    if Decode(word, blks) == Buf(bank, true, 7) {
      assert word < FLAG;
      WordParts(word, blks);
      LastInBank(ChunkToChunkOffsetInBank(word, blks), blks);
    }
  }

  lemma WordParts(word: nat, blks: nat)
    requires blks > 0
    ensures var size := blks * CHUNKS_PER_BLK;
      word == ChunkToBank(word, blks) * size + ChunkToChunkOffsetInBank(word, blks) &&
        ChunkToChunkOffsetInBank(word, blks) < size
  {
    Modular.DivMod(word, blks * CHUNKS_PER_BLK);
  }

  lemma LastInBank(offset: nat, blks: nat)
    requires blks > 0 && DramLogBufLpn(blks) * CHUNKS_PER_PAGE <= offset && offset % CHUNKS_PER_PAGE == 7
    requires offset < blks * CHUNKS_PER_BLK
    ensures offset == blks * CHUNKS_PER_BLK - 1
  {
    var pages := blks * PAGES_PER_BLK;
    assert offset / CHUNKS_PER_PAGE == pages - 1;
  }

  /** On a larger device the last slot of the last hot buffer is lost: its number is not a plain word. */
  lemma LastHotSlotLost(nb: nat, blks: nat)
    requires nb > 0 && blks > 0 && nb * (blks * CHUNKS_PER_BLK) > FLAG
    ensures Addressable(Buf(nb - 1, true, 7), nb, blks)
    ensures Decode(Encode(Buf(nb - 1, true, 7), blks), blks) != Buf(nb - 1, true, 7)
  {
    hide Decode;
    var size := blks * CHUNKS_PER_BLK;
    LastHotSlotWord(Encode(Buf(nb - 1, true, 7), blks), nb - 1, blks);
    assert (nb - 1) * size == nb * size - size;
  }

  /** The firmware's addresses name every place of a device exactly when it has less than 2^31 chunks. */
  lemma RoomIsNeeded(nb: nat, blks: nat)
    requires nb > 0 && blks > 0
    ensures (forall l: Loc :: Addressable(l, nb, blks) ==> Decode(Encode(l, blks), blks) == l) <==>
            nb * (blks * CHUNKS_PER_BLK) < FLAG
  {
    hide Encode, Decode, Addressable;
    if nb * (blks * CHUNKS_PER_BLK) < FLAG {
      forall l: Loc | Addressable(l, nb, blks)
        ensures Decode(Encode(l, blks), blks) == l
      {
        RoundTrip(l, nb, blks);
      }
    } else if nb * (blks * CHUNKS_PER_BLK) == FLAG {
      LastColdSlotLost(nb, blks);
      InvalidDecodes(blks);
    } else {
      LastHotSlotLost(nb, blks);
    }
  }

  lemma InvalidDecodes(blks: nat)
    requires blks > 0
    ensures Decode(INVALID, blks) == Loc.Invalid
  {
  }

  /** Every place the map of a consistent bank names has an address. */
  lemma MappedAddressable(nb: nat, blks: nat, b: nat, t: Table, s: Bank, k: Key)
    requires Inv(blks, b, t, s) && b < nb && OfBank(Look(t, k), b)
    ensures Addressable(Look(t, k), nb, blks)
  {
    assert Look(t, k).Flash? ==> Placed(blks, s, k, Look(t, k));
  }

  /** So searching the map for an address finds what searching it for the place finds. */
  lemma SearchByAddress(nb: nat, blks: nat, b: nat, t: Table, s: Bank, k: Key, l: Loc)
    requires blks > 0 && nb * (blks * CHUNKS_PER_BLK) < FLAG && Addressable(l, nb, blks)
    requires Inv(blks, b, t, s) && b < nb && OfBank(Look(t, k), b)
    ensures Encode(Look(t, k), blks) == Encode(l, blks) <==> Look(t, k) == l
  {
    hide Inv, Encode, Addressable;
    MappedAddressable(nb, blks, b, t, s, k);
    Distinct(Look(t, k), l, nb, blks);
  }

  // ---------- Words of a list of lpns ----------

  function EncodeEntry(e: Entry): (word: nat)
    requires e.Lpn? ==> e.lpn < FLAG
    ensures word < U32
  {
    match e
    case NoLpn => INVALID
    case Lpn(lpn, encoded) => if encoded then SetFlag(lpn) else lpn
  }

  function DecodeEntry(word: nat): Entry
    requires word < U32
  {
    if word == INVALID then NoLpn else Lpn(Masked(word), HasFlag(word))
  }

  /** Any lpn but the largest 31-bit number can be listed, plain or flagged; and flagging the word of an emptied
      slot leaves it empty. */
  lemma EntryRoundTrip(e: Entry)
    requires e.Lpn? ==> e.lpn < FLAG - 1
    ensures DecodeEntry(EncodeEntry(e)) == e
    ensures DecodeEntry(SetFlag(EncodeEntry(e))) == if e.Lpn? then e.(encoded := true) else e
  {
  }

  /** The word of a list entry, plain or flagged, indexes the map where its page is, with no need to take the flag
      off. */
  lemma EntryFindsRow(e: Entry, chunk: nat)
    requires e.Lpn? && e.lpn < 0x800_0000 && chunk < CHUNKS_PER_PAGE
    ensures MapIndex(EncodeEntry(e), chunk) == (e.lpn * CHUNKS_PER_PAGE + chunk) * CHUNK_ADDR_BYTES
  {
    FlagVanishes(e.lpn, chunk);
  }

  /** ChunksMapTable(lpn, chunk) relative to the table, in 32-bit arithmetic. */
  function MapIndex(lpn: nat, chunk: nat): nat {
    (lpn * CHUNKS_PER_PAGE + chunk) * CHUNK_ADDR_BYTES % U32
  }

  /** A flagged lpn addresses the same row of the map: the flag is shifted out of the word. */
  lemma FlagVanishes(lpn: nat, chunk: nat)
    requires lpn < FLAG
    ensures MapIndex(SetFlag(lpn), chunk) == MapIndex(lpn, chunk)
  {
    var i := (lpn * CHUNKS_PER_PAGE + chunk) * CHUNK_ADDR_BYTES;
    assert (SetFlag(lpn) * CHUNKS_PER_PAGE + chunk) * CHUNK_ADDR_BYTES == i + 16 * U32;
  }

  /** On a device of up to 2^27 pages every chunk has an entry of its own, four bytes after the one before it. */
  lemma MapEntriesApart(lpn: nat, chunk: nat, lpn': nat, chunk': nat)
    requires lpn < 0x800_0000 && lpn' < 0x800_0000 && chunk < CHUNKS_PER_PAGE && chunk' < CHUNKS_PER_PAGE
    ensures MapIndex(lpn, chunk) == MapIndex(lpn', chunk') <==> lpn == lpn' && chunk == chunk'
    ensures MapIndex(0, 0) == 0 && MapIndex(lpn, chunk) + CHUNK_ADDR_BYTES <= U32
    ensures chunk + 1 < CHUNKS_PER_PAGE ==> MapIndex(lpn, chunk + 1) == MapIndex(lpn, chunk) + CHUNK_ADDR_BYTES
    ensures lpn + 1 < 0x800_0000 ==> MapIndex(lpn + 1, 0) == MapIndex(lpn, CHUNKS_PER_PAGE - 1) + CHUNK_ADDR_BYTES
  {
    NoWrap(lpn, chunk);
    NoWrap(lpn', chunk');
    NoWrap(0, 0);
    NoWrap(lpn, CHUNKS_PER_PAGE - 1);
    if chunk + 1 < CHUNKS_PER_PAGE {
      NoWrap(lpn, chunk + 1);
    }
    if lpn + 1 < 0x800_0000 {
      NoWrap(lpn + 1, 0);
    }
    hide MapIndex;
  }

  lemma NoWrap(lpn: nat, chunk: nat)
    requires lpn < 0x800_0000 && chunk < CHUNKS_PER_PAGE
    ensures MapIndex(lpn, chunk) == 32 * lpn + 4 * chunk
  {
  }
}
