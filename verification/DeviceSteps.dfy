/** The whole device seen through the chunk map: what a read of a chunk returns, why the banks do not
    disturb each other, and the state after formatting. */
module DeviceSteps {
  import opened Heap
  import opened BankState
  import opened BankSteps
  import opened BankPages
  import opened BankLog
  import opened BankBlocks
  import opened BankGc
  import opened FtlSteps
  import opened Nand
  import opened PageRuns
  import Modular

  /** What chunk k reads as. */
  function Resolve(t: Table, banks: seq<Bank>, k: Key): Chunk {
    var l := Look(t, k);
    if l != Invalid && l.bank < |banks| then Fetch(banks[l.bank], l) else AllOnes
  }

  /** A host write of a whole chunk. */
  datatype Cmd = Cmd(key: Key, hot: bool, chunk: Chunk)

  /** What chunk k holds after the writes, if it held before at first. */
  function Latest(cmds: seq<Cmd>, k: Key, before: Chunk): Chunk {
    if |cmds| == 0 then before
    else if cmds[|cmds| - 1].key == k then cmds[|cmds| - 1].chunk
    else Latest(cmds[..|cmds| - 1], k, before)
  }

  /** The bank a chunk belongs to. */
  function Home(nb: nat, k: Key): (b: nat)
    requires nb > 0
    ensures b < nb
  {
    ChooseNewBank(k.lpn * CHUNKS_PER_PAGE + k.idx, nb)
  }

  /** The next chunk of the device. */
  function NextChunk(k: Key): Key {
    if k.idx + 1 < CHUNKS_PER_PAGE then Key(k.lpn, k.idx + 1) else Key(k.lpn + 1, 0)
  }

  /** The chunks of the device are dealt out to the banks in turn, from bank 0 on and across pages. */
  lemma RoundRobin(nb: nat, k: Key)
    requires nb > 0 && k.idx < CHUNKS_PER_PAGE
    ensures Home(nb, Key(0, 0)) == 0
    ensures Home(nb, NextChunk(k)) == if Home(nb, k) == nb - 1 then 0 else Home(nb, k) + 1
  {
    var chunk := k.lpn * CHUNKS_PER_PAGE + k.idx;
    Modular.DivModUnique(0, nb, 0, 0);
    Modular.NextInTurn(chunk, nb);
  }

  /** Every mapped chunk lives in its home bank. */
  ghost predicate Affine(nb: nat, t: Table)
    requires nb > 0
  {
    forall k: Key {:trigger Look(t, k)} :: Look(t, k) != Invalid ==> Look(t, k).bank == Home(nb, k)
  }

  /** The chunks that were ever written. */
  function Mapped(t: Table): set<Key> {
    set k | k in t && t[k] != Invalid
  }

  function OfHome(keys: set<Key>, nb: nat, b: nat): set<Key>
    requires nb > 0
  {
    set k | k in keys && Home(nb, k) == b
  }

  function Written(cmds: seq<Cmd>): set<Key> {
    set i | 0 <= i < |cmds| :: cmds[i].key
  }

  lemma MappedAtHome(nb: nat, t: Table, k: Key)
    requires nb > 0 && Affine(nb, t)
    ensures Home(nb, k) < nb && (Look(t, k) == Invalid || OfBank(Look(t, k), Home(nb, k)))
  {
  }

  // ---------- A step on one bank seen from the others ----------

  /** Every bank but b keeps the invariant. */
  ghost predicate OthersInv(blks: nat, b: nat, t: Table, banks: seq<Bank>) {
    forall j: nat {:trigger banks[j]} :: j < |banks| && j != b ==> Inv(blks, j, t, banks[j])
  }

  /** Bank j does not notice a change of entries that are not its own. */
  lemma InvElsewhere(blks: nat, j: nat, t: Table, u: Table, s: Bank)
    requires Inv(blks, j, t, s)
    requires forall k: Key {:trigger Look(u, k)} {:trigger Look(t, k)} ::
      OfBank(Look(t, k), j) || OfBank(Look(u, k), j) ==> Look(u, k) == Look(t, k)
    ensures Inv(blks, j, u, s)
  {
    hide HeapOk, Val, In, RoleOf, ListOf, Placed, Live, ListShape, FlashShape, AllBlank;
    FilledElsewhere(j, t, u, s, true);
    FilledElsewhere(j, t, u, s, false);
    forall l: nat {:trigger Account(j, u, s, l)} | l < blks
      ensures Account(j, u, s, l)
    {
      assert Account(j, t, s, l);
      LiveSame(t, u, j, l);
    }
    LiveSame(t, u, j, s.gc.victim);
  }

  lemma FilledElsewhere(j: nat, t: Table, u: Table, s: Bank, hot: bool)
    requires Filled(j, t, s, hot)
    requires forall k: Key {:trigger Look(u, k)} {:trigger Look(t, k)} ::
      OfBank(Look(t, k), j) || OfBank(Look(u, k), j) ==> Look(u, k) == Look(t, k)
    ensures Filled(j, u, s, hot)
  {
  }

  lemma SameMapped(b: nat, t: Table, s: Bank, u: Table, r: Bank)
    requires SameData(b, t, s, u, r)
    ensures Mapped(u) == Mapped(t)
  {
    hide Fetch;
    forall k: Key
      ensures k in Mapped(u) <==> k in Mapped(t)
    {
      assert Look(u, k) != Invalid <==> Look(t, k) != Invalid;
    }
  }

  /** A step that keeps bank b's data keeps what every chunk reads as, the other banks, and affinity. */
  lemma DataKept(nb: nat, blks: nat, b: nat, t: Table, bs: seq<Bank>, u: Table, cs: seq<Bank>)
    requires nb > 0 && b < |bs| == |cs| == nb && SameData(b, t, bs[b], u, cs[b]) && Affine(nb, t)
    requires OthersInv(blks, b, t, bs) && forall j: nat {:trigger cs[j]} :: j < nb && j != b ==> cs[j] == bs[j]
    ensures forall k: Key {:trigger Resolve(u, cs, k)} :: Resolve(u, cs, k) == Resolve(t, bs, k)
    ensures Affine(nb, u) && OthersInv(blks, b, u, cs) && Mapped(u) == Mapped(t)
  {
    hide Inv, Fetch;
    SameMapped(b, t, bs[b], u, cs[b]);
    hide Mapped;
    forall k: Key {:trigger Look(u, k)}
      ensures Resolve(u, cs, k) == Resolve(t, bs, k)
      ensures Look(u, k) != Invalid ==> Look(u, k).bank == Home(nb, k)
    {
      assert Look(t, k) == Look(t, k);
    }
    forall j: nat {:trigger cs[j]} | j < nb && j != b
      ensures Inv(blks, j, u, cs[j])
    {
      assert cs[j] == bs[j];
      InvElsewhere(blks, j, t, u, bs[j]);
    }
  }

  /** Placing chunk k in a buffer of its home bank b changes what k reads as, and nothing else. */
  lemma DataPut(nb: nat, blks: nat, b: nat, t: Table, bs: seq<Bank>, r: Bank, hot: bool, k: Key, d: Chunk)
    requires nb > 0 && b < |bs| == nb && b == Home(nb, k) && Affine(nb, t)
    requires Inv(blks, b, t - {k}, r) && Log(r, hot).ptr < CHUNKS_PER_PAGE && CtrlShape(Log(r, hot))
    requires r.flash == bs[b].flash && r.hot.buf == bs[b].hot.buf && r.cold.buf == bs[b].cold.buf
    requires OthersInv(blks, b, t, bs)
    ensures var u, cs := t[k := Buf(b, hot, Log(r, hot).ptr)], bs[b := PutSlot(r, hot, k, d)];
      && (forall j: Key {:trigger Resolve(u, cs, j)} :: Resolve(u, cs, j) == if j == k then d else Resolve(t, bs, j))
      && Affine(nb, u) && OthersInv(blks, b, u, cs)
  {
    hide Inv, Fetch, ListShape;
    var u, cs := t[k := Buf(b, hot, Log(r, hot).ptr)], bs[b := PutSlot(r, hot, k, d)];
    PutOthers(blks, b, t, r, hot, k, d);
    SameFetch(bs[b], r);
    forall j: Key
      ensures Resolve(u, cs, j) == if j == k then d else Resolve(t, bs, j)
      ensures Look(u, j) != Invalid ==> Look(u, j).bank == Home(nb, j)
    {
      assert Look(u, j) == if j == k then Buf(b, hot, Log(r, hot).ptr) else Look(t, j);
    }
    forall j: nat {:trigger cs[j]} | j < nb && j != b
      ensures Inv(blks, j, u, cs[j])
    {
      assert forall i: Key {:trigger Look(u, i)} ::
        Look(u, i) == if i == k then Buf(b, hot, Log(r, hot).ptr) else Look(t, i);
      assert cs[j] == bs[j];
      InvElsewhere(blks, j, t, u, bs[j]);
    }
  }

  lemma SameFetch(s: Bank, r: Bank)
    requires r.flash == s.flash && r.hot.buf == s.hot.buf && r.cold.buf == s.cold.buf
    ensures forall l: Loc {:trigger Fetch(r, l)} {:trigger Fetch(s, l)} :: Fetch(r, l) == Fetch(s, l)
  {
  }

  // ---------- With eight banks no two chunks of a logical page share a flash page ----------

  lemma ChunksApart(nb: nat, t: Table, lpn: nat, i: nat, j: nat)
    requires nb >= 8 && Affine(nb, t) && i < j < CHUNKS_PER_PAGE
    requires Look(t, Key(lpn, i)) != Invalid && Look(t, Key(lpn, j)) != Invalid
    ensures Look(t, Key(lpn, i)).bank != Look(t, Key(lpn, j)).bank
  {
    Modular.CloseApart(lpn * CHUNKS_PER_PAGE + i, lpn * CHUNKS_PER_PAGE + j, nb);
  }

  // ---------- After formatting ----------

  function FreshCtrl(lbn: nat, usage: Usage): Ctrl {
    Ctrl(lbn, 0, EmptyList(), [AllOnes, AllOnes, AllOnes, AllOnes, AllOnes, AllOnes, AllOnes, AllOnes], 0,
         [None, None, None, None, None, None, None, None], usage, false, None, true)
  }

  /** A bank after ftl_open: block 0 is open for hot data, block 1 for cold data, the rest is clean. */
  function FreshBank(blks: nat): (s: Bank)
    requires blks >= 2
    ensures |s.flash| == blks && forall lbn: nat {:trigger s.flash[lbn]} ::
      lbn < blks ==> |s.flash[lbn]| == PAGES_PER_BLK
  {
    Bank(FreshCtrl(0, HotFirst), FreshCtrl(1, ColdLog),
         Init(blks, FIRST_USAGE_CHUNKS), Init(blks, SECOND_USAGE_CHUNKS), Init(blks, SECOND_USAGE_CHUNKS),
         seq(blks - 2, i requires 0 <= i => i + 2),
         Gc(GcIdle, 0, 0, [], [None, None, None, None, None, None, None, None], 0, 0, 0, false, []),
         seq(blks, _ => seq(PAGES_PER_BLK, _ => Erased)),
         Adaptive([1024, 1024, 1024, 1024, 1024], 8, 0, 0))
  }

  /** A freshly formatted bank has had no operation on its flash. */
  lemma FreshOnRecord(blks: nat)
    requires blks >= 2
    ensures Told(blks, [], FreshBank(blks).flash)
  {
    var flash := seq(blks, _ => seq(PAGES_PER_BLK, _ => Erased));
    NothingTold(blks);
    forall l: nat | l < blks
      ensures FreshBank(blks).flash[l] == flash[l]
    {
    }
    assert FreshBank(blks).flash == flash;
  }

  /** Blocks are handed out in order, the first two to the logs, and the threshold starts at 8 with no comparison
      made. */
  ghost predicate HandedOut(blks: nat, s: Bank) {
    && |s.clean| + 2 == blks && (forall i: nat {:trigger ([s.hot.lbn, s.cold.lbn] + s.clean)[i]} ::
         i < blks ==> ([s.hot.lbn, s.cold.lbn] + s.clean)[i] == i)
    && s.hot.usage == HotFirst && s.hot.page == s.cold.page == s.hot.ptr == s.cold.ptr == 0
    && s.adapt.hotFirst == 8 && s.adapt.ups == 0 && s.adapt.downs == 0
  }

  lemma FreshHandedOut(blks: nat)
    requires blks >= 2
    ensures HandedOut(blks, FreshBank(blks))
  {
  }

  lemma InitHeap(blks: nat, initial: nat)
    requires initial < U16
    ensures var h := Init(blks, initial);
      && HeapOk(blks, h) && h.n == 0
      && (forall lbn: nat {:trigger Val(h, lbn)} :: lbn < blks ==> Val(h, lbn) == initial)
      && (forall lbn: nat {:trigger In(h, lbn)} :: !In(h, lbn))
  {
  }

  lemma FreshRoles(blks: nat)
    requires blks >= 2
    ensures Partition(blks, FreshBank(blks))
    ensures forall lbn: nat {:trigger RoleOf(FreshBank(blks), lbn)} :: lbn < blks ==>
      RoleOf(FreshBank(blks), lbn) == if lbn == 0 then OpenHot else if lbn == 1 then OpenCold else Clean
  {
    hide HeapOk, Val, In, Init;
    var s := FreshBank(blks);
    InitHeap(blks, FIRST_USAGE_CHUNKS);
    InitHeap(blks, SECOND_USAGE_CHUNKS);
    forall lbn: nat {:trigger OneRole(s, lbn)} | lbn < blks
      ensures OneRole(s, lbn)
    {
      if lbn >= 2 {
        assert s.clean[lbn - 2] == lbn;
      }
    }
  }

  lemma FreshInv(blks: nat, b: nat)
    requires blks >= MIN_BLKS
    ensures Inv(blks, b, map[], FreshBank(blks)) && Settled(blks, FreshBank(blks))
    ensures OnTrack(FreshBank(blks).hot, [])
  {
    hide HeapOk, Val, In, Init, RoleOf, OneRole;
    var s := FreshBank(blks);
    var t: Table := map[];
    InitHeap(blks, FIRST_USAGE_CHUNKS);
    InitHeap(blks, SECOND_USAGE_CHUNKS);
    FreshRoles(blks);
    forall l: nat {:trigger Account(b, t, s, l)} | l < blks
      ensures Account(b, t, s, l)
    {
      assert Live(t, b, l) == {};
      assert RoleOf(s, l) == if l == 0 then OpenHot else if l == 1 then OpenCold else Clean;
    }
    forall l: nat {:trigger ListOf(s, l)} | l < blks
      ensures UniformList(ListOf(s, l)) && (RoleOf(s, l) == FirstHeap ==> ListShape(ListOf(s, l)))
    {
      assert RoleOf(s, l) == if l == 0 then OpenHot else if l == 1 then OpenCold else Clean;
      assert forall p: nat, i: nat {:trigger EntryAt(ListOf(s, l), p, i)} :: EntryAt(ListOf(s, l), p, i) == NoLpn;
    }
  }
}
