/** Runs of host writes: room for all the chunks of a run is room at each of its writes. */
module WriteRuns {
  import opened Heap
  import opened BankState
  import opened BankSteps
  import opened BankLog
  import opened BankHot
  import opened FtlSteps
  import opened DeviceSteps
  import opened HotRoom
  import opened Sides

  predicate AllCold(cmds: seq<Cmd>) {
    forall i: nat {:trigger cmds[i]} :: i < |cmds| ==> !cmds[i].hot
  }

  /** Every bank has room for its chunks, those that are written now included. */
  ghost predicate AllSpacious(nb: nat, blks: nat, t: Table, banks: seq<Bank>, cmds: seq<Cmd>) {
    nb > 0 && forall j: nat {:trigger banks[j]} :: j < nb && j < |banks| ==>
      Spacious(blks, banks[j], OfHome(Mapped(t) + Written(cmds), nb, j))
  }

  ghost predicate SameFirst(bs: seq<Bank>, cs: seq<Bank>) {
    |cs| == |bs| && forall j: nat {:trigger cs[j]} :: j < |cs| ==> cs[j].first.n == bs[j].first.n
  }

  predicate AllHot(cmds: seq<Cmd>) {
    forall i: nat {:trigger cmds[i]} :: i < |cmds| ==> cmds[i].hot
  }

  /** The most used-once blocks that a bank can have when, in such a run, it is down to two clean blocks and a log takes
      one of them. */
  function MostUsedOnce(s: Bank, cmds: seq<Cmd>): int {
    if AllHot(cmds) then MAX_HOT_FIRST else Bound(s.first.n, |s.clean|)
  }

  /** Every bank has room for its chunks, those that are written now included, with that many used-once blocks. */
  ghost predicate AllRoomy(nb: nat, blks: nat, t: Table, banks: seq<Bank>, cmds: seq<Cmd>) {
    nb > 0 && forall j: nat {:trigger banks[j]} :: j < nb && j < |banks| ==>
      |OfHome(Mapped(t) + Written(cmds), nb, j)| < SECOND_USAGE_CHUNKS * (blks - 3 - MostUsedOnce(banks[j], cmds))
  }

  ghost predicate BoundsKept(bs: seq<Bank>, cs: seq<Bank>) {
    |cs| == |bs| && forall j: nat {:trigger cs[j]} :: j < |cs| ==> BoundKept(bs[j], cs[j])
  }

  /** After n of the writes: the chunks of the device and, bank by bank, how many used-once blocks there may be. */
  ghost predicate SoFar(t: Table, bs: seq<Bank>, cmds: seq<Cmd>, n: nat, u: Table, cs: seq<Bank>)
    requires n <= |cmds|
  {
    Mapped(u) == Mapped(t) + Written(cmds[..n]) && (AllCold(cmds) ==> SameFirst(bs, cs)) && BoundsKept(bs, cs)
  }

  lemma NoneSoFar(t: Table, bs: seq<Bank>, cmds: seq<Cmd>)
    ensures SoFar(t, bs, cmds, 0, t, bs)
  {
    assert Written(cmds[..0]) == {};
  }

  lemma OneMoreSoFar(t: Table, bs: seq<Bank>, cmds: seq<Cmd>, n: nat, u: Table, cs: seq<Bank>, v: Table, ds: seq<Bank>,
      b: nat)
    requires n < |cmds| && SoFar(t, bs, cmds, n, u, cs) && Mapped(v) == Mapped(u) + {cmds[n].key}
    requires b < |cs| == |ds| && forall j: nat {:trigger ds[j]} :: j < |ds| && j != b ==> ds[j] == cs[j]
    requires !cmds[n].hot ==> ds[b].first.n == cs[b].first.n
    requires BoundKept(cs[b], ds[b])
    ensures SoFar(t, bs, cmds, n + 1, v, ds)
  {
    hide Mapped, BoundKept;
    assert forall i :: 0 <= i < n ==> cmds[..n + 1][i] == cmds[..n][i];
    assert Written(cmds[..n + 1]) == Written(cmds[..n]) + {cmds[n].key};
    forall j: nat {:trigger ds[j]} | j < |ds|
      ensures BoundKept(bs[j], ds[j])
    {
      assert BoundKept(bs[j], cs[j]);
      BoundTransitive(bs[j], cs[j], ds[j]);
    }
    if AllCold(cmds) {
      forall j: nat {:trigger ds[j]} | j < |ds|
        ensures ds[j].first.n == bs[j].first.n
      {
        assert cs[j].first.n == bs[j].first.n;
      }
    }
  }

  lemma MappedOneMore(t: Table, k: Key, l: Loc)
    requires l != Invalid
    ensures Mapped(t[k := l]) == Mapped(t) + {k}
  {
  }

  /** In the middle of such a run the bank has room for the next write. */
  lemma SpaciousWrite(nb: nat, blks: nat, t: Table, bs: seq<Bank>, u: Table, cs: seq<Bank>, cmds: seq<Cmd>, n: nat)
    requires n < |cmds| && AllCold(cmds) && |bs| == |cs| == nb && AllSpacious(nb, blks, t, bs, cmds)
    requires SoFar(t, bs, cmds, n, u, cs) && Affine(nb, u)
    ensures var k := cmds[n].key; var b := Home(nb, k);
      !cmds[n].hot && Spacious(blks, cs[b], ColdSide(b, u, cs[b]) + {k})
  {
    hide OnHot;
    var k := cmds[n].key;
    var b := Home(nb, k);
    var chunks := OfHome(Mapped(t) + Written(cmds), nb, b);
    assert k in Written(cmds) && Written(cmds[..n]) <= Written(cmds);
    assert cs[b].first.n == bs[b].first.n && Spacious(blks, bs[b], chunks);
    forall j | j in ColdSide(b, u, cs[b])
      ensures j in chunks
    {
      assert j in Mapped(u) && Look(u, j) != Invalid;
    }
    Subset(ColdSide(b, u, cs[b]) + {k}, chunks);
  }

  lemma WithoutOldKeeps(blks: nat, s: Bank, l: Loc)
    ensures var r := WithoutOld(blks, s, l);
      r.first.n == s.first.n && r.clean == s.clean && r.adapt == s.adapt && r.hot.usage == s.hot.usage
  {
    hide Ordered, DecrementByN;
  }

  /** When no used-once block is reused, there are at most 112. */
  lemma FewWhenNotReused(first: nat, used: nat, a: Adaptive, least: nat)
    requires a.hotFirst <= MAX_HOT_FIRST && !Reusing(first, used, a, least)
    ensures used <= MAX_HOT_FIRST
  {
    hide Sum;
  }

  /** The chunks of a bank, wherever they are, are among those of the run. */
  lemma ChunksWithin(nb: nat, b: nat, t: Table, s: Bank, chunks: set<Key>, k: Key)
    requires nb > 0 && Affine(nb, t) && b == Home(nb, k) && k in chunks
    requires forall j: Key {:trigger j in chunks} :: j in Mapped(t) && Home(nb, j) == b ==> j in chunks
    ensures ColdSide(b, t, s) <= chunks && HotOpen(b, t, s) <= chunks
  {
    hide OnHot, InHotLog, Home;
    forall j | j in ColdSide(b, t, s) || j in HotOpen(b, t, s)
      ensures j in chunks
    {
      assert Look(t, j) == t[j] && j in Mapped(t);
    }
  }

  /** With room for at most 112 used-once blocks, a hot write finds its next block. */
  lemma HotWriteFits(blks: nat, b: nat, t: Table, s: Bank, chunks: set<Key>, k: Key)
    requires ColdSide(b, t, s) <= chunks && HotOpen(b, t, s) <= chunks && k in chunks
    requires s.adapt.hotFirst <= MAX_HOT_FIRST && |chunks| < SECOND_USAGE_CHUNKS * (blks - 3 - MAX_HOT_FIRST)
    ensures WriteFits(blks, b, t, s, k)
  {
    hide ColdSide, HotOpen, Reusing, WithoutOld, VictimCount, LeastCount;
    var r := WithoutOld(blks, s, Look(t, k));
    var open, cold := HotOpen(b, t, s) + {k}, ColdSide(b, t, s) - {k};
    WithoutOldKeeps(blks, s, Look(t, k));
    Subset(cold, chunks);
    Subset(cold + open, chunks);
    if r.hot.usage == HotFirst {
      var first := Lower(VictimCount(r.first), |open| + HIGH_CHUNKS);
      if !Reusing(first, r.first.n + 1, r.adapt, LeastCount(r)) {
        FewWhenNotReused(first, r.first.n + 1, r.adapt, LeastCount(r));
      }
    } else if !Reusing(VictimCount(r.first), r.first.n, r.adapt, Lower(LeastCount(r), |open|)) {
      FewWhenNotReused(VictimCount(r.first), r.first.n, r.adapt, Lower(LeastCount(r), |open|));
    }
  }

  /** In the middle of a run of hot and cold writes the bank has room for the next one. */
  lemma RoomyWrite(nb: nat, blks: nat, t: Table, bs: seq<Bank>, u: Table, cs: seq<Bank>, cmds: seq<Cmd>, n: nat)
    requires n < |cmds| && |bs| == |cs| == nb && AllRoomy(nb, blks, t, bs, cmds)
    requires SoFar(t, bs, cmds, n, u, cs) && Affine(nb, u)
    requires AdaptiveOk(cs[Home(nb, cmds[n].key)])
    ensures var k := cmds[n].key; var b := Home(nb, k);
      && (cmds[n].hot ==> WriteFits(blks, b, u, cs[b], k))
      && (!cmds[n].hot ==> Fits(blks, cs[b], ColdSide(b, u, cs[b]) + {k}))
  {
    hide ColdSide, HotOpen, WriteFits, Mapped, Home;
    var k := cmds[n].key;
    var b := Home(nb, k);
    var chunks := OfHome(Mapped(t) + Written(cmds), nb, b);
    assert k in Written(cmds) && Written(cmds[..n]) <= Written(cmds);
    assert BoundKept(bs[b], cs[b]);
    ChunksWithin(nb, b, u, cs[b], chunks, k);
    if cmds[n].hot {
      HotWriteFits(blks, b, u, cs[b], chunks, k);
    } else {
      Subset(ColdSide(b, u, cs[b]) + {k}, chunks);
    }
  }
}
