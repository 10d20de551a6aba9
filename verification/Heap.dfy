/** The valid-chunks heap of one bank as a value, and every operation of heap.c as a
    function on it. Elements occupy positions 1 to |els|; the first n positions form a
    binary min-heap on the counter, the others hold the blocks that are not in the heap.
    pos is the inverse index: it maps a block number to its position. */
module Heap {

  const U16: nat := 65536
  const INVALID: nat := 0xFFFF_FFFF

  datatype El = El(value: nat, lbn: nat)
  datatype HeapState = HeapState(els: seq<El>, pos: seq<nat>, n: nat)

  function At(h: HeapState, p: int): El {
    if 1 <= p <= |h.els| then h.els[p - 1] else El(0, 0)
  }

  function Pos(h: HeapState, lbn: int): nat {
    if 0 <= lbn < |h.pos| then h.pos[lbn] else 0
  }

  /** The position index is the exact inverse of the element array, over all blocks. */
  ghost predicate Valid(h: HeapState) {
    && |h.els| == |h.pos| && h.n <= |h.els|
    && (forall lbn: nat {:trigger Pos(h, lbn)} :: lbn < |h.pos| ==>
      1 <= Pos(h, lbn) <= |h.els| && At(h, Pos(h, lbn)).lbn == lbn)
    && (forall p: nat {:trigger At(h, p)} :: 1 <= p <= |h.els| ==>
      At(h, p).value < U16 && At(h, p).lbn < |h.pos| && Pos(h, At(h, p).lbn) == p)
  }

  // What a heap stands for: a counter for every block and the set of blocks present.

  function Val(h: HeapState, lbn: nat): nat {
    At(h, Pos(h, lbn)).value
  }

  predicate In(h: HeapState, lbn: nat) {
    1 <= Pos(h, lbn) <= h.n
  }

  /** The element at p is not smaller than the one at its parent's position. */
  predicate Up(h: HeapState, p: nat) {
    At(h, p / 2).value <= At(h, p).value
  }

  ghost predicate Ordered(h: HeapState) {
    forall p: nat {:trigger Up(h, p)} :: 2 <= p <= h.n ==> Up(h, p)
  }

  /** Same counters, same present blocks, and the same places outside the heap. */
  ghost predicate Same(g: HeapState, h: HeapState) {
    && |g.pos| == |h.pos| && |g.els| == |h.els| && g.n == h.n
    && (forall lbn: nat {:trigger Pos(h, lbn)} :: lbn < |g.pos| ==>
      && At(h, Pos(h, lbn)).value == At(g, Pos(g, lbn)).value
      && (Pos(h, lbn) <= h.n <==> Pos(g, lbn) <= g.n)
      && (Pos(h, lbn) > h.n ==> Pos(h, lbn) == Pos(g, lbn)))
  }

  // ---------- Operations ----------

  function SetEl(h: HeapState, p: nat, value: nat): (r: HeapState)
    requires Valid(h) && 1 <= p <= |h.els| && value < U16
    ensures r.n == h.n && |r.els| == |h.els| && r.pos == h.pos
    ensures forall x: nat {:trigger At(r, x)} ::
      At(r, x) == if x == p then At(h, p).(value := value) else At(h, x)
    ensures Valid(r)
  {
    var r := h.(els := h.els[p - 1 := At(h, p).(value := value)]);
    assert forall lbn: nat {:trigger Pos(r, lbn)} :: Pos(r, lbn) == Pos(h, lbn);
    r
  }

  function Other(p: nat, q: nat, x: nat): nat {
    if x == p then q else if x == q then p else x
  }

  function Swap(h: HeapState, p: nat, q: nat): (r: HeapState)
    requires Valid(h) && 1 <= p <= |h.els| && 1 <= q <= |h.els|
    ensures r.n == h.n && |r.els| == |h.els| && |r.pos| == |h.pos|
    ensures forall x: nat {:trigger At(r, x)} :: 1 <= x <= |h.els| ==> At(r, x) == At(h, Other(p, q, x))
    ensures forall lbn: nat {:trigger Pos(r, lbn)} :: lbn < |h.pos| ==> Pos(r, lbn) == Other(p, q, Pos(h, lbn))
    ensures Valid(r)
  {
    var a, c := At(h, p), At(h, q);
    var r := HeapState(h.els[p - 1 := c][q - 1 := a], h.pos[a.lbn := q][c.lbn := p], h.n);
    assert forall x: nat {:trigger At(r, x)} :: 1 <= x <= |h.els| ==> At(r, x) == At(h, Other(p, q, x));
    assert forall lbn: nat {:trigger Pos(r, lbn)} :: lbn < |h.pos| ==> Pos(r, lbn) == Other(p, q, Pos(h, lbn));
    r
  }

  lemma SwapInHeapSame(h: HeapState, p: nat, q: nat)
    requires Valid(h) && 1 <= p <= h.n && 1 <= q <= h.n
    ensures Same(h, Swap(h, p, q))
  {
    var r := Swap(h, p, q);
    assert forall lbn: nat {:trigger Pos(r, lbn)} :: lbn < |h.pos| ==> At(r, Pos(r, lbn)) == At(h, Pos(h, lbn));
  }

  lemma SameTransitive(f: HeapState, g: HeapState, h: HeapState)
    requires Same(f, g) && Same(g, h)
    ensures Same(f, h)
  {
    assert forall lbn: nat {:trigger Pos(h, lbn)} ::
      lbn < |f.pos| ==> At(h, Pos(h, lbn)).value == At(g, Pos(g, lbn)).value;
  }

  function BubbleUp(h: HeapState, p: nat): (r: HeapState)
    requires Valid(h) && 1 <= p <= h.n
    ensures Valid(r) && Same(h, r)
    decreases p
  {
    if p == 1 || At(h, p / 2).value <= At(h, p).value then h
    else
      var s := Swap(h, p, p / 2);
      var r := BubbleUp(s, p / 2);
      SwapInHeapSame(h, p, p / 2);
      SameTransitive(h, s, r);
      r
  }

  /** The child that the element at p is compared and swapped with: the smaller one, the right one on a tie. */
  function SmallChild(h: HeapState, p: nat): nat {
    if 2 * p + 1 > h.n || At(h, 2 * p).value < At(h, 2 * p + 1).value then 2 * p else 2 * p + 1
  }

  function BubbleDown(h: HeapState, p: nat): (r: HeapState)
    requires Valid(h) && 1 <= p
    ensures Valid(r) && Same(h, r)
    decreases |h.els| - p
  {
    var c := SmallChild(h, p);
    if 2 * p > h.n || At(h, p).value <= At(h, c).value then h
    else
      var s := Swap(h, p, c);
      var r := BubbleDown(s, c);
      SwapInHeapSame(h, p, c);
      SameTransitive(h, s, r);
      r
  }

  /** The heap in which block i stands at position i + 1 with counter values[i], the first n present. */
  function InPlace(values: seq<nat>, n: nat): (r: HeapState)
    requires n <= |values| && forall i :: 0 <= i < |values| ==> values[i] < U16
    ensures Valid(r) && r.n == n && |r.pos| == |values|
    ensures forall p: nat {:trigger At(r, p)} :: 1 <= p <= |values| ==> At(r, p) == El(values[p - 1], p - 1)
    ensures forall lbn: nat {:trigger Pos(r, lbn)} :: lbn < |values| ==> Pos(r, lbn) == lbn + 1
  {
    var r := HeapState(seq(|values|, i requires 0 <= i < |values| => El(values[i], i)),
      seq(|values|, i requires 0 <= i => i + 1), n);
    assert forall lbn: nat {:trigger Pos(r, lbn)} :: lbn < |values| ==> Pos(r, lbn) == lbn + 1;
    assert forall p: nat {:trigger At(r, p)} :: 1 <= p <= |values| ==> At(r, p) == El(values[p - 1], p - 1);
    r
  }

  /** ValidChunksHeapInit: every block at its initial counter, none present. */
  function Init(blks: nat, initial: nat): HeapState
    requires initial < U16
  {
    InPlace(seq(blks, _ => initial), 0)
  }

  /** Subtraction of 16-bit counters: it wraps below zero. */
  function Minus16(value: nat, n: nat): nat {
    (value - n) % U16
  }

  function Plus16(value: nat, n: nat): nat {
    (value + n) % U16
  }

  function DecrementByN(h: HeapState, lbn: nat, n: nat): (r: HeapState)
    requires Valid(h) && lbn < |h.pos|
    ensures Valid(r) && r.n == h.n && |r.pos| == |h.pos|
  {
    var p := Pos(h, lbn);
    var g := SetEl(h, p, Minus16(At(h, p).value, n));
    if p <= h.n then BubbleUp(g, p) else g
  }

  function IncrementByN(h: HeapState, lbn: nat, n: nat): (r: HeapState)
    requires Valid(h) && lbn < |h.pos|
    ensures Valid(r) && r.n == h.n && |r.pos| == |h.pos|
  {
    var p := Pos(h, lbn);
    var g := SetEl(h, p, Plus16(At(h, p).value, n));
    if p <= h.n then BubbleDown(g, p) else g
  }

  /** decrementValidChunksAllByN: every present counter loses n, down to zero at least. */
  function DecrementAllByN(h: HeapState, n: nat): (r: HeapState)
    requires Valid(h)
    ensures |r.els| == |h.els| && r.pos == h.pos && r.n == h.n
    ensures forall p: nat {:trigger At(r, p)} :: 1 <= p <= |h.els| ==>
      At(r, p) ==
        At(h, p).(value := if p > h.n then At(h, p).value else if At(h, p).value > n then At(h, p).value - n else 0)
    ensures Valid(r)
  {
    var r := h.(els := seq(|h.els|, i requires 0 <= i < |h.els| =>
      h.els[i].(value := if i >= h.n then h.els[i].value else if h.els[i].value > n then h.els[i].value - n else 0)));
    assert forall p: nat {:trigger At(r, p)} :: 1 <= p <= |h.els| ==>
      At(r, p) ==
        At(h, p).(value := if p > h.n then At(h, p).value else if At(h, p).value > n then At(h, p).value - n else 0);
    assert forall lbn: nat {:trigger Pos(r, lbn)} :: Pos(r, lbn) == Pos(h, lbn);
    r
  }

  function SetValue(h: HeapState, lbn: nat, value: nat): (r: HeapState)
    requires Valid(h) && lbn < |h.pos| && value < U16
    ensures Valid(r) && r.n == h.n && |r.pos| == |h.pos|
  {
    SetEl(h, Pos(h, lbn), value)
  }

  function ResetAndRemove(h: HeapState, lbn: nat, initial: nat): (r: HeapState)
    requires Valid(h) && lbn < |h.pos| && initial < U16
    ensures Valid(r) && |r.pos| == |h.pos|
    ensures r.n == if In(h, lbn) then h.n - 1 else h.n
  {
    var p := Pos(h, lbn);
    var g := SetEl(h, p, initial);
    if p <= h.n then BubbleDown(Shrunk(Swap(g, p, h.n)), p) else g
  }

  function Shrunk(h: HeapState): (r: HeapState)
    requires Valid(h) && h.n > 0
    ensures Valid(r) && r.pos == h.pos && r.els == h.els && r.n == h.n - 1
  {
    var r := h.(n := h.n - 1);
    assert forall lbn: nat {:trigger Pos(r, lbn)} :: Pos(r, lbn) == Pos(h, lbn);
    assert forall p: nat {:trigger At(r, p)} :: At(r, p) == At(h, p);
    r
  }

  function Grown(h: HeapState): (r: HeapState)
    requires Valid(h) && h.n < |h.els|
    ensures Valid(r) && r.pos == h.pos && r.els == h.els && r.n == h.n + 1
  {
    var r := h.(n := h.n + 1);
    assert forall lbn: nat {:trigger Pos(r, lbn)} :: Pos(r, lbn) == Pos(h, lbn);
    assert forall p: nat {:trigger At(r, p)} :: At(r, p) == At(h, p);
    r
  }

  function Insert(h: HeapState, lbn: nat): (r: HeapState)
    requires Valid(h) && lbn < |h.pos| && (!In(h, lbn) || h.n < |h.els|)
    ensures Valid(r) && |r.pos| == |h.pos| && r.n == h.n + 1
  {
    assert 1 <= Pos(h, lbn) <= |h.els|;
    var g := Grown(h);
    BubbleUp(Swap(g, Pos(h, lbn), g.n), g.n)
  }

  function Victim(h: HeapState): nat {
    At(h, 1).lbn
  }

  /** The counter of the victim, or INVALID when the heap is empty. */
  function VictimCount(h: HeapState): nat {
    if h.n > 0 then At(h, 1).value else INVALID
  }

  // ---------- What the operations mean for the counters ----------

  /** h is g with the counter of lbn set to value; the blocks present are the same. */
  ghost predicate Updated(g: HeapState, h: HeapState, lbn: nat, value: nat) {
    && |g.pos| == |h.pos| && g.n == h.n && Val(h, lbn) == value && (In(h, lbn) <==> In(g, lbn))
    && (forall l: nat {:trigger Val(h, l)} :: l < |g.pos| && l != lbn ==> Val(h, l) == Val(g, l))
    && (forall l: nat {:trigger In(h, l)} :: l < |g.pos| ==> (In(h, l) <==> In(g, l)))
  }

  lemma SameThenUpdated(h: HeapState, g: HeapState, r: HeapState, lbn: nat, value: nat)
    requires Valid(h) && Valid(r) && lbn < |h.pos| && value < U16
    requires g == SetEl(h, Pos(h, lbn), value) && Same(g, r)
    ensures Updated(h, r, lbn, value)
  {
    forall l: nat | l < |h.pos|
      ensures Val(r, l) == (if l == lbn then value else Val(h, l)) && (In(r, l) <==> In(h, l))
    {
      assert Pos(r, l) > 0 && Pos(g, l) == Pos(h, l);
      assert At(h, Pos(h, l)).lbn == l && At(h, Pos(h, lbn)).lbn == lbn;
    }
  }

  /** The root of an ordered heap has a least counter. */
  lemma {:induction false} RootIsLeast(h: HeapState, p: nat)
    requires Valid(h) && Ordered(h) && 1 <= p <= h.n
    ensures At(h, 1).value <= At(h, p).value
    decreases p
  {
    if p > 1 {
      assert Up(h, p);
      RootIsLeast(h, p / 2);
    }
  }

  /** Heap order except between p and its parent; p's children respect p's parent. */
  ghost predicate OrderedBut(h: HeapState, p: nat) {
    && (forall q: nat {:trigger Up(h, q)} :: 2 <= q <= h.n && q != p ==> Up(h, q))
    && (p >= 2 ==> Skips(h, p))
  }

  /** Heap order except between p and its children, which respect p's parent. */
  ghost predicate OrderedBelowBut(h: HeapState, p: nat) {
    && (forall q: nat {:trigger Up(h, q)} :: 2 <= q <= h.n && q / 2 != p ==> Up(h, q))
    && (p >= 2 ==> Skips(h, p))
  }

  /** The children of p are not smaller than p's parent. */
  ghost predicate Skips(h: HeapState, p: nat) {
    && (2 * p <= h.n ==> At(h, p / 2).value <= At(h, 2 * p).value)
    && (2 * p + 1 <= h.n ==> At(h, p / 2).value <= At(h, 2 * p + 1).value)
  }

  /** One step of bubbleUp moves the only possible disorder from p to its parent f. */
  lemma BubbleUpStep(h: HeapState, s: HeapState, p: nat, f: nat)
    requires 2 <= p <= h.n <= |h.els| && OrderedBut(h, p) && !Up(h, p) && s.n == h.n && f == p / 2
    requires forall x: nat {:trigger At(s, x)} :: 1 <= x <= |h.els| ==> At(s, x) == At(h, Other(p, f, x))
    ensures OrderedBut(s, f)
  {
    forall q: nat {:trigger Up(s, q)} | 2 <= q <= h.n && q != f
      ensures Up(s, q)
    {
      if q != p {
        assert Up(h, q);
        assert At(s, q) == At(h, q);
        assert q / 2 == p ==> q == 2 * p || q == 2 * p + 1;
      }
    }
    if f >= 2 {
      assert Up(h, f) && At(s, f / 2) == At(h, f / 2);
      assert 2 * f != p ==> Up(h, 2 * f) && At(s, 2 * f) == At(h, 2 * f);
      assert 2 * f + 1 != p && 2 * f + 1 <= h.n ==> Up(h, 2 * f + 1) && At(s, 2 * f + 1) == At(h, 2 * f + 1);
    }
  }

  lemma {:induction false} BubbleUpOrders(h: HeapState, p: nat)
    requires Valid(h) && 1 <= p <= h.n && OrderedBut(h, p)
    ensures Ordered(BubbleUp(h, p))
    decreases p
  {
    if p > 1 && !Up(h, p) {
      BubbleUpStep(h, Swap(h, p, p / 2), p, p / 2);
      BubbleUpOrders(Swap(h, p, p / 2), p / 2);
    }
  }

  /** One step of bubbleDown moves the only possible disorder from p to the smaller child. */
  lemma BubbleDownStep(h: HeapState, s: HeapState, p: nat, c: nat)
    requires 1 <= p && 2 * p <= h.n <= |h.els| && OrderedBelowBut(h, p) && s.n == h.n
    requires c == SmallChild(h, p) && At(h, p).value > At(h, c).value
    requires forall x: nat {:trigger At(s, x)} :: 1 <= x <= |h.els| ==> At(s, x) == At(h, Other(p, c, x))
    ensures OrderedBelowBut(s, c)
  {
    forall q: nat {:trigger Up(s, q)} | 2 <= q <= h.n && q / 2 != c
      ensures Up(s, q)
    {
      assert q / 2 != p ==> Up(h, q);
    }
    assert 2 * c <= h.n ==> Up(h, 2 * c);
    assert 2 * c + 1 <= h.n ==> Up(h, 2 * c + 1);
  }

  lemma BubbleDownStop(h: HeapState, p: nat)
    requires 1 <= p && OrderedBelowBut(h, p)
    requires 2 * p > h.n || At(h, p).value <= At(h, SmallChild(h, p)).value
    ensures Ordered(h)
  {
    forall q: nat {:trigger Up(h, q)} | 2 <= q <= h.n
      ensures Up(h, q)
    {
      assert q == 2 * (q / 2) || q == 2 * (q / 2) + 1;
    }
  }

  lemma {:induction false} BubbleDownOrders(h: HeapState, p: nat)
    requires Valid(h) && 1 <= p && OrderedBelowBut(h, p)
    ensures Ordered(BubbleDown(h, p))
    decreases |h.els| - p
  {
    var c := SmallChild(h, p);
    if 2 * p <= h.n && At(h, p).value > At(h, c).value {
      BubbleDownStep(h, Swap(h, p, c), p, c);
      BubbleDownOrders(Swap(h, p, c), c);
    } else {
      BubbleDownStop(h, p);
    }
  }

  lemma LoweredAt(h: HeapState, g: HeapState, p: nat)
    requires Ordered(h) && g.n == h.n && 1 <= p <= h.n && At(g, p).value <= At(h, p).value
    requires forall x: nat {:trigger At(g, x)} :: x != p ==> At(g, x) == At(h, x)
    ensures OrderedBut(g, p)
  {
    forall q: nat {:trigger Up(g, q)} | 2 <= q <= h.n && q != p
      ensures Up(g, q)
    {
      assert Up(h, q);
    }
    if p >= 2 {
      assert Up(h, p) && (2 * p > h.n || Up(h, 2 * p)) && (2 * p + 1 > h.n || Up(h, 2 * p + 1));
    }
  }

  lemma RaisedAt(h: HeapState, g: HeapState, p: nat)
    requires Ordered(h) && g.n == h.n && 1 <= p && (p > h.n || At(g, p).value >= At(h, p).value)
    requires forall x: nat {:trigger At(g, x)} :: x != p ==> At(g, x) == At(h, x)
    ensures if p <= h.n then OrderedBelowBut(g, p) else Ordered(g)
  {
    forall q: nat {:trigger Up(g, q)} | 2 <= q <= h.n && q / 2 != p
      ensures Up(g, q)
    {
      assert Up(h, q);
    }
    if 2 <= p <= h.n {
      assert Up(h, p) && (2 * p > h.n || Up(h, 2 * p)) && (2 * p + 1 > h.n || Up(h, 2 * p + 1));
    }
  }

  lemma DecrementMeaning(h: HeapState, lbn: nat, n: nat)
    requires Valid(h) && Ordered(h) && lbn < |h.pos|
    requires In(h, lbn) ==> n <= Val(h, lbn)
    ensures Ordered(DecrementByN(h, lbn, n))
    ensures Updated(h, DecrementByN(h, lbn, n), lbn, Minus16(Val(h, lbn), n))
    ensures !In(h, lbn) ==> DecrementByN(h, lbn, n).pos == h.pos
  {
    var p := Pos(h, lbn);
    var g := SetEl(h, p, Minus16(Val(h, lbn), n));
    SameThenUpdated(h, g, DecrementByN(h, lbn, n), lbn, Minus16(Val(h, lbn), n));
    if p <= h.n {
      LoweredAt(h, g, p);
      BubbleUpOrders(g, p);
    } else {
      RaisedAt(h, g, p);
    }
  }

  lemma IncrementMeaning(h: HeapState, lbn: nat, n: nat)
    requires Valid(h) && Ordered(h) && lbn < |h.pos|
    requires Val(h, lbn) + n < U16
    ensures Ordered(IncrementByN(h, lbn, n))
    ensures Updated(h, IncrementByN(h, lbn, n), lbn, Val(h, lbn) + n)
    ensures !In(h, lbn) ==> IncrementByN(h, lbn, n).pos == h.pos
  {
    var p := Pos(h, lbn);
    var g := SetEl(h, p, Plus16(Val(h, lbn), n));
    SameThenUpdated(h, g, IncrementByN(h, lbn, n), lbn, Plus16(Val(h, lbn), n));
    RaisedAt(h, g, p);
    if p <= h.n {
      BubbleDownOrders(g, p);
    }
  }

  lemma SwapMoves(h: HeapState, p: nat, q: nat)
    requires Valid(h) && 1 <= p <= |h.els| && 1 <= q <= |h.els|
    ensures forall l: nat {:trigger Val(Swap(h, p, q), l)} :: l < |h.pos| ==> Val(Swap(h, p, q), l) == Val(h, l)
  {
    var s := Swap(h, p, q);
    forall l: nat | l < |h.pos|
      ensures Val(s, l) == Val(h, l)
    {
      assert Pos(s, l) == Other(p, q, Pos(h, l)) && At(s, Pos(s, l)) == At(h, Pos(h, l));
    }
  }

  lemma BubbleUpKeeps(h: HeapState, p: nat)
    requires Valid(h) && 1 <= p <= h.n
    ensures forall l: nat {:trigger Val(BubbleUp(h, p), l)} :: l < |h.pos| ==> Val(BubbleUp(h, p), l) == Val(h, l)
    ensures forall l: nat {:trigger In(BubbleUp(h, p), l)} :: l < |h.pos| ==> (In(BubbleUp(h, p), l) <==> In(h, l))
  {
    var r := BubbleUp(h, p);
    assert Valid(r) && Same(h, r);
    assert forall l: nat {:trigger Pos(r, l)} :: l < |h.pos| ==> Pos(r, l) >= 1 && Pos(h, l) >= 1;
  }

  lemma BubbleDownKeeps(h: HeapState, p: nat)
    requires Valid(h) && 1 <= p
    ensures forall l: nat {:trigger Val(BubbleDown(h, p), l)} :: l < |h.pos| ==> Val(BubbleDown(h, p), l) == Val(h, l)
    ensures forall l: nat {:trigger In(BubbleDown(h, p), l)} :: l < |h.pos| ==> (In(BubbleDown(h, p), l) <==> In(h, l))
  {
    var r := BubbleDown(h, p);
    assert Valid(r) && Same(h, r);
    assert forall l: nat {:trigger Pos(r, l)} :: l < |h.pos| ==> Pos(r, l) >= 1 && Pos(h, l) >= 1;
  }

  /** h is g without lbn, whose counter outside the heap is value. */
  ghost predicate Removed(g: HeapState, h: HeapState, lbn: nat, value: nat) {
    && |g.pos| == |h.pos| && Val(h, lbn) == value && !In(h, lbn)
    && h.n == (if In(g, lbn) then g.n - 1 else g.n)
    && (forall l: nat {:trigger Val(h, l)} :: l < |g.pos| && l != lbn ==> Val(h, l) == Val(g, l))
    && (forall l: nat {:trigger In(h, l)} :: l < |g.pos| && l != lbn ==> (In(h, l) <==> In(g, l)))
  }

  lemma RemoveMeaning(h: HeapState, lbn: nat, value: nat)
    requires Valid(h) && lbn < |h.pos| && value < U16
    ensures Removed(h, ResetAndRemove(h, lbn, value), lbn, value)
    ensures !In(h, lbn) ==> ResetAndRemove(h, lbn, value).pos == h.pos
  {
    hide Same, Swap, BubbleDown, Val, Valid;
    var p := Pos(h, lbn);
    SetUpdates(h, lbn, value);
    if p <= h.n {
      PosBound(h, lbn);
      var s := Swap(SetEl(h, p, value), p, h.n);
      SwapMoves(SetEl(h, p, value), p, h.n);
      SwapLeaves(h, SetEl(h, p, value), lbn);
      ShrunkKeeps(s);
      BubbleDownKeeps(Shrunk(s), p);
    }
  }

  lemma PosBound(h: HeapState, lbn: nat)
    requires Valid(h) && lbn < |h.pos|
    ensures 1 <= Pos(h, lbn) <= |h.els| && h.n <= |h.els|
  {
  }

  lemma SetUpdates(h: HeapState, lbn: nat, value: nat)
    requires Valid(h) && lbn < |h.pos| && value < U16
    ensures 1 <= Pos(h, lbn) <= |h.els| && Updated(h, SetEl(h, Pos(h, lbn), value), lbn, value)
  {
    assert 1 <= Pos(h, lbn) <= |h.els|;
    var g := SetEl(h, Pos(h, lbn), value);
    SameThenUpdated(h, g, g, lbn, value);
  }

  lemma ShrunkKeeps(h: HeapState)
    requires Valid(h) && h.n > 0
    ensures forall l: nat {:trigger Val(Shrunk(h), l)} :: Val(Shrunk(h), l) == Val(h, l)
    ensures forall l: nat {:trigger In(Shrunk(h), l)} :: In(Shrunk(h), l) <==> 1 <= Pos(h, l) < h.n
  {
  }

  lemma SwapLeaves(h: HeapState, g: HeapState, lbn: nat)
    requires Valid(h) && Valid(g) && lbn < |h.pos| && g.pos == h.pos && |g.els| == |h.els| && g.n == h.n && In(h, lbn)
    ensures 1 <= Pos(h, lbn) <= |h.els|
    ensures var s := Swap(g, Pos(h, lbn), h.n);
      forall l: nat {:trigger Pos(s, l)} :: l < |h.pos| ==> (1 <= Pos(s, l) < h.n <==> In(h, l) && l != lbn)
  {
    hide Swap, Same;
    assert At(h, Pos(h, lbn)).lbn == lbn;
    var s := Swap(g, Pos(h, lbn), h.n);
    forall l: nat | l < |h.pos|
      ensures 1 <= Pos(s, l) < h.n <==> In(h, l) && l != lbn
    {
      assert Pos(s, l) == Other(Pos(h, lbn), h.n, Pos(h, l)) && At(h, Pos(h, l)).lbn == l;
    }
  }

  /** The heap that removal hands to bubbleDown: the last element now stands at p. */
  ghost predicate Replaced(h: HeapState, k: HeapState, p: nat) {
    && 1 <= p <= h.n <= |h.els| && k.n == h.n - 1
    && (forall x: nat {:trigger At(k, x)} :: 1 <= x <= k.n ==> At(k, x) == At(h, if x == p then h.n else x))
  }

  lemma ReplacedOrder(h: HeapState, k: HeapState, p: nat)
    requires Ordered(h) && Replaced(h, k, p)
    requires p == h.n || p == 1 || At(h, p / 2).value <= At(h, h.n).value
    ensures p == h.n ==> Ordered(k)
    ensures p < h.n && At(h, h.n).value >= At(h, p).value ==> OrderedBelowBut(k, p)
    ensures p < h.n && At(h, h.n).value < At(h, p).value ==> Ordered(k)
  {
    forall q: nat {:trigger Up(k, q)} | 2 <= q <= k.n
      ensures (p == h.n || q / 2 != p) ==> Up(k, q)
      ensures At(h, h.n).value < At(h, p).value ==> Up(k, q)
    {
      assert Up(h, q);
    }
    if 2 <= p < h.n {
      assert Up(h, p) && (2 * p > h.n || Up(h, 2 * p)) && (2 * p + 1 > h.n || Up(h, 2 * p + 1));
    }
  }

  lemma {:induction false} RemoveKeepsOrder(h: HeapState, lbn: nat, value: nat)
    requires Valid(h) && Ordered(h) && lbn < |h.pos| && value < U16
    requires var p := Pos(h, lbn); p >= h.n || p == 1 || At(h, p / 2).value <= At(h, h.n).value
    ensures Ordered(ResetAndRemove(h, lbn, value))
  {
    var p := Pos(h, lbn);
    var g := SetEl(h, p, value);
    if p > h.n {
      RaisedAt(h, g, p);
    } else {
      var k := Shrunk(Swap(g, p, h.n));
      assert Replaced(h, k, p);
      ReplacedOrder(h, k, p);
      BubbleDownFromOrder(k, p);
    }
  }

  lemma BubbleDownFromOrder(k: HeapState, p: nat)
    requires Valid(k) && 1 <= p && (Ordered(k) || OrderedBelowBut(k, p))
    ensures Ordered(BubbleDown(k, p))
  {
    if !Ordered(k) {
      BubbleDownOrders(k, p);
    } else if 2 * p <= k.n {
      var c := SmallChild(k, p);
      assert Up(k, c) && c / 2 == p;
    }
  }

  /** A moved element smaller than its new parent is smaller than all below it: it stays, out of order. */
  lemma ReplacedStays(h: HeapState, k: HeapState, p: nat)
    requires Ordered(h) && Replaced(h, k, p)
    requires 2 <= p < h.n && At(h, p / 2).value > At(h, h.n).value
    ensures !Up(k, p) && (2 * p > k.n || At(k, p).value <= At(k, SmallChild(k, p)).value)
  {
    assert Up(h, p);
    if 2 * p <= k.n {
      var c := SmallChild(k, p);
      assert Up(h, c) && c / 2 == p;
    }
  }

  /** resetValidChunksAndRemove only bubbles down, and this is exactly when that is enough:
      the removed element was the last, or the root, or its parent is not greater than the
      last element, which takes its place. */
  lemma RemoveKeepsOrderExactly(h: HeapState, lbn: nat, value: nat)
    requires Valid(h) && Ordered(h) && In(h, lbn) && value < U16
    ensures Ordered(ResetAndRemove(h, lbn, value)) <==>
      (Pos(h, lbn) == h.n || Pos(h, lbn) == 1 || At(h, Pos(h, lbn) / 2).value <= At(h, h.n).value)
  {
    var p := Pos(h, lbn);
    if p == h.n || p == 1 || At(h, p / 2).value <= At(h, h.n).value {
      RemoveKeepsOrder(h, lbn, value);
    } else {
      var k := Shrunk(Swap(SetEl(h, p, value), p, h.n));
      assert Replaced(h, k, p);
      ReplacedStays(h, k, p);
      assert BubbleDown(k, p) == k && !Up(k, p);
    }
  }

  /** At positions 1, 2 and 3 removal always keeps the order. */
  lemma RemoveNearRootKeepsOrder(h: HeapState, lbn: nat, value: nat)
    requires Valid(h) && Ordered(h) && lbn < |h.pos| && value < U16 && Pos(h, lbn) <= 3
    ensures Ordered(ResetAndRemove(h, lbn, value))
  {
    if In(h, lbn) {
      RootIsLeast(h, h.n);
    }
    RemoveKeepsOrder(h, lbn, value);
  }

  /** The condition is needed: removing block 3 from this heap of six puts 2 below 10. */
  lemma RemoveCanBreakOrder()
    ensures exists h: HeapState, lbn: nat ::
      Valid(h) && Ordered(h) && In(h, lbn) && !Ordered(ResetAndRemove(h, lbn, 1016))
  {
    var h := InPlace([0, 10, 1, 11, 12, 2], 6);
    forall q: nat {:trigger Up(h, q)} | 2 <= q <= 6
      ensures Up(h, q)
    {
      assert q == 2 || q == 3 || q == 4 || q == 5 || q == 6;
    }
    assert Pos(h, 3) == 4 && At(h, 4 / 2).value == 10 && At(h, 6).value == 2;
    RemoveKeepsOrderExactly(h, 3, 1016);
  }

  // ---------- Insertion ----------

  /** h is g with the block lbn inserted. */
  ghost predicate Inserted(g: HeapState, h: HeapState, lbn: nat) {
    && |g.pos| == |h.pos| && h.n == g.n + 1 && In(h, lbn)
    && (forall l: nat {:trigger Val(h, l)} :: l < |g.pos| ==> Val(h, l) == Val(g, l))
    && (forall l: nat {:trigger In(h, l)} :: l < |g.pos| && l != lbn ==> (In(h, l) <==> In(g, l)))
  }

  /** The block that an insertion of lbn brings in: lbn itself, unless it was in already; then it is the first block
      outside the heap, with which lbn changes places. */
  function Entering(h: HeapState, lbn: nat): nat {
    if In(h, lbn) then At(h, h.n + 1).lbn else lbn
  }

  lemma InsertBrings(h: HeapState, lbn: nat)
    requires Valid(h) && lbn < |h.pos| && (!In(h, lbn) || h.n < |h.els|)
    ensures Inserted(h, Insert(h, lbn), Entering(h, lbn))
  {
    hide Same, Swap, BubbleUp, Grown, Val;
    assert 1 <= Pos(h, lbn) <= |h.els| && At(h, Pos(h, lbn)).lbn == lbn;
    var g := Grown(h);
    SwapMoves(g, Pos(h, lbn), g.n);
    SwapEnters(h, g, lbn);
    BubbleUpKeeps(Swap(g, Pos(h, lbn), g.n), g.n);
    GrownKeeps(h);
  }

  lemma GrownKeeps(h: HeapState)
    requires Valid(h) && h.n < |h.els|
    ensures forall l: nat {:trigger Val(Grown(h), l)} :: Val(Grown(h), l) == Val(h, l)
  {
  }

  lemma SwapEnters(h: HeapState, g: HeapState, lbn: nat)
    requires Valid(h) && Valid(g) && lbn < |h.pos| && g.pos == h.pos && g.els == h.els && g.n == h.n + 1
    ensures 1 <= Pos(h, lbn) <= |h.els| && Entering(h, lbn) < |h.pos|
    ensures var s := Swap(g, Pos(h, lbn), g.n);
      forall l: nat {:trigger In(s, l)} :: l < |h.pos| ==> (In(s, l) <==> In(h, l) || l == Entering(h, lbn))
  {
    hide Swap, Same;
    assert At(h, Pos(h, lbn)).lbn == lbn && At(h, g.n) == At(g, g.n);
    var s := Swap(g, Pos(h, lbn), g.n);
    forall l: nat | l < |h.pos|
      ensures In(s, l) <==> In(h, l) || l == Entering(h, lbn)
    {
      assert Pos(s, l) == Other(Pos(h, lbn), g.n, Pos(h, l)) && At(h, Pos(h, l)).lbn == l;
    }
  }

  lemma InsertOrders(h: HeapState, lbn: nat)
    requires Valid(h) && Ordered(h) && lbn < |h.pos| && !In(h, lbn)
    ensures Ordered(Insert(h, lbn))
  {
    hide Same;
    assert 1 <= Pos(h, lbn) <= |h.els|;
    var g := Grown(h);
    var s := Swap(g, Pos(h, lbn), g.n);
    forall q: nat {:trigger Up(s, q)} | 2 <= q <= s.n && q != s.n
      ensures Up(s, q)
    {
      assert Up(h, q) && At(s, q) == At(h, q) && At(s, q / 2) == At(h, q / 2);
    }
    BubbleUpOrders(s, s.n);
  }

  lemma InsertMeaning(h: HeapState, lbn: nat)
    requires Valid(h) && Ordered(h) && lbn < |h.pos| && !In(h, lbn)
    ensures Ordered(Insert(h, lbn)) && Inserted(h, Insert(h, lbn), lbn)
  {
    hide Valid, Insert, Inserted, Ordered;
    InsertBrings(h, lbn);
    InsertOrders(h, lbn);
  }

  // ---------- Setting a counter ----------

  /** Only that counter changes, and the order of the heap is safe because it is set from outside. */
  lemma SetMeaning(h: HeapState, lbn: nat, value: nat)
    requires Valid(h) && lbn < |h.pos| && value < U16
    ensures Updated(h, SetValue(h, lbn, value), lbn, value)
    ensures Ordered(h) && !In(h, lbn) ==> Ordered(SetValue(h, lbn, value))
  {
    var r := SetValue(h, lbn, value);
    assert 1 <= Pos(h, lbn) <= |h.els| && At(h, Pos(h, lbn)).lbn == lbn;
    SameThenUpdated(h, r, r, lbn, value);
    if Ordered(h) && !In(h, lbn) {
      RaisedAt(h, r, Pos(h, lbn));
    }
  }

  /** bubbleUp moves a block away from the root by at most one level. */
  lemma {:induction false} BubbleUpRootStaysNear(h: HeapState, p: nat, root: nat)
    requires Valid(h) && 2 <= p <= h.n && Pos(h, root) == 1
    ensures 1 <= Pos(BubbleUp(h, p), root) <= 3
    decreases p
  {
    if !Up(h, p) {
      var s := Swap(h, p, p / 2);
      assert Pos(s, root) == Other(p, p / 2, 1);
      if p / 2 >= 2 {
        BubbleUpRootStaysNear(s, p / 2, root);
      }
    }
  }

  /** An insertion leaves the block that was at the root at position 1, 2 or 3. */
  lemma InsertLeavesRootNear(h: HeapState, lbn: nat, root: nat)
    requires Valid(h) && lbn < |h.pos| && !In(h, lbn) && h.n > 0 && Pos(h, root) == 1
    ensures 1 <= Pos(Insert(h, lbn), root) <= 3
  {
    var g := Grown(h);
    var s := Swap(g, Pos(h, lbn), g.n);
    assert root < |h.pos| && Pos(s, root) == 1;
    BubbleUpRootStaysNear(s, g.n, root);
  }

  /** getVictim returns a present block whose counter no present block undercuts. */
  lemma VictimIsLeast(h: HeapState)
    requires Valid(h) && Ordered(h) && h.n > 0
    ensures Victim(h) < |h.pos| && In(h, Victim(h)) && Pos(h, Victim(h)) == 1
    ensures VictimCount(h) == Val(h, Victim(h))
    ensures forall lbn: nat :: lbn < |h.pos| && In(h, lbn) ==> VictimCount(h) <= Val(h, lbn)
  {
    assert At(h, 1) == At(h, 1);
    forall lbn: nat | lbn < |h.pos| && In(h, lbn)
      ensures VictimCount(h) <= Val(h, lbn)
    {
      RootIsLeast(h, Pos(h, lbn));
    }
  }

  /** The saturating decrement of every present counter needs no sifting: the heap stays ordered,
      each present counter loses n or drops to zero, and nothing else changes. */
  lemma DecrementAllMeaning(h: HeapState, n: nat)
    requires Valid(h) && Ordered(h)
    ensures Ordered(DecrementAllByN(h, n)) && DecrementAllByN(h, n).pos == h.pos && DecrementAllByN(h, n).n == h.n
    ensures forall lbn: nat {:trigger Val(DecrementAllByN(h, n), lbn)} :: lbn < |h.pos| ==>
      Val(DecrementAllByN(h, n), lbn) == if !In(h, lbn) then Val(h, lbn) else if Val(h, lbn) > n then Val(h, lbn) - n
        else 0
  {
    var r := DecrementAllByN(h, n);
    forall q: nat {:trigger Up(r, q)} | 2 <= q <= r.n
      ensures Up(r, q)
    {
      assert Up(h, q);
    }
    forall lbn: nat | lbn < |h.pos|
      ensures Val(r, lbn) == if !In(h, lbn) then Val(h, lbn) else if Val(h, lbn) > n then Val(h, lbn) - n else 0
    {
      assert Pos(r, lbn) == Pos(h, lbn) && 1 <= Pos(h, lbn) <= |h.els|;
    }
  }

  // ---------- Ties ----------

  lemma {:induction false} DownKeepsAbove(h: HeapState, p: nat, x: nat)
    requires Valid(h) && 1 <= x < p
    ensures At(BubbleDown(h, p), x) == At(h, x)
    decreases |h.els| - p
  {
    var c := SmallChild(h, p);
    if 2 * p <= h.n && At(h, p).value > At(h, c).value {
      DownKeepsAbove(Swap(h, p, c), c, x);
    }
  }

  /** Sifting down puts the smaller child in the place of a larger element, the right one if they are equal, and
      nothing in the place of one that is not larger than either. */
  lemma DownTakesRight(h: HeapState, p: nat)
    requires Valid(h) && 1 <= p
    ensures var left, right := At(h, 2 * p), At(h, 2 * p + 1);
      var both := 2 * p + 1 <= h.n;
      At(BubbleDown(h, p), p) ==
        if both && right.value <= left.value && right.value < At(h, p).value then right
        else if 2 * p <= h.n && left.value < At(h, p).value then left
        else At(h, p)
  {
    var c := SmallChild(h, p);
    if 2 * p <= h.n && At(h, p).value > At(h, c).value {
      DownKeepsAbove(Swap(h, p, c), c, p);
    }
  }

  lemma {:induction false} UpKeepsBelow(h: HeapState, p: nat, x: nat)
    requires Valid(h) && 1 <= p <= h.n && p < x
    ensures At(BubbleUp(h, p), x) == At(h, x)
    decreases p
  {
    if p > 1 && At(h, p / 2).value > At(h, p).value {
      UpKeepsBelow(Swap(h, p, p / 2), p / 2, x);
    }
  }

  /** Sifting up moves a larger parent down, and leaves an equal one where it is. */
  lemma UpPassesLarger(h: HeapState, p: nat)
    requires Valid(h) && 1 < p <= h.n
    ensures At(h, p / 2).value <= At(h, p).value ==> BubbleUp(h, p) == h
    ensures At(h, p / 2).value > At(h, p).value ==> At(BubbleUp(h, p), p) == At(h, p / 2)
  {
    if At(h, p / 2).value > At(h, p).value {
      UpKeepsBelow(Swap(h, p, p / 2), p / 2, p);
    }
  }
}
