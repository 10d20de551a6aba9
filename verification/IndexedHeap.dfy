/** The valid-chunks heap of one bank as it is kept in memory: an array of elements, an array of
    positions and a count, changed in place. Every method does to the arrays what the function of
    the same name in Heap does to the value they stand for. */
module IndexedHeap {
  import opened Heap

  /** Positions and block numbers are 16-bit: 2 * p + 1 must not overflow for a position p. */
  type U16Index = x: nat | x < 65536
  const MAX_BLKS: nat := 32767

  class IndexedHeap {
    const els: array<El>
    const pos: array<nat>
    var n: U16Index

    ghost predicate Wf()
      reads this, els, pos
    {
      n <= els.Length <= MAX_BLKS && Valid(Model())
    }

    ghost function Model(): HeapState
      reads this, els, pos
    {
      HeapState(els[..], pos[..], n)
    }

    /** ValidChunksHeapInit */
    constructor (blks: nat, initial: nat)
      requires blks <= MAX_BLKS && initial < U16
      ensures Wf() && Model() == Init(blks, initial) && fresh(els) && fresh(pos)
    {
      els := new El[blks](_ => El(0, 0));
      pos := new nat[blks](_ => 0);
      n := 0;
      new;
      var p: U16Index := 1;
      for i := 0 to blks
        invariant p == i + 1 && n == 0
        invariant forall j :: 0 <= j < i ==> pos[j] == j + 1 && els[j] == El(initial, j)
      {
        pos[i] := p;
        els[p - 1] := El(initial, i);
        p := p + 1;
      }
      assert els[..] == Init(blks, initial).els && pos[..] == Init(blks, initial).pos;
    }

    method Swap(p: U16Index, q: U16Index)
      requires Wf() && 1 <= p <= els.Length && 1 <= q <= els.Length
      modifies els, pos
      ensures Wf() && Model() == Heap.Swap(old(Model()), p, q)
    {
      ghost var h := Model();
      var el1, el2 := els[p - 1], els[q - 1];
      assert At(Model(), p) == el1 && At(Model(), q) == el2;
      els[p - 1] := el2;
      els[q - 1] := el1;
      pos[el1.lbn] := q;
      pos[el2.lbn] := p;
      assert Model() == Heap.Swap(h, p, q);
    }

    method SetHeapEl(p: U16Index, value: nat)
      requires Wf() && 1 <= p <= els.Length && value < U16
      modifies els
      ensures Wf() && Model() == SetEl(old(Model()), p, value)
    {
      ghost var h := Model();
      els[p - 1] := els[p - 1].(value := value);
      assert Model() == SetEl(h, p, value);
    }

    /** One turn of the loop of bubbleDown: the element at father is swapped with its smaller child unless it
        is not larger than either, and then 0 is returned. */
    method SiftDown(father: U16Index, child1: U16Index, child2: U16Index) returns (next: U16Index)
      requires Wf() && 1 <= father && child1 == 2 * father <= n && child2 == child1 + 1
      modifies els, pos
      ensures Wf() && n == old(n)
      ensures var h := old(Model());
        if At(h, father).value <= At(h, SmallChild(h, father)).value then next == 0 && Model() == h
        else next == SmallChild(h, father) && next <= n <= els.Length && Model() == Heap.Swap(h, father, next)
    {
      assert At(Model(), father) == els[father - 1] && At(Model(), child1) == els[child1 - 1];
      if child2 > n {
        if els[father - 1].value <= els[child1 - 1].value {
          return 0;
        }
        next := child1;
      } else {
        assert At(Model(), child2) == els[child2 - 1];
        if els[father - 1].value <= els[child1 - 1].value && els[father - 1].value <= els[child2 - 1].value {
          return 0;
        }
        if els[child1 - 1].value < els[child2 - 1].value {
          next := child1;
        } else {
          next := child2;
        }
      }
      Swap(father, next);
    }

    /** Neither child index leaves 16 bits: twice a position is at most 65534. */
    method BubbleDown(start: U16Index)
      requires Wf() && 1 <= start <= els.Length
      modifies els, pos
      ensures Wf() && Model() == Heap.BubbleDown(old(Model()), start)
    {
      hide Same;
      var father := start;
      var child1: U16Index := father * 2;
      var child2: U16Index := father * 2 + 1;
      while child1 <= n
        invariant Wf() && 1 <= father <= els.Length && child1 == 2 * father && child2 == 2 * father + 1
        invariant Heap.BubbleDown(Model(), father) == Heap.BubbleDown(old(Model()), start)
        decreases els.Length - father
      {
        var next := SiftDown(father, child1, child2);
        if next == 0 {
          return;
        }
        father := next;
        child1 := father * 2;
        child2 := father * 2 + 1;
      }
    }

    method BubbleUp(start: U16Index)
      requires Wf() && 1 <= start <= n
      modifies els, pos
      ensures Wf() && Model() == Heap.BubbleUp(old(Model()), start)
    {
      hide Same, Valid;
      if start == 1 {
        return;
      }
      var child := start;
      var father: U16Index := child / 2;
      while els[child - 1].value < els[father - 1].value
        invariant Wf() && 2 <= child <= n && father == child / 2
        invariant Heap.BubbleUp(Model(), child) == Heap.BubbleUp(old(Model()), start)
        decreases child
      {
        assert At(Model(), father) == els[father - 1] && At(Model(), child) == els[child - 1];
        Swap(child, father);
        if father == 1 {
          return;
        }
        child := father;
        father := child / 2;
      }
      assert At(Model(), father) == els[father - 1] && At(Model(), child) == els[child - 1];
    }

    method IncrementValidChunksByN(lbn: nat, k: nat)
      requires Wf() && lbn < pos.Length
      modifies els, pos
      ensures Wf() && Model() == IncrementByN(old(Model()), lbn, k)
    {
      var p := pos[lbn];
      assert Pos(Model(), lbn) == p;
      assert At(Model(), p) == els[p - 1];
      SetHeapEl(p, (els[p - 1].value + k) % U16);
      if p <= n {
        BubbleDown(p);
      }
    }

    method DecrementValidChunksByN(lbn: nat, k: nat)
      requires Wf() && lbn < pos.Length
      modifies els, pos
      ensures Wf() && Model() == DecrementByN(old(Model()), lbn, k)
    {
      var p := pos[lbn];
      assert Pos(Model(), lbn) == p;
      assert At(Model(), p) == els[p - 1];
      SetHeapEl(p, (els[p - 1].value - k) % U16);
      if p <= n {
        BubbleUp(p);
      }
    }

    method DecrementValidChunksAllByN(k: nat)
      requires Wf()
      modifies els
      ensures Wf() && Model() == DecrementAllByN(old(Model()), k)
    {
      ghost var h := Model();
      for p := 1 to n + 1
        invariant n == h.n && els.Length == |h.els| && pos[..] == h.pos
        invariant forall i :: 0 <= i < els.Length ==>
          els[i] == if i < p - 1 then DecrementAllByN(h, k).els[i] else h.els[i]
      {
        assert At(h, p) == h.els[p - 1] && At(DecrementAllByN(h, k), p) == DecrementAllByN(h, k).els[p - 1];
        var el := els[p - 1];
        if el.value > k {
          el := el.(value := el.value - k);
        } else {
          el := el.(value := 0);
        }
        els[p - 1] := el;
      }
      forall i | 0 <= i < els.Length
        ensures els[i] == DecrementAllByN(h, k).els[i]
      {
        assert At(h, i + 1) == h.els[i] && At(DecrementAllByN(h, k), i + 1) == DecrementAllByN(h, k).els[i];
      }
      assert els[..] == DecrementAllByN(h, k).els;
    }

    method SetValidChunks(lbn: nat, value: nat)
      requires Wf() && lbn < pos.Length && value < U16
      modifies els
      ensures Wf() && Model() == SetValue(old(Model()), lbn, value)
    {
      assert Pos(Model(), lbn) == pos[lbn];
      SetHeapEl(pos[lbn], value);
    }

    method ResetValidChunksAndRemove(lbn: nat, initial: nat)
      requires Wf() && lbn < pos.Length && initial < U16
      modifies this`n, els, pos
      ensures Wf() && Model() == ResetAndRemove(old(Model()), lbn, initial)
    {
      var p := pos[lbn];
      assert Pos(Model(), lbn) == p;
      SetHeapEl(p, initial);
      var last := n;
      if p <= last {
        Swap(p, last);
        ghost var h := Model();
        n := n - 1;
        assert Model() == Shrunk(h);
        BubbleDown(p);
      }
    }

    /** The heap must not be full. */
    method InsertBlkInHeap(lbn: nat)
      requires Wf() && lbn < pos.Length && n < els.Length
      modifies this`n, els, pos
      ensures Wf() && Model() == Insert(old(Model()), lbn)
    {
      ghost var h := Model();
      assert Pos(h, lbn) == pos[lbn];
      n := n + 1;
      assert Model() == Grown(h);
      Swap(pos[lbn], n);
      if n > 1 {
        BubbleUp(n);
      }
    }

    /** A block of the heap with the fewest valid chunks. */
    method GetVictim() returns (lbn: nat)
      requires Wf() && els.Length > 0
      ensures lbn == Victim(Model())
      ensures n > 0 && Ordered(Model()) ==>
        In(Model(), lbn) && forall l: nat {:trigger In(Model(), l)} ::
          In(Model(), l) && l < pos.Length ==> Val(Model(), lbn) <= Val(Model(), l)
    {
      assert At(Model(), 1) == els[0];
      lbn := els[0].lbn;
      if n > 0 && Ordered(Model()) {
        VictimIsLeast(Model());
      }
    }

    method GetVictimValidPagesNumber() returns (count: nat)
      requires Wf() && els.Length > 0
      ensures count == VictimCount(Model())
      ensures n > 0 ==> count == Val(Model(), Victim(Model()))
      ensures n == 0 ==> count == INVALID
    {
      assert At(Model(), 1) == els[0];
      if n > 0 {
        count := els[0].value;
      } else {
        count := INVALID;
      }
    }
  }
}
