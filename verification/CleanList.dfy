/** The clean list: for every bank a queue of blocks and a stack of unused nodes, threaded through
    the bank's share of one node array. */
module CleanList {
  import opened BankState
  import Modular

  const NULL: int := -1

  datatype Op = Push(lbn: nat) | Pop

  // ---------- The abstract queue ----------

  /** What a run of operations does to a queue of at most cap elements: the queue it leaves, the
      elements accepted and the elements handed out. Operations on a full or an empty queue fail. */
  function RunQueue(q: seq<nat>, ops: seq<Op>, cap: nat): (seq<nat>, seq<nat>, seq<nat>) {
    if |ops| == 0 then (q, [], [])
    else
      var (r, accepted, popped) := RunQueue(q, ops[..|ops| - 1], cap);
      match ops[|ops| - 1]
      case Push(lbn) => if |r| < cap then (r + [lbn], accepted + [lbn], popped) else (r, accepted, popped)
      case Pop => if |r| > 0 then (r[1..], accepted, popped + [r[0]]) else (r, accepted, popped)
  }

  /** Over any run, elements come out in the order they went in and none is lost or invented. */
  lemma {:induction false} FirstInFirstOut(q: seq<nat>, ops: seq<Op>, cap: nat)
    requires |q| <= cap
    ensures var (r, accepted, popped) := RunQueue(q, ops, cap); popped + r == q + accepted && |r| <= cap
  {
    if |ops| > 0 {
      FirstInFirstOut(q, ops[..|ops| - 1], cap);
      var (r, accepted, popped) := RunQueue(q, ops[..|ops| - 1], cap);
      if ops[|ops| - 1].Pop? {
        if |r| > 0 {
          assert popped + r == popped + [r[0]] + r[1..];
        }
      } else {
        assert popped + (r + [ops[|ops| - 1].lbn]) == (popped + r) + [ops[|ops| - 1].lbn];
        assert q + (accepted + [ops[|ops| - 1].lbn]) == (q + accepted) + [ops[|ops| - 1].lbn];
      }
    }
  }

  /** And none is turned away or withheld without need: the next push is accepted exactly while the elements accepted
      and not yet handed out do not fill the list, the next pop hands one out exactly while there is one. */
  lemma NoneTurnedAway(q: seq<nat>, ops: seq<Op>, op: Op, cap: nat)
    requires |q| <= cap
    ensures var (_, accepted, popped) := RunQueue(q, ops, cap);
      var (_, accepted', popped') := RunQueue(q, ops + [op], cap);
      var held := |q| + |accepted| - |popped|;
      && accepted' == accepted + (if op.Push? && held < cap then [op.lbn] else [])
      && (if op.Pop? && held > 0 then |popped'| == |popped| + 1 else popped' == popped)
  {
    FirstInFirstOut(q, ops, cap);
    assert (ops + [op])[..|ops|] == ops;
    var (r, accepted, popped) := RunQueue(q, ops, cap);
    assert |popped + r| == |q + accepted|;
  }

  // ---------- The linked representation ----------

  /** The nodes, from head on, linked by next and ended by NULL. */
  ghost predicate Chain(next: seq<int>, head: int, nodes: seq<nat>) {
    && (forall i: nat {:trigger nodes[i]} :: i < |nodes| ==> nodes[i] < |next|)
    && head == (if |nodes| == 0 then NULL else nodes[0])
    && forall i: nat {:trigger nodes[i]} ::
         i < |nodes| ==> next[nodes[i]] == if i + 1 < |nodes| then nodes[i + 1] else NULL
  }

  /** The bank a node belongs to. */
  function Owner(node: nat, per: nat): nat
    requires per > 0
  {
    node / per
  }

  /** The nodes are distinct nodes of the pool of bank b, which has per nodes. */
  ghost predicate InPool(nodes: seq<nat>, b: nat, per: nat)
    requires per > 0
  {
    && (forall i: nat {:trigger nodes[i]} :: i < |nodes| ==> Owner(nodes[i], per) == b)
    && (forall i: nat, j: nat {:trigger nodes[i], nodes[j]} :: i < j < |nodes| ==> nodes[i] != nodes[j])
  }

  /** The registers and nodes of bank b describe its queue of nodes l and its stack of unused nodes f. */
  ghost predicate Threads(next: seq<int>, head: int, tail: int, unused: int, size: nat, l: seq<nat>, f: seq<nat>,
      b: nat, per: nat)
    requires per > 0
  {
    && Chain(next, head, l) && Chain(next, unused, f) && InPool(l + f, b, per) && |l| + |f| == per
    && tail == (if |l| == 0 then NULL else l[|l| - 1]) && size == |l|
  }

  lemma PoolParts(l: seq<nat>, f: seq<nat>, b: nat, per: nat)
    requires per > 0 && InPool(l + f, b, per)
    ensures InPool(l, b, per) && InPool(f, b, per)
    ensures forall i: nat, j: nat {:trigger l[i], f[j]} :: i < |l| && j < |f| ==> l[i] != f[j]
  {
    assert forall i: nat {:trigger l[i]} :: i < |l| ==> l[i] == (l + f)[i];
    assert forall j: nat {:trigger f[j]} :: j < |f| ==> f[j] == (l + f)[|l| + j];
  }

  lemma PoolJoin(l: seq<nat>, f: seq<nat>, b: nat, per: nat)
    requires per > 0 && InPool(l, b, per) && InPool(f, b, per)
    requires forall i: nat, j: nat {:trigger l[i], f[j]} :: i < |l| && j < |f| ==> l[i] != f[j]
    ensures InPool(l + f, b, per)
  {
  }

  /** Writing nodes outside a chain leaves it alone. */
  lemma ChainElsewhere(n: seq<int>, m: seq<int>, head: int, nodes: seq<nat>)
    requires Chain(n, head, nodes) && |m| == |n|
    requires forall i: nat {:trigger nodes[i]} :: i < |nodes| ==> nodes[i] < |n| && m[nodes[i]] == n[nodes[i]]
    ensures Chain(m, head, nodes)
  {
  }

  /** The first node of a chain taken off. */
  lemma ChainRest(n: seq<int>, head: int, nodes: seq<nat>)
    requires Chain(n, head, nodes) && |nodes| > 0
    ensures nodes[0] < |n| && head == nodes[0] && Chain(n, n[nodes[0]], nodes[1..])
  {
  }

  /** A node x added behind the last one. */
  lemma ChainExtended(n: seq<int>, m: seq<int>, head: int, l: seq<nat>, x: nat)
    requires Chain(n, head, l) && x < |n| && forall i: nat {:trigger l[i]} :: i < |l| ==> l[i] != x
    requires forall i: nat {:trigger l[i]} :: i + 1 < |l| ==> l[i] != l[|l| - 1]
    requires m == if |l| == 0 then n[x := NULL] else n[x := NULL][l[|l| - 1] := x]
    ensures Chain(m, if |l| == 0 then x else head, l + [x])
  {
    var k := l + [x];
    forall i: nat {:trigger k[i]} | i < |k|
      ensures k[i] < |m| && m[k[i]] == if i + 1 < |k| then k[i + 1] else NULL
    {
      if i < |l| {
        assert k[i] == l[i];
      }
    }
  }

  lemma PoolPush(l: seq<nat>, f: seq<nat>, b: nat, per: nat)
    requires per > 0 && InPool(l + f, b, per) && |f| > 0
    ensures InPool(l + [f[0]] + f[1..], b, per)
  {
    assert (l + [f[0]]) + f[1..] == l + f;
  }

  /** Linking the first unused node behind the last queued one. */
  lemma PushThreads(n: seq<int>, m: seq<int>, head: int, tail: int, unused: int, size: nat, l: seq<nat>, f: seq<nat>,
      b: nat, per: nat)
    requires per > 0 && Threads(n, head, tail, unused, size, l, f, b, per) && |f| > 0
    requires f[0] < |n| && m == (if |l| == 0 then n[f[0] := NULL] else n[f[0] := NULL][l[|l| - 1] := f[0]])
    ensures Threads(m, if |l| == 0 then f[0] else head, f[0], n[f[0]], size + 1, l + [f[0]], f[1..], b, per)
  {
    hide Owner;
    PoolParts(l, f, b, per);
    PoolPush(l, f, b, per);
    ChainExtended(n, m, head, l, f[0]);
    ChainRest(n, unused, f);
    hide InPool;
    ChainElsewhere(n, m, n[f[0]], f[1..]);
  }

  /** Moving the first queued node to the top of the stack. */
  lemma PopThreads(n: seq<int>, head: int, tail: int, unused: int, size: nat, l: seq<nat>, f: seq<nat>, b: nat,
      per: nat)
    requires per > 0 && Threads(n, head, tail, unused, size, l, f, b, per) && |l| > 0
    ensures 0 <= head < |n| && size > 0
    ensures Threads(n[head := unused], n[head], if head == tail then NULL
      else tail, head, size - 1, l[1..], [l[0]] + f, b, per)
  {
    hide Owner;
    PoolParts(l, f, b, per);
    var m := n[head := unused];
    ChainRest(n, head, l);
    ChainElsewhere(n, m, n[head], l[1..]);
    var k := [l[0]] + f;
    PoolPop(l, f, b, per);
    forall i: nat {:trigger k[i]} | i < |k|
      ensures k[i] < |m| && m[k[i]] == if i + 1 < |k| then k[i + 1] else NULL
    {
      if i > 0 {
        assert k[i] == f[i - 1];
      }
    }
    assert head == tail <==> |l| == 1;
  }

  lemma PoolPop(l: seq<nat>, f: seq<nat>, b: nat, per: nat)
    requires per > 0 && InPool(l + f, b, per) && |l| > 0
    ensures InPool(l[1..] + ([l[0]] + f), b, per)
  {
    hide Owner;
    PoolParts(l, f, b, per);
    PoolJoin(l[1..], [l[0]] + f, b, per);
  }

  /** A bank's threads do not run through another bank's nodes. */
  lemma ThreadsElsewhere(n: seq<int>, m: seq<int>, head: int, tail: int, unused: int, size: nat, l: seq<nat>,
      f: seq<nat>, c: nat, per: nat)
    requires per > 0 && Threads(n, head, tail, unused, size, l, f, c, per) && |m| == |n|
    requires forall x: nat {:trigger m[x]} :: x < |n| && Owner(x, per) == c ==> m[x] == n[x]
    ensures Threads(m, head, tail, unused, size, l, f, c, per)
  {
    hide Owner;
    PoolParts(l, f, c, per);
    ChainElsewhere(n, m, head, l);
    ChainElsewhere(n, m, unused, f);
  }

  /** What the registers of a bank say, and whose nodes its threads run through. */
  lemma ThreadFacts(n: seq<int>, head: int, tail: int, unused: int, size: nat, l: seq<nat>, f: seq<nat>, b: nat,
      per: nat)
    requires per > 0 && Threads(n, head, tail, unused, size, l, f, b, per)
    ensures size == |l| == per - |f| && (|l| == 0 ==> head == NULL && tail == NULL) && (|f| == 0 ==> unused == NULL)
    ensures |l| > 0 ==> head == l[0] && tail == l[|l| - 1] && (head == tail <==> |l| == 1)
    ensures |f| > 0 ==> unused == f[0] < |n| && Owner(f[0], per) == b
    ensures forall i: nat {:trigger l[i]} ::
      i < |l| ==> l[i] < |n| && Owner(l[i], per) == b && (|f| > 0 ==> l[i] != f[0])
  {
    hide Owner;
    PoolParts(l, f, b, per);
  }

  /** The number of bank b's first node. */
  function Base(b: nat, per: nat): nat {
    b * per
  }

  lemma BaseStep(b: nat, per: nat)
    ensures Base(0, per) == 0 && Base(b + 1, per) == Base(b, per) + per
  {
  }

  lemma BaseWithin(b: nat, nb: nat, per: nat)
    requires b < nb
    ensures Base(b, per) + per <= Base(nb, per)
  {
    Modular.TimesMonotone(b, nb, per);
  }

  function Node(b: nat, per: nat, i: nat): nat {
    Base(b, per) + i
  }

  /** The nodes of bank b, in address order. */
  function Pool(b: nat, per: nat): (nodes: seq<nat>)
    ensures |nodes| == per
  {
    seq(per, i requires 0 <= i < per => Node(b, per, i))
  }

  lemma PoolChain(n: seq<int>, b: nat, per: nat)
    requires per > 0 && |n| == Base(b, per) + per && n[|n| - 1] == NULL
    requires forall x: nat {:trigger n[x]} :: Base(b, per) <= x < Base(b, per) + per - 1 ==> n[x] == x + 1
    ensures Chain(n, Base(b, per), Pool(b, per))
  {
    var nodes, base := Pool(b, per), Base(b, per);
    assert forall i: nat {:trigger nodes[i]} :: i < per ==> nodes[i] == base + i;
  }

  lemma ChainLonger(n: seq<int>, m: seq<int>, head: int, nodes: seq<nat>)
    requires Chain(n, head, nodes) && |n| <= |m| && m[..|n|] == n
    ensures Chain(m, head, nodes)
  {
  }

  lemma PoolOwned(b: nat, per: nat)
    requires per > 0
    ensures InPool(Pool(b, per), b, per)
  {
    var nodes, base := Pool(b, per), Base(b, per);
    forall i: nat {:trigger nodes[i]} | i < per
      ensures nodes[i] == base + i && Owner(nodes[i], per) == b
    {
      Modular.DivModUnique(base + i, per, b, i);
    }
  }

  lemma PoolThreads(n: seq<int>, unused: int, b: nat, per: nat)
    requires per > 0 && Chain(n, unused, Pool(b, per))
    ensures Threads(n, NULL, NULL, unused, 0, [], Pool(b, per), b, per)
  {
    hide Owner, Pool, InPool;
    PoolOwned(b, per);
    assert [] + Pool(b, per) == Pool(b, per);
  }

  /** The blocks named by a chain of nodes. */
  function Blocks(lbn: seq<nat>, l: seq<nat>): (q: seq<nat>)
    requires forall i: nat {:trigger l[i]} :: i < |l| ==> l[i] < |lbn|
    ensures |q| == |l|
  {
    seq(|l|, i requires 0 <= i < |l| => lbn[l[i]])
  }

  lemma BlocksPushed(lbn: seq<nat>, l: seq<nat>, node: nat, x: nat)
    requires node < |lbn| && forall i: nat {:trigger l[i]} :: i < |l| ==> l[i] < |lbn| && l[i] != node
    ensures (forall i: nat {:trigger (l + [node])[i]} :: i < |l| + 1 ==> (l + [node])[i] < |lbn|)
    ensures Blocks(lbn[node := x], l + [node]) == Blocks(lbn, l) + [x] && Blocks(lbn[node := x], l) == Blocks(lbn, l)
  {
  }

  class CleanList {
    const nb: nat
    const per: nat          // nodes per bank
    const next: array<int>  // the node array: node i of bank b is number b * per + i
    const lbn: array<nat>
    var head: seq<int>
    var tail: seq<int>
    var unused: seq<int>
    var size: seq<nat>
    ghost var listed: seq<seq<nat>>  // the nodes of each bank's queue
    ghost var free: seq<seq<nat>>    // the nodes of each bank's stack of unused nodes

    ghost predicate Valid()
      reads this, next
    {
      && per > 0 && next.Length == lbn.Length
      && |head| == |tail| == |unused| == |size| == |listed| == |free| == nb
      && forall b: nat {:trigger listed[b]} :: b < nb ==>
           Threads(next[..], head[b], tail[b], unused[b], size[b], listed[b], free[b], b, per)
    }

    /** The blocks in bank b's queue, the next one to be popped first. */
    ghost function Queue(b: nat): (q: seq<nat>)
      requires Valid() && b < nb
      reads this, next, lbn
      ensures |q| == size[b] <= per
    {
      ThreadFacts(next[..], head[b], tail[b], unused[b], size[b], listed[b], free[b], b, per);
      Blocks(lbn[..], listed[b])
    }

    /** cleanListInit: all nodes of every bank are unused. */
    constructor (numBanks: nat, numNodesPerBank: nat)
      requires numNodesPerBank > 0
      ensures nb == numBanks && per == numNodesPerBank && Valid() && fresh(next) && fresh(lbn)
      ensures forall b: nat {:trigger Queue(b)} :: b < nb ==> Queue(b) == []
    {
      nb, per := numBanks, numNodesPerBank;
      next := new int[Base(numBanks, numNodesPerBank)](_ => NULL);
      lbn := new nat[Base(numBanks, numNodesPerBank)](_ => 0);
      head, tail, unused := seq(numBanks, _ => NULL), seq(numBanks, _ => NULL), seq(numBanks, _ => NULL);
      size := seq(numBanks, _ => 0);
      listed := seq(numBanks, _ => []);
      free := seq(numBanks, b requires b >= 0 => Pool(b, numNodesPerBank));
      new;
      hide Owner, InPool, Chain, Pool, Threads, Base;
      LinkPools();
      forall b: nat {:trigger listed[b]} | b < nb
        ensures Threads(next[..], head[b], tail[b], unused[b], size[b], listed[b], free[b], b, per)
      {
        assert unused[b] == unused[b];
        PoolThreads(next[..], unused[b], b, per);
      }
    }

    /** The nodes of every bank are linked. */
    method LinkPools()
      requires per > 0 && next.Length == Base(nb, per) && |unused| == nb
      modifies this`unused, next
      ensures |unused| == nb && forall b: nat {:trigger unused[b]} ::
        b < nb ==> Chain(next[..], unused[b], Pool(b, per))
    {
      hide Owner, InPool, Chain, Pool, Base;
      var addr: nat := 0;
      BaseStep(0, per);
      for bank := 0 to nb
        invariant addr == Base(bank, per) <= next.Length && |unused| == nb
        invariant forall b: nat {:trigger unused[b]} :: b < bank ==> Chain(next[..addr], unused[b], Pool(b, per))
      {
        BaseStep(bank, per);
        BaseWithin(bank, nb, per);
        unused := unused[bank := addr];
        ghost var before := next[..addr];
        InitBank(bank, addr);
        ghost var after := next[..addr + per];
        assert after[..|before|] == before;
        forall b: nat {:trigger unused[b]} | b < bank
          ensures Chain(after, unused[b], Pool(b, per))
        {
          ChainLonger(before, after, unused[b], Pool(b, per));
        }
        addr := addr + per;
      }
      assert next[..addr] == next[..];
    }

    /** The nodes of one bank are linked in address order. */
    method InitBank(bank: nat, addr: nat)
      requires per > 0 && addr == Base(bank, per) && addr + per <= next.Length
      modifies next
      ensures next[..addr] == old(next[..addr]) && Chain(next[..addr + per], addr, Pool(bank, per))
    {
      for i := 0 to per - 1
        invariant next[..addr] == old(next[..addr])
        invariant forall x: nat {:trigger next[x]} :: addr <= x < addr + i ==> next[x] == x + 1
      {
        next[addr + i] := addr + i + 1;
      }
      next[addr + per - 1] := NULL;
      PoolChain(next[..addr + per], bank, per);
    }

    /** A block joins the end of bank b's queue; with no unused node left the source stops with an error. */
    method Push(b: nat, logLbn: nat) returns (ok: bool)
      requires Valid() && b < nb
      modifies this, next, lbn
      ensures Valid() && ok == (|old(Queue(b))| < per)
      ensures Queue(b) == if ok then old(Queue(b)) + [logLbn] else old(Queue(b))
      ensures forall c: nat {:trigger Queue(c)} :: c < nb && c != b ==> Queue(c) == old(Queue(c))
    {
      hide Owner, Threads, Blocks;
      ghost var l, f, n := listed[b], free[b], next[..];
      ghost var q := Queue(b);
      ThreadFacts(n, head[b], tail[b], unused[b], size[b], l, f, b, per);
      if unused[b] == NULL {
        return false;
      }
      var node: nat := unused[b];
      ghost var m := if |l| == 0 then n[node := NULL] else n[node := NULL][l[|l| - 1] := node];
      PushThreads(n, m, head[b], tail[b], unused[b], size[b], l, f, b, per);
      unused := unused[b := next[node]];
      lbn[node] := logLbn;
      next[node] := NULL;
      if tail[b] != NULL {
        next[tail[b]] := node;
      }
      tail := tail[b := node];
      if head[b] == NULL {
        head := head[b := tail[b]];
      }
      size := size[b := size[b] + 1];
      listed := listed[b := l + [node]];
      free := free[b := f[1..]];
      assert next[..] == m && lbn[..] == old(lbn[..])[node := logLbn];
      assert Valid() by {
        forall c: nat {:trigger listed[c]} | c < nb
          ensures Threads(m, head[c], tail[c], unused[c], size[c], listed[c], free[c], c, per)
        {
          if c != b {
            ThreadsElsewhere(n, m, head[c], tail[c], unused[c], size[c], listed[c], free[c], c, per);
          }
        }
      }
      forall c: nat {:trigger Queue(c)} | c < nb && c != b
        ensures Queue(c) == old(Queue(c))
      {
        ThreadFacts(n, head[c], tail[c], unused[c], size[c], listed[c], free[c], c, per);
        BlocksPushed(old(lbn[..]), listed[c], node, logLbn);
      }
      BlocksPushed(old(lbn[..]), l, node, logLbn);
      return true;
    }

    /** The head of bank b's queue; with an empty queue the source stops with an error. */
    method Pop(b: nat) returns (r: Option<nat>)
      requires Valid() && b < nb
      modifies this, next
      ensures Valid()
      ensures if old(Queue(b)) == [] then r == None && Queue(b) == []
        else r == Some(old(Queue(b))[0]) && Queue(b) == old(Queue(b))[1..]
      ensures forall c: nat {:trigger Queue(c)} :: c < nb && c != b ==> Queue(c) == old(Queue(c))
    {
      hide Owner, Threads;
      ghost var l, f, n := listed[b], free[b], next[..];
      ghost var q := Queue(b);
      ThreadFacts(n, head[b], tail[b], unused[b], size[b], l, f, b, per);
      if head[b] == NULL {
        return None;
      }
      var node: nat := head[b];
      PopThreads(n, head[b], tail[b], unused[b], size[b], l, f, b, per);
      if head[b] == tail[b] {
        tail := tail[b := NULL];
      }
      r := Some(lbn[node]);
      var newHead := next[node];
      next[node] := unused[b];
      unused := unused[b := node];
      head := head[b := newHead];
      // "decreasing size below zero" does not happen
      size := size[b := size[b] - 1];
      listed := listed[b := l[1..]];
      free := free[b := [l[0]] + f];
      forall c: nat {:trigger listed[c]} | c < nb
        ensures Threads(next[..], head[c], tail[c], unused[c], size[c], listed[c], free[c], c, per)
      {
        if c != b {
          ThreadsElsewhere(n, next[..], head[c], tail[c], unused[c], size[c], listed[c], free[c], c, per);
        }
      }
      assert Queue(b) == q[1..];
    }

    /** A run of operations on bank b: its queue does what the abstract queue does, no other queue changes. */
    method Run(b: nat, ops: seq<Op>) returns (popped: seq<nat>)
      requires Valid() && b < nb
      modifies this, next, lbn
      ensures Valid()
      ensures var (r, _, out) := RunQueue(old(Queue(b)), ops, per); Queue(b) == r && popped == out
      ensures forall c: nat {:trigger Queue(c)} :: c < nb && c != b ==> Queue(c) == old(Queue(c))
    {
      popped := [];
      for i := 0 to |ops|
        invariant Valid()
        invariant var (r, _, out) := RunQueue(old(Queue(b)), ops[..i], per); Queue(b) == r && popped == out
        invariant forall c: nat {:trigger Queue(c)} :: c < nb && c != b ==> Queue(c) == old(Queue(c))
      {
        assert ops[..i + 1][..i] == ops[..i];
        match ops[i] {
          case Push(x) =>
            var ok := Push(b, x);
          case Pop =>
            var r := Pop(b);
            if r.Some? {
              popped := popped + [r.value];
            }
        }
      }
      assert ops[..|ops|] == ops;
    }
  }
}
