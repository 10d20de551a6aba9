/** The operations on the flash of a bank, in the order they are given, and the rule they keep: a page is programmed
    once after its block was erased, except a low page that a second usage programs over. */
module Nand {
  import opened Heap
  import opened BankState
  import opened BankPages
  import opened BankGc

  datatype NandOp = Program(lbn: nat, page: nat, content: Page) | EraseBlk(lbn: nat)

  /** Flash after an operation. */
  function Done(flash: seq<seq<Page>>, op: NandOp): seq<seq<Page>> {
    match op
    case Program(lbn, page, content) =>
      if lbn < |flash| && page < |flash[lbn]| then SetPage(flash, lbn, page, content) else flash
    case EraseBlk(lbn) => if lbn < |flash| then Erase(flash, lbn) else flash
  }

  /** Flash after the operations, if it was erased at first. */
  function FlashAfter(blks: nat, ops: seq<NandOp>): seq<seq<Page>> {
    if |ops| == 0 then seq(blks, _ => seq(PAGES_PER_BLK, _ => Erased))
    else Done(FlashAfter(blks, ops[..|ops| - 1]), ops[|ops| - 1])
  }

  /** A page that is programmed is erased, or a low page that is programmed over with chunks. */
  ghost predicate Permitted(blks: nat, flash: seq<seq<Page>>, op: NandOp) {
    match op
    case Program(lbn, page, content) =>
      && lbn < blks && page < PAGES_PER_BLK && content != Erased
      && (PageAt(flash, lbn, page) == Erased || (LowPage(page) && content.Programmed?))
    case EraseBlk(lbn) => lbn < blks
  }

  ghost predicate Lawful(blks: nat, ops: seq<NandOp>) {
    forall i: nat {:trigger ops[i]} :: i < |ops| ==> Permitted(blks, FlashAfter(blks, ops[..i]), ops[i])
  }

  /** The operations keep the rule and have led to this flash. */
  ghost predicate Told(blks: nat, ops: seq<NandOp>, flash: seq<seq<Page>>) {
    Lawful(blks, ops) && FlashAfter(blks, ops) == flash
  }

  lemma ToldMore(blks: nat, ops: seq<NandOp>, flash: seq<seq<Page>>, op: NandOp)
    requires Told(blks, ops, flash) && Permitted(blks, flash, op)
    ensures Told(blks, ops + [op], Done(flash, op))
  {
    hide Permitted, Done;
    var more := ops + [op];
    assert more[..|ops|] == ops;
    forall i: nat {:trigger more[i]} | i < |more|
      ensures Permitted(blks, FlashAfter(blks, more[..i]), more[i])
    {
      if i < |ops| {
        assert more[..i] == ops[..i] && more[i] == ops[i];
      }
    }
  }

  lemma ToldProgram(blks: nat, ops: seq<NandOp>, flash: seq<seq<Page>>, lbn: nat, page: nat, content: Page)
    requires Told(blks, ops, flash) && FlashShape(blks, flash) && lbn < blks && page < PAGES_PER_BLK
    requires content != Erased && (PageAt(flash, lbn, page) == Erased || (LowPage(page) && content.Programmed?))
    ensures Told(blks, ops + [Program(lbn, page, content)], SetPage(flash, lbn, page, content))
  {
    hide Told, PageAt, SetPage;
    ToldMore(blks, ops, flash, Program(lbn, page, content));
  }

  lemma ToldErase(blks: nat, ops: seq<NandOp>, flash: seq<seq<Page>>, lbn: nat)
    requires Told(blks, ops, flash) && FlashShape(blks, flash) && lbn < blks
    ensures Told(blks, ops + [EraseBlk(lbn)], Erase(flash, lbn))
  {
    hide Told, Erase;
    ToldMore(blks, ops, flash, EraseBlk(lbn));
  }

  lemma ToldCollected(blks: nat, ops: seq<NandOp>, s: Bank, v: nat)
    requires Told(blks, ops, s.flash) && FlashShape(blks, s.flash) && v < blks
    requires HeapOk(blks, s.first) && HeapOk(blks, s.second) && HeapOk(blks, s.coldHeap)
    ensures Told(blks, ops + [EraseBlk(v)], Collected(blks, s, v).flash)
  {
    hide Told, Erase, HeapOk, FlashShape, ResetAndRemove;
    ToldErase(blks, ops, s.flash, v);
  }

  lemma NothingTold(blks: nat)
    ensures Told(blks, [], seq(blks, _ => seq(PAGES_PER_BLK, _ => Erased)))
  {
  }

  // ---------- What the rule means ----------

  lemma {:induction false} ShapeAfter(blks: nat, ops: seq<NandOp>)
    ensures FlashShape(blks, FlashAfter(blks, ops))
  {
    hide SetPage, Erase;
    if |ops| > 0 {
      ShapeAfter(blks, ops[..|ops| - 1]);
    }
  }

  /** A page that was programmed is not erased until its block is. */
  lemma {:induction false} StaysProgrammed(blks: nat, ops: seq<NandOp>, i: nat, j: nat)
    requires Lawful(blks, ops) && i < j <= |ops| && ops[i].Program?
    requires forall k: nat {:trigger ops[k]} :: i < k < j ==> ops[k] != EraseBlk(ops[i].lbn)
    ensures PageAt(FlashAfter(blks, ops[..j]), ops[i].lbn, ops[i].page) != Erased
  {
    hide Lawful, FlashAfter, Permitted, Done, FlashShape, PageAt;
    LawfulAt(blks, ops, j - 1);
    if i < j - 1 {
      StaysProgrammed(blks, ops, i, j - 1);
    }
    PageDone(blks, FlashAfter(blks, ops[..j - 1]), ops[j - 1], ops[i].lbn, ops[i].page);
  }

  lemma LawfulAt(blks: nat, ops: seq<NandOp>, i: nat)
    requires Lawful(blks, ops) && i < |ops|
    ensures Permitted(blks, FlashAfter(blks, ops[..i]), ops[i]) && FlashShape(blks, FlashAfter(blks, ops[..i]))
    ensures FlashAfter(blks, ops[..i + 1]) == Done(FlashAfter(blks, ops[..i]), ops[i])
  {
    hide Permitted, Done, FlashShape;
    assert ops[..i + 1][..i] == ops[..i];
    ShapeAfter(blks, ops[..i]);
  }

  lemma PageDone(blks: nat, flash: seq<seq<Page>>, op: NandOp, lbn: nat, page: nat)
    requires FlashShape(blks, flash) && Permitted(blks, flash, op) && op != EraseBlk(lbn)
    requires PageAt(flash, lbn, page) != Erased || (op.Program? && op.lbn == lbn && op.page == page)
    ensures PageAt(Done(flash, op), lbn, page) != Erased
  {
  }

  /** Between two programs of a page its block is erased, unless the second puts chunks on a low page: so every high
      page, and every page that receives a list, is programmed once between erases. */
  lemma ErasedBetween(blks: nat, ops: seq<NandOp>, i: nat, j: nat)
    requires Lawful(blks, ops) && i < j < |ops| && ops[i].Program? && ops[j].Program?
    requires ops[j].lbn == ops[i].lbn && ops[j].page == ops[i].page
    requires !LowPage(ops[j].page) || ops[j].content.ListPage?
    ensures exists k: nat {:trigger ops[k]} :: i < k < j && ops[k] == EraseBlk(ops[i].lbn)
  {
    assert Permitted(blks, FlashAfter(blks, ops[..j]), ops[j]);
    if forall k: nat {:trigger ops[k]} :: i < k < j ==> ops[k] != EraseBlk(ops[i].lbn) {
      StaysProgrammed(blks, ops, i, j);
    }
  }

  /** Of the records of all banks only that of bank b has changed: it has grown. */
  ghost predicate Longer<T>(before: seq<seq<T>>, after: seq<seq<T>>, b: nat) {
    && |after| == |before| && b < |before| && before[b] <= after[b]
    && forall j: nat {:trigger after[j]} :: j < |after| && j != b ==> after[j] == before[j]
  }

  predicate EndsWith(ops: seq<NandOp>, op: NandOp) {
    |ops| > 0 && ops[|ops| - 1] == op
  }

  lemma EndsErased(ops: seq<NandOp>, more: seq<NandOp>, lbn: nat)
    ensures more == ops + [EraseBlk(lbn)] ==> EndsWith(more, EraseBlk(lbn))
  {
  }

  lemma LongerSelf<T>(f: seq<seq<T>>, b: nat)
    requires b < |f|
    ensures Longer(f, f, b)
  {
  }

  lemma LongerBy(f: seq<seq<NandOp>>, b: nat, op: NandOp)
    requires b < |f|
    ensures Longer(f, f[b := f[b] + [op]], b)
  {
  }

  ghost predicate AllTold(blks: nat, f: seq<seq<NandOp>>, bs: seq<Bank>) {
    |f| == |bs| && forall j: nat {:trigger bs[j]} :: j < |bs| ==> Told(blks, f[j], bs[j].flash)
  }

  lemma ToldOf(blks: nat, f: seq<seq<NandOp>>, bs: seq<Bank>, b: nat)
    requires AllTold(blks, f, bs) && b < |bs|
    ensures |f| == |bs| && Told(blks, f[b], bs[b].flash)
  {
  }

  /** A step on bank b leaves what is on record of the others. */
  lemma ToldStep(blks: nat, f: seq<seq<NandOp>>, g: seq<seq<NandOp>>, bs: seq<Bank>, cs: seq<Bank>, b: nat)
    requires AllTold(blks, f, bs) && Longer(f, g, b) && |bs| == |cs| && b < |cs|
    requires forall j: nat {:trigger cs[j]} :: j < |cs| && j != b ==> cs[j] == bs[j]
    requires (cs[b].flash == bs[b].flash && g == f) || Told(blks, g[b], cs[b].flash)
    ensures AllTold(blks, g, cs)
  {
    hide Told;
  }

  lemma LongerPrefix<T>(f: seq<seq<T>>, g: seq<seq<T>>, b: nat)
    requires Longer(f, g, b)
    ensures b < |f| == |g| && f[b] <= g[b]
  {
  }

  lemma LongerTransitive<T>(f: seq<seq<T>>, g: seq<seq<T>>, h: seq<seq<T>>, b: nat)
    requires Longer(f, g, b) && Longer(g, h, b)
    ensures Longer(f, h, b)
  {
  }

  ghost predicate AllLonger(before: seq<seq<NandOp>>, after: seq<seq<NandOp>>) {
    |after| == |before| && forall j: nat {:trigger after[j]} :: j < |after| ==> before[j] <= after[j]
  }

  lemma LongerNone(f: seq<seq<NandOp>>)
    ensures AllLonger(f, f)
  {
  }

  lemma LongerAll(f: seq<seq<NandOp>>, g: seq<seq<NandOp>>, h: seq<seq<NandOp>>, b: nat)
    requires AllLonger(f, g) && Longer(g, h, b)
    ensures AllLonger(f, h)
  {
    forall j: nat {:trigger h[j]} | j < |h|
      ensures f[j] <= h[j]
    {
      assert f[j] <= g[j] && g[j] <= h[j];
    }
  }
}
