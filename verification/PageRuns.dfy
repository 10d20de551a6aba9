/** Which pages of a hot block its two usages program, over a whole usage. */
module PageRuns {
  import opened BankState

  /** The pages a usage has to program: the low pages in the first, the high pages from 2 on in the second. */
  predicate Due(u: Usage, page: nat) {
    if u == HotFirst then LowPage(page) else page % 2 == 0
  }

  /** The log moves from a page to a later one and passes over no page that is due. A first usage lands on
      low pages only; a second usage may also land on a low page it reuses. */
  ghost predicate NextPage(u: Usage, page: nat, next: nat) {
    && page < next && (u == HotFirst ==> Due(u, next))
    && forall r: nat {:trigger Due(u, r)} :: page < r < next ==> !Due(u, r)
  }

  lemma LaterSteps(u: Usage, page: nat)
    requires u != HotFirst
    ensures NextPage(u, page, page + 1) && (page % 2 == 0 ==> NextPage(u, page, page + 2))
  {
  }

  /** The pages on which the log stood, one after the other. */
  ghost predicate Run(u: Usage, pages: seq<nat>) {
    |pages| > 0 && forall i: nat {:trigger pages[i]} :: 0 < i < |pages| ==> NextPage(u, pages[i - 1], pages[i])
  }

  lemma {:induction false} RunCovers(u: Usage, pages: seq<nat>, page: nat)
    requires Run(u, pages) && pages[0] <= page <= pages[|pages| - 1] && Due(u, page)
    ensures page in pages
  {
    var last := |pages| - 1;
    if page != pages[last] && last > 0 {
      assert NextPage(u, pages[last - 1], pages[last]);
      RunCovers(u, pages[..last], page);
    }
  }

  lemma {:induction false} RunIncreases(u: Usage, pages: seq<nat>, i: nat, j: nat)
    requires Run(u, pages) && i < j < |pages|
    ensures pages[i] < pages[j]
  {
    assert NextPage(u, pages[j - 1], pages[j]);
    if i < j - 1 {
      RunIncreases(u, pages, i, j - 1);
    }
  }

  /** The pages of a usage so far: a run from where the usage may start, page 0 in a first usage, and one of
      0, 1 and 2 in a second. */
  ghost predicate Began(u: Usage, pages: seq<nat>) {
    Run(u, pages) && if u == HotFirst then pages[0] == 0 else pages[0] <= 2
  }

  /** The log stands on the page that comes after those its usage has programmed. */
  ghost predicate OnTrack(c: Ctrl, programmed: seq<nat>) {
    Began(c.usage, programmed + [c.page])
  }

  /** The page the log stands on is the last one its usage has programmed. */
  ghost predicate JustProgrammed(c: Ctrl, programmed: seq<nat>) {
    Began(c.usage, programmed) && programmed[|programmed| - 1] == c.page
  }

  lemma MovedOn(u: Usage, programmed: seq<nat>, next: nat)
    requires Began(u, programmed) && NextPage(u, programmed[|programmed| - 1], next)
    ensures Began(u, programmed + [next])
  {
    hide NextPage;
    var pages := programmed + [next];
    forall i: nat {:trigger pages[i]} | 0 < i < |pages|
      ensures NextPage(u, pages[i - 1], pages[i])
    {
      assert pages[i - 1] == programmed[i - 1];
    }
  }

  /** Page 1, when it is not programmed itself, is followed by page 2. */
  lemma AfterPageOne(next: nat)
    requires NextPage(HotSecond, 1, next)
    ensures next == 2
  {
    assert !(1 < 2 < next) || !Due(HotSecond, 2);
  }

  lemma TrailMoves(c: Ctrl, programmed: seq<nat>, d: Ctrl)
    requires d.usage == c.usage && NextPage(c.usage, c.page, d.page)
    requires JustProgrammed(c, programmed) || (programmed == [] && c.usage == HotSecond && c.page == 1)
    ensures OnTrack(d, programmed)
  {
    if programmed == [] {
      AfterPageOne(d.page);
    } else {
      MovedOn(c.usage, programmed, d.page);
    }
  }

  lemma StartsOnTrack(c: Ctrl)
    requires c.usage == HotSecond && c.page <= 2
    ensures OnTrack(c, [])
  {
  }

  /** The page after which a usage is over. */
  function LastPage(u: Usage): nat {
    if u == HotFirst then 123 else USED_PAGES - 1
  }

  /** A usage that is over, with the pages it programmed in order. */
  datatype Finished = Finished(bank: nat, lbn: nat, usage: Usage, pages: seq<nat>)

  /** What a usage is for. A first usage programs exactly the pages 0, 1, 3, ..., 123. A second usage programs all of
      2, 4, ..., 126 and nothing after them; which low pages it reuses depends on the data. Neither programs
      a page twice. */
  ghost predicate Complete(u: Usage, pages: seq<nat>) {
    && (forall i: nat, j: nat :: i < j < |pages| ==> pages[i] < pages[j])
    && (u == HotFirst ==> forall page: nat :: page in pages <==> page <= 123 && LowPage(page))
    && (u != HotFirst ==> forall page: nat :: 2 <= page <= 126 && page % 2 == 0 ==> page in pages)
    && (u != HotFirst ==> forall page: nat :: page in pages ==> page <= 126)
  }

  /** A first usage, from page 0 until the list goes to page 125 after page 123, programs exactly the pages
      0, 1, 3, ..., 123, each once and in increasing order. */
  lemma FirstUsagePages(pages: seq<nat>)
    requires Began(HotFirst, pages) && pages[|pages| - 1] == 123
    ensures Complete(HotFirst, pages)
  {
    forall i: nat, j: nat | i < j < |pages|
      ensures pages[i] < pages[j]
    {
      RunIncreases(HotFirst, pages, i, j);
    }
    forall page: nat
      ensures page in pages <==> page <= 123 && LowPage(page)
    {
      if page <= 123 && LowPage(page) {
        RunCovers(HotFirst, pages, page);
      }
      if page in pages {
        var i: nat :| i < |pages| && pages[i] == page;
        assert i > 0 ==> NextPage(HotFirst, pages[i - 1], pages[i]);
      }
    }
  }

  /** A second usage, from page 0, 1 or 2 until the list goes to page 127 after page 126, programs every high
      page 2, 4, ..., 126 once and in increasing order, whatever the reuse tests of the low pages say. */
  lemma SecondUsagePages(pages: seq<nat>)
    requires Began(HotSecond, pages) && pages[|pages| - 1] == 126
    ensures Complete(HotSecond, pages)
  {
    forall i: nat, j: nat | i < j < |pages|
      ensures pages[i] < pages[j]
    {
      RunIncreases(HotSecond, pages, i, j);
    }
    forall page: nat | 2 <= page <= 126 && page % 2 == 0
      ensures page in pages
    {
      RunCovers(HotSecond, pages, page);
    }
    forall page: nat | page in pages
      ensures page <= 126
    {
      var i: nat :| i < |pages| && pages[i] == page;
    }
  }
}
