/** The flash translation layer: the chunk map and all banks, changed in place by the write path,
    the log and the garbage collector. */
module Ftl {
  import opened Heap
  import opened BankState
  import opened BankSteps
  import opened BankPages
  import opened BankLog
  import opened BankBlocks
  import opened BankGc
  import opened BankHot
  import opened ColdMoves
  import opened FtlSteps
  import opened DeviceSteps
  import opened PageRuns
  import opened HotRoom
  import opened Nand
  import opened Progress
  import opened Sides
  import opened Thresholds
  import opened WriteRuns
  import Modular

  class Ftl {
    const nb: nat    // NUM_BANKS
    const nc: nat    // NUM_CHANNELS
    const blks: nat  // LOG_BLK_PER_BANK

    var table: Table
    var banks: seq<Bank>

    ghost var trail: seq<seq<nat>>       // per bank, the pages its open hot block has had programmed in this usage
    ghost var finished: seq<Finished>    // the hot usages that are over
    ghost var nand: seq<seq<NandOp>>     // per bank, the operations on its flash so far
    ghost var outcomes: seq<seq<Outcome>>  // per bank, the comparisons made for the reuse condition so far

    /** The flash of bank b is what its operations have led to, and they kept the rule of the device. */
    ghost predicate OnRecord(b: nat)
      reads this
    {
      |nand| == |banks| && b < |banks| && Told(blks, nand[b], banks[b].flash)
    }

    /** The first operations on the flash of bank b were these. */
    twostate predicate StartedWith(b: nat, ops: seq<NandOp>)
      reads this
    {
      b < |old(nand)| && b < |nand| && old(nand)[b] + ops <= nand[b]
    }

    /** Only bank b changed, and no chunk was lost or altered. */
    twostate predicate KeptData(b: nat)
      reads this
    {
      && Longer(old(nand), nand, b)
      && b < |old(banks)| && |banks| == |old(banks)|
      && (forall j: nat {:trigger banks[j]} :: j < |banks| && j != b ==> banks[j] == old(banks)[j])
      && SameData(b, old(table), old(banks)[b], table, banks[b])
    }

    /** Moreover the hot log is as it was, so is the number of used-once blocks, and no chunk crossed between the
        hot side of the bank and the rest. */
    twostate predicate Kept(b: nat)
      reads this
    {
      && KeptData(b) && SameThreshold(old(banks)[b].adapt, banks[b].adapt) && banks[b].hot == old(banks)[b].hot
      && banks[b].first.n == old(banks)[b].first.n
      && HotSide(b, table, banks[b]) == HotSide(b, old(table), old(banks)[b])
    }

    /** Every other bank has a clean block, so none of them is drawn into a collection on b. */
    ghost predicate OthersStocked(b: nat)
      reads this
    {
      forall j: nat {:trigger banks[j]} :: j < |banks| && j != b ==> |banks[j].clean| >= 1
    }

    ghost predicate Ok(b: nat)
      reads this
    {
      && 0 < nc && nb % nc == 0 && |banks| == nb && b < nb
      && Inv(blks, b, table, banks[b]) && ColdReady(blks, banks[b]) && OthersStocked(b) && OnRecord(b)
    }

    // ---------- garbage_collection.c ----------

    method InitGC(b: nat)
      requires Ok(b) && banks[b].gc.state == GcIdle && |banks[b].clean| == 1
      requires Candidates(banks[b]) > 0
      modifies this`table, this`banks, this`nand
      ensures Ok(b) && Kept(b) && table == old(table)
      ensures var s, r := old(banks)[b], banks[b];
        var count := LeastCount(s);
        var victim := Victim(VictimHeap(s, VictimCount(s.second) <= VictimCount(s.coldHeap)));
        && r.adapt == s.adapt.(window := [count] + s.adapt.window[..4])
        && (count == 0 ==> r.gc.state == GcIdle && r.clean == s.clean + [victim] && |s.clean| < blks
                           && Candidates(r) == Candidates(s) - 1)
        && (count != 0 ==> r.gc.state == GcRead && r.gc.victim == victim && r.gc.fromHeap == count
                           && r.clean == s.clean && r.second == s.second && r.coldHeap == s.coldHeap)
        && nand[b] == old(nand)[b] + (if count == 0 then [EraseBlk(victim)] else [])
        && (count != 0 ==> Slack(b, table, r) == Room(s) - count)
        && (count != 0 && count < Room(s) ==> Snug(b, table, r))
    {
      hide Inv, HeapOk, Fetch, Collected, Victim, VictimCount, HotSide, Told, Erase, Longer;
      var s := banks[b];
      ghost var s0 := s;
      LongerSelf(nand, b);
      var validCold := VictimCount(s.coldHeap);
      var validSecond := VictimCount(s.second);
      var second := !(validCold < validSecond);
      var count := if second then validSecond else validCold;
      var victim := Victim(VictimHeap(s, second));
      InitChoice(blks, b, table, s);
      StartSnug(blks, b, table, s);
      InvParts(blks, b, table, s);
      s := s.(adapt := s.adapt.(window := [count] + s.adapt.window[..4]));
      AdaptKeeps(blks, b, table, s0, s);
      SameHotFields(b, table, s0, s);
      if count > 0 {
        StartKeeps(blks, b, table, s, second);
        SameHotFields(b, table, s, s.(gc := Started(s, victim, count)));
        s := s.(gc := Started(s, victim, count));
        SameStoreData(b, table, s0, s);
      } else {
        EmptyVictimKeeps(blks, b, table, s, second);
        CollectedCounts(blks, b, table, s, second);
        CollectedHot(blks, b, table, s, victim);
        ToldCollected(blks, nand[b], s, victim);
        LongerBy(nand, b, EraseBlk(victim));
        nand := nand[b := nand[b] + [EraseBlk(victim)]];
        s := Collected(blks, s, victim);
      }
      banks := banks[b := s];
    }

    /** mem_search_equ_dram over the map row of lpn: the first of its entries equal to loc, or 8. */
    method SearchRow(lpn: nat, loc: Loc) returns (idx: nat)
      ensures idx <= CHUNKS_PER_PAGE
      ensures idx < CHUNKS_PER_PAGE ==> Look(table, Key(lpn, idx)) == loc
      ensures forall i: nat {:trigger Key(lpn, i)} :: i < idx ==> Look(table, Key(lpn, i)) != loc
    {
      idx := 0;
      while idx < CHUNKS_PER_PAGE && Look(table, Key(lpn, idx)) != loc
        invariant idx <= CHUNKS_PER_PAGE
        invariant forall i: nat {:trigger Key(lpn, i)} :: i < idx ==> Look(table, Key(lpn, i)) != loc
      {
        idx := idx + 1;
      }
    }

    /** The scan of one page of the victim's list against the map. */
    method ScanPage(b: nat) returns (recycled: bool, found: seq<Option<Key>>)
      requires Ok(b) && banks[b].gc.state == GcRead && banks[b].gc.page < USED_PAGES
      ensures Finds(b, table, banks[b].gc.victim, banks[b].gc.page, recycled, found)
    {
      hide Core, Collecting, HeapOk, Fetch, Val, In, RoleOf, ListOf, Told;
      var gc := banks[b].gc;
      recycled := false;
      for i := 0 to CHUNKS_PER_RECYCLED_PAGE
        invariant recycled <==> exists j: nat {:trigger EntryAt(gc.list, gc.page, j)} ::
          j < i && Flagged(EntryAt(gc.list, gc.page, j))
      {
        var e := EntryAt(gc.list, gc.page, i);
        if Flagged(e) {
          recycled := true;
        } else if recycled {
          // "inconsistent lpns in recycled page" does not happen
          ScanUniform(blks, b, table, banks[b]);
          assert e == NoLpn;
        }
      }
      ScanEntries(blks, b, table, banks[b], recycled);
      found := [None, None, None, None, None, None, None, None];
      var n := if recycled then CHUNKS_PER_RECYCLED_PAGE else CHUNKS_PER_PAGE;
      for i := 0 to n
        invariant |found| == CHUNKS_PER_PAGE
        invariant forall j: nat {:trigger found[j]} :: j < CHUNKS_PER_PAGE && found[j].Some? ==>
          Look(table, found[j].value) == Flash(b, gc.victim, gc.page, j, recycled)
        invariant forall k: Key {:trigger Look(table, k)} ::
          InBlock(Look(table, k), b, gc.victim) && Look(table, k).page == gc.page && Look(table, k).chunk < i ==>
          found[Look(table, k).chunk] == Some(k)
      {
        var e := EntryAt(gc.list, gc.page, i);
        var loc := Flash(b, gc.victim, gc.page, i, recycled);
        if e != NoLpn {
          var idx := SearchRow(e.lpn, loc);
          if idx < CHUNKS_PER_PAGE {
            found := found[i := Some(Key(e.lpn, idx))];
          }
          assert forall k: Key {:trigger Look(table, k)} :: Look(table, k) == loc ==> k == Key(e.lpn, k.idx);
        }
        OneAtPlace(blks, b, table, banks[b], loc);
      }
    }

    /** Scans the victim's pages until one holds live chunks, which are left to WritePage, or all are
        done: then the victim is erased and becomes clean. */
    method ReadPage(b: nat)
      requires Ok(b) && banks[b].gc.state == GcRead
      modifies this`table, this`banks, this`nand
      ensures Ok(b) && Kept(b) && table == old(table) && banks[b].cold == old(banks[b]).cold
      ensures var s, r := old(banks[b]), banks[b];
        || (r.gc.state == GcWrite && nand == old(nand) && r.gc.page >= s.gc.page && r.gc.inPage > 0
            && r.gc.victim == s.gc.victim
            && r.clean == s.clean && r.second == s.second && r.coldHeap == s.coldHeap
            && Snug(b, table, r) == Snug(b, table, s) && Slack(b, table, r) == Slack(b, table, s))
        || (r.gc.state == GcIdle && r.clean == s.clean + [s.gc.victim] && |s.clean| < blks &&
             Candidates(r) == Candidates(s) - 1 && Room(r) == Slack(b, table, s) &&
             nand[b] == old(nand)[b] + [EraseBlk(s.gc.victim)])
    {
      hide Inv, HeapOk, Fetch, Collected, CountSome, Finds, HotSide, Told, Erase, Longer;
      ghost var s0 := banks[b];
      LongerSelf(nand, b);
      ActivePage(blks, b, table, s0);
      while banks[b].gc.page < USED_PAGES
        invariant Ok(b) && Kept(b) && table == old(table) && nand == old(nand)
        invariant banks == old(banks)[b := s0.(gc := banks[b].gc)]
        invariant banks[b].gc.state == GcRead && banks[b].gc.victim == s0.gc.victim
        invariant s0.gc.page <= banks[b].gc.page <= USED_PAGES
        decreases USED_PAGES - banks[b].gc.page
      {
        var s := banks[b];
        var recycled, found := ScanPage(b);
        var page := PageAt(s.flash, s.gc.victim, s.gc.page);
        var buf := seq(CHUNKS_PER_PAGE, i requires 0 <= i < CHUNKS_PER_PAGE => ChunkOf(page, i));
        ScanKeeps(blks, b, table, s, recycled, found, buf);
        var gc := ScannedGc(s.gc, s.flash, recycled, found, buf);
        SameStoreData(b, table, s0, s0.(gc := gc));
        SameHotFields(b, table, s, s.(gc := gc));
        banks := banks[b := s.(gc := gc)];
        if gc.state == GcWrite {
          return;
        }
      }
      var s := banks[b];
      // "found different number of valid chunks than expected" does not happen
      AllMoved(blks, b, table, s);
      assert s.gc.inBlk == s.gc.fromHeap;
      InvParts(blks, b, table, s);
      FinishKeeps(blks, b, table, s);
      FinishCounts(blks, b, table, s);
      CollectedHot(blks, b, table, s, s.gc.victim);
      SameStoreData(b, table, s0, s);
      SameDataTransitive(b, table, s0, table, s, table, Collected(blks, s, s.gc.victim));
      ToldCollected(blks, nand[b], s, s.gc.victim);
      LongerBy(nand, b, EraseBlk(s.gc.victim));
      nand := nand[b := nand[b] + [EraseBlk(s.gc.victim)]];
      banks := banks[b := Collected(blks, s, s.gc.victim)];
    }

    // ---------- write.c: flushing a buffer ----------

    /** The full buffer of a log is about to be programmed. */
    ghost predicate Full(b: nat, hot: bool)
      reads this
    {
      && |banks| == nb && b < nb && OnRecord(b) && Inv(blks, b, table, banks[b])
      && (hot ==> banks[b].gc.state == GcIdle)
      && var c := Log(banks[b], hot);
         c.lbn < blks && c.ptr == Capacity(c) && Ready(c)
    }

    /** The flush loop when every slot still holds its chunk. */
    method MapAllSlots(b: nat, hot: bool)
      requires Full(b, hot) && Log(banks[b], hot).allValid
      modifies this`table
      ensures table == FlushTable(b, old(table), Log(banks[b], hot), hot)
    {
      hide Inv, CountSome, Core, Told;
      var c := Log(banks[b], hot);
      var n := Capacity(c);
      ghost var t0 := table;
      InvParts(blks, b, table, banks[b]);
      BufferNamesOf(blks, b, table, banks[b], hot);
      AllHeld(blks, b, table, banks[b], hot);
      RelocatedNone(t0, b, FromBuf(hot), c.lbn, c.page, c.recycled);
      for i := 0 to n
        invariant table == Relocated(t0, b, FromBuf(hot), i, c.lbn, c.page, c.recycled)
      {
        RelocatedStep(t0, b, FromBuf(hot), c.keys[..n], i, c.lbn, c.page, c.recycled);
        table := table[c.keys[i].value := Flash(b, c.lbn, c.page, i, c.recycled)];
      }
    }

    /** The flush loop when some slots lost their chunk: those slots are taken off the block's counter. */
    method MapHeldSlots(b: nat, hot: bool) returns (row: seq<Entry>, s: Bank)
      requires Full(b, hot) && !Log(banks[b], hot).recycled
      modifies this`table
      ensures table == FlushTable(b, old(table), Log(banks[b], hot), hot)
      ensures CtrlShape(Log(banks[b], hot)) && row == FlushRow(Log(banks[b], hot))
      ensures s == banks[b].(first := s.first, second := s.second, coldHeap := s.coldHeap)
      ensures HeapsTouched(blks, banks[b], s, Log(banks[b], hot).lbn)
      ensures var c := Log(banks[b], hot);
        OwnerVal(s, c.lbn) + 8 == OwnerVal(banks[b], c.lbn) + CountSome(c.keys[..Capacity(c)])
    {
      hide Inv, HeapOk, Touched, HeapsTouched, CountSome, Val, In, RoleOf, Core, OneRole, DecrementByN, OwnerVal, Told;
      s := banks[b];
      var c := Log(s, hot);
      ghost var s0, t0 := s, table;
      InvParts(blks, b, table, s);
      OpenCountOf(blks, b, table, s, hot);
      BufferNamesOf(blks, b, table, s, hot);
      HeapsSelf(blks, s, c.lbn);
      RelocatedNone(t0, b, FromBuf(hot), c.lbn, c.page, false);
      CountEmpty(c.keys);
      row := c.lpns[c.page];
      for i := 0 to CHUNKS_PER_PAGE
        invariant table == Relocated(t0, b, FromBuf(hot), i, c.lbn, c.page, false)
        invariant |row| == CHUNKS_PER_PAGE && forall j :: 0 <= j < i ==> row[j] == FlushRow(c)[j]
        invariant s == s0.(first := s.first, second := s.second, coldHeap := s.coldHeap)
        invariant HeapsTouched(blks, s0, s, c.lbn)
        invariant OwnerVal(s, c.lbn) + i == OwnerVal(s0, c.lbn) + CountSome(c.keys[..i])
      {
        RelocatedStep(t0, b, FromBuf(hot), c.keys[..CHUNKS_PER_PAGE], i, c.lbn, c.page, false);
        CountStep(c.keys, i);
        if c.keys[i].Some? {
          row := row[i := Lpn(c.keys[i].value.lpn, false)];
          table := table[c.keys[i].value := Flash(b, c.lbn, c.page, i, false)];
        } else {
          row := row[i := NoLpn];
          DecOpen(blks, s0, s, c.lbn);
          s := DecAll(blks, s, c.lbn);
        }
      }
      assert row == FlushRow(c);
    }

    /** flushLogBuffer up to increaseLpn: the page is programmed; map, list and counters follow. */
    method ProgramBuffer(b: nat, hot: bool)
      requires Full(b, hot) && !Log(banks[b], hot).recycled
      modifies this`table, this`banks, this`nand
      ensures |banks| == |old(banks)| && banks == old(banks)[b := banks[b]] &&
        Flushed(blks, old(banks)[b], banks[b], hot)
      ensures Longer(old(nand), nand, b) && OnRecord(b)
      ensures var c := Log(old(banks)[b], hot);
        nand[b] == old(nand)[b] + [Program(c.lbn, c.page, Programmed(c.buf))]
      ensures table == FlushTable(b, old(table), Log(old(banks)[b], hot), hot)
      ensures PageAt(old(banks)[b].flash, Log(old(banks)[b], hot).lbn, Log(old(banks)[b], hot).page) == Erased
      ensures FreeOfLive(old(table), b, Log(old(banks)[b], hot).lbn, Log(old(banks)[b], hot).page)
    {
      hide Inv, HeapOk, Touched, HeapsTouched, CountSome, Val, In, RoleOf, Core, OneRole, OwnerVal, Flushed,
        FlushTable, Told, Longer;
      var s := banks[b];
      var c := Log(s, hot);
      ghost var s0 := s;
      InvParts(blks, b, table, s);
      FlushErased(blks, b, table, s, hot);
      var row := FlushRow(c);
      if c.allValid {
        HeapsSelf(blks, s, c.lbn);
        AllHeld(blks, b, table, s, hot);
        MapAllSlots(b, hot);
      } else {
        row, s := MapHeldSlots(b, hot);
      }
      FlushedBy(blks, s0, s, hot);
      LongerBy(nand, b, Program(c.lbn, c.page, Programmed(c.buf)));
      ToldProgram(blks, nand[b], s.flash, c.lbn, c.page, Programmed(c.buf));
      nand := nand[b := nand[b] + [Program(c.lbn, c.page, Programmed(c.buf))]];
      s := s.(flash := SetPage(s.flash, c.lbn, c.page, Programmed(c.buf)));
      banks := banks[b := WithLog(s, hot, c.(lpns := c.lpns[c.page := row], ptr := 0, allValid := true))];
    }

    /** The flush loop of a recycled page when some slots lost their chunk; valid counts the others. */
    method MapHeldRecycled(b: nat) returns (row: seq<Entry>, valid: nat)
      requires Full(b, true) && banks[b].hot.recycled
      modifies this`table
      ensures table == FlushTable(b, old(table), banks[b].hot, true)
      ensures CtrlShape(banks[b].hot) && row == FlushRow(banks[b].hot)
      ensures valid == CountSome(banks[b].hot.keys[..CHUNKS_PER_RECYCLED_PAGE])
    {
      hide Inv, CountSome, Told;
      var c := banks[b].hot;
      ghost var t0 := table;
      InvParts(blks, b, table, banks[b]);
      BufferNamesOf(blks, b, table, banks[b], true);
      RelocatedNone(t0, b, FromBuf(true), c.lbn, c.page, true);
      CountEmpty(c.keys);
      row := c.lpns[c.page];
      valid := 0;
      for i := 0 to CHUNKS_PER_RECYCLED_PAGE
        invariant table == Relocated(t0, b, FromBuf(true), i, c.lbn, c.page, true)
        invariant |row| == CHUNKS_PER_PAGE
        invariant forall j :: 0 <= j < CHUNKS_PER_PAGE ==> row[j] == if j < i then FlushRow(c)[j] else c.lpns[c.page][j]
        invariant valid == CountSome(c.keys[..i])
      {
        RelocatedStep(t0, b, FromBuf(true), c.keys[..CHUNKS_PER_RECYCLED_PAGE], i, c.lbn, c.page, true);
        CountStep(c.keys, i);
        if c.keys[i].Some? {
          table := table[c.keys[i].value := Flash(b, c.lbn, c.page, i, true)];
          valid := valid + 1;
          row := row[i := Lpn(c.keys[i].value.lpn, true)];
        } else {
          row := row[i := NoLpn];
        }
      }
      assert row == FlushRow(c);
    }

    /** flushLogBufferRecycledPage up to increaseLpn: four chunks are programmed, encoded, over a low page. */
    method ProgramRecycled(b: nat)
      requires Full(b, true) && banks[b].hot.recycled
      modifies this`table, this`banks, this`nand
      ensures |banks| == |old(banks)| && banks == old(banks)[b := banks[b]] &&
        Flushed(blks, old(banks)[b], banks[b], true)
      ensures Longer(old(nand), nand, b) && OnRecord(b)
      ensures var c := old(banks)[b].hot;
        nand[b] == old(nand)[b] + [Program(c.lbn, c.page, Programmed(c.buf))]
      ensures table == FlushTable(b, old(table), old(banks)[b].hot, true)
      ensures LowPage(old(banks)[b].hot.page)
      ensures FreeOfLive(old(table), b, old(banks)[b].hot.lbn, old(banks)[b].hot.page)
    {
      hide Inv, HeapOk, CountSome, Flushed, FlushTable, DecrementByN, Told, Longer;
      var s := banks[b];
      var c := s.hot;
      InvParts(blks, b, table, s);
      FlushErased(blks, b, table, s, true);
      // "flushing different pageOffset from the precached one" does not happen
      assert c.next == Some(c.page);
      var row := FlushRow(c);
      var n := CHUNKS_PER_PAGE - CHUNKS_PER_RECYCLED_PAGE;
      if c.allValid {
        AllHeld(blks, b, table, s, true);
        MapAllSlots(b, true);
      } else {
        var valid;
        row, valid := MapHeldRecycled(b);
        CountBound(c.keys[..CHUNKS_PER_RECYCLED_PAGE]);
        n := CHUNKS_PER_PAGE - valid;
      }
      RecycledFlushed(blks, b, old(table), s, n);
      UnfoldHeap(blks, s.second);
      LongerBy(nand, b, Program(c.lbn, c.page, Programmed(c.buf)));
      ToldProgram(blks, nand[b], s.flash, c.lbn, c.page, Programmed(c.buf));
      nand := nand[b := nand[b] + [Program(c.lbn, c.page, Programmed(c.buf))]];
      banks := banks[b := s.(flash := SetPage(s.flash, c.lbn, c.page, Programmed(c.buf)),
                             second := DecrementByN(s.second, c.lbn, n),
                             hot := c.(lpns := c.lpns[c.page := row], ptr := 0, allValid := true))];
    }

    // ---------- The cold log, and the collector that writes to it ----------

    /** The page of the open cold block at cold.page was just programmed; increaseLpn is due. */
    ghost predicate ColdAdvancing(b: nat)
      reads this
    {
      && 0 < nc && nb % nc == 0 && |banks| == nb && b < nb && OthersStocked(b) && OnRecord(b)
      && var s := banks[b];
         && Inv(blks, b, table, s.(cold := Advanced(s.cold))) && ColdReady(blks, s)
         && (s.gc.state == GcIdle ==> |s.clean| >= 2)
         && (s.gc.state != GcIdle && s.cold.page == USED_PAGES - 1 ==> s.gc.inBlk - s.gc.inPage > s.cold.ptr)
    }

    /** A step of the collector's writes left the collection as it was, or else finished it, and perhaps
        others, because it had filled the cold block. */
    twostate predicate WentOn(b: nat)
      requires b < |banks| && b < |old(banks)|
      reads this
    {
      var s, r := old(banks)[b], banks[b];
      || (r.gc == s.gc && r.clean == s.clean && r.second.n == s.second.n && r.coldHeap.n == s.coldHeap.n)
      || (r.gc.state == GcIdle && |r.clean| == if |s.clean| > 2 then |s.clean| - 1 else 2)
    }

    /** A step of the collector's writes left the collection as it was, and what is left of the victim
        still fits the open cold block. */
    twostate predicate Unhindered(b: nat)
      requires b < |banks| && b < |old(banks)|
      reads this
    {
      var s, r := old(banks)[b], banks[b];
      r.gc == s.gc && r.clean == s.clean && Candidates(r) == Candidates(s) && Snug(b, table, r)
    }

    /** The open cold block is full: its list is programmed, it enters the cold heap, and the head of
        the clean list is opened. A collection in progress stays valid, and what is left of its victim
        now fits the fresh block. */
    method RollColdBlk(b: nat)
      requires ColdAdvancing(b) && banks[b].cold.page == USED_PAGES - 1
      modifies this`table, this`banks, this`nand
      ensures Ok(b) && Kept(b) && table == old(table) && NoWorse(old(banks)[b], banks[b])
      ensures var s := old(banks)[b];
        && |s.clean| > 0 && s.cold.lbn < blks && FlashShape(blks, s.flash)
        && Valid(s.coldHeap) && |s.coldHeap.pos| == blks && !In(s.coldHeap, s.cold.lbn)
        && banks[b] == s.(flash := SetPage(s.flash, s.cold.lbn, PAGES_PER_BLK - 1, ListPage(s.cold.lpns)),
                          coldHeap := Insert(s.coldHeap, s.cold.lbn), clean := s.clean[1..],
                          cold := s.cold.(lpns := EmptyList(), lbn := s.clean[0], page := 0))
      ensures var c := old(banks)[b].cold;
        nand[b] == old(nand)[b] + [Program(c.lbn, PAGES_PER_BLK - 1, ListPage(c.lpns))]
      ensures banks[b].gc.state == GcIdle ==> |banks[b].clean| >= 1 && Candidates(banks[b]) >= 1
      ensures banks[b].gc.state != GcIdle ==> Candidates(banks[b]) >= 2 && Snug(b, table, banks[b])
      ensures PageAt(old(banks)[b].flash, old(banks)[b].cold.lbn, PAGES_PER_BLK - 1) == Erased
    {
      hide Inv, HeapOk, Fetch, Insert, RoleOf, OneRole, SameData, ColdRolled, In, Snug, NoWorse, HotSide, Told, Longer;
      var s := banks[b];
      ghost var s0 := s;
      ghost var adv := s.(cold := Advanced(s.cold));
      InvParts(blks, b, table, adv);
      ListErased(blks, b, table, adv, false);
      SameStoreData(b, table, s, adv);
      ColdRollKeeps(blks, b, table, adv);
      ColdRollCode(blks, adv);
      if adv.gc.state != GcIdle {
        ActiveCount(blks, b, table, adv);
      }
      SameDataTransitive(b, table, s, table, adv, table, ColdRolled(blks, adv));
      LongerBy(nand, b, Program(s.cold.lbn, PAGES_PER_BLK - 1, ListPage(s.cold.lpns)));
      ToldProgram(blks, nand[b], s.flash, s.cold.lbn, PAGES_PER_BLK - 1, ListPage(s.cold.lpns));
      nand := nand[b := nand[b] + [Program(s.cold.lbn, PAGES_PER_BLK - 1, ListPage(s.cold.lpns))]];
      s := s.(flash := SetPage(s.flash, s.cold.lbn, PAGES_PER_BLK - 1, ListPage(s.cold.lpns)),
              coldHeap := Insert(s.coldHeap, s.cold.lbn), cold := s.cold.(lpns := EmptyList()));
      var lbn := s.clean[0];
      s := s.(clean := s.clean[1..], cold := s.cold.(lbn := lbn, page := 0));
      banks := banks[b := s];
      SameHotFields(b, table, s0, s);
      RolledNoWorse(blks, b, table, s0, s);
    }

    /** while cleanListSize < 2, garbageCollectLog: a collection in progress is finished first. */
    method RestoreClean(b: nat, fuel: nat) returns (done: bool)
      requires Ok(b)
      requires banks[b].gc.state == GcIdle && |banks[b].clean| < 2 ==>
        |banks[b].clean| == 1 && Candidates(banks[b]) >= 1
      requires banks[b].gc.state != GcIdle ==> |banks[b].clean| <= 1 && Candidates(banks[b]) >= 2
      modifies this`table, this`banks, this`nand
      ensures Ok(b) && Kept(b)
      ensures |old(banks)[b].clean| >= 2 ==> done && banks == old(banks) && table == old(table)
      ensures done ==> banks[b].gc.state == GcIdle && |banks[b].clean| >= 2
      ensures done && |old(banks)[b].clean| < 2 ==> |banks[b].clean| == 2
      ensures fuel > 0 && old(banks)[b].gc.state == GcIdle && LeastCount(old(banks)[b]) < Room(old(banks)[b]) ==> done
      ensures !done ==> |banks[b].clean| < 2
      ensures done && old(banks)[b].hot.lbn < blks ==>
        Spacious(blks, old(banks)[b], ColdSide(b, old(table), old(banks)[b]))
      ensures var s := old(banks)[b];
        Spacious(blks, s, ColdSide(b, old(table), s)) && Deep(b, old(table), s, fuel) ==> done
      decreases fuel, 0
    {
      hide Inv, HeapOk, Fetch, SameData, HotSide, ColdSide, Spacious, Slack, LeastCount, Told, Longer;
      ghost var t0, s0 := table, banks[b];
      ghost var spacious := Spacious(blks, s0, ColdSide(b, t0, s0));
      ghost var deep := Deep(b, t0, s0, fuel);
      SameStoreData(b, t0, s0, s0);
      LongerSelf(nand, b);
      while |banks[b].clean| < 2
        invariant Ok(b) && Kept(b) && (|s0.clean| >= 2 ==> banks == old(banks) && table == old(table))
        invariant banks[b].gc.state == GcIdle && |banks[b].clean| < 2 ==>
          |banks[b].clean| == 1 && Candidates(banks[b]) >= 1
        invariant banks[b].gc.state != GcIdle ==> |banks[b].clean| <= 1 && Candidates(banks[b]) >= 2
        invariant banks[b] == s0 || |banks[b].clean| == 2 || (s0.gc.state != GcIdle && |banks[b].clean| < 2)
        invariant Spacious(blks, banks[b], ColdSide(b, table, banks[b])) <==> spacious
        invariant deep && |banks[b].clean| < 2 ==> Deep(b, table, banks[b], fuel)
        decreases if |banks[b].clean| >= 2 then 0 else if banks[b].gc.state == GcIdle then 1 else 2
      {
        RoomBound(blks, b, table, banks[b]);
        RoomLeast(blks, b, table, banks[b]);
        if fuel == 0 {
          return false;
        }
        ghost var t1, s1, n1 := table, banks[b], nand;
        done := GarbageCollectLog(b, fuel - 1);
        LongerTransitive(old(nand), n1, nand, b);
        SameDataTransitive(b, t0, s0, t1, s1, table, banks[b]);
        SpaciousKept(blks, b, t1, s1, table, banks[b]);
        if !done {
          return;
        }
      }
      RoomTwo(blks, b, table, banks[b]);
      done := true;
    }

    method IncreaseLpnColdBlk(b: nat, fuel: nat) returns (done: bool)
      requires ColdAdvancing(b)
      modifies this`table, this`banks, this`nand
      ensures Ok(b) && Kept(b)
      ensures done ==> WentOn(b)
      ensures var s := old(banks)[b];
        s.cold.page != USED_PAGES - 1 ==>
          && done && table == old(table) && nand == old(nand)
          && banks == old(banks)[b := s.(cold := s.cold.(page := s.cold.page + 1))]
      ensures var c := old(banks)[b].cold;
        c.page == USED_PAGES - 1 ==> StartedWith(b, [Program(c.lbn, PAGES_PER_BLK - 1, ListPage(c.lpns))])
      ensures !done ==> |banks[b].clean| < 2
      ensures var s := old(banks)[b];
        s.gc.state != GcIdle ==>
          var slack := Slack(b, old(table), s.(cold := s.cold.(page := s.cold.page + 1)));
          && (done && banks[b].gc.state != GcIdle ==> Slack(b, table, banks[b]) == slack)
          && (Carried(blks, b, old(table), s, slack, fuel) ==> done)
      ensures var s := old(banks)[b];
        s.gc.state == GcIdle && s.cold.ptr == 0 && s.hot.lbn < blks && s.cold.page == USED_PAGES - 1 ==>
          && (done ==> Fits(blks, s, ColdSide(b, old(table), s)))
          && (fuel > 0 && Fits(blks, s, ColdSide(b, old(table), s)) ==> done)
      ensures var s := old(banks)[b];
        fuel > 0 && s.gc.state == GcIdle && s.cold.ptr == 0 && Assured(s, false) ==> done
      decreases fuel, 1
    {
      hide Inv, HeapOk, Fetch, SameData, NoWorse, LeastCount, SureReuse, Insert, In, Valid, FlashShape, Snug,
        Candidates, HotSide, ColdSide, Spacious, Slack, Deep, Carried, Told, Longer;
      var s := banks[b];
      ghost var adv := s.(cold := Advanced(s.cold));
      InvParts(blks, b, table, adv);
      if s.cold.page == USED_PAGES - 1 {
        RollColdBlk(b);
        LeastNoWorse(s, banks[b]);
        ColdSideKept(b, old(table), s, table, banks[b]);
        SpaciousSame(blks, s, banks[b], ColdSide(b, table, banks[b]));
        RoomLeast(blks, b, table, banks[b]);
        if banks[b].gc.state != GcIdle {
          ActivePage(blks, b, table, banks[b]);
        }
        ghost var t1, s1, n1 := table, banks[b], nand;
        RolledDeep(blks, b, t1, s, s1, fuel);
        done := RestoreClean(b, fuel);
        LongerTransitive(old(nand), n1, nand, b);
        LongerPrefix(n1, nand, b);
        SameDataTransitive(b, old(table), s, t1, s1, table, banks[b]);
        if done {
          ColdSideKept(b, old(table), s, table, banks[b]);
          RoomTwo(blks, b, table, banks[b]);
          SpaciousSame(blks, s, banks[b], ColdSide(b, table, banks[b]));
        }
      } else {
        LongerSelf(nand, b);
        SameStoreData(b, table, s, adv);
        SameHotFields(b, table, s, s.(cold := s.cold.(page := s.cold.page + 1)));
        banks := banks[b := s.(cold := s.cold.(page := s.cold.page + 1))];
        done := true;
      }
    }

    // ---------- garbage_collection.c: one collection ----------

    /** The first n banks of the search from start on have clean blocks. */
    ghost predicate AllStocked(start: nat, n: nat)
      requires start < nb && |banks| == nb
      reads this
    {
      forall i: nat {:trigger Tried(nb, nc, start, i)} :: i < n ==>
        |banks[Tried(nb, nc, start, i)].clean| >= BACKGROUND_GC_THRESHOLD
    }

    /** The search of one channel, column by column, for a bank that has run out of clean blocks. */
    method SearchChannel(start: nat, columns: nat) returns (chosen: Option<nat>)
      requires 0 < nc && nb % nc == 0 && |banks| == nb && start < nb
      ensures chosen.Some? ==>
        chosen.value < nb && chosen.value % nc == start % nc && |banks[chosen.value].clean| < BACKGROUND_GC_THRESHOLD
      ensures match chosen
        case Some(bank) => exists i: nat {:trigger Tried(nb, nc, start, i)} ::
          i < columns && bank == Tried(nb, nc, start, i) && AllStocked(start, i)
        case None => AllStocked(start, columns)
    {
      var bank: nat := start;
      for column := 0 to columns
        invariant bank < nb && bank % nc == start % nc && bank == Tried(nb, nc, start, column) &&
          AllStocked(start, column)
      {
        if |banks[bank].clean| < BACKGROUND_GC_THRESHOLD {
          return Some(bank);
        }
        Modular.NextColumn(nb, nc, bank);
        bank := (bank + nc) % nb;
      }
      return None;
    }

    /** The banks of the channel in columns from on up to to have clean blocks. */
    ghost predicate StockedFrom(channel: nat, from: nat, to: nat)
      reads this
    {
      forall column: nat {:trigger BankAt(nc, column, channel)} ::
        from <= column < to && BankAt(nc, column, channel) < |banks| ==>
        |banks[BankAt(nc, column, channel)].clean| >= BACKGROUND_GC_THRESHOLD
    }

    /** On another channel than its own, bank b takes along the first bank from its column on that has run out of clean
        blocks, if there is one. */
    ghost predicate FirstStarved(b: nat, channel: nat, found: Option<nat>)
      requires nc > 0
      reads this
    {
      match found
      case Some(bank) => exists column: nat {:trigger BankAt(nc, column, channel)} ::
        && b / nc <= column < nb / nc && bank == BankAt(nc, column, channel) < |banks|
        && |banks[bank].clean| < BACKGROUND_GC_THRESHOLD && StockedFrom(channel, b / nc, column)
      case None => StockedFrom(channel, b / nc, nb / nc)
    }

    lemma SearchedFirst(b: nat, channel: nat, found: Option<nat>)
      requires 0 < nc && nb % nc == 0 && |banks| == nb && b < nb && channel < nc
      requires BankAt(nc, b / nc, channel) < nb
      requires match found
        case Some(bank) => exists i: nat {:trigger Tried(nb, nc, BankAt(nc, b / nc, channel), i)} ::
          i < nb / nc - b / nc && bank == Tried(nb, nc, BankAt(nc, b / nc, channel), i) &&
            |banks[bank].clean| < BACKGROUND_GC_THRESHOLD && AllStocked(BankAt(nc, b / nc, channel), i)
        case None => b / nc <= nb / nc && AllStocked(BankAt(nc, b / nc, channel), nb / nc - b / nc)
      ensures FirstStarved(b, channel, found)
    {
      hide BankAt, Tried;
      var start, from := BankAt(nc, b / nc, channel), b / nc;
      var n: nat := nb / nc - from;
      if found.Some? {
        var i: nat :| i < nb / nc - from && found.value == Tried(nb, nc, start, i) &&
          |banks[found.value].clean| < BACKGROUND_GC_THRESHOLD && AllStocked(start, i);
        n := i;
        TriedAt(nb, nc, from, channel, i);
      }
      forall column: nat {:trigger BankAt(nc, column, channel)}
        | from <= column < from + n && BankAt(nc, column, channel) < nb
        ensures |banks[BankAt(nc, column, channel)].clean| >= BACKGROUND_GC_THRESHOLD
      {
        TriedAt(nb, nc, from, channel, column - from);
      }
    }

    method ChooseOnChannel(b: nat, i: nat) returns (found: Option<nat>)
      requires 0 < nc && nb % nc == 0 && |banks| == nb && b < nb && i < nc && i != b % nc
      ensures found.Some? ==>
        found.value < nb && found.value != b && |banks[found.value].clean| < BACKGROUND_GC_THRESHOLD
      ensures FirstStarved(b, i, found)
    {
      hide FirstStarved, Tried, BankAt, AllStocked, StockedFrom;
      ColumnHead(nb, nc, b, i);
      var column, columns := b / nc, nb / nc;
      found := SearchChannel(BankAt(nc, column, i), columns - column);
      SearchedFirst(b, i, found);
    }

    /** The banks that take part in a collection asked for by bank b: on b's own channel it is b; on
        another channel, the first bank from b's column on that has run out of clean blocks. */
    method ChooseBanks(b: nat) returns (chosen: seq<Option<nat>>)
      requires 0 < nc && nb % nc == 0 && |banks| == nb && b < nb
      ensures |chosen| == nc && b % nc < nc && chosen[b % nc] == Some(b)
      ensures forall i: nat {:trigger chosen[i]} :: i < nc && i != b % nc && chosen[i].Some? ==>
        chosen[i].value < nb && chosen[i].value != b && |banks[chosen[i].value].clean| < BACKGROUND_GC_THRESHOLD
      ensures forall i: nat {:trigger chosen[i]} :: i < nc && i != b % nc ==> FirstStarved(b, i, chosen[i])
    {
      hide FirstStarved;
      var home := b % nc;
      chosen := seq(nc, _ => None);
      for i := 0 to nc
        invariant |chosen| == nc && (home < i ==> chosen[home] == Some(b))
        invariant forall j: nat {:trigger chosen[j]} :: j < nc && j != home && chosen[j].Some? ==>
          chosen[j].value < nb && chosen[j].value != b && |banks[chosen[j].value].clean| < BACKGROUND_GC_THRESHOLD
        invariant forall j: nat {:trigger chosen[j]} :: j < i && j != home ==> FirstStarved(b, j, chosen[j])
      {
        var found := Some(b);
        if home != i {
          found := ChooseOnChannel(b, i);
        }
        chosen := chosen[i := found];
      }
    }

    /** Collects one victim of bank b, or finishes the collection in progress. No other bank takes part.
        It gives up only when the re-entries it needs are deeper than fuel. */
    method GarbageCollectLog(b: nat, fuel: nat) returns (done: bool)
      requires Ok(b) && |banks[b].clean| <= 1
      requires banks[b].gc.state == GcIdle ==> |banks[b].clean| == 1 && Candidates(banks[b]) > 0
      modifies this`table, this`banks, this`nand
      ensures Ok(b) && Kept(b)
      ensures done ==> banks[b].gc.state == GcIdle && |old(banks)[b].clean| < |banks[b].clean| <= 2
      ensures done ==> |banks[b].clean| == 2 || Candidates(banks[b]) == Candidates(old(banks)[b]) - 1
      ensures !done ==> |banks[b].clean| < 2
      ensures var s := old(banks)[b];
        (if s.gc.state == GcIdle then LeastCount(s) < Room(s) else Snug(b, old(table), s)) ==>
          EndsWith(nand[b], EraseBlk(NextVictim(s)))
      ensures var s := old(banks)[b];
        (if s.gc.state == GcIdle then LeastCount(s) < Room(s) else Snug(b, old(table), s)) ==> done
      ensures var s := old(banks)[b];
        if s.gc.state == GcIdle
        then
          && (Spacious(blks, s, ColdSide(b, old(table), s)) && fuel + Room(s) > LeastCount(s) ==> done)
          && (done && s.hot.lbn < blks ==> LeastCount(s) < Room(s) || Spacious(blks, s, ColdSide(b, old(table), s)))
        else Slack(b, old(table), s) > 0 ==> done && Room(banks[b]) == Slack(b, old(table), s)
      decreases fuel, 14
    {
      hide VictimHeap, NextVictim, EndsWith, Inv, HeapOk, Fetch, SameData, LeastCount, Snug, Victim, VictimCount,
        HotSide,
        Slack, ColdSide, Spacious, Room, Tried, Told, Longer;
      ghost var s0 := banks[b];
      NextVictimIs(s0);
      var chosen := ChooseBanks(b);
      assert forall i: nat {:trigger chosen[i]} :: i < nc && chosen[i].Some? ==> chosen[i] == Some(b);
      SnugSlack(b, table, s0);
      LongerSelf(nand, b);
      SameStoreData(b, table, s0, s0);
      if banks[b].gc.state == GcIdle {
        InitGC(b);
        EndsErased(old(nand)[b], nand[b], NextVictim(s0));
        RoomBound(blks, b, old(table), s0);
        SpaciousKept(blks, b, old(table), s0, table, banks[b]);
      }
      ghost var t1, s1, n1 := table, banks[b], nand;
      done := FinishGC(b, fuel);
      LongerTransitive(old(nand), n1, nand, b);
      SameDataTransitive(b, old(table), s0, t1, s1, table, banks[b]);
      SpaciousKept(blks, b, old(table), s0, table, banks[b]);
      RoomTwo(blks, b, table, banks[b]);
    }

    /** The collector's loop on bank b, until it is idle. */
    method FinishGC(b: nat, fuel: nat) returns (done: bool)
      requires Ok(b)
      modifies this`table, this`banks, this`nand
      ensures Ok(b) && Kept(b)
      ensures old(banks)[b].gc.state == GcIdle ==>
        done && banks == old(banks) && table == old(table) && nand == old(nand)
      ensures !done ==> |banks[b].clean| < 2
      ensures var s, r := old(banks)[b], banks[b]; var slack := Slack(b, old(table), s);
        s.gc.state != GcIdle ==>
          && (done ==> r.gc.state == GcIdle && |s.clean| < |r.clean| <= 2)
          && (done ==> |r.clean| == 2 || (slack > 0 && Candidates(r) == Candidates(s) - 1))
          && (slack > 0 ==> Room(r) == slack && EndsWith(nand[b], EraseBlk(s.gc.victim)))
          && (Carried(blks, b, old(table), s, slack, fuel) ==> done)
      decreases fuel, 13
    {
      hide EndsWith, Inv, HeapOk, Fetch, SameData, Snug, HotSide, Slack, ColdSide, Spacious, Room, Told, Longer;
      ghost var s0 := banks[b];
      ghost var slack := Slack(b, table, s0);
      ghost var spacious := Spacious(blks, s0, ColdSide(b, table, s0));
      LongerSelf(nand, b);
      SameStoreData(b, table, s0, s0);
      while banks[b].gc.state != GcIdle
        invariant Ok(b) && Kept(b)
        invariant s0.gc.state == GcIdle ==> banks == old(banks) && table == old(table) && nand == old(nand)
        invariant var s := banks[b];
          if s.gc.state != GcIdle
          then
            && |s.clean| == |s0.clean| && Candidates(s) == Candidates(s0)
            && Slack(b, table, s) == slack && s.gc.victim == s0.gc.victim
          else s0.gc.state != GcIdle ==>
            && |s0.clean| < |s.clean| <= 2 && (|s.clean| == 2 || (slack > 0 && Candidates(s) == Candidates(s0) - 1))
            && (slack > 0 ==> Room(s) == slack && EndsWith(nand[b], EraseBlk(s0.gc.victim)))
        invariant Spacious(blks, banks[b], ColdSide(b, table, banks[b])) <==> spacious
        decreases Remaining(banks[b].gc)
      {
        ghost var t1, s1, n1 := table, banks[b], nand;
        ActivePage(blks, b, t1, s1);
        done := GcStep(b, fuel);
        LongerTransitive(old(nand), n1, nand, b);
        SameDataTransitive(b, old(table), s0, t1, s1, table, banks[b]);
        SpaciousKept(blks, b, t1, s1, table, banks[b]);
        if !done {
          return;
        }
      }
      done := true;
    }

    /** One turn of the collector's loop on bank b. */
    method GcStep(b: nat, fuel: nat) returns (done: bool)
      requires Ok(b) && banks[b].gc.state != GcIdle
      modifies this`table, this`banks, this`nand
      ensures Ok(b) && Kept(b)
      ensures done ==> var s, r := old(banks)[b], banks[b];
        && (r.gc.state != GcIdle ==>
             |r.clean| == |s.clean| && Candidates(r) == Candidates(s) && Remaining(r.gc) < Remaining(s.gc))
        && (r.gc.state == GcIdle ==>
             |s.clean| < |r.clean| <= 2 && (|r.clean| == 2 || Candidates(r) == Candidates(s) - 1))
      ensures !done ==> |banks[b].clean| < 2
      ensures Snug(b, old(table), old(banks)[b]) ==> done && (banks[b].gc.state != GcIdle ==> Snug(b, table, banks[b]))
      ensures var s := old(banks)[b];
        && (done && banks[b].gc.state != GcIdle ==> Slack(b, table, banks[b]) == Slack(b, old(table), s))
        && (Slack(b, old(table), s) > 0 && banks[b].gc.state == GcIdle ==> Room(banks[b]) == Slack(b, old(table), s))
        && (done && Slack(b, old(table), s) <= 0 && banks[b].gc.state == GcIdle ==> |banks[b].clean| == 2)
        && (Carried(blks, b, old(table), s, Slack(b, old(table), s), fuel) ==> done)
      ensures var s := old(banks)[b];
        && (done && banks[b].gc.state != GcIdle ==> banks[b].gc.victim == s.gc.victim)
        && (Slack(b, old(table), s) > 0 && banks[b].gc.state == GcIdle ==> EndsWith(nand[b], EraseBlk(s.gc.victim)))
      decreases fuel, 12
    {
      hide Inv, HeapOk, Fetch, SameData, Snug, HotSide, Slack, ColdSide, Spacious, Told, Longer;
      ActivePage(blks, b, table, banks[b]);
      SnugSlack(b, table, banks[b]);
      done := true;
      if banks[b].gc.state == GcRead {
        ReadPage(b);
        RoomBound(blks, b, table, banks[b]);
      } else {
        done := WritePage(b, fuel);
      }
      if banks[b].gc.state != GcIdle {
        ActivePage(blks, b, table, banks[b]);
      }
    }

    /** The full buffer of the log was programmed, first of all, at the page it stood on, and unless that was the last
        page of the usage the log has moved on in its block. */
    twostate predicate PageWritten(b: nat, hot: bool, c: Ctrl, buf: seq<Chunk>, done: bool)
      requires b < |banks|
      reads this
    {
      && StartedWith(b, [Program(c.lbn, c.page, Programmed(buf))])
      && (c.page != LastPage(c.usage) ==>
           && done && PageAt(banks[b].flash, c.lbn, c.page) == Programmed(buf) && Log(banks[b], hot).lbn == c.lbn
           && NextPage(c.usage, c.page, Log(banks[b], hot).page)
           && (c.usage == HotSecond ==> SecondMove(b, table, c, banks[b].hot)))
    }

    /** The full cold buffer goes to flash: flushLogBufferDuringGC, and flushLogBuffer on the cold log. */
    method FlushCold(b: nat, fuel: nat) returns (done: bool)
      requires Full(b, false) && 0 < nc && nb % nc == 0 && OthersStocked(b)
      requires banks[b].gc.state == GcIdle ==> |banks[b].clean| >= 2
      requires banks[b].gc.state != GcIdle ==> banks[b].gc.inPage < banks[b].gc.inBlk
      modifies this`table, this`banks, this`nand
      ensures Ok(b) && Kept(b)
      ensures done ==> WentOn(b)
      ensures !done ==> |banks[b].clean| < 2
      ensures fuel > 0 && old(banks)[b].gc.state == GcIdle && Assured(old(banks)[b], false) ==> done
      ensures var s := old(banks)[b];
        s.gc.state == GcIdle && s.hot.lbn < blks && s.cold.page == USED_PAGES - 1 ==>
          && (done ==> Fits(blks, s, ColdSide(b, old(table), s)))
          && (fuel > 0 && Fits(blks, s, ColdSide(b, old(table), s)) ==> done)
      ensures var s, r := old(banks)[b], banks[b]; var c := s.cold;
        c.page != USED_PAGES - 1 ==>
          && done && FlashShape(blks, s.flash) && r.flash == SetPage(s.flash, c.lbn, c.page, Programmed(c.buf))
          && r.cold.lbn == c.lbn && r.cold.page == c.page + 1 && r.cold.ptr == 0 && r.gc == s.gc
          && table == FlushTable(b, old(table), c, false)
      ensures var c := old(banks)[b].cold; PageWritten(b, false, c, c.buf, done)
      ensures old(banks)[b].gc.state != GcIdle && Snug(b, old(table), old(banks)[b]) ==> done && Unhindered(b)
      ensures var s := old(banks)[b];
        s.gc.state != GcIdle ==>
          && (done && banks[b].gc.state != GcIdle ==> Slack(b, table, banks[b]) == Slack(b, old(table), s))
          && (Carried(blks, b, old(table), s, Slack(b, old(table), s), fuel) ==> done)
      decreases fuel, 7
    {
      hide Inv, HeapOk, Fetch, SameData, Flushed, FlushTable, Live, NoWorse, LeastCount, SureReuse, HotSide,
        ColdSide, Spacious, Slack, Told, Longer;
      ghost var t0, s0 := table, banks[b];
      InvParts(blks, b, t0, s0);
      ProgramBuffer(b, false);
      ghost var t1, s1, n1 := table, banks[b], nand;
      FlushedFacts(blks, s0, s1, false);
      FlushKeeps(blks, b, t0, s0, s1, false);
      FlushedData(blks, b, t0, s0, s1, false);
      FlushedHot(blks, b, t0, s0, s1);
      ColdSideKept(b, t0, s0, t1, s1);
      SpaciousSame(blks, s0, s1, ColdSide(b, t0, s0));
      if s0.gc.state != GcIdle {
        FlushKeepsSnug(blks, b, t0, s0, s1);
        FlushSlack(blks, b, t0, s0, s1);
        SpaciousKept(blks, b, t0, s0, t1, s1);
      }
      FlushNoWorse(blks, b, t0, s0, t1, s1, false);
      LeastNoWorse(s0, s1);
      done := IncreaseLpnColdBlk(b, fuel);
      LongerTransitive(old(nand), n1, nand, b);
      LongerPrefix(n1, nand, b);
      LaterSteps(ColdLog, s0.cold.page);
      SameDataTransitive(b, t0, s0, t1, s1, table, banks[b]);
    }

    /** A live chunk of the victim moves to the cold buffer, which is flushed when full. */
    method WriteChunkOnLogBlockDuringGC(b: nat, k: Key, d: Chunk, fuel: nat) returns (done: bool)
      requires 0 < nc && nb % nc == 0 && |banks| == nb && b < nb && OthersStocked(b) && OnRecord(b) &&
        ColdReady(blks, banks[b])
      requires Inv(blks, b, table - {k}, banks[b]) && banks[b].gc.state == GcWrite &&
        banks[b].gc.inPage < banks[b].gc.inBlk
      requires !OnHot(banks[b], Look(table, k))
      requires k.idx < CHUNKS_PER_PAGE && OfBank(Look(table, k), b) && Fetch(banks[b], Look(table, k)) == d
      requires || |Live(table - {k}, b, banks[b].gc.victim)| + 1 < Room(banks[b])
               || (VictimPos(banks[b]) == 1 && |banks[b].clean| >= 1)
      modifies this`table, this`banks, this`nand
      ensures Ok(b) && Kept(b)
      ensures done ==> WentOn(b)
      ensures !done ==> |banks[b].clean| < 2
      ensures |Live(old(table) - {k}, b, old(banks)[b].gc.victim)| + 1 < Room(old(banks)[b]) ==> done && Unhindered(b)
      ensures var s := old(banks)[b]; var slack := Room(s) - |Live(old(table) - {k}, b, s.gc.victim)| - 1;
        && (done && banks[b].gc.state != GcIdle ==> Slack(b, table, banks[b]) == slack)
        && (Carried(blks, b, old(table), s, slack, fuel) ==> done)
      ensures PutOne(b, old(table), old(banks)[b], k, d, old(nand)[b], done, table, banks[b], nand[b])
      decreases fuel, 8
    {
      hide PutOne, FlushTable, Inv, HeapOk, Fetch, SameData, Live, VictimPos, HotSide, ColdSide, Spacious, Told, Longer;
      var s := banks[b];
      ghost var t0 := table;
      LongerSelf(nand, b);
      InvParts(blks, b, table - {k}, s);
      Link(blks, b, table - {k}, s, false, k, d);
      PutData(blks, b, t0, s, false, k, d);
      PutLive(b, t0, s, k);
      PutHot(b, t0, s, k, d);
      assert (table - {k})[k := Buf(b, false, s.cold.ptr)] == table[k := Buf(b, false, s.cold.ptr)];
      var c := s.cold;
      table := table[k := Buf(b, false, c.ptr)];
      c := c.(buf := c.buf[c.ptr := d], keys := c.keys[c.ptr := Some(k)], ptr := c.ptr + 1);
      banks := banks[b := s.(cold := c)];
      done := true;
      PutInBuffer(b, t0, s, k, d, nand[b], table, banks[b]);
      if c.ptr == CHUNKS_PER_PAGE {
        ghost var t1, s1 := table, banks[b];
        SpaciousKept(blks, b, t0, s, t1, s1);
        done := FlushCold(b, fuel);
        PutAndFlushed(b, t0, s, k, d, old(nand)[b], t1, s1, done, table, banks[b], nand[b]);
        SameDataTransitive(b, t0, s, t1, s1, table, banks[b]);
      }
    }

    /** A page with eight live chunks is copied as it is to the open cold block. */
    method WriteWholePage(b: nat)
      requires Ok(b) && banks[b].gc.state == GcWrite && banks[b].gc.inPage == CHUNKS_PER_PAGE
      modifies this`table, this`banks, this`nand
      ensures ColdAdvancing(b) && Kept(b) && table == WholeTable(b, old(table), old(banks)[b])
      ensures var s := old(banks)[b];
        s.cold.lbn < |s.flash| && s.cold.page < |s.flash[s.cold.lbn]| && s.cold.page < |s.cold.lpns| &&
          banks[b] == WholeMoved(s)
      ensures Slack(b, table, banks[b].(cold := banks[b].cold.(page := banks[b].cold.page + 1))) ==
        Slack(b, old(table), old(banks)[b])
      ensures PageAt(old(banks)[b].flash, old(banks)[b].cold.lbn, old(banks)[b].cold.page) == Erased
      ensures var s := old(banks)[b];
        nand[b] == old(nand)[b] + [Program(s.cold.lbn, s.cold.page, Programmed(s.gc.buf))]
    {
      hide Inv, HeapOk, Fetch, SameData, CountSome, WholeTable, HotSide, Told, Longer;
      var s := banks[b];
      ghost var t0 := table;
      InvParts(blks, b, table, s);
      FlushErased(blks, b, table, s, false);
      WholePage(blks, b, table, s);
      for i := 0 to CHUNKS_PER_PAGE
      {
        // a chunk of the page moved by another write does not happen
        assert s.gc.found[i].Some? &&
          Look(table, s.gc.found[i].value) == Flash(b, s.gc.victim, s.gc.page, i, s.gc.recycled);
      }
      var c := s.cold;
      ghost var src := FromPage(s.gc.victim, s.gc.page);
      RelocatedNone(t0, b, src, c.lbn, c.page, false);
      var row := seq(CHUNKS_PER_PAGE, i requires 0 <= i < CHUNKS_PER_PAGE => Lpn(s.gc.found[i].value.lpn, false));
      for i := 0 to CHUNKS_PER_PAGE
        invariant table == Relocated(t0, b, src, i, c.lbn, c.page, false) && banks == old(banks) && nand == old(nand)
      {
        RelocatedStep(t0, b, src, s.gc.found, i, c.lbn, c.page, false);
        table := table[s.gc.found[i].value := Flash(b, c.lbn, c.page, i, false)];
      }
      WholeKeeps(blks, b, t0, s);
      WholeKeepsData(blks, b, t0, s);
      WholeHot(blks, b, t0, s);
      WholeTableIs(b, t0, s);
      assert row == WholeRow(s.gc);
      LongerBy(nand, b, Program(c.lbn, c.page, Programmed(s.gc.buf)));
      ToldProgram(blks, nand[b], s.flash, c.lbn, c.page, Programmed(s.gc.buf));
      nand := nand[b := nand[b] + [Program(c.lbn, c.page, Programmed(s.gc.buf))]];
      banks := banks[b := s.(flash := SetPage(s.flash, c.lbn, c.page, Programmed(s.gc.buf)),
                             cold := c.(lpns := c.lpns[c.page := row]),
                             gc := s.gc.(state := GcRead, inPage := 0, recycled := false, page := s.gc.page + 1))];
    }

    /** One live chunk of the scanned page is moved. */
    method MoveChunk(b: nat, i: nat, fuel: nat) returns (done: bool)
      requires Ok(b) && banks[b].gc.state == GcWrite && i < CHUNKS_PER_PAGE
      requires |banks[b].gc.found| == CHUNKS_PER_PAGE && banks[b].gc.found[i].Some?
      modifies this`table, this`banks, this`nand
      ensures Ok(b) && Kept(b)
      ensures done ==> var s, r := old(banks)[b], banks[b];
        || (s.gc.inPage > 0 && r.gc == Taken(s, i).gc && r.clean == s.clean && Candidates(r) == Candidates(s))
        || (r.gc.state == GcIdle && |r.clean| == 2)
      ensures !done ==> |banks[b].clean| < 2
      ensures Snug(b, old(table), old(banks)[b]) ==>
        done && old(banks)[b].gc.inPage > 0 && banks[b].gc == Taken(old(banks)[b], i).gc && Snug(b, table, banks[b])
      ensures var s := old(banks)[b];
        && (done && banks[b].gc.state != GcIdle ==> Slack(b, table, banks[b]) == Slack(b, old(table), s))
        && (Carried(blks, b, old(table), s, Slack(b, old(table), s), fuel) ==> done)
      ensures var s := old(banks)[b];
        PutOne(b, old(table), s, s.gc.found[i].value, ChunkAt(s.gc.buf, i), old(nand)[b], done, table, banks[b],
          nand[b])
      decreases fuel, 9
    {
      hide PutOne, Inv, HeapOk, Fetch, SameData, CountSome, Live, VictimPos, HotSide, ColdSide, Spacious, Told, Longer;
      var s := banks[b];
      ghost var t0 := table;
      var k := s.gc.found[i].value;
      ActivePage(blks, b, table, s);
      UnlinkVictim(blks, b, table, s, i);
      VictimChunk(blks, b, table, s, i);
      TakenData(b, table, s, i);
      VictimAside(blks, b, table, s);
      SameHotFields(b, table, s, Taken(s, i));
      banks := banks[b := s.(gc := s.gc.(found := s.gc.found[i := None], inPage := s.gc.inPage - 1))];
      // "one chunk was moved during GC" does not happen
      assert Look(table, k) == Flash(b, s.gc.victim, s.gc.page, i, s.gc.recycled);
      SameStoreData(b, t0, s, Taken(s, i));
      SpaciousKept(blks, b, t0, s, t0, Taken(s, i));
      ghost var n0 := nand;
      done := WriteChunkOnLogBlockDuringGC(b, k, ChunkAt(s.gc.buf, i), fuel);
      SameDataTransitive(b, t0, s, t0, Taken(s, i), table, banks[b]);
      PutSameCold(b, t0, Taken(s, i), s, k, ChunkAt(s.gc.buf, i), n0[b], done, table, banks[b], nand[b]);
    }

    /** All chunks of the page have left it: the collector goes on reading. */
    method LeavePage(b: nat)
      requires Ok(b) && banks[b].gc.state == GcWrite && banks[b].gc.inPage == 0
      modifies this`banks
      ensures Ok(b) && Kept(b) && PageMoved(old(banks)[b], banks[b]) && banks[b].gc.state == GcRead
      ensures var s := old(banks)[b];
        banks[b] == s.(gc := s.gc.(state := GcRead, recycled := false, page := s.gc.page + 1))
      ensures Slack(b, table, banks[b]) == Slack(b, table, old(banks)[b])
    {
      hide Inv, HeapOk, Fetch, SameData, Live, HotSide, Slack, Told, Longer;
      var s := banks[b];
      PageDoneKeeps(blks, b, table, s);
      LongerSelf(nand, b);
      banks := banks[b := s.(gc := s.gc.(state := GcRead, recycled := false, page := s.gc.page + 1))];
      SameStoreData(b, table, s, banks[b]);
      SameHotFields(b, table, s, banks[b]);
      SameSlack(b, table, s, banks[b]);
    }

    /** The live chunks of the scanned page are moved one by one. When that fills the cold block, the collection
        may be finished by a re-entry; this frame then finds no chunk left and the collector idle. */
    method WritePartialPage(b: nat, fuel: nat) returns (done: bool)
      requires Ok(b) && banks[b].gc.state == GcWrite
      modifies this`table, this`banks, this`nand
      ensures Ok(b) && Kept(b)
      ensures done ==> PageMoved(old(banks)[b], banks[b])
      ensures !done ==> |banks[b].clean| < 2
      ensures Snug(b, old(table), old(banks)[b]) ==> done && banks[b].gc.state == GcRead && Snug(b, table, banks[b])
      ensures var s := old(banks)[b];
        && (done && banks[b].gc.state != GcIdle ==> Slack(b, table, banks[b]) == Slack(b, old(table), s))
        && (Carried(blks, b, old(table), s, Slack(b, old(table), s), fuel) ==> done)
      ensures var s := old(banks)[b];
        && |s.gc.found| == CHUNKS_PER_PAGE
        && InTurn(b, old(table), s, CHUNKS_PER_PAGE, old(nand)[b], table, banks[b], nand[b])
      decreases fuel, 10
    {
      hide Snug, InTurn, Underway, PutSoFar, PutOne, PageKnown, SlotsBelow, Filling, Inv, HeapOk, Fetch, SameData,
        CountSome, Live, HotSide,
        ColdSide, Spacious, Slack, Told, Longer;
      ghost var t0, s0 := table, banks[b];
      SameStoreData(b, t0, s0, s0);
      SnugSlack(b, t0, s0);
      PageKnownOf(blks, b, t0, s0);
      FoundEight(b, t0, s0);
      TurnStart(b, t0, s0, nand[b]);
      InvParts(blks, b, t0, s0);
      UnderwayStart(s0);
      var i: nat := 0;
      LongerSelf(nand, b);
      while banks[b].gc.inPage > 0
        invariant Ok(b) && Kept(b) && i <= CHUNKS_PER_PAGE
        invariant Underway(s0, banks[b], i)
        invariant InTurn(b, t0, s0, i, old(nand)[b], table, banks[b], nand[b])
        invariant Slack(b, t0, s0) > 0 ==> banks[b].gc.state == GcWrite
        invariant banks[b].gc.state != GcIdle ==> Slack(b, table, banks[b]) == Slack(b, t0, s0)
        invariant Spacious(blks, banks[b], ColdSide(b, table, banks[b])) <==> Spacious(blks, s0, ColdSide(b, t0, s0))
        decreases CHUNKS_PER_PAGE - i
      {
        ghost var t1, s1, n1 := table, banks[b], nand;
        UnderwayMore(blks, b, t1, s0, s1, i);
        InvParts(blks, b, t1, s1);
        SnugSlack(b, t1, s1);
        if banks[b].gc.found[i].Some? {
          done := MoveChunk(b, i, fuel);
          LongerPrefix(n1, nand, b);
          TurnPut(b, t0, s0, i, old(nand)[b], t1, s1, n1[b], done, table, banks[b], nand[b]);
          LongerTransitive(old(nand), n1, nand, b);
          SameDataTransitive(b, t0, s0, t1, s1, table, banks[b]);
          SpaciousKept(blks, b, t1, s1, table, banks[b]);
          if !done {
            TurnFull(b, t0, s0, i + 1, old(nand)[b], table, banks[b], nand[b]);
            return;
          }
          UnderwayPut(s0, s1, banks[b], i);
        } else {
          UnderwaySkip(s0, s1, i);
          TurnSkip(b, t0, s0, i, old(nand)[b], table, banks[b], nand[b]);
        }
        i := i + 1;
      }
      done := true;
      UnderwayNone(blks, b, table, s0, banks[b], i);
      if banks[b].gc.state == GcIdle {
        TurnFull(b, t0, s0, i, old(nand)[b], table, banks[b], nand[b]);
      }
      if banks[b].gc.state == GcWrite {
        var s := banks[b];
        TurnEnd(b, t0, s0, i, old(nand)[b], table, banks[b], nand[b]);
        ghost var n1 := nand;
        LeavePage(b);
        SnugSlack(b, table, banks[b]);
        LongerTransitive(old(nand), n1, nand, b);
        TurnSameCold(b, t0, s0, old(nand)[b], table, s, banks[b], nand[b]);
        SameDataTransitive(b, t0, s0, table, s, table, banks[b]);
      }
    }

    /** The live chunks of the scanned page are moved, all at once if there are eight of them. */
    method WritePage(b: nat, fuel: nat) returns (done: bool)
      requires Ok(b) && banks[b].gc.state == GcWrite
      modifies this`table, this`banks, this`nand
      ensures Ok(b) && Kept(b)
      ensures done ==> PageMoved(old(banks)[b], banks[b])
      ensures !done ==> |banks[b].clean| < 2
      ensures Snug(b, old(table), old(banks)[b]) ==> done && banks[b].gc.state == GcRead && Snug(b, table, banks[b])
      ensures var s := old(banks)[b];
        && (done && banks[b].gc.state != GcIdle ==> Slack(b, table, banks[b]) == Slack(b, old(table), s))
        && (Carried(blks, b, old(table), s, Slack(b, old(table), s), fuel) ==> done)
      ensures var s := old(banks)[b]; var c, r := s.cold, banks[b];
        s.gc.inPage == CHUNKS_PER_PAGE ==> StartedWith(b, [Program(c.lbn, c.page, Programmed(s.gc.buf))])
      ensures var s := old(banks)[b]; var c, r := s.cold, banks[b];
        s.gc.inPage == CHUNKS_PER_PAGE && c.page != USED_PAGES - 1 ==>
          && done && r.cold == c.(page := c.page + 1, lpns := r.cold.lpns)
          && PageAt(r.flash, c.lbn, c.page) == Programmed(s.gc.buf)
          && |s.gc.found| == CHUNKS_PER_PAGE && forall i: nat {:trigger s.gc.found[i]} :: i < CHUNKS_PER_PAGE ==>
               s.gc.found[i].Some? && Look(table, s.gc.found[i].value) == Flash(b, c.lbn, c.page, i, false)
      ensures var s := old(banks)[b];
        s.gc.inPage != CHUNKS_PER_PAGE ==>
          && |s.gc.found| == CHUNKS_PER_PAGE
          && InTurn(b, old(table), s, CHUNKS_PER_PAGE, old(nand)[b], table, banks[b], nand[b])
      decreases fuel, 11
    {
      hide InTurn, WholeTable, WholeRow, Inv, HeapOk, Fetch, SameData, CountSome, Live, HotSide, ColdSide, Spacious,
        Slack, Told, Longer;
      ghost var t0, s0 := table, banks[b];
      if banks[b].gc.inPage == CHUNKS_PER_PAGE {
        WholeKeepsSnug(blks, b, t0, s0);
        ActivePage(blks, b, t0, s0);
        WholeDest(blks, b, t0, s0);
        WriteWholePage(b);
        ghost var t1, s1, n1 := table, banks[b], nand;
        SpaciousKept(blks, b, t0, s0, t1, s1);
        done := IncreaseLpnColdBlk(b, fuel);
        LongerTransitive(old(nand), n1, nand, b);
        LongerPrefix(n1, nand, b);
        SameDataTransitive(b, t0, s0, t1, s1, table, banks[b]);
      } else {
        done := WritePartialPage(b, fuel);
      }
    }

    // ---------- log.c: the hot log ----------

    /** The page of the open hot block at hot.page was just programmed; increaseLpn is due. */
    ghost predicate HotAdvancing(b: nat)
      reads this
    {
      && 0 < nc && nb % nc == 0 && |banks| == nb && b < nb && OthersStocked(b) && OnRecord(b) && blks >= MIN_BLKS
      && var s := banks[b];
         && Inv(blks, b, table, s.(hot := Advanced(s.hot))) && ColdReady(blks, s) && s.gc.state == GcIdle
         && |s.clean| >= 2
         && s.hot.lbn < blks && s.hot.page < USED_PAGES && s.hot.ptr == 0
    }

    /** The hot log stands on the page that comes after those its usage has programmed. */
    ghost predicate Tracked(b: nat)
      reads this
    {
      |banks| == nb && |trail| == nb && b < nb && OnTrack(banks[b].hot, trail[b])
    }

    /** The reuse threshold of bank b is what the comparisons have made of it. */
    ghost predicate Tuning(b: nat)
      reads this
    {
      |outcomes| == |banks| && b < |banks| && InTune(banks[b].adapt, outcomes[b])
    }

    /** The hot log has no open block; its list of lpns is cleared. */
    ghost predicate Vacant(b: nat)
      reads this
    {
      && 0 < nc && nb % nc == 0 && |banks| == nb && b < nb && OthersStocked(b) && OnRecord(b) && |trail| == nb
      && trail[b] == [] && blks >= MIN_BLKS
      && var s := banks[b];
         && Inv(blks, b, table, NoBlock(blks, s)) && ColdReady(blks, s) && s.gc.state == GcIdle && |s.clean| >= 2
         && s.hot.ptr == 0 && s.hot.next == None
         && forall p: nat, i: nat {:trigger EntryAt(s.hot.lpns, p, i)} :: EntryAt(s.hot.lpns, p, i) == NoLpn
    }

    /** The hot log is in a second usage, its buffer is empty, and no accepted low page counts. */
    ghost predicate SecondAt(b: nat)
      reads this
    {
      && 0 < nc && nb % nc == 0 && |banks| == nb && b < nb && OthersStocked(b) && OnRecord(b) && blks >= MIN_BLKS
      && var s := banks[b];
         && Inv(blks, b, table, NoNext(s)) && ColdReady(blks, s) && s.gc.state == GcIdle && |s.clean| >= 2
         && s.hot.lbn < blks && s.hot.usage == HotSecond && s.hot.ptr == 0
    }

    /** A low page ahead of the hot log may be reprogrammed exactly when none of its chunks is live. */
    method CanReuseLowPage(b: nat, page: nat) returns (ok: bool)
      requires SecondAt(b) && banks[b].hot.page <= page <= FIRST_LIST_PAGE && LowPage(page)
      modifies this`banks
      ensures ok <==> FreeOfLive(table, b, old(banks)[b].hot.lbn, page)
      ensures HeapOk(blks, old(banks)[b].second) && page < |old(banks)[b].hot.lpns| && b < |banks|
      ensures banks[b] == if ok then Accepted(blks, old(banks)[b], page) else old(banks)[b]
      ensures var s, r := old(banks)[b], banks[b]; r == s.(second := r.second, hot := s.hot.(lpns := r.hot.lpns))
      ensures OthersStocked(b) && KeptData(b)
      ensures if ok then Inv(blks, b, table, banks[b].(hot := banks[b].hot.(next := Some(page))))
        else Inv(blks, b, table, NoNext(banks[b]))
    {
      hide Inv, HeapOk, Live, Val, In, IncrementByN, SameData, Fetch, Told, Longer;
      LongerSelf(nand, b);
      var s := banks[b];
      InvParts(blks, b, table, NoNext(s));
      AheadEntries(blks, b, table, NoNext(s), page);
      AcceptedData(blks, b, table, s, page);
      var found := 0;
      for i := 0 to CHUNKS_PER_PAGE
        invariant banks == old(banks)
        invariant found > 0 <==> exists k: Key {:trigger Look(table, k)} ::
          InBlock(Look(table, k), b, s.hot.lbn) && Look(table, k).page == page && Look(table, k).chunk < i
      {
        var e := EntryAt(s.hot.lpns, page, i);
        if e != NoLpn {
          var loc := Flash(b, s.hot.lbn, page, i, false);
          var idx := SearchRow(e.lpn, loc);
          if idx < CHUNKS_PER_PAGE {
            assert InBlock(Look(table, Key(e.lpn, idx)), b, s.hot.lbn);
            found := found + 1;
          }
          assert forall k: Key {:trigger Look(table, k)} ::
            Look(table, k) == loc && EntryAt(s.hot.lpns, page, i) == Lpn(k.lpn, false) ==> k == Key(e.lpn, k.idx);
        }
      }
      ok := found == 0;
      if ok {
        HotAccepted(blks, b, table, NoNext(s), page);
        var lpns := s.hot.lpns[page := [NoLpn, NoLpn, NoLpn, NoLpn, NoLpn, NoLpn, NoLpn, NoLpn]];
        UnfoldHeap(blks, s.second);
        banks := banks[b := s.(hot := s.hot.(lpns := lpns),
          second := IncrementByN(s.second, s.hot.lbn, CHUNKS_PER_PAGE))];
      }
    }

    /** Whether a used-once block should be reused instead of opening a clean one. */
    method ReuseCondition(b: nat) returns (reuse: bool)
      requires b < |banks| && AdaptiveOk(banks[b]) && Tuning(b)
      modifies this`banks, this`outcomes
      ensures |banks| == |old(banks)| && banks == old(banks)[b := old(banks)[b].(adapt := banks[b].adapt)] &&
        AdaptiveOk(banks[b])
      ensures Tuning(b) && Longer(old(outcomes), outcomes, b) &&
        outcomes[b] == old(outcomes)[b] + Compared(old(banks)[b])
      ensures ReuseOutcome(old(banks)[b], banks[b].adapt) && reuse == Reuses(old(banks)[b], banks[b].adapt)
    {
      hide InTune, VictimCount, Told;
      var s := banks[b];
      if VictimCount(s.first) == 63 * CHUNKS_PER_PAGE {
        assert outcomes[b] + [] == outcomes[b];
        return true;
      }
      var validCold := VictimCount(s.coldHeap);
      var validSecond := VictimCount(s.second);
      var validMin := if validCold < validSecond then validCold else validSecond;
      var tot := 0;
      for i := 0 to 5
        invariant tot == Sum(s.adapt.window[..i])
      {
        assert s.adapt.window[..i + 1][..i] == s.adapt.window[..i];
        tot := tot + s.adapt.window[i];
      }
      assert s.adapt.window[..5] == s.adapt.window;
      var a := s.adapt;
      if 5 * validMin != tot {
        if 5 * validMin < tot {
          a := a.(downs := 0, ups := a.ups + 1);
          if a.ups == 7 {
            a := a.(ups := 0);
            if a.hotFirst < MAX_HOT_FIRST {
              a := a.(hotFirst := a.hotFirst + 1);
            }
          }
        } else {
          a := a.(ups := 0, downs := a.downs + 1);
          if a.downs == 7 {
            a := a.(downs := 0);
            if a.hotFirst > MIN_HOT_FIRST {
              a := a.(hotFirst := a.hotFirst - 1);
            }
          }
        }
      }
      ComparedInTune(s, a, outcomes[b]);
      outcomes := outcomes[b := outcomes[b] + Compared(s)];
      banks := banks[b := s.(adapt := a)];
      reuse := s.first.n > a.hotFirst;
    }

    /** The head of the clean list becomes the open hot block, for its first usage. */
    method OpenHotBlk(b: nat)
      requires Vacant(b)
      modifies this`banks
      ensures Ok(b) && KeptData(b) && HotReady(blks, banks[b]) && Tracked(b) && banks[b].hot.ptr == 0
      ensures var s, r := old(banks)[b], banks[b];
        && r == s.(hot := r.hot, clean := s.clean[1..]) && r.hot.lbn == s.clean[0] && r.hot.page == 0
        && r.hot.usage == HotFirst
    {
      hide Inv, HeapOk, SameData, Fetch, Told, Longer;
      LongerSelf(nand, b);
      var s := banks[b];
      HotOpened(blks, b, table, NoBlock(blks, s));
      SameStoreData(b, table, s, NoBlock(blks, s));
      SameDataTransitive(b, table, s, table, NoBlock(blks, s), table, OpenedClean(NoBlock(blks, s), true));
      banks := banks[b := s.(clean := s.clean[1..],
                             hot := s.hot.(lbn := s.clean[0], page := 0, usage := HotFirst, recycled := false))];
    }

    /** The used-once block with the fewest live chunks leaves its heap and becomes the open hot block. */
    method OpenUsedBlk(b: nat)
      requires Vacant(b) && banks[b].first.n > 0
      modifies this`banks
      ensures SecondAt(b) && KeptData(b)
      ensures banks[b].hot.page == 0 && banks[b].hot.recycled && banks[b].hot.next == None
      ensures banks[b].hot.lbn == Victim(old(banks)[b].first) &&
        banks[b].first.n == old(banks)[b].first.n - 1 && banks[b].clean == old(banks)[b].clean &&
        banks[b].adapt == old(banks)[b].adapt
      ensures var c := banks[b].hot;
        && c.lbn < blks && c.lpns == Stored(PageAt(banks[b].flash, c.lbn, FIRST_LIST_PAGE))
        && Val(banks[b].second, c.lbn) == |Live(table, b, c.lbn)| + HIGH_CHUNKS
        && Val(banks[b].first, c.lbn) == FIRST_USAGE_CHUNKS && Val(banks[b].coldHeap, c.lbn) == SECOND_USAGE_CHUNKS
    {
      hide Inv, HeapOk, SameData, Fetch, Victim, VictimCount, ResetAndRemove, Val, Live, Told, Longer;
      LongerSelf(nand, b);
      var s := banks[b];
      HotReused(blks, b, table, NoBlock(blks, s));
      SameStoreData(b, table, s, NoBlock(blks, s));
      var lbn := Victim(s.first);
      var count := VictimCount(s.first);
      SameDataTransitive(b, table, s, table, NoBlock(blks, s), table, OpenedReuse(blks, NoBlock(blks, s), lbn));
      UnfoldHeap(blks, s.first);
      UnfoldHeap(blks, s.second);
      UnfoldHeap(blks, s.coldHeap);
      UsedOnceVictim(blks, b, table, NoBlock(blks, s));
      UsedOnceCount(blks, b, table, NoBlock(blks, s));
      ResetVal(blks, s.second, lbn, count);
      ResetVal(blks, s.first, lbn, FIRST_USAGE_CHUNKS);
      ResetVal(blks, s.coldHeap, lbn, SECOND_USAGE_CHUNKS);
      s := s.(first := ResetAndRemove(s.first, lbn, FIRST_USAGE_CHUNKS),
              second := ResetAndRemove(s.second, lbn, count),
              coldHeap := ResetAndRemove(s.coldHeap, lbn, SECOND_USAGE_CHUNKS),
              hot := s.hot.(lbn := lbn, page := 0, usage := HotSecond, recycled := true,
                            lpns := Stored(PageAt(s.flash, lbn, FIRST_LIST_PAGE))));
      banks := banks[b := s];
    }

    /** The low page the hot log stands on is tested and, if it can be reused, taken up at once. */
    method TakeLowPage(b: nat) returns (ok: bool)
      requires SecondAt(b) && banks[b].hot.page <= 1
      modifies this`banks
      ensures ok <==> FreeOfLive(table, b, old(banks)[b].hot.lbn, old(banks)[b].hot.page)
      ensures |banks| == nb && OthersStocked(b) && KeptData(b)
      ensures if ok then Inv(blks, b, table, banks[b]) && Settled(blks, banks[b]) else banks[b] == old(banks)[b]
      ensures SameBlock(old(banks)[b], banks[b]) && banks[b].flash == old(banks)[b].flash &&
        banks[b].hot.page == old(banks)[b].hot.page && banks[b].hot.ptr == 0
    {
      hide Inv, HeapOk, SameData, Fetch, Accepted, Told, Longer;
      LongerSelf(nand, b);
      ghost var t0, s0 := table, banks[b];
      var page := banks[b].hot.page;
      ok := CanReuseLowPage(b, page);
      if ok {
        var s := banks[b];
        var r := s.(hot := s.hot.(recycled := true, next := Some(page)));
        HotStep(blks, b, table, s.(hot := s.hot.(next := Some(page))), r);
        banks := banks[b := r];
        HotMoved(b, table, t0, s0, s, r);
      }
    }

    /** Neither page 0 nor page 1 can be reused: on to page 2, with room for eight chunks. */
    method StartHigh(b: nat, fuel: nat) returns (done: bool)
      requires SecondAt(b) && banks[b].hot.page == 1 && Tuning(b) && |trail| == nb && trail[b] == []
      requires var lbn := banks[b].hot.lbn; !FreeOfLive(table, b, lbn, 0) && !FreeOfLive(table, b, lbn, 1)
      modifies this
      ensures done && Ok(b) && KeptData(b) && Settled(blks, banks[b]) && Tuning(b) && Tracked(b)
      ensures SameBlock(old(banks)[b], banks[b]) && table == old(table) && outcomes == old(outcomes)
      ensures trail == old(trail) && finished == old(finished)
      ensures banks[b].hot.page == 2 && banks[b].hot.ptr == 0 && FirstPageOk(b, table, banks[b].hot)
      decreases fuel, 4, 0
    {
      hide InTune, Inv, HeapOk, SameData, Fetch, FreeOfLive, Began, SecondMove, FirstPageOk, Complete, NextAssured,
        NextPage, SecondLeft, Told, Longer;
      AllLeft();
      ghost var t0 := table;
      var s := banks[b];
      var r := s.(hot := s.hot.(recycled := false, next := None));
      HotStep(blks, b, table, NoNext(s), r.(hot := r.hot.(page := 2)));
      banks := banks[b := r];
      SameStoreData(b, t0, s, r);
      done := IncreaseLpnHotBlkSecondUsage(b, fuel);
      AfterPageOne(banks[b].hot.page);
      StartsHigh(b, table, r.hot, banks[b].hot);
      SameDataTransitive(b, t0, s, t0, r, table, banks[b]);
    }

    /** A used-once block is opened for its second usage, at page 0 or 1 if they can be reused, else at page 2. */
    method ReuseHotBlk(b: nat, fuel: nat) returns (done: bool)
      requires Vacant(b) && banks[b].first.n > 0 && Tuning(b)
      modifies this
      ensures Ok(b) && KeptData(b) && HotReady(blks, banks[b])
      ensures done && Settled(blks, banks[b])
      ensures Tuning(b) && Tracked(b) && banks[b].hot.page <= 2 && trail == old(trail) && finished == old(finished)
      ensures banks[b].hot.lbn == Victim(old(banks)[b].first) && banks[b].hot.usage == HotSecond
      ensures banks[b].first.n == old(banks)[b].first.n - 1 && banks[b].clean == old(banks)[b].clean &&
        banks[b].adapt == old(banks)[b].adapt && outcomes == old(outcomes)
      ensures banks[b].hot.ptr == 0 && table == old(table) && FirstPageOk(b, table, banks[b].hot)
      decreases fuel, 4
    {
      hide InTune, Inv, HeapOk, SameData, Fetch, FreeOfLive, Live, Val, Victim, Began, SecondMove, FirstPageOk,
        Complete, NextAssured, NextPage, SecondLeft, Tested, Told, Longer;
      AllLeft();
      ghost var t0, s0 := table, banks[b];
      OpenUsedBlk(b);
      ghost var t1, s1 := table, banks[b];
      done := TakeLowPage(b);
      SameDataTransitive(b, t0, s0, t1, s1, table, banks[b]);
      if done {
        StartsLow(b, table, banks[b].hot);
        StartsOnTrack(banks[b].hot);
        return;
      }
      var s := banks[b];
      var r := s.(hot := s.hot.(page := 1));
      HotStep(blks, b, table, s, r);
      banks := banks[b := r];
      HotMoved(b, table, t0, s0, s, r);
      done := TakeLowPage(b);
      SameDataTransitive(b, t0, s0, t1, r, table, banks[b]);
      if done {
        StartsLow(b, table, banks[b].hot);
        StartsOnTrack(banks[b].hot);
        return;
      }
      done := StartHigh(b, fuel);
      SameDataTransitive(b, t0, s0, t1, r, table, banks[b]);
    }

    /** The next hot block: a clean one while more than two are left, else a used-once block when the reuse
        condition holds, else the head of the clean list, after which the collector restores two clean blocks. */
    method FindNewLpnForHotLog(b: nat, fuel: nat) returns (done: bool)
      requires Vacant(b) && Tuning(b)
      modifies this
      ensures Ok(b) && KeptData(b) && HotReady(blks, banks[b])
      ensures Tuning(b) && Longer(old(outcomes), outcomes, b)
      ensures var s := old(banks)[b];
        && AdaptiveOk(s) && outcomes[b] == old(outcomes)[b] + (if |s.clean| > 2 then [] else Compared(s))
      ensures Tracked(b) && trail == old(trail) && finished == old(finished) && banks[b].hot.ptr == 0
      ensures done ==> Settled(blks, banks[b])
      ensures !done ==> |banks[b].clean| < 2
      ensures fuel > 0 && NextAssured(old(banks)[b], true) ==> done
      ensures done ==> VacantFits(blks, b, old(table), old(banks)[b])
      ensures fuel >= SECOND_USAGE_CHUNKS && VacantFits(blks, b, old(table), old(banks)[b]) ==> done
      ensures fuel >= SECOND_USAGE_CHUNKS && !done ==> !Spacious(blks, banks[b], ColdSide(b, table, banks[b]))
      ensures done ==> LessBound(old(banks)[b], banks[b])
      ensures var s, r := old(banks)[b], banks[b];
        if |s.clean| > 2 then r == s.(hot := r.hot, clean := s.clean[1..]) && r.hot.lbn == s.clean[0] &&
          r.hot.usage == HotFirst
        else exists a: Adaptive {:trigger Reuses(s, a)} ::
          && ReuseOutcome(s, a) && SameThreshold(a, r.adapt)
          && (Reuses(s, a) ==> done && r.hot.lbn == Victim(s.first) && r.hot.usage == HotSecond)
          && (Reuses(s, a) ==> table == old(table) && FirstPageOk(b, table, r.hot))
          && (!Reuses(s, a) ==> r.hot.lbn == s.clean[0] && r.hot.usage == HotFirst)
      decreases fuel, 5
    {
      hide InTune, Compared, SameThreshold, Inv, HeapOk, SameData, Fetch, VictimCount, ReuseOutcome, Victim,
        LeastCount, Reusing, ColdSide, Spacious,
        HotSide, NextAssured, VacantFits, FirstPageOk, LessBound, Deep, Room, Told, Longer;
      ghost var t0, s0 := table, banks[b];
      InvParts(blks, b, table, NoBlock(blks, s0));
      LongerSelf(outcomes, b);
      if |banks[b].clean| > 2 {
        OpenHotBlk(b);
        ManyClean(blks, b, t0, s0, banks[b]);
        return true;
      }
      InvParts(blks, b, table, NoBlock(blks, s0));
      var reuse := ReuseCondition(b);
      ghost var s1 := banks[b];
      ReuseIs(s0, s1.adapt);
      FitsByReuse(blks, b, t0, s0);
      AdaptKeeps(blks, b, t0, NoBlock(blks, s0), NoBlock(blks, s1));
      SameStoreData(b, t0, s0, s1);
      if reuse {
        ReusePossible(s0);
        done := ReuseHotBlk(b, fuel);
        SameDataTransitive(b, t0, s0, t0, s1, table, banks[b]);
        BoundFalls(s0, banks[b]);
        ThresholdSelf(s1.adapt);
        assert ReuseOutcome(s0, s1.adapt) && Reuses(s0, s1.adapt);
        return;
      }
      OpenHotBlk(b);
      SameDataTransitive(b, t0, s0, t0, s1, table, banks[b]);
      ghost var t2, s2 := table, banks[b];
      if |s2.clean| < 2 {
        FewUsedOnce(blks, b, t2, s2);
      }
      LastOpened(blks, b, t0, s0, s2);
      DeepEnough(blks, b, t2, s2, fuel);
      done := RestoreClean(b, fuel);
      SpaciousKept(blks, b, t2, s2, table, banks[b]);
      RoomTwo(blks, b, table, banks[b]);
      BoundFalls(s0, banks[b]);
      SameDataTransitive(b, t0, s0, t2, s2, table, banks[b]);
      StaysInTune(s1.adapt, banks[b].adapt, outcomes[b]);
      assert ReuseOutcome(s0, s1.adapt) && !Reuses(s0, s1.adapt);
    }

    /** The hot log stands on a high page: whether the low page after it can be reused is found out now. On
        page 126 there is no such page. */
    method TestNextLowPage(b: nat)
      requires SecondAt(b) && banks[b].hot.page % 2 == 0 && 2 <= banks[b].hot.page <= 126 && !banks[b].hot.recycled
      modifies this`banks
      ensures Ok(b) && KeptData(b) && Settled(blks, banks[b])
      ensures var page := old(banks)[b].hot.page + 1;
        banks[b].hot.next ==
          if page < USED_PAGES - 1 && FreeOfLive(table, b, old(banks)[b].hot.lbn, page) then Some(page) else None
      ensures SameBlock(old(banks)[b], banks[b]) && banks[b].flash == old(banks)[b].flash &&
        banks[b].hot.page == old(banks)[b].hot.page && banks[b].hot.ptr == 0
    {
      hide Inv, HeapOk, SameData, Fetch, Accepted, Told, Longer;
      LongerSelf(nand, b);
      ghost var t0, s0 := table, banks[b];
      var page := banks[b].hot.page + 1;
      var ok := false;
      SameStoreData(b, t0, s0, s0);
      if page < USED_PAGES - 1 {
        ok := CanReuseLowPage(b, page);
      }
      var s := banks[b];
      var r := s.(hot := s.hot.(next := if ok then Some(page) else None));
      banks := banks[b := r];
      HotMoved(b, table, t0, s0, s, r);
    }

    /** The low page the hot log came to tested negatively: on to the high page after it. */
    method SkipLowPage(b: nat)
      requires SecondAt(b) && banks[b].hot.page % 2 == 1 && banks[b].hot.page < USED_PAGES - 1
      modifies this`banks
      ensures Ok(b) && KeptData(b) && Settled(blks, banks[b])
      ensures SameBlock(old(banks)[b], banks[b]) && banks[b].flash == old(banks)[b].flash &&
        banks[b].hot.page == old(banks)[b].hot.page + 1 && banks[b].hot.ptr == 0 && Tested(b, table, banks[b].hot)
    {
      hide Inv, HeapOk, SameData, Fetch, Told, Longer;
      LongerSelf(nand, b);
      var s := banks[b];
      ghost var t0, s0 := table, s;
      s := s.(hot := s.hot.(recycled := false, page := s.hot.page + 1));
      HotStep(blks, b, table, NoNext(s0), NoNext(s));
      banks := banks[b := s];
      SameStoreData(b, t0, s0, s);
      TestNextLowPage(b);
      SameDataTransitive(b, t0, s0, t0, s, table, banks[b]);
    }

    /** From a page that was just programmed to the low page after it: it is taken up if it tested
        positively, and skipped otherwise. Page 1 comes right after a low page, so it is tested only now. */
    method ToLowPage(b: nat)
      requires HotAdvancing(b) && banks[b].hot.usage == HotSecond && Discipline(banks[b].hot)
      requires banks[b].hot.page % 2 == 0 && banks[b].hot.page < USED_PAGES - 1
      modifies this`banks
      ensures Ok(b) && KeptData(b) && Settled(blks, banks[b]) && banks[b].hot.ptr == 0
      ensures SameBlock(old(banks)[b], banks[b]) && banks[b].flash == old(banks)[b].flash &&
        NextPage(HotSecond, old(banks)[b].hot.page, banks[b].hot.page) &&
        SecondMove(b, table, old(banks)[b].hot, banks[b].hot)
    {
      hide Inv, HeapOk, SameData, Fetch, NextPage, FreeOfLive, SecondMove, SecondLeft, Tested, Told, Longer;
      LongerSelf(nand, b);
      var s := banks[b];
      ghost var t0, s0 := table, s;
      ghost var adv := s.(hot := Advanced(s.hot));
      LaterSteps(HotSecond, s.hot.page);
      var page := s.hot.page + 1;
      s := s.(hot := s.hot.(page := page));
      if s.hot.next == Some(page) {
        s := s.(hot := s.hot.(recycled := true));
        HotStep(blks, b, table, adv, s);
        banks := banks[b := s];
        SameStoreData(b, t0, s0, s);
        MovesLow(b, table, s0.hot, s.hot);
        return;
      }
      banks := banks[b := s];
      SameStoreData(b, t0, s0, s);
      if page == 1 {
        var ok := TakeLowPage(b);
        SameDataTransitive(b, t0, s0, t0, s, table, banks[b]);
        if ok {
          MovesLow(b, table, s0.hot, banks[b].hot);
          return;
        }
      }
      SkipLowPage(b);
      SameDataTransitive(b, t0, s0, t0, s, table, banks[b]);
      MovesOn(b, table, s0.hot, banks[b].hot);
    }

    /** From a low page to the high page after it. */
    method ToHighPage(b: nat)
      requires HotAdvancing(b) && banks[b].hot.usage == HotSecond && banks[b].hot.page % 2 == 1 &&
        banks[b].hot.page < USED_PAGES - 1
      requires || Discipline(banks[b].hot)
               || (banks[b].hot.page == 1 && !banks[b].hot.recycled && banks[b].hot.next == None)
      modifies this`banks
      ensures Ok(b) && KeptData(b) && Settled(blks, banks[b]) && banks[b].hot.ptr == 0
      ensures SameBlock(old(banks)[b], banks[b]) && banks[b].flash == old(banks)[b].flash &&
        NextPage(HotSecond, old(banks)[b].hot.page, banks[b].hot.page) &&
        SecondMove(b, table, old(banks)[b].hot, banks[b].hot)
    {
      hide Inv, HeapOk, SameData, Fetch, Told, Longer;
      LongerSelf(nand, b);
      var s := banks[b];
      ghost var t0, s0 := table, s;
      s := s.(hot := s.hot.(page := s.hot.page + 1, recycled := false));
      HotStep(blks, b, table, s0.(hot := Advanced(s0.hot)), NoNext(s));
      banks := banks[b := s];
      SameStoreData(b, t0, s0, s);
      TestNextLowPage(b);
      SameDataTransitive(b, t0, s0, t0, s, table, banks[b]);
    }

    /** The open usage of bank b ended after it had programmed pages, and these are what it had to program. */
    twostate predicate UsageOver(b: nat, pages: seq<nat>)
      requires b < |old(banks)|
      reads this
    {
      var c := old(banks)[b].hot;
      && b < |old(trail)| && trail == old(trail)[b := []]
      && finished == old(finished) + [Finished(b, c.lbn, c.usage, pages)] && Complete(c.usage, pages)
    }

    /** A block whose second usage is over: its list goes to the last page and it enters the second-usage heap. */
    method CloseSecondUsage(b: nat)
      requires HotAdvancing(b) && banks[b].hot.usage == HotSecond && Discipline(banks[b].hot) &&
        banks[b].hot.page == USED_PAGES - 1
      requires |trail| == nb && JustProgrammed(banks[b].hot, trail[b])
      modifies this`banks, this`trail, this`finished, this`nand
      ensures Vacant(b) && KeptData(b) && UsageOver(b, old(trail)[b]) && NoWorse(old(banks)[b], banks[b])
      ensures var c := old(banks)[b].hot;
        nand[b] == old(nand)[b] + [Program(c.lbn, PAGES_PER_BLK - 1, ListPage(c.lpns))]
      ensures var s := old(banks)[b];
        VacantFits(blks, b, table, banks[b]) <==> HotFits(blks, s, HotOpen(b, table, s), ColdSide(b, table, s))
      ensures var s := old(banks)[b];
        && FlashShape(blks, s.flash) && Valid(s.second) && |s.second.pos| == blks && !In(s.second, s.hot.lbn)
        && PageAt(s.flash, s.hot.lbn, PAGES_PER_BLK - 1) == Erased
        && banks[b] == s.(flash := SetPage(s.flash, s.hot.lbn, PAGES_PER_BLK - 1, ListPage(s.hot.lpns)),
                          second := Insert(s.second, s.hot.lbn), hot := s.hot.(lpns := EmptyList()))
    {
      hide Inv, HeapOk, SameData, Fetch, Insert, In, Began, Complete, LowPage, NoWorse,
        HotFits, VacantFits, HotOpen, ColdSide, Told, Longer;
      ghost var s0 := banks[b];
      var s := banks[b];
      ghost var adv := s.(hot := Advanced(s.hot));
      HotClosed(blks, b, table, adv);
      ClosedHotCode(blks, adv);
      InvParts(blks, b, table, adv);
      ListErased(blks, b, table, adv, true);
      LongerBy(nand, b, Program(s.hot.lbn, PAGES_PER_BLK - 1, ListPage(s.hot.lpns)));
      ToldProgram(blks, nand[b], s.flash, s.hot.lbn, PAGES_PER_BLK - 1, ListPage(s.hot.lpns));
      nand := nand[b := nand[b] + [Program(s.hot.lbn, PAGES_PER_BLK - 1, ListPage(s.hot.lpns))]];
      s := s.(flash := SetPage(s.flash, s.hot.lbn, PAGES_PER_BLK - 1, ListPage(s.hot.lpns)),
              second := Insert(s.second, s.hot.lbn), hot := s.hot.(lpns := EmptyList()));
      HotVacant(blks, b, table, Closed(blks, adv, true), NoBlock(blks, s));
      ClosedNoWorse(blks, b, table, s0, s);
      ClosedFits(blks, b, table, s0, s);
      banks := banks[b := s];
      SecondUsagePages(trail[b]);
      finished := finished + [Finished(b, s.hot.lbn, HotSecond, trail[b])];
      trail := trail[b := []];
      HotFullData(b, table, s0, adv, Closed(blks, adv, true), s);
    }

    method IncreaseLpnHotBlkSecondUsage(b: nat, fuel: nat) returns (done: bool)
      requires HotAdvancing(b) && banks[b].hot.usage == HotSecond
      requires |trail| == nb
      requires || (Discipline(banks[b].hot) && JustProgrammed(banks[b].hot, trail[b]))
               || (banks[b].hot.page == 1 && !banks[b].hot.recycled && banks[b].hot.next == None && trail[b] == [])
      requires Tuning(b)
      modifies this
      ensures Tuning(b) && Longer(old(outcomes), outcomes, b)
      ensures Ok(b) && KeptData(b) && HotReady(blks, banks[b]) && Tracked(b) && banks[b].hot.ptr == 0
      ensures done ==> Settled(blks, banks[b])
      ensures !done ==> |banks[b].clean| < 2
      ensures fuel > 0 && Assured(old(banks)[b], true) ==> done
      ensures var s := old(banks)[b];
        var fits := HotFits(blks, s, HotOpen(b, old(table), s), ColdSide(b, old(table), s));
        s.hot.page == USED_PAGES - 1 ==> (done ==> fits) && (fuel >= SECOND_USAGE_CHUNKS && fits ==> done)
      ensures fuel >= SECOND_USAGE_CHUNKS && !done ==> !Spacious(blks, banks[b], ColdSide(b, table, banks[b]))
      ensures done ==> BoundKept(old(banks)[b], banks[b])
      ensures old(banks)[b].hot.page != USED_PAGES - 1 ==>
        && done && SameBlock(old(banks)[b], banks[b]) && NextPage(HotSecond, old(banks)[b].hot.page, banks[b].hot.page)
        && banks[b].flash == old(banks)[b].flash && outcomes == old(outcomes) && trail == old(trail)
        && finished == old(finished)
        && table == old(table) && SecondMove(b, table, old(banks)[b].hot, banks[b].hot)
      ensures old(banks)[b].hot.page == USED_PAGES - 1 ==> UsageOver(b, old(trail)[b])
      decreases fuel, if banks[b].hot.page == USED_PAGES - 1 then 6 else 3
    {
      hide Inv, HeapOk, SameData, Fetch, Insert, In, FlashShape, Began, NextPage, JustProgrammed, OnTrack, Complete,
        NoWorse, NextAssured, HotFits, VacantFits, HotOpen, ColdSide, Spacious, BoundKept, LessBound,
        SecondMove, SecondLeft, Tested, LowPage, AdaptiveOk, Compared, ReuseOutcome, FirstPageOk, VictimCount,
        LeastCount, Told, Longer;
      ghost var t0, s0 := table, banks[b];
      LongerSelf(nand, b);
      LongerSelf(outcomes, b);
      if banks[b].hot.page == USED_PAGES - 1 {
        CloseSecondUsage(b);
        ghost var s1, n1 := banks[b], nand;
        StillAssured(s0, s1, true);
        done := FindNewLpnForHotLog(b, fuel);
        ClosedBound(s0, s1, banks[b]);
        LongerTransitive(old(nand), n1, nand, b);
        SameDataTransitive(b, t0, s0, t0, s1, table, banks[b]);
      } else {
        if (banks[b].hot.page + 1) % 2 == 1 {
          ToLowPage(b);
        } else {
          ToHighPage(b);
        }
        done := true;
        SameBound(s0, banks[b]);
        TrailMoves(s0.hot, trail[b], banks[b].hot);
      }
    }

    /** A block whose first usage is over: its list goes to page 125 and it enters the first-usage heap. */
    method CloseFirstUsage(b: nat)
      requires HotAdvancing(b) && banks[b].hot.usage == HotFirst && Discipline(banks[b].hot) && banks[b].hot.page == 123
      requires |trail| == nb && JustProgrammed(banks[b].hot, trail[b])
      modifies this`banks, this`trail, this`finished, this`nand
      ensures Vacant(b) && KeptData(b) && UsageOver(b, old(trail)[b]) && NoWorse(old(banks)[b], banks[b])
      ensures var c := old(banks)[b].hot;
        nand[b] == old(nand)[b] + [Program(c.lbn, FIRST_LIST_PAGE, ListPage(c.lpns))]
      ensures var s := old(banks)[b];
        VacantFits(blks, b, table, banks[b]) <==> HotFits(blks, s, HotOpen(b, table, s), ColdSide(b, table, s))
      ensures var s := old(banks)[b];
        && FlashShape(blks, s.flash) && Valid(s.first) && |s.first.pos| == blks && !In(s.first, s.hot.lbn)
        && PageAt(s.flash, s.hot.lbn, FIRST_LIST_PAGE) == Erased
        && banks[b] == s.(flash := SetPage(s.flash, s.hot.lbn, FIRST_LIST_PAGE, ListPage(s.hot.lpns)),
                          first := Insert(s.first, s.hot.lbn), hot := s.hot.(lpns := EmptyList()))
    {
      hide Inv, HeapOk, SameData, Fetch, Insert, In, Began, Complete, LowPage, NoWorse,
        HotFits, VacantFits, HotOpen, ColdSide, Told, Longer;
      ghost var s0 := banks[b];
      var s := banks[b];
      ghost var adv := s.(hot := Advanced(s.hot));
      HotClosed(blks, b, table, adv);
      ClosedHotCode(blks, adv);
      InvParts(blks, b, table, adv);
      ListErased(blks, b, table, adv, true);
      LongerBy(nand, b, Program(s.hot.lbn, FIRST_LIST_PAGE, ListPage(s.hot.lpns)));
      ToldProgram(blks, nand[b], s.flash, s.hot.lbn, FIRST_LIST_PAGE, ListPage(s.hot.lpns));
      nand := nand[b := nand[b] + [Program(s.hot.lbn, FIRST_LIST_PAGE, ListPage(s.hot.lpns))]];
      s := s.(flash := SetPage(s.flash, s.hot.lbn, FIRST_LIST_PAGE, ListPage(s.hot.lpns)),
              first := Insert(s.first, s.hot.lbn), hot := s.hot.(lpns := EmptyList()));
      HotVacant(blks, b, table, Closed(blks, adv, true), NoBlock(blks, s));
      ClosedNoWorse(blks, b, table, s0, s);
      ClosedFits(blks, b, table, s0, s);
      banks := banks[b := s];
      FirstUsagePages(trail[b]);
      finished := finished + [Finished(b, s.hot.lbn, HotFirst, trail[b])];
      trail := trail[b := []];
      HotFullData(b, table, s0, adv, Closed(blks, adv, true), s);
    }

    method IncreaseLpnHotBlkFirstUsage(b: nat, fuel: nat) returns (done: bool)
      requires HotAdvancing(b) && banks[b].hot.usage == HotFirst && Discipline(banks[b].hot)
      requires |trail| == nb && JustProgrammed(banks[b].hot, trail[b])
      requires Tuning(b)
      modifies this
      ensures Tuning(b) && Longer(old(outcomes), outcomes, b)
      ensures Ok(b) && KeptData(b) && HotReady(blks, banks[b]) && Tracked(b) && banks[b].hot.ptr == 0
      ensures done ==> Settled(blks, banks[b])
      ensures !done ==> |banks[b].clean| < 2
      ensures fuel > 0 && Assured(old(banks)[b], true) ==> done
      ensures var s := old(banks)[b];
        var fits := HotFits(blks, s, HotOpen(b, old(table), s), ColdSide(b, old(table), s));
        s.hot.page == 123 ==> (done ==> fits) && (fuel >= SECOND_USAGE_CHUNKS && fits ==> done)
      ensures fuel >= SECOND_USAGE_CHUNKS && !done ==> !Spacious(blks, banks[b], ColdSide(b, table, banks[b]))
      ensures done ==> BoundKept(old(banks)[b], banks[b])
      ensures old(banks)[b].hot.page != 123 ==>
        && done && SameBlock(old(banks)[b], banks[b]) && NextPage(HotFirst, old(banks)[b].hot.page, banks[b].hot.page)
        && banks[b].flash == old(banks)[b].flash && outcomes == old(outcomes) && trail == old(trail)
        && finished == old(finished)
      ensures old(banks)[b].hot.page == 123 ==> UsageOver(b, old(trail)[b])
      decreases fuel, 6
    {
      hide Inv, HeapOk, SameData, Fetch, Insert, In, FlashShape, Began, JustProgrammed, OnTrack, Complete, NoWorse,
        NextAssured, HotFits, VacantFits, HotOpen, ColdSide, Spacious, BoundKept, LessBound, Told, Longer;
      ghost var t0, s0 := table, banks[b];
      LongerSelf(nand, b);
      LongerSelf(outcomes, b);
      if banks[b].hot.page == 123 {
        CloseFirstUsage(b);
        ghost var s1, n1 := banks[b], nand;
        StillAssured(s0, s1, true);
        done := FindNewLpnForHotLog(b, fuel);
        ClosedBound(s0, s1, banks[b]);
        LongerTransitive(old(nand), n1, nand, b);
        SameDataTransitive(b, t0, s0, t0, s1, table, banks[b]);
      } else {
        var s := banks[b];
        s := s.(hot := s.hot.(page := if s.hot.page == 0 then 1 else s.hot.page + 2));
        banks := banks[b := s];
        SameStoreData(b, t0, s0, s);
        done := true;
        SameBound(s0, s);
        TrailMoves(s0.hot, trail[b], s.hot);
      }
    }

    /** flushLogBuffer or flushLogBufferRecycledPage up to increaseLpn, as the buffering is for eight chunks or four. */
    method ProgramHot(b: nat)
      requires Full(b, true)
      modifies this`table, this`banks, this`nand
      ensures |banks| == |old(banks)| && banks == old(banks)[b := banks[b]] &&
        Flushed(blks, old(banks)[b], banks[b], true)
      ensures Longer(old(nand), nand, b) && OnRecord(b)
      ensures var c := old(banks)[b].hot; nand[b] == old(nand)[b] + [Program(c.lbn, c.page, Programmed(c.buf))]
      ensures table == FlushTable(b, old(table), old(banks)[b].hot, true)
    {
      hide Inv, Flushed, FlushTable, Told, Longer;
      if banks[b].hot.recycled {
        ProgramRecycled(b);
      } else {
        ProgramBuffer(b, true);
      }
    }

    /** The full hot buffer goes to flash: flushLogBuffer or flushLogBufferRecycledPage, then increaseLpn. */
    method FlushHot(b: nat, fuel: nat) returns (done: bool)
      requires Full(b, true) && 0 < nc && nb % nc == 0 && OthersStocked(b) && blks >= MIN_BLKS
      requires ColdReady(blks, banks[b]) && |banks[b].clean| >= 2 && Tracked(b)
      requires Tuning(b)
      modifies this
      ensures Tuning(b) && Longer(old(outcomes), outcomes, b)
      ensures Ok(b) && KeptData(b) && HotReady(blks, banks[b]) && Tracked(b) && banks[b].hot.ptr == 0
      ensures done ==> Settled(blks, banks[b])
      ensures !done ==> |banks[b].clean| < 2
      ensures fuel > 0 && Assured(old(banks)[b], true) ==> done
      ensures var s := old(banks)[b];
        var fits := s.hot.page == LastPage(s.hot.usage) ==>
          HotFits(blks, s, HotOpen(b, old(table), s), ColdSide(b, old(table), s));
        (done ==> fits) && (fuel >= SECOND_USAGE_CHUNKS && fits ==> done)
      ensures fuel >= SECOND_USAGE_CHUNKS && !done ==> !Spacious(blks, banks[b], ColdSide(b, table, banks[b]))
      ensures done ==> BoundKept(old(banks)[b], banks[b])
      ensures var s, r := old(banks)[b], banks[b]; var c := s.hot;
        if c.page == LastPage(c.usage) then UsageOver(b, old(trail)[b] + [c.page])
        else
          && done && SameBlock(s, r) && NextPage(c.usage, c.page, r.hot.page)
          && (c.usage == HotSecond ==> SecondMove(b, table, c, r.hot))
          && FlashShape(blks, s.flash) && r.flash == SetPage(s.flash, c.lbn, c.page, Programmed(c.buf))
          && outcomes == old(outcomes) && trail == old(trail)[b := old(trail)[b] + [c.page]]
          && finished == old(finished)
      ensures var c := old(banks)[b].hot; PageWritten(b, true, c, c.buf, done)
      decreases fuel, 8
    {
      hide Inv, HeapOk, Fetch, SameData, Flushed, FlushTable, Began, NextPage, Complete, NoWorse, NextAssured,
        SecondMove, HotFits, HotOpen, ColdSide, Spacious, BoundKept, Told, Longer;
      ghost var t0, s0 := table, banks[b];
      InvParts(blks, b, t0, s0);
      ProgramHot(b);
      ghost var t1, s1, n1 := table, banks[b], nand;
      FlushedFacts(blks, s0, s1, true);
      FlushKeeps(blks, b, t0, s0, s1, true);
      FlushedData(blks, b, t0, s0, s1, true);
      trail := trail[b := trail[b] + [s0.hot.page]];
      FlushNoWorse(blks, b, t0, s0, t1, s1, true);
      FlushFits(blks, b, t0, s0, s1);
      StillAssured(s0, s1, true);
      if banks[b].hot.usage == HotFirst {
        done := IncreaseLpnHotBlkFirstUsage(b, fuel);
      } else {
        done := IncreaseLpnHotBlkSecondUsage(b, fuel);
      }
      SameMove(b, table, s0.hot, s1.hot, banks[b].hot);
      LongerTransitive(old(nand), n1, nand, b);
      LongerPrefix(n1, nand, b);
      SameDataTransitive(b, t0, s0, t1, s1, table, banks[b]);
      BoundTransitive(s0, s1, banks[b]);
    }

    // ---------- write.c: the host writes a chunk ----------

    /** In every bank the open hot usage has programmed what it had to so far, and every usage that is over
        programmed all it had to. */
    ghost predicate Disciplined()
      reads this
    {
      && |banks| == nb && |trail| == nb
      && (forall j: nat {:trigger banks[j]} {:trigger trail[j]} :: j < nb ==> OnTrack(banks[j].hot, trail[j]))
      && forall i: nat {:trigger finished[i]} :: i < |finished| ==> Complete(finished[i].usage, finished[i].pages)
    }

    /** The map and the banks are consistent, every mapped chunk lives in its home bank, and the hot logs follow
        their page discipline. */
    ghost predicate Whole()
      reads this
    {
      && 0 < nc && 0 < nb && nb % nc == 0 && |banks| == |nand| == nb && blks >= MIN_BLKS && Affine(nb, table)
      && Disciplined()
      && AllTold(blks, nand, banks) && AllInTune(banks, outcomes)
      && forall j: nat {:trigger banks[j]} :: j < nb ==> Inv(blks, j, table, banks[j])
    }

    /** The state between host commands. */
    ghost predicate Steady()
      reads this
    {
      Whole() && forall j: nat {:trigger banks[j]} :: j < nb ==> Settled(blks, banks[j])
    }

    /** What chunk k reads as. */
    ghost function Contents(k: Key): Chunk
      reads this
    {
      Resolve(table, banks, k)
    }

    /** A formatted device: nothing was ever written. */
    constructor (numBanks: nat, numChannels: nat, blksPerBank: nat)
      requires 0 < numChannels && 0 < numBanks && numBanks % numChannels == 0 && blksPerBank >= MIN_BLKS
      ensures nb == numBanks && nc == numChannels && blks == blksPerBank
      ensures Steady() && forall k: Key :: Contents(k) == AllOnes
      ensures table == map[] && forall j: nat {:trigger banks[j]} ::
        j < nb ==>
        HandedOut(blks, banks[j]) && nand[j] == [] && outcomes[j] == []
    {
      hide HandedOut, InTune, Inv, Settled, FreshBank, OnTrack, Told;
      nb, nc, blks := numBanks, numChannels, blksPerBank;
      table := map[];
      banks := seq(numBanks, _ => FreshBank(blksPerBank));
      trail := seq(numBanks, _ => []);
      finished := [];
      nand := seq(numBanks, _ => []);
      outcomes := seq(numBanks, _ => []);
      new;
      forall j: nat {:trigger banks[j]} | j < nb
        ensures Inv(blks, j, table, banks[j]) && Settled(blks, banks[j]) && OnTrack(banks[j].hot, trail[j]) &&
          Told(blks, nand[j], banks[j].flash) && HandedOut(blks, banks[j]) && InTune(banks[j].adapt, outcomes[j])
      {
        FreshInv(blks, j);
        FreshOnRecord(blks);
        FreshHandedOut(blks);
        StartsInTune(blks, banks[j]);
      }
    }

    /** The old copy of a chunk about to be overwritten is dropped: its block's counters go down by one, or
        its buffer slot is cleared. */
    method DropOld(b: nat, k: Key)
      requires |banks| == nb && b < nb && Inv(blks, b, table, banks[b]) && Settled(blks, banks[b])
      requires Look(table, k) == Invalid || OfBank(Look(table, k), b)
      modifies this`banks
      ensures |banks| == nb && banks == old(banks)[b := banks[b]] && Inv(blks, b, table - {k}, banks[b]) &&
        Settled(blks, banks[b])
      ensures var s, r := old(banks)[b], banks[b];
        && r.flash == s.flash && r.hot == s.hot.(keys := r.hot.keys, allValid := r.hot.allValid)
        && r.cold == s.cold.(keys := r.cold.keys, allValid := r.cold.allValid) && r.clean == s.clean
        && r.first.n == s.first.n
      ensures banks[b].adapt == old(banks)[b].adapt
      ensures Dropped(blks, old(banks)[b], Look(table, k), banks[b])
      ensures var l := Look(table, k); l.Flash? ==> AllThreeDropped(blks, old(banks)[b], l.lbn, banks[b])
    {
      hide AllThreeDropped, Val, In, Live, RoleOf, Inv, HeapOk, DecrementByN, Told;
      var s := banks[b];
      InvParts(blks, b, table, s);
      match Look(table, k) {
        case Invalid =>
          InvWithout(blks, b, table, s, k);
        case Flash(bank, lbn, _, _, _) =>
          UnlinkFlash(blks, b, table, s, k);
          CounterCoversLive(blks, b, table, s, k);
          OwnerPositive(blks, b, table, s, lbn);
          DropsAllThree(blks, s, lbn);
          UnfoldHeap(blks, s.first);
          UnfoldHeap(blks, s.second);
          UnfoldHeap(blks, s.coldHeap);
          banks := banks[bank := s.(first := DecrementByN(s.first, lbn, 1), second := DecrementByN(s.second, lbn, 1),
                                    coldHeap := DecrementByN(s.coldHeap, lbn, 1))];
        case Buf(bank, hot, slot) =>
          UnlinkBuf(blks, b, table, s, k);
          var c := Log(s, hot);
          c := c.(keys := c.keys[slot := None], allValid := false);
          banks := banks[bank := WithLog(s, hot, c)];
      }
    }

    /** One slot of the log's buffer was filled; the buffer may be full now. */
    ghost predicate OneMore(b: nat, hot: bool)
      requires b < |banks|
      reads this
    {
      var s := banks[b]; var c := Log(s, hot);
      && s.gc.state == GcIdle && |s.clean| >= 2 && c.lbn < blks && Ready(c) && c.ptr <= Capacity(c)
      && (if hot then ColdReady(blks, s) else HotReady(blks, s)) && (!hot ==> Capacity(c) == CHUNKS_PER_PAGE)
    }

    /** writeChunkNew and updateDramBufMetadata: the chunk takes the next slot of the log's buffer. */
    method PlaceChunk(b: nat, k: Key, hot: bool, d: Chunk)
      requires |banks| == nb && b < nb && Inv(blks, b, table - {k}, banks[b]) && Settled(blks, banks[b]) &&
        k.idx < CHUNKS_PER_PAGE
      modifies this`table, this`banks
      ensures table == old(table)[k := Buf(b, hot, Log(old(banks)[b], hot).ptr)]
      ensures CtrlShape(Log(old(banks)[b], hot)) && Log(old(banks)[b], hot).ptr < CHUNKS_PER_PAGE
      ensures banks == old(banks)[b := PutSlot(old(banks)[b], hot, k, d)]
      ensures Inv(blks, b, table, banks[b]) && OneMore(b, hot) && banks[b].hot.recycled == old(banks)[b].hot.recycled
    {
      hide Inv, HeapOk, Live, ListShape, Told;
      var s := banks[b];
      InvParts(blks, b, table - {k}, s);
      Link(blks, b, table - {k}, s, hot, k, d);
      assert (table - {k})[k := Buf(b, hot, Log(s, hot).ptr)] == table[k := Buf(b, hot, Log(s, hot).ptr)];
      var c := Log(s, hot);
      table := table[k := Buf(b, hot, c.ptr)];
      c := c.(buf := c.buf[c.ptr := d], keys := c.keys[c.ptr := Some(k)], ptr := c.ptr + 1);
      banks := banks[b := WithLog(s, hot, c)];
    }

    /** writeChunkOld up to updateChunkPtr: the old copy is given up and the chunk is in a write buffer. */
    method PutChunk(b: nat, k: Key, hot: bool, d: Chunk)
      requires Steady() && k.idx < CHUNKS_PER_PAGE && b == Home(nb, k)
      modifies this`table, this`banks
      ensures Whole() && OneMore(b, hot) && banks[b].hot.recycled == old(banks)[b].hot.recycled
      ensures forall j: Key {:trigger Resolve(table, banks, j)} ::
        Resolve(table, banks, j) == if j == k then d else Resolve(old(table), old(banks), j)
      ensures forall j: nat {:trigger banks[j]} :: j < nb && j != b ==> banks[j] == old(banks)[j]
      ensures table == old(table)[k := Buf(b, hot, Log(old(banks)[b], hot).ptr)]
      ensures var c, r := Log(old(banks)[b], hot), Log(banks[b], hot);
        && r == c.(buf := r.buf, keys := r.keys, ptr := c.ptr + 1, allValid := r.allValid) && c.ptr < |c.buf|
        && r.buf == c.buf[c.ptr := d]
      ensures NextAssured(old(banks)[b], hot) ==> NextAssured(banks[b], hot)
      ensures banks[b].first.n == old(banks)[b].first.n && banks[b].clean == old(banks)[b].clean
      ensures !hot ==> ColdSide(b, table, banks[b]) == ColdSide(b, old(table), old(banks)[b]) + {k}
      ensures hot ==>
        (HotFits(blks, banks[b], HotOpen(b, table, banks[b]), ColdSide(b, table, banks[b])) <==>
          WriteFits(blks, b, old(table), old(banks)[b], k))
    {
      hide AllInTune, InTune, AllTold, Longer, Told, Inv, HeapOk, Fetch, Resolve, Dropped, Affine, Home, ListShape,
        Settled,
        OneMore,
        NextAssured, NoWorse,
        Began, Complete, ColdSide, HotOpen, HotFits, WriteFits, Told;
      MappedAtHome(nb, table, k);
      InTuneOf(banks, outcomes, b);
      ghost var t0, bs0 := table, banks;
      DropOld(b, k);
      ghost var s := banks[b];
      DropNoWorse(blks, b, t0, bs0[b], k, s);
      PlaceChunk(b, k, hot, d);
      if !hot {
        PutColdSide(blks, b, t0, bs0[b], k, d, s);
      } else {
        PutFits(blks, b, t0, bs0[b], k, d, s);
      }
      PutAssured(bs0[b], s, hot, k, d);
      DataPut(nb, blks, b, t0, bs0, s, hot, k, d);
      assert banks == bs0[b := PutSlot(s, hot, k, d)];
      LongerSelf(nand, b);
      LongerSelf(outcomes, b);
      InTuneStep(bs0, outcomes, banks, outcomes, b);
      ToldStep(blks, nand, nand, bs0, banks, b);
    }

    /** The log's full buffer goes to flash; no chunk reads differently. */
    method FlushLog(b: nat, hot: bool, fuel: nat) returns (done: bool)
      requires Whole() && b < nb && OneMore(b, hot) && Log(banks[b], hot).ptr == Capacity(Log(banks[b], hot))
      requires forall j: nat {:trigger banks[j]} :: j < nb && j != b ==> Settled(blks, banks[j])
      modifies this
      ensures Whole()
      ensures forall k: Key {:trigger Resolve(table, banks, k)} ::
        Resolve(table, banks, k) == Resolve(old(table), old(banks), k)
      ensures forall j: nat {:trigger banks[j]} :: j < nb && j != b ==> banks[j] == old(banks)[j]
      ensures Longer(old(nand), nand, b) && Longer(old(outcomes), outcomes, b)
      ensures Mapped(table) == Mapped(old(table)) && (!hot ==> banks[b].first.n == old(banks)[b].first.n)
      ensures banks[b].hot.recycled == old(banks)[b].hot.recycled || banks[b].hot.ptr == 0
      ensures done ==> Steady()
      ensures !done ==> |banks[b].clean| < 2
      ensures fuel > 0 && Assured(old(banks)[b], hot) ==> done
      ensures var s := old(banks)[b];
        var fits := s.hot.page == LastPage(s.hot.usage) ==>
          HotFits(blks, s, HotOpen(b, old(table), s), ColdSide(b, old(table), s));
        hot ==> (done ==> fits) && (fuel >= SECOND_USAGE_CHUNKS && fits ==> done)
      ensures fuel >= SECOND_USAGE_CHUNKS && !done ==> !Spacious(blks, banks[b], ColdSide(b, table, banks[b]))
      ensures done ==> BoundKept(old(banks)[b], banks[b])
      ensures var s := old(banks)[b]; var fits := s.cold.page == USED_PAGES - 1 ==>
        Fits(blks, s, ColdSide(b, old(table), s));
        !hot ==> (done ==> fits) && (fuel > 0 && fits ==> done)
      ensures var c := Log(old(banks)[b], hot); PageWritten(b, hot, c, c.buf, done)
    {
      hide AllInTune, Longer, InTune, SameThreshold, PageWritten, AllTold, Inv, HeapOk, Fetch, SameData, Resolve,
        Affine, NextPage,
        OnTrack, Complete,
        NextAssured, Mapped,
        ColdSide,
        Spacious, HotSide, HotOpen, HotFits, BoundKept, SecondMove, Told, Longer;
      ghost var t1, bs1 := table, banks;
      ToldOf(blks, nand, banks, b);
      InTuneOf(banks, outcomes, b);
      LongerSelf(outcomes, b);
      InvParts(blks, b, table, banks[b]);
      if hot {
        done := FlushHot(b, fuel);
      } else {
        done := FlushCold(b, fuel);
        StaysInTune(bs1[b].adapt, banks[b].adapt, outcomes[b]);
        SpaciousKept(blks, b, t1, bs1[b], table, banks[b]);
        SameBound(bs1[b], banks[b]);
      }
      InTuneStep(bs1, old(outcomes), banks, outcomes, b);
      ToldStep(blks, old(nand), nand, bs1, banks, b);
      DataKept(nb, blks, b, t1, bs1, table, banks);
    }

    /** A whole chunk is written by the host. Whatever flushes, block changes and collections this sets off,
        k reads as d afterwards and every other chunk reads as before. A cold write finishes, with any fuel at all,
        exactly when it does not roll the cold log over, or a third block is clean, or the cold side of the bank, k
        included, does not fill the blocks that would be left for it. A hot write finishes, with 1016 nested re-entries
        or more, exactly when it does not need another block, or WriteFits says that one can be had. A write that does
        not finish even then leaves a bank whose cold side fills the blocks left for it. */
    method Write(k: Key, hot: bool, d: Chunk, fuel: nat) returns (done: bool)
      requires Steady() && k.idx < CHUNKS_PER_PAGE
      modifies this
      ensures Whole()
      ensures forall j: Key :: Contents(j) == if j == k then d else old(Contents(j))
      ensures forall j: nat {:trigger banks[j]} :: j < nb && j != Home(nb, k) ==> banks[j] == old(banks)[j]
      ensures Longer(old(nand), nand, Home(nb, k)) && Longer(old(outcomes), outcomes, Home(nb, k))
      ensures var b := Home(nb, k); var c := Log(old(banks)[b], hot);
        if c.ptr + 1 < (if hot && c.recycled then 4 else 8) then
          done && table == old(table)[k := Buf(b, hot, c.ptr)] && nand == old(nand) && Log(banks[b], hot).page == c.page
        else c.ptr < |c.buf| && PageWritten(b, hot, c, WithChunk(c.buf, c.ptr, d), done)
      ensures Mapped(table) == Mapped(old(table)) + {k}
      ensures !hot ==> banks[Home(nb, k)].first.n == old(banks)[Home(nb, k)].first.n
      ensures var b := Home(nb, k); banks[b].hot.recycled == old(banks)[b].hot.recycled || banks[b].hot.ptr == 0
      ensures done ==> Steady()
      ensures !done ==> |banks[Home(nb, k)].clean| < 2
      ensures fuel > 0 && Assured(old(banks)[Home(nb, k)], hot) ==> done
      ensures var b := Home(nb, k); var c := old(banks)[b].hot;
        var rolls := c.ptr + 1 == Capacity(c) && c.page == LastPage(c.usage);
        var fits := rolls ==> WriteFits(blks, b, old(table), old(banks)[b], k);
        hot ==> (done ==> fits) && (fuel >= SECOND_USAGE_CHUNKS && fits ==> done)
      ensures var b := Home(nb, k);
        fuel >= SECOND_USAGE_CHUNKS && !done ==> !Spacious(blks, banks[b], ColdSide(b, table, banks[b]))
      ensures done ==> BoundKept(old(banks)[Home(nb, k)], banks[Home(nb, k)])
      ensures var b := Home(nb, k); var s := old(banks)[b];
        var rolls := s.cold.ptr + 1 == CHUNKS_PER_PAGE && s.cold.page == USED_PAGES - 1;
        var fits := rolls ==> Fits(blks, s, ColdSide(b, old(table), s) + {k});
        !hot ==> (done ==> fits) && (fuel > 0 && fits ==> done)
    {
      hide Longer, InTune, Inv, HeapOk, Resolve, Affine, NextPage, NextAssured, Disciplined, ColdSide, Spacious,
        HotOpen, HotFits, WriteFits, BoundKept, SecondMove, Told;
      var b := Home(nb, k);
      PutChunk(b, k, hot, d);
      LongerSelf(outcomes, b);
      LongerSelf(nand, b);
      MappedOneMore(old(table), k, table[k]);
      SpaciousSame(blks, old(banks)[b], banks[b], ColdSide(b, table, banks[b]));
      SameBound(old(banks)[b], banks[b]);
      ghost var s1 := banks[b];
      done := true;
      var c := Log(banks[b], hot);
      if c.ptr == Capacity(c) {
        done := FlushLog(b, hot, fuel);
        BoundTransitive(old(banks)[b], s1, banks[b]);
        SameMove(b, table, Log(old(banks)[b], hot), c, banks[b].hot);
      }
    }

    /** A run of host writes. It stops early only after a write that left its bank short of clean blocks, with its cold
        side filling the blocks left for it; and when every bank has room for its chunks, it does not stop. */
    method Run(cmds: seq<Cmd>, fuel: nat) returns (n: nat)
      requires Steady() && forall i :: 0 <= i < |cmds| ==> cmds[i].key.idx < CHUNKS_PER_PAGE
      modifies this
      ensures Whole() && n <= |cmds| && AllLonger(old(nand), nand)
      ensures forall k: Key :: Contents(k) == Latest(cmds[..n], k, old(Contents(k)))
      ensures n < |cmds| ==> n > 0 && |banks[Home(nb, cmds[n - 1].key)].clean| < 2
      ensures n == |cmds| ==> Steady() || (n > 0 && |banks[Home(nb, cmds[n - 1].key)].clean| < 2)
      ensures fuel > 0 && AllCold(cmds) && AllSpacious(nb, blks, old(table), old(banks), cmds) ==>
        n == |cmds| && Steady()
      ensures fuel >= SECOND_USAGE_CHUNKS && AllRoomy(nb, blks, old(table), old(banks), cmds) ==>
        n == |cmds| && Steady()
      ensures fuel >= SECOND_USAGE_CHUNKS && !Steady() ==>
        n > 0 && var b := Home(nb, cmds[n - 1].key); !Spacious(blks, banks[b], ColdSide(b, table, banks[b]))
    {
      NoneSoFar(table, banks, cmds);
      hide AllLonger, Longer, Inv, Resolve, Affine, Mapped, Written, OfHome, Spacious, Assured, Disciplined,
        NextPage, Settled, Home,
        AllSpacious, ColdSide, SoFar, AllCold, AllRoomy, WriteFits, InTune, BoundKept, Told;
      ghost var t0, bs0 := table, banks;
      LongerNone(nand);
      n := 0;
      while n < |cmds|
        invariant n <= |cmds| && Steady() && AllLonger(old(nand), nand)
        invariant forall k: Key :: Contents(k) == Latest(cmds[..n], k, old(Contents(k)))
        invariant SoFar(t0, bs0, cmds, n, table, banks)
      {
        assert cmds[..n + 1][..n] == cmds[..n];
        if AllCold(cmds) && AllSpacious(nb, blks, t0, bs0, cmds) {
          SpaciousWrite(nb, blks, t0, bs0, table, banks, cmds, n);
        }
        if AllRoomy(nb, blks, t0, bs0, cmds) {
          InvParts(blks, Home(nb, cmds[n].key), table, banks[Home(nb, cmds[n].key)]);
          RoomyWrite(nb, blks, t0, bs0, table, banks, cmds, n);
        }
        ghost var t1, bs1, n1 := table, banks, nand;
        var done := Write(cmds[n].key, cmds[n].hot, cmds[n].chunk, fuel);
        LongerAll(old(nand), n1, nand, Home(nb, cmds[n].key));
        n := n + 1;
        if !done {
          return;
        }
        OneMoreSoFar(t0, bs0, cmds, n - 1, t1, bs1, table, banks, Home(nb, cmds[n - 1].key));
      }
    }
  }
}
