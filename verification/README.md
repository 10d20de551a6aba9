# The page-mapped flash translation layer, in Dafny

This project models the page-mapped flash translation layer (`ftl_page_mapped/`) of the Jasmine
SSD firmware together with the DRAM accessors it relies on, and proves what the layer is for: it
is an array of 4 KB chunks. Whatever buffers are flushed, blocks change hands, used-once blocks are
programmed a second time and garbage collections run (also re-entered from their own writes), what
the map names for a chunk is what was last written to it, or all ones. It also says exactly when a host
write, cold or hot, ends with two clean blocks, and exactly when the read path brings a chunk back.

## How the model is laid out

| file | what it holds |
|---|---|
| `Heap.dfy`, `IndexedHeap.dfy` | the valid-chunks heap: its operations on values and their laws; the same operations in place on the two arrays |
| `CleanList.dfy` | the clean list: a queue and a free stack threaded through one node array |
| `AddressCodec.dfy` | 32-bit chunk addresses, list entries and map indices |
| `BankState.dfy` | one bank, the chunk map, and the bank invariant `Inv` |
| `BankSteps.dfy`, `BankPages.dfy`, `BankLog.dfy`, `BankBlocks.dfy`, `BankHot.dfy`, `BankGc.dfy` | every elementary step keeps the invariant and the data |
| `ColdMoves.dfy` | where the chunks of a victim's page go, one after the other |
| `Nand.dfy` | the operations on flash and the rule they keep |
| `Thresholds.dfy` | how the reuse threshold moves over a run of comparisons |
| `FtlSteps.dfy`, `DeviceSteps.dfy` | facts for the methods; the device as a whole |
| `Sides.dfy`, `Progress.dfy`, `HotRoom.dfy` | the hot and the cold side of a bank; when a collection is carried through and a write finishes |
| `WriteRuns.dfy` | room for all the chunks of a run of writes |
| `Ftl.dfy` | the class whose methods are the source's: write path, hot and cold log, allocator, collector |
| `PageRuns.dfy` | which pages the two usages of a block have to program, and in which order |
| `ReadPath.dfy` | the batched page read |
| `RequestSplit.dfy`, `HostRequests.dfy` | splitting host requests; host writes and reads from end to end |
| `Dram.dfy` | byte, word and bit access to ECC-strided memory |
| `Modular.dfy` | division with remainder |

The central definition is `BankState.Inv`. It says, of one bank and the chunk map:

* every block plays exactly one role: open hot, open cold, in one of the three heaps, or clean;
* a flash entry of the map agrees with the list of lpns of its block, plain or encoded, and lies on a page that
  the block's role allows; a buffer entry names a filled slot holding that chunk; no two entries share a place;
* a filled slot that still has a chunk is where the map says the chunk is;
* every page that the block's role says is not programmed yet is erased, so a page is programmed once between erases,
  except a low page that is programmed over on purpose in a second usage;
* the counter of the heap kind that owns a block is the block's live chunks plus eight for every page still to be
  programmed (and for a low page accepted for reuse and not yet reprogrammed); for a victim, plus what has been moved;
* while a collection runs: the counts agree with what the heap promised, the chunks found in the page being moved are
  exactly its live chunks, the victim is at position 1, 2 or 3 of its heap, and either what is left of it fits the open
  cold block without filling it, or it is at the root and a clean block is there to roll over to.

`Whole` asks this of all banks, that every chunk lives in its home bank, and that the hot logs follow their page
discipline: two ghost fields record the pages the open hot usage of each bank has programmed and the usages that are
over, and `PageRuns.Complete` says what each of those programmed. Two more ghost fields record, for each bank, every
operation on its flash (`nand`) and every comparison of the reuse condition (`outcomes`), since the device was formatted:
`Whole` says that flash is what the operations have made of it, under the rule in `Nand.Permitted`, and that the reuse
threshold is what the comparisons have made of it (`Thresholds.Tuned`). `Steady` adds what holds between host commands: no
collection under way, at least two clean blocks in every bank, both logs able to take a chunk on a page their discipline
allows.

The geometry is symbolic: banks, channels and blocks per bank are parameters (at least 116 blocks, so that
the collector always has a candidate); pages per block (128) and chunks per page (8, or 4 on a
recycled page) are the shipped constants. The configuration is the shipped one
(`include/jasmine.h:38-41`, `ftl_page_mapped/ftl_metadata.c:48-68`). Map entries are kept decoded;
`AddressCodec.RoundTrip` and `AddressCodec.SearchByAddress` justify it. NAND commands are synchronous array
updates. The collector's heaps and clean lists inside `Ftl` are the values whose in-place versions are
`IndexedHeap` and `CleanList`.

## Where the code is not what one might expect

* `resetValidChunksAndRemove` only sifts down, which is not enough for a general heap (`Heap.RemoveCanBreakOrder`,
  and exactly when it is: `Heap.RemoveKeepsOrderExactly`). The collector only removes blocks at positions 1 to 3,
  where it always is.
* A request that is not chunk aligned sends what runs into its second chunk to the first chunk's bank
  (`ftl_page_mapped/write.c:589`); `RequestSplit.Requests.FtlWrite` says exactly when.
* An empty write request that is not page aligned still takes a write buffer (`ftl_page_mapped/ftl.c:1323-1328`).
* A half-word access at the last byte of a word loses its second byte (`target_spw/mem_util.c:512-536`, `target_spw/mem_util.c:655-678`).
* Chunk addresses name every place exactly when the device has less than 2^31 chunks; from there on the last slot of the
  last cold or hot buffer is lost (`AddressCodec.RoomIsNeeded`).
* The counters of heaps that do not own a block may wrap below zero in 16 bits (`BankSteps.CounterWraps`); they are reset
  before the block enters that heap.
* `readOneChunkEncoded` copies the first chunk of TEMP_BUF, which is the chunk asked for exactly when that is the first of
  its encoded page (`ReadPath.EncodedFetchRight`). With eight banks every encoded chunk is read that way
  (`ReadPath.FarIsStray`), so a chunk in slot 1 to 3 is missed, and the head of TEMP_BUF overwrites the place that many
  chunks before its own: `ReadPath.SparedRead` says which chunks come back all the same, `ReadPath.NotSparedRead` what the
  others bring.
* The loops of `ftl_write` and `ftl_read` add offset and length in 32 bits (`ftl_page_mapped/ftl.c:1146`,
  `ftl_page_mapped/ftl.c:1298`). When the sum wraps, the write pieces miss the range exactly if the request does not
  start on a chunk boundary, and the read asks for everything at once.
* A write that needs a new block with only two clean ones gets a second one back exactly when the chunks of the bank's
  cold side, as they are after it, are fewer than its blocks can hold: `Fits` in `Ftl.Ftl.Write` for a cold write,
  `WriteFits` for a hot one, which may also be spared by the reuse condition. Otherwise it does not, however deep the
  collector re-enters itself.
* Used-once blocks are out of the collector's reach. While more than two blocks are clean every first usage that ends adds
  one, with no regard to the threshold, and with each the room that `Fits` asks for shrinks by a block;
  `WriteRuns.AllRoomy` says how many of them a run has to allow for.
* `findNewLpnForHotLog` precaches a low page before it sets `nextLowPageOffset` (`ftl_page_mapped/log.c:533-537`); only a scratch buffer is affected.

## Model

| member | source | states |
|---|---|---|
| Ftl.Ftl.Write | ftl_page_mapped/write.c:582-601 | a whole-chunk host write makes that chunk read as the new data and changes what no other chunk reads as, through every flush, block change and collection it sets off; the device stays consistent. While the buffer is not full the chunk waits in its slot, with nothing programmed; the buffer it fills is programmed, with the chunk in its slot and before anything else happens to flash, on the page the log stood on, and the log moves to the page that is due. It finishes, leaving two clean blocks in every bank and no collection under way, if and only if the log stays in its block, or a third block is clean, or the cold side the write leads to fits the blocks left for it, or, for a hot write, the reuse condition holds once the block is closed; a cold write with any fuel but none, a hot one with fuel for 1016 nested re-entries. A write that does not finish then leaves a cold side that fills those blocks. The buffering mode of the hot log changes only when its buffer is empty |
| Ftl.Ftl.FlushLog | ftl_page_mapped/write.c:497-508 | a full buffer goes to flash and no chunk reads differently; which page it goes to, before anything else happens to flash, and where the log stands afterwards; that it finishes is, for cold and for hot data, equivalent to a condition on the bank before |
| Ftl.Ftl.Run | ftl_page_mapped/write.c:582-601 | after any run of hot and cold writes each chunk reads as the last one written to it, and the hot logs follow their page discipline throughout; a run to banks with room for their chunks is carried out to the end, whether cold, hot or mixed; one that stops leaves a bank whose cold side fills the blocks left for it; every bank's record of flash operations only grows |
| Ftl.Ftl.constructor | ftl_page_mapped/log.c:50-118 | a formatted device is consistent and every chunk reads as all ones; in each bank blocks 0 and 1 are open, the others clean in order, nothing is programmed, and the reuse threshold is 8 with no comparison made |
| Ftl.Ftl.PutChunk | ftl_page_mapped/write.c:697-875 | the new chunk, and its contents, take the next slot of the right log's buffer in its home bank; only that chunk changes, and the hot log keeps its buffering mode |
| Ftl.Ftl.PlaceChunk | ftl_page_mapped/write.c:479-495 | the chunk takes the next slot of the log's buffer, the map points there, and the invariant holds |
| Ftl.Ftl.DropOld | ftl_page_mapped/write.c:724-873 | the old copy is given up: all three counters of its block go down by one, or its buffer slot is cleared; the books balance without it and no data moves |
| Ftl.Ftl.InitGC | ftl_page_mapped/garbage_collection.c:368-477 | the victim is the least block of the heap with the smaller least count (second usage on a tie), its count enters the adaptive window, and a victim without live chunks is erased and becomes clean at once, its data untouched; nothing else happens to flash; the clean list has a free node for it; the collection starts with the slack of the open cold block over the count |
| Ftl.Ftl.ScanPage | ftl_page_mapped/garbage_collection.c:517-611 | the scan finds exactly the live chunks of the page, at their slots, and whether they are encoded; the "inconsistent lpns" stop is dead |
| Ftl.Ftl.SearchRow | ftl_page_mapped/garbage_collection.c:555-555 | the first index of the row that maps to the address, or 8 |
| Ftl.Ftl.ReadPage | ftl_page_mapped/garbage_collection.c:509-660 | goes on to the next page with live chunks, with the same slack and no operation on flash, or erases the victim, and only that, and appends it to the clean list, which has a free node; no data changes and the count cross-check never fails |
| Ftl.Ftl.WritePage | ftl_page_mapped/garbage_collection.c:789-897 | a page of eight live chunks is programmed as it is on the cold log's page, first of all; unless that was the last page of the block, the cold buffer stays as it was, chunk i is mapped to slot i of that page and the log moves on. The chunks of any other page are moved in turn as WritePartialPage does. All live chunks leave the page, no data changes; either the collector reads on at the next page with the same slack between the open cold block and the rest of the victim, or a re-entry has left it idle with two clean blocks; it always completes while the rest of the victim fits the open cold block, and also when it crosses it, if the cold side has room and re-entries may nest as deep as the slack is short |
| Ftl.Ftl.WritePartialPage | ftl_page_mapped/garbage_collection.c:851-896 | the chunks found are moved in the order of their slots: the next free slots of the cold buffer are theirs, and the buffer they fill is programmed, as they fill it, on the log's page before anything else; unless that is the last page of the block, every map entry is where that leads to, and the buffer is left with the rest. The same slack and the same two cases in which it completes; after a re-entry the loop has nothing left to do |
| Ftl.Ftl.LeavePage | ftl_page_mapped/garbage_collection.c:888-896 | the collector reads on at the next page; nothing else changes |
| Ftl.Ftl.MoveChunk | ftl_page_mapped/garbage_collection.c:864-885 | one live chunk of the victim is moved and its flag cleared; it was where the map said, so the "moved during GC" branch is dead; the slack is as before or the collection is over; the chunk joins the cold buffer at its next slot and, when that fills it, the buffer is programmed first of all |
| ColdMoves.GatheredPut | ftl_page_mapped/garbage_collection.c:851-896 | the chunk that comes next takes the next slot: every map entry is where the chunks moved so far lead to |
| Ftl.Ftl.WriteWholePage | ftl_page_mapped/garbage_collection.c:795-845 | eight chunks are copied and remapped at once, the page programmed as it is; the books stay balanced and the slack is as before |
| Ftl.Ftl.ChooseBanks | ftl_page_mapped/garbage_collection.c:136-183 | the asking bank is chosen on its own channel; on every other channel, the first bank from its column on that has no clean block, and none exactly if there is no such bank |
| Ftl.Ftl.ChooseOnChannel | ftl_page_mapped/garbage_collection.c:156-180 | the same for one other channel, from column to column without running over the last |
| Ftl.Ftl.SearchChannel | ftl_page_mapped/garbage_collection.c:160-178 | the bank it returns is the first one tried, from the starting column on, that has run out of clean blocks; it returns none only if all it tried have clean blocks |
| Ftl.Ftl.GarbageCollectLog | ftl_page_mapped/garbage_collection.c:128-290 | one collection changes no data, no other bank and not the hot log, ends idle with a clean block gained; from idle it completes when the victim fits the open cold block, or when the cold side has room and re-entries may nest as deep as the room is short of the victim's live chunks, and only if one of the two holds: the victim fits or the cold side has room; resumed with slack left, it completes and leaves that slack as room; when the victim fits, erasing it is the last operation on flash |
| Ftl.Ftl.FinishGC | ftl_page_mapped/garbage_collection.c:242-286 | a collection that has begun is carried through page by page under the same conditions |
| Ftl.Ftl.GcStep | ftl_page_mapped/garbage_collection.c:242-286 | one turn of the loop makes progress through the victim with the same slack, or ends it with a clean block gained; it is carried through whenever the slack is positive, or the cold side has room and the fuel makes up for the slack |
| Ftl.Ftl.RestoreClean | ftl_page_mapped/log.c:229-235 | two blocks are clean and the collector idle afterwards; with two clean blocks already it does nothing; it finishes when the least block fits the open cold block, and, with fuel and room together above 1016, if and only if the cold side fits the blocks left for it, also when it is entered in the middle of a collection |
| Ftl.Ftl.RollColdBlk | ftl_page_mapped/log.c:211-227 | the full cold block enters its heap and the head of the clean list is opened; the pop never finds the list empty, and what is left of a victim then fits the fresh block, so this happens at most once a victim |
| Ftl.Ftl.IncreaseLpnColdBlk | ftl_page_mapped/log.c:204-246 | the next page of the block, or a new block; a collection in progress is either as it was, with the slack of the advanced log, or finished with two clean blocks; between collections it finishes if and only if it stays in the block, or a third block is clean, or the cold side of the bank fits the blocks left for it; during one, whenever the slack is positive, or the cold side has room and the fuel makes up for the slack |
| Ftl.Ftl.FlushCold | ftl_page_mapped/write.c:266-313 | a full cold buffer is programmed at the log's page, which no data notices, during a collection or not; between collections it finishes exactly when the log does not need a new block or the bank has the room; during one the slack is as before, and it finishes whenever that is positive, or the cold side has room and the fuel makes up for it; the buffer is programmed as it is, first of all, and unless that was the last page of the block the log has moved on to the next |
| Ftl.Ftl.WriteChunkOnLogBlockDuringGC | ftl_page_mapped/write.c:315-341 | a chunk taken from the victim is mapped to the cold buffer with its contents; no data changes; the slack is one less than without that chunk, and the flush this may set off completes as FlushCold does; the chunk takes the next slot of the buffer, and a buffer that is full is programmed before anything else |
| Ftl.Ftl.ProgramBuffer | ftl_page_mapped/write.c:53-102 | exactly the held slots' chunks are remapped to the programmed page, which was erased, the list describes it, and the owner's counter loses the slots without a chunk |
| Ftl.Ftl.ProgramRecycled | ftl_page_mapped/write.c:106-196 | the same for four encoded chunks over a low page on which there is no live chunk, whose counter gives up eight less the chunks written; the precache-offset guard never trips |
| Ftl.Ftl.MapAllSlots | ftl_page_mapped/write.c:76-80 | the loop for a buffer whose slots all hold chunks remaps every one of them |
| Ftl.Ftl.MapHeldSlots | ftl_page_mapped/write.c:85-100 | the loop for a buffer with cleared slots remaps the others and takes the cleared ones off the counter |
| Ftl.Ftl.MapHeldRecycled | ftl_page_mapped/write.c:179-192 | the recycled loop remaps the held slots as encoded and counts them |
| Ftl.Ftl.FlushHot | ftl_page_mapped/write.c:103-197 | a full hot buffer is programmed as it is, first of all, at the log's page and no data changes; the page joins those of its usage, the log moves to the page that is due (in a second usage the low page after it if that tested positively, page 1 after page 0 if none of its chunks is live, else the next high page), or the usage is over with all its pages programmed and a new block is found; that this finishes is, with fuel for 1016 re-entries, equivalent to HotFits of the bank before; buffering changes only with the buffer empty |
| Ftl.Ftl.CanReuseLowPage | ftl_page_mapped/log.c:584-685 | true exactly when no live chunk is on the page; then its list entries are cleared and the counter grows by eight |
| Ftl.Ftl.ReuseCondition | ftl_page_mapped/log.c:330-476 | reuse exactly when the least used-once block is free of live chunks or there are more used-once blocks than the threshold; unless the former holds, the least count is compared with the window's mean, and the threshold is what all comparisons so far have made of it |
| Thresholds.MovesBySevens | ftl_page_mapped/log.c:401-455 | over any run of comparisons from zero counters on, with whatever windows and least counts: the threshold goes up by one exactly at a comparison that completes seven below the mean (or a multiple of seven) with none above between them, unless it is 112, and down exactly at one that completes seven above with none below, unless it is 5 |
| Thresholds.SevenAlike | ftl_page_mapped/log.c:401-455 | such a comparison has seven like it since the last opposite one |
| Progress.ReuseMeans | ftl_page_mapped/log.c:330-476 | in terms of the blocks: reuse exactly when some used-once block has no live chunk or there are more used-once blocks than the threshold, and the one reused has the fewest live chunks of them |
| Ftl.Ftl.OpenHotBlk | ftl_page_mapped/log.c:489-493 | the head of the clean list is opened for a first usage; the pop never fails |
| Ftl.Ftl.OpenUsedBlk | ftl_page_mapped/log.c:512-527 | the used-once block with the fewest live chunks is opened for its second usage; its second-usage counter is its live chunks plus 504, the other two are reset, and its list is the one read back from page 125 |
| Ftl.Ftl.TakeLowPage | ftl_page_mapped/log.c:531-550 | the low page the log stands on is taken up at once exactly when no live chunk is on it, otherwise nothing changes |
| Ftl.Ftl.ReuseHotBlk | ftl_page_mapped/log.c:510-559 | the second usage starts on page 0 exactly when none of its chunks is live, on page 1 exactly when that holds of page 1 only, else on page 2; in four-slot mode exactly on pages 0 and 1; on page 2 the next low page has been tested; no page is programmed yet, the map is unchanged; one used-once block less, no clean block used |
| Ftl.Ftl.StartHigh | ftl_page_mapped/log.c:551-559 | when neither page 0 nor page 1 can be reused, the second usage starts on page 2 with eight slots, page 3 tested |
| Ftl.Ftl.FindNewLpnForHotLog | ftl_page_mapped/log.c:478-581 | clean block while more than two are left, else reuse, on the page ReuseHotBlk says, or the head of the clean list, as the reuse condition says; the comparison it makes, if any, is the only one, and the threshold is what the comparisons have made of it; both logs are ready afterwards, and two blocks are clean again if and only if more than two were, or the reuse condition holds, or the cold side fits the blocks left for it (with fuel for 1016 re-entries); the bound on used-once blocks does not rise |
| Ftl.Ftl.TestNextLowPage | ftl_page_mapped/log.c:781-824 | the low page after a high page is accepted exactly when it is before page 126 and no live chunk is on it |
| Ftl.Ftl.SkipLowPage | ftl_page_mapped/log.c:772-795 | a low page that tested negatively is passed over for the high page after it, on which the next low page is tested |
| Ftl.Ftl.ToLowPage | ftl_page_mapped/log.c:747-798 | from a high page (or page 0): the low page after it exactly if that tested positively, page 1 exactly if none of its chunks is live, in four-slot mode; otherwise the high page after it, in eight-slot mode, with the low page after that one tested; no high page is passed over |
| Ftl.Ftl.ToHighPage | ftl_page_mapped/log.c:800-825 | from a low page to the next high page, back to eight-slot buffering with an empty buffer, and the low page after it tested |
| Ftl.Ftl.IncreaseLpnHotBlkSecondUsage | ftl_page_mapped/log.c:710-830 | until page 126 the page of the same block that ToLowPage or ToHighPage says, with nothing else programmed; then the usage is over, its pages complete, and a new block is found, to the end exactly when HotFits allows it: the closed block's chunks then join the cold side |
| Ftl.Ftl.CloseSecondUsage | ftl_page_mapped/log.c:717-731 | a block after its second usage programs its list on the erased last page and enters the second-usage heap; no data changes; every high page from 2 to 126 was programmed, in order, each once; the bank can then find a block exactly if HotFits held before |
| Ftl.Ftl.CloseFirstUsage | ftl_page_mapped/log.c:839-852 | a block after its first usage programs its list on the erased page 125 and enters the first-usage heap; no data changes; exactly the pages 0, 1, 3, ..., 123 were programmed, in order, each once; the bank can then find a block exactly if HotFits held before |
| Ftl.Ftl.IncreaseLpnHotBlkFirstUsage | ftl_page_mapped/log.c:832-867 | until page 123 the next low page of the same block, with nothing else programmed; then the usage is over, its pages complete, and a new block is found, to the end exactly when HotFits allows it: there is then one used-once block more |
| PageRuns.FirstUsagePages | ftl_page_mapped/log.c:832-866 | a usage that began on page 0 and moved from low page to low page up to 123 programmed exactly pages 0, 1, 3, ..., 123, each once, in increasing order |
| PageRuns.SecondUsagePages | ftl_page_mapped/log.c:710-826 | a usage that began on page 0, 1 or 2 and passed over no high page up to 126 programmed every page 2, 4, ..., 126 once and in increasing order, whatever the reuse tests say |
| PageRuns.TrailMoves | ftl_page_mapped/log.c:710-826 | moving to a next page keeps the record of a usage a run from where it may start |
| Sides.TwoCleanSpacious | ftl_page_mapped/log.c:229-235 | a bank with two clean blocks and an open cold block has a cold side smaller than its blocks can hold: counted block by block |
| Sides.SpaciousLeast | ftl_page_mapped/garbage_collection.c:389-423 | conversely, with one clean block and such a cold side the collector finds a block that is not full of live chunks |
| Sides.ColdAtMost | ftl_page_mapped/ftl_parameters.h:31-32 | the cold side has at most 1016 chunks for each block the collector may choose, eight for each programmed page of the open cold block, and the filled buffer slots |
| Sides.ColdAtLeast | ftl_page_mapped/garbage_collection.c:389-423 | when the least block is full, the cold side has at least 1016 chunks for each block the collector may choose |
| Sides.CollectedLeast | ftl_page_mapped/garbage_collection.c:389-423 | the block that is collected has the fewest live chunks of all twice-used and cold blocks, and that is the least count |
| Sides.BlocksApart | ftl_page_mapped/log.c:61-117 | clean, open, used-once, twice-used and cold blocks together are no more than the blocks of the bank |
| Sides.CollectedHot | ftl_page_mapped/garbage_collection.c:640-658 | erasing a victim takes no chunk across between the hot and the cold side |
| Sides.PutColdSide | ftl_page_mapped/write.c:479-495 | a cold host write adds exactly its chunk to the cold side |
| Sides.RolledDeep | ftl_page_mapped/log.c:211-235 | when the cold log rolls over in the middle of a collection the slack grows by 1016, so a collection that is carried through re-enters with fuel enough for any block that is not full |
| Sides.FlushSlack | ftl_page_mapped/write.c:266-313 | a flush of the cold buffer during a collection takes neither room nor a chunk of the victim |
| Progress.DropNoWorse | ftl_page_mapped/write.c:740-742 | giving up an old copy never raises the least count and never undoes a sure reuse |
| Progress.CloseNoWorse | ftl_page_mapped/log.c:843-851 | neither does a full block that enters its heap |
| HotRoom.ClosedFits | ftl_page_mapped/log.c:717-731 | closing a full hot block: what its counter is worth in its heap, whether the reuse condition then holds, and which chunks join the cold side, said of the bank before |
| HotRoom.ClosedSides | ftl_page_mapped/log.c:839-852 | closing a block moves no chunk to the cold side after a first usage, and exactly the chunks open in it after a second |
| HotRoom.FlushFits | ftl_page_mapped/write.c:53-104 | programming the hot buffer does not change whether the next block can be had |
| HotRoom.PutFits | ftl_page_mapped/write.c:697-875 | nor does the write that fills it, once the old copy is given up and the chunk counted with the open block |
| WriteRuns.SpaciousWrite | ftl_page_mapped/log.c:229-235 | in a run of cold writes, a bank with room for all its chunks has room at every write |
| WriteRuns.RoomyWrite | ftl_page_mapped/write.c:582-601 | in any run of hot and cold writes, a bank with room for all its chunks and as many used-once blocks as the run may bring has room at every write |
| WriteRuns.HotWriteFits | ftl_page_mapped/log.c:478-581 | a hot write to a bank with room for its chunks besides 112 used-once blocks always finds its next block, however many used-once blocks there are |
| BankSteps.UnlinkFlash | ftl_page_mapped/write.c:740-742 | giving up a flash chunk and decrementing the three counters keeps the invariant |
| BankSteps.DropsAllThree | ftl_page_mapped/write.c:740-742 | one live chunk less: each of the three counters of the block goes down by one, in its heap or out of it, and no other counter changes |
| BankSteps.CounterCoversLive | ftl_page_mapped/write.c:740-742 | the owning counter is never decremented at zero |
| BankSteps.CounterWraps | ftl_page_mapped/write.c:740-742 | the first-usage counter of a cold block whose 1016 chunks were overwritten stands at 65528 |
| BankSteps.OutsiderDrops | ftl_page_mapped/heap.c:371-417 | any number of drops on a counter outside its heap: the difference in 16 bits |
| BankSteps.UnlinkBuf | ftl_page_mapped/write.c:800-802 | clearing the slot of an overwritten buffered chunk keeps the invariant |
| BankSteps.UnlinkVictim | ftl_page_mapped/garbage_collection.c:864-869 | taking a found chunk off the victim keeps the invariant and leaves one live chunk less |
| BankSteps.Link | ftl_page_mapped/write.c:479-495 | placing a chunk in the next slot keeps the invariant, also while a collection runs if the cold block has room |
| BankPages.ProgrammedCore | ftl_page_mapped/write.c:70-102 | programming one page from a buffer or from the victim keeps ownership, maps, injectivity, lists and accounts |
| BankLog.FlushKeeps | ftl_page_mapped/write.c:53-104 | a flush keeps the invariant with the log on its next page |
| BankLog.FlushKeepsData | ftl_page_mapped/write.c:70-81 | a flush changes what no chunk reads as |
| BankLog.ReadyPageErased | ftl_page_mapped/write.c:70-70 | the page a flush programs is erased, or is a low page taken up for reuse; no live chunk is on it in either case |
| Nand.ErasedBetween | ftl_page_mapped/write.c:70-70 | between two programs of a page its block is erased, unless the second puts chunks on a low page: high pages, and pages that receive a list, are programmed once between erases, over the whole life of the device |
| Nand.StaysProgrammed | ftl_page_mapped/write.c:70-70 | a page that was programmed does not read as erased until its block is erased |
| BankBlocks.ListPageErased | ftl_page_mapped/log.c:843-849 | the page that receives a full block's list is erased |
| BankBlocks.CloseKeepsCore | ftl_page_mapped/log.c:214-223 | a full block that writes its list and enters its heap keeps the invariant |
| BankBlocks.OpenCleanKeepsCore | ftl_page_mapped/log.c:226-227 | opening the head of the clean list keeps the invariant |
| BankBlocks.ReuseKeepsCore | ftl_page_mapped/log.c:512-527 | moving a used-once block's live count to the second-usage heap and reading its list back from page 125 keeps the invariant |
| BankBlocks.AcceptKeepsCore | ftl_page_mapped/log.c:637-653 | clearing a dead low page's entries and adding eight to the counter keeps the invariant |
| BankGc.LiveBound | ftl_page_mapped/ftl_parameters.h:31-32 | no block ever has more than 1016 live chunks |
| BankGc.StartKeeps | ftl_page_mapped/garbage_collection.c:451-457 | starting on the least block of a heap keeps the invariant |
| BankGc.ScanKeeps | ftl_page_mapped/garbage_collection.c:613-625 | recording a scanned page, or passing over an empty one, keeps the invariant |
| BankGc.PageDoneKeeps | ftl_page_mapped/garbage_collection.c:890-895 | leaving a page whose chunks have all moved keeps the invariant |
| BankGc.AllMoved | ftl_page_mapped/garbage_collection.c:628-636 | after the last page no map entry names the victim and the number of chunks found is the number the heap promised |
| BankGc.FinishKeeps | ftl_page_mapped/garbage_collection.c:650-658 | erasing the collected victim keeps the invariant and all data |
| FtlSteps.PushFits | ftl_page_mapped/cleanList.c:41-52 | a block that is not clean finds a free node in its bank's clean list: the full-list stop is dead |
| BankGc.EmptyVictimKeeps | ftl_page_mapped/garbage_collection.c:459-475 | so does erasing a victim with a zero counter, which is never scanned: no map entry names it |
| BankGc.WholeKeeps | ftl_page_mapped/garbage_collection.c:820-847 | copying a page of eight chunks keeps the invariant and leaves eight live chunks less in the victim |
| BankGc.ColdRollKeeps | ftl_page_mapped/log.c:211-227 | rolling the cold log over in the middle of a collection keeps the invariant: the victim was at the root, stays within the first three positions, and now fits |
| BankHot.CandidatesLeft | ftl_page_mapped/garbage_collection.c:389-423 | with at least 116 blocks and the threshold at most 112, initGC always finds a non-empty heap |
| BankHot.UsedOnceVictim | ftl_page_mapped/log.c:512-514 | the block taken for reuse is at the root of the first-usage heap, so removing it keeps heap order |
| BankHot.HotStep | ftl_page_mapped/log.c:735-825 | moving on within a second usage and switching the buffering while it is empty keep the invariant |
| BankHot.RecycledFlushed | ftl_page_mapped/write.c:162-196 | the recycled flush settles the second-usage counter |
| DeviceSteps.DataKept | ftl_page_mapped/garbage_collection.c:128-290 | a step that keeps one bank's data keeps what every chunk reads as, the other banks and bank affinity |
| DeviceSteps.DataPut | ftl_page_mapped/write.c:479-495 | placing a chunk changes what that chunk reads as and nothing else, and keeps bank affinity |
| DeviceSteps.ChunksApart | ftl_page_mapped/write.c:379-382 | with at least eight banks two chunks of a logical page are in different banks |
| DeviceSteps.RoundRobin | ftl_page_mapped/write.c:379-382 | chunk 0 lives in bank 0, and the chunk after any other, also across pages, in the bank after its bank, or in bank 0 after the last |
| DeviceSteps.FreshInv | ftl_page_mapped/log.c:61-117 | a freshly initialised bank satisfies the invariant |
| ReadPath.PageReader.RebuildPage | ftl_page_mapped/read.c:74-140 | for any map: if no requested chunk is the only one of an encoded page and past its first slot, every requested chunk of the buffer holds what it reads as and nothing else changed; the place of the last such chunk is as it was; the encoded read stops exactly when more than three requested chunks share an encoded page; when no two requested chunks share a flash page, FTL_BUF(0), the page of COPY_BUF before it and TEMP_BUF are exactly as after reading one chunk after the other |
| ReadPath.EncodedFetchRight | ftl_page_mapped/read.c:343-358 | the place of the chunk gets the chunk, whatever DRAM held, if and only if the chunk is the first of its encoded page |
| ReadPath.EncodedFetchWrong | ftl_page_mapped/read.c:343-358 | for every other slot, a page and a DRAM for which it does not |
| ReadPath.PageReader.ReadOneChunkEncoded | ftl_page_mapped/read.c:343-358 | DRAM afterwards, by the two buffer addresses of the copy |
| ReadPath.PageReader.ReadChunk | ftl_page_mapped/read.c:81-134 | one chunk, with the mates read along with it, gets what it reads as, unless it is fetched alone from an encoded page past its first slot: then its place and all after it are as they were; a chunk without mates leaves DRAM exactly as one single read does |
| ReadPath.PageReader.ChunkInFlashLog | ftl_page_mapped/read.c:142-164 | whole page or single chunk: the chunks marked done hold what they read as, except one fetched alone from an encoded page past its first slot; in an encoded page all mates are done together |
| ReadPath.PageReader.SetupFlashPageRead | ftl_page_mapped/read.c:232-283 | collects exactly the later chunks, not done, in the same flash page |
| ReadPath.PageReader.ReadCompletePage | ftl_page_mapped/read.c:321-341 | every collected chunk gets its slot of the page, no other changes |
| ReadPath.NeverCrowded | ftl_page_mapped/read.c:216-220 | on a consistent device of at least eight banks the "more than 3 valid chunks" stop is unreachable |
| ReadPath.FarIsStray | ftl_page_mapped/read.c:212-229 | on a device of at least eight banks every chunk of an encoded page is fetched alone |
| ReadPath.SparedRead | ftl_page_mapped/read.c:343-358 | of chunks read one by one, each comes back if it is not in a far slot and no far chunk after it is put in its place |
| ReadPath.NotSparedRead | ftl_page_mapped/read.c:343-358 | the place of any other gets the head of TEMP_BUF when the last far chunk that lies its own slot number of chunks after it is read, or else stays as it was |
| ReadPath.PageReader.CopyToHost | ftl_page_mapped/read.c:390-393 | exactly the requested sectors of the read buffer get those of the rebuilt page |
| ReadPath.ReadFromLogBlk | ftl_page_mapped/read.c:383-396 | a requested sector is what was last written whenever its chunk is spared, so all of them are with no requested chunk past the first slot of an encoded page; the sectors of the last such chunk are what its place held before; no other sector of the read buffer changes; FTL_BUF(0), the page before it and TEMP_BUF are exactly as after reading the chunks in turn |
| IndexedHeap.IndexedHeap.constructor | ftl_page_mapped/heap.c:636-667 | builds the empty heap with every block at its initial counter |
| IndexedHeap.IndexedHeap.Swap | ftl_page_mapped/heap.c:26-52 | exchanges two elements and keeps the position index inverse |
| IndexedHeap.IndexedHeap.BubbleDown | ftl_page_mapped/heap.c:119-185 | sifts as the value-level operation does, ends, and never leaves 16-bit indices |
| IndexedHeap.IndexedHeap.SiftDown | ftl_page_mapped/heap.c:129-183 | one turn swaps with the smaller child (the second on a tie) or stops |
| IndexedHeap.IndexedHeap.BubbleUp | ftl_page_mapped/heap.c:187-229 | sifts up as the value-level operation does, and ends |
| IndexedHeap.IndexedHeap.IncrementValidChunksByN | ftl_page_mapped/heap.c:266-300 | adds to one counter in 16 bits and sifts |
| IndexedHeap.IndexedHeap.DecrementValidChunksByN | ftl_page_mapped/heap.c:321-417 | subtracts from one counter in 16 bits and sifts |
| IndexedHeap.IndexedHeap.DecrementValidChunksAllByN | ftl_page_mapped/heap.c:302-319 | subtracts from every present counter, down to zero |
| IndexedHeap.IndexedHeap.SetValidChunks | ftl_page_mapped/heap.c:419-458 | sets one counter in place, as Heap.SetMeaning describes |
| IndexedHeap.IndexedHeap.ResetValidChunksAndRemove | ftl_page_mapped/heap.c:460-505 | resets a counter and takes the block out if it was in |
| IndexedHeap.IndexedHeap.InsertBlkInHeap | ftl_page_mapped/heap.c:507-566 | brings a block in, as far as the heap is not full |
| IndexedHeap.IndexedHeap.GetVictim | ftl_page_mapped/heap.c:568-590 | a present block with the least counter |
| IndexedHeap.IndexedHeap.GetVictimValidPagesNumber | ftl_page_mapped/heap.c:592-615 | that block's counter, or INVALID for an empty heap |
| Heap.DecrementMeaning | ftl_page_mapped/heap.c:371-417 | only that counter changes, presence does not, order is kept when it does not wrap |
| Heap.IncrementMeaning | ftl_page_mapped/heap.c:266-300 | only that counter changes, presence does not, order is kept when it does not wrap |
| Heap.DecrementAllMeaning | ftl_page_mapped/heap.c:302-319 | the saturating decrement keeps order without sifting |
| Heap.SetMeaning | ftl_page_mapped/heap.c:419-458 | only that counter changes, presence does not, and the order is kept for a block outside the heap |
| Heap.InsertMeaning | ftl_page_mapped/heap.c:507-566 | the block is present, no counter changes, order is kept |
| Heap.InsertBrings | ftl_page_mapped/heap.c:507-566 | no counter changes and exactly one block enters: the one named, or, if that one was in already, the first one outside |
| Heap.RemoveMeaning | ftl_page_mapped/heap.c:460-505 | the block is absent with its counter reset; no other block changes |
| Heap.RemoveKeepsOrderExactly | ftl_page_mapped/heap.c:497-504 | removing keeps order if and only if the removed slot is last or its parent is at most the moved element |
| Heap.RemoveNearRootKeepsOrder | ftl_page_mapped/heap.c:497-504 | so it always does at positions 1, 2 and 3 |
| Heap.RemoveCanBreakOrder | ftl_page_mapped/heap.c:497-504 | a heap and a block for which it does not |
| Heap.BubbleUpOrders | ftl_page_mapped/heap.c:187-229 | sifting up restores order broken only at the given position |
| Heap.BubbleDownOrders | ftl_page_mapped/heap.c:119-185 | sifting down restores order broken only below the given position |
| Heap.DownTakesRight | ftl_page_mapped/heap.c:129-183 | sifting down puts the smaller child in the place of a larger element, the second one on a tie, and leaves an element not larger than either |
| Heap.UpPassesLarger | ftl_page_mapped/heap.c:187-229 | sifting up moves a larger parent down and leaves an equal one |
| Heap.VictimIsLeast | ftl_page_mapped/heap.c:568-615 | the victim is present and no present counter is smaller |
| Heap.InsertLeavesRootNear | ftl_page_mapped/heap.c:507-566 | one insertion moves the root at most to position 2 or 3 |
| CleanList.CleanList.constructor | ftl_page_mapped/cleanList.c:11-39 | every bank's queue is empty and all its nodes are unused |
| CleanList.CleanList.Push | ftl_page_mapped/cleanList.c:41-84 | appends to the bank's queue, or reports full exactly when all its nodes are in use; other queues are untouched |
| CleanList.CleanList.Pop | ftl_page_mapped/cleanList.c:86-124 | takes the head, or reports empty; other queues are untouched |
| CleanList.CleanList.Queue | ftl_page_mapped/cleanList.h:6-6 | the size word is the length of the queue, at most the bank's nodes |
| CleanList.CleanList.Run | ftl_page_mapped/cleanList.c:41-124 | any run of pushes and pops does what it does to the abstract queue |
| CleanList.FirstInFirstOut | ftl_page_mapped/cleanList.c:41-124 | over any run, elements come out in the order they went in, none lost or invented |
| CleanList.NoneTurnedAway | ftl_page_mapped/cleanList.c:41-124 | after any run, a push is accepted exactly when the elements accepted and not yet popped do not fill the list, and a pop brings one exactly when there is one |
| CleanList.PushThreads | ftl_page_mapped/cleanList.c:54-83 | queue nodes and unused nodes still partition the bank's pool after a push |
| CleanList.PopThreads | ftl_page_mapped/cleanList.c:99-121 | and after a pop |
| AddressCodec.RoundTrip | ftl_page_mapped/ftl_parameters.h:232-252 | below 2^31 chunks, packing then classifying and unpacking returns every place, and only Invalid is packed as INVALID |
| AddressCodec.Distinct | ftl_page_mapped/log.c:899-924 | different places have different addresses |
| AddressCodec.AddressesInOrder | ftl_page_mapped/ftl_parameters.h:232-252 | addresses start at 0 and run through chunks, pages, blocks and banks in order; the hot buffer of a bank has the addresses of the last list page; the flag is what tells encoded chunks and the cold buffer from plain ones and the hot buffer |
| AddressCodec.RoomIsNeeded | ftl_page_mapped/ftl_parameters.h:232-235 | every place of a device is packed without loss if and only if the device has less than 2^31 chunks |
| AddressCodec.LastHotSlotLost | ftl_page_mapped/ftl_parameters.h:232-252 | above that, the last slot of the last hot buffer is taken for something else |
| AddressCodec.LastColdSlotLost | ftl_page_mapped/ftl_parameters.h:232-252 | with exactly 2^31 chunks, the last slot of the last cold buffer is packed as INVALID |
| AddressCodec.SearchByAddress | ftl_page_mapped/garbage_collection.c:548-590 | comparing addresses of mapped chunks is comparing their places |
| AddressCodec.EntryRoundTrip | ftl_page_mapped/write.c:170-190 | list entries, plain or flagged, are recovered, and setting the flag marks a listed chunk as encoded but leaves an emptied slot empty |
| AddressCodec.FlagVanishes | ftl_page_mapped/dram_layout.h:85-85 | a flagged lpn addresses the same row of the map in 32-bit arithmetic |
| AddressCodec.MapEntriesApart | ftl_page_mapped/dram_layout.h:85-85 | up to 2^27 pages every chunk has a map entry of its own, four bytes after that of the chunk before it |
| RequestSplit.Requests.FtlWrite | ftl_page_mapped/ftl.c:1257-1328 | for any 32-bit length: the pieces tile the range in order if and only if the first offset and the length do not wrap or the request is chunk aligned at its start; then each is non-empty and inside one chunk, exactly one chunk for an aligned request; they go to their home banks exactly when the first call does not straddle a chunk boundary, and then the bank of each piece is its chunk's number modulo the banks; the buffer id stays below the number of buffers, and it is behind the pages handled by whole rounds; hot exactly below 128 sectors |
| RequestSplit.Requests.FtlRead | ftl_page_mapped/ftl.c:1133-1152 | for any 32-bit length: the pieces tile the range and each takes one read buffer, of which the id is one, with whole rounds between it and the pieces; they are one for each page, from where the request or the page starts to where one of them ends, exactly when the first offset and the length do not wrap, else a single one |
| RequestSplit.Requests.WriteToLogBlk | ftl_page_mapped/write.c:673-701 | the pieces of one call tile it, all of them in the bank of the chunk the call starts in, chunk number modulo the banks; so all go home exactly when the call stays in its chunk |
| RequestSplit.BufferIdRounds | ftl_page_mapped/ftl.c:1318-1318 | a buffer id is below the number of buffers and whole rounds behind the pages, so every buffer comes round again |
| RequestSplit.PagesCounted | ftl_page_mapped/ftl.c:1295-1328 | the pages of a request are those its sectors lie in |
| RequestSplit.NextCall | ftl_page_mapped/ftl.c:1297-1311 | a call is non-empty, stays in the page, asks for at most eight sectors, and is shorter only at the end of the page or of the request |
| RequestSplit.TilesCover | ftl_page_mapped/ftl.c:1295-1322 | tiling pieces contain every sector of the range exactly once and no other |
| HostRequests.HostWrite | ftl_page_mapped/ftl.c:1257-1328 | a chunk-aligned host write: the first n chunks of the range read as the new data, nothing else changes, and n is all of them unless a bank ran short of clean blocks with its cold side filling the blocks left for it, which does not happen to cold or hot data in banks with room |
| HostRequests.HostRead | ftl_page_mapped/ftl.c:1133-1152 | a host read returns the requested sectors in order, each as last written if its chunk is spared, all of them if none is past the first slot of an encoded page; a sector of the last such chunk of a page comes back as what its place in FTL_BUF(0) held: in the first page what was there before the request, later the chunk at the same place of the page before |
| HostRequests.WritesOverlay | ftl_page_mapped/ftl.c:1295-1322 | writing a request's chunks in order lays the data over exactly its range |
| Dram.StrideInjective | target_spw/mem_util.c:680-711 | the 128 to 132 byte stride is injective and increasing on words and stays inside 64 MB |
| Dram.StrideSkips | target_spw/mem_util.c:680-711 | data starts where memory does, and the next word follows at once, or after the four bytes of error correction that come after every 128 bytes |
| Dram.Dram.WriteDram32 | target_spw/mem_util.c:475-510 | exactly the four named bytes change |
| Dram.Dram.WriteDram16 | target_spw/mem_util.c:512-536 | exactly the two named bytes change, as far as they are in one word |
| Dram.Dram.WriteDram8 | target_spw/mem_util.c:538-562 | exactly the named byte changes |
| Dram.Dram.ReadDram32 | target_spw/mem_util.c:680-711 | returns the four bytes at the address |
| Dram.Dram.ReadDram16 | target_spw/mem_util.c:655-678 | returns the two bytes at the address, as far as they are in one word |
| Dram.Dram.ReadDram8 | target_spw/mem_util.c:630-653 | returns the byte at the address |
| Dram.Dram.SetBitDram | target_spw/mem_util.c:564-584 | exactly the named bit is set |
| Dram.Dram.ClrBitDram | target_spw/mem_util.c:586-606 | exactly the named bit is cleared |
| Dram.Dram.TstBitDram | target_spw/mem_util.c:608-628 | the result is not zero exactly when the bit is set |

## Left out

- Ftl.Ftl.GarbageCollectLog: `fuel` bounds how deep the collector's re-entries nest, because on a full bank they need not end; `done` is false when it runs out, and data and invariant are claimed in that case too. From 1016 on the fuel no longer matters to whether a host write finishes.
- Ftl.Ftl.Write: with fuel for fewer than 1016 re-entries the condition for a hot write is necessary, and what is shown to be sufficient is that the least block fits the open cold block.
- Ftl.Ftl.Run: for single writes the conditions are exact, for whole runs sufficient: they ask for room for all chunks of the run at once.
- Ftl.Ftl.ReuseCondition: the floating-point mean is compared exactly; only the sign of the comparison matters.
- Ftl.Ftl.DropOld: the statement that lowers the collector's expected count is dead, since no collection is under way between host commands.
- Ftl: heaps and clean lists are updated as values inside each bank record rather than in place; `IndexedHeap` and `CleanList` are the in-place versions. Buffer slots of a finished recycled flush keep their plain lpns instead of flagged ones; they are never read again.
- Heap and clean-list array layout in DRAM, and several banks per heap structure: one object per bank and heap kind.
- Dram: the memory utility's copy engine is taken to write one word at the mapped address; 32-bit accesses are word aligned, as the debug build checks.
- RequestSplit.Requests.FtlRead: `lba` is the address after the overwrite bit is masked off, as `ftl_read` does (`ftl_page_mapped/ftl.c:1141-1142`). `ftl_write` does not mask it (`ftl_page_mapped/ftl.c:1267-1268`), so a read and a write of the same host address meet only below the mask.
- HostRequests.HostRead: likewise; of the chunks that are not spared it says what comes back for the last one past the first slot of a page only. What the others bring is said for one page by `ReadPath.ReadFromLogBlk` with `ReadPath.NotSparedRead`.
- Ftl.Ftl.WritePage: of a page copied whole to the last page of the cold block only the program is stated, as the first operation on flash, not the map afterwards: the new block makes the collector re-enter, and it may collect the old one. The same holds of chunks moved one by one.
- HostRequests.HostWrite: requests that are not chunk aligned, which merge parts of chunks, are not carried out on the device.
- Encoding and decoding of recycled pages: stubs in the source (`ftl_page_mapped/write.c:154`, `ftl_page_mapped/read.c:357`); an encoded page stores its chunks as they are.
- ReadPath.PageReader.ReadOneChunkEncoded: of the 21 sectors read into TEMP_BUF only the eight of the chunk are kept; the others are never copied anywhere.
- Trim, sub-chunk rewrites of buffered or encoded chunks, partial-chunk merges from flash.
- writeCompletePage and getLpnForCompletePage, which `ftl_write` never reaches.
- copyReuseBufToColdBuf, DRAM absorb, AlwaysReuse, cold-block reuse, collector-mode reads, readPageSingleStep, background cleaning: disabled or unused.
- Precaching, statistics, timing and wear; bad-block scan and the physical block table, taken to be injective.
- Host and flash controller registers, interrupts, serial port.
