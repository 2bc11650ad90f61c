# A model of the key-value FTL

This project models the hard core of a kernel-level emulator of a hash-based key-value SSD, in the
build that packs mappings into two-level tables (`ORIGINAL` undefined: 64 grains per page, 480
mappings per table section, 8 per leaf, 60 leaves). What the C code updates in place is a class or
an array here, changed by methods whose contracts speak of a map, a list or a ledger; address
arithmetic is functions; the eviction protocol is a state machine over its atomic steps. Every
method that changes state is proved to keep the invariant of its class, so each property below holds
in every state that any sequence of calls can reach. Four methods keep it under an if-and-only-if that
their contracts state, because the code does: `Ftl.Shard.Collect` and `Ftl.Shard.Erase` (no mapping left
into the erased line), `Device.KvSsd.Delete` (no other key behind the emptied slot) and
`ChannelModel.Channel.MoveTo` (no slots missed that are in use). A run over them stops where it fails.

| file | what it models |
|---|---|
| `TwoLevelSplit`, `TwoLevelTable` | the mapping table of a section: separators, leaves, reload, bulk insert, growth |
| `Directory` | all sections: the mapping table of the FTL as the union of their tables |
| `Geometry`, `FtlGeometry` | page order in a line, page numbers, LUN groups, the order in which a collection visits pages |
| `FlashLine` | pairs packed into a line, the OOB words that describe them, the page scan of a collection, grain counters |
| `InvalidLog` | the per-line log of invalid mappings and how it is read back |
| `FtlLine`, `Ftl`, `StaleLog` | store, delete and garbage collection of data lines over all lines, for pairs of any length; a run that loses a key to an unread log |
| `Hashing`, `Device`, `Assembly` | quadratic probing, and the whole device as a map from keys to values |
| `Eviction` | the demand cache: collector, evictor, loads, updates and expansions in any interleaving |
| `ChannelModel`, `NandTiming` | the credit ring of a channel against an unbounded ledger; LUN serialisation on top of it |
| `VictimHeap`, `LineLife`, `Writers` | the victim queue with position back-pointers, the life cycle of lines around it, and the write pointers that drive it |
| `WorkQueue`, `LruList` | the index-linked I/O queue and the pointer-linked recency list |
| `Types`, `Arith`, `Lists` | shared constants, products and remainders, lists without repetition |

The main results:

- `Device.KvSsd.Run`: over any run of stores, retrieves, deletes and collections, with lines going back
  and forth to mapping pages, the device answers every command as a map from keys to values does, up to
  the command that the run stops at. Presence is read from the mapping table and lengths from OOB, so it
  is the invariant of the FTL, kept by every collection, that keeps the answers. A run stops early only
  for want of a free line, of room for a long pair or of a slot for a key, after a collection that lost a
  pair, or after a delete that cut a key off; the exact conditions are below. `Assembly` builds that device
  on the real geometry, with the page order of the real collection.
- `Ftl.Shard.Collect` with `FtlLine.LogIsExact`: a collection succeeds exactly if every pair that it has
  to move has a place; where each of them goes, what the log gets back and where the frontier stands after
  it is determined (`Ftl.Shard.CleanPages`), and the victim is erased and freed. For a victim with any
  log, the mappings that still point into the erased line are exactly those whose word is in the log as
  it is read back, and the invariant survives exactly if there are none. A word is convicted wrongly only
  if it was left over from an earlier life of the line (`Ftl.OnlyLeftOvers`).
- `TwoLevelTable.Section.Run`: any run of stores, deletes and lookups in a section answers as a plain
  map; reload never overflows a leaf, the table never outgrows its page, and it has exactly the leaves for
  the most keys that it ever held. `Directory.Mapper.Run`: over any run of the FTL its mapping table is
  the union of the tables of the sections.
- `Eviction.RunsKeep` and the lemmas on its invariant: in every interleaving each cached section is in
  one place, the evictor never runs past its victims, the cache counter is exact, and a section that is
  not in memory is on flash with every update that was ever made to it (`Eviction.NoLostUpdate`).
- `Writers.Manager.Run`: over any run of page allocations, pairs, invalidations and collections every
  line is in exactly one place, and no data line leaves its write pointer without invalid grains.
  `Ftl.ClosingLineHasInvalid` says the same of the lines with their pairs. The counters are exact: every
  pair is counted once, on one line (`Writers.PairIsCounted`, `Writers.RunIsCounted`).
- `ChannelModel.Channel.Request`: the ring shows the ledger, each request takes exactly its credits,
  ends in the first slot that can give them, and is late by exactly the slots that it had to wait for.

## Where the code does not do what one would expect

- The invalid-mapping log of a line is read back only if the line still has valid grains, so a line that
  was deleted empty keeps its words over the erase. `StaleLog.LoseKey` is a run of stores, a delete and
  collections of keys and values on an empty device, each collection of a line with least valid grains,
  whose last one erases a line that the table still maps a stored key into (`Assembly.LoseOnFlash` from a
  formatted device on a concrete geometry). `Ftl.Shard.Collect` has the exact condition: a mapping
  is lost if and only if its word is in the log as read back, which a caller can look up before.
- A pair that does not fit its LUN group goes to the start of the next one, and there is no second look if
  it fits there. A longer one runs on into further groups, and past the end of the line an assertion stops
  the source. `Ftl.MisfitSpot` is the exact condition on which such a pair is stored,
  `Assembly.LongPairStops` a first store of a formatted device on which the assertion fires, and
  `Assembly.LongestPair` says when it does for the longest value that MDTS lets through on the default
  geometry. Pairs of up to a group less 128 grains are never stopped by it (`Ftl.ShortSpot`).
- A word that a collection records a second time is meant to cancel out at the next reading. It does
  on flushed pages but not in the buffer: `InvalidLog.DuplicateInBuffer`, `InvalidLog.DrainedIff`.
- A full delete leaves no tombstone. `Hashing.DeleteLosesKey` gives two keys of which one is lost;
  `Hashing.DeleteHoldsIff` says when none is: exactly if the emptied slot was on the way of no other key.
- `ppa_to_struct` reduces the channel modulo the pages of a channel; `Geometry.RoundTripIff` gives the
  exact geometries on which page numbers and addresses are inverse.
- `init_cache` allocates too few table sections for some capacities: `Hashing.SectionsSuffice`.
- The head of the credit ring is moved by a number of slots computed in 32 bits;
  `ChannelModel.MoveIsRightIff` says exactly when that number is right, and `ChannelModel.MoveShowsIff`
  exactly when the ring shows the ledger after the move.
- `mark_grain_valid` raises the priority of a queued line without telling the queue. `VictimHeap.RaiseBreaks`
  is an input on which that breaks the order, `Writers.BrokenOrder` a run of mapping pages that gets there
  on one-shot pages of eight pages and two LUNs, and `VictimHeap.RaisedIff` the exact condition under
  which the order survives (on `LineLife.Lines.MarkValid` too). Positions (`Valid`) survive always, and a victim is least while the queue is in order.
- A full line whose first invalidation comes before its last page is marked valid stays on the full list
  for good: `Writers.StuckLine` is a run that gets there on the same geometry, every method of
  `LineLife.Lines` keeps it there, and so does every run (`Writers.Manager.Run`).
- `was_full_line` is not reset between the pages of one invalidation. It is never set when a second page
  begins (`LineLife.Lines.MarkInvalid`), because data lines are never full and mapping pages do not span
  pages.

## Model

| member | source | states |
|---|---|---|
| `TwoLevelSplit.NewRoots` | nvmevirt/twolevel.c:57-88 | the separators are the last keys of an even cut of the sorted keys, and the last separator admits every key |
| `TwoLevelSplit.LeafSizeBound` | nvmevirt/twolevel.c:57-88 | n keys cut over c leaves give no leaf more than IN_LEAF keys if n is at most c times IN_LEAF |
| `TwoLevelSplit.SeparatorsSendHome` | nvmevirt/twolevel.c:181-195 | the search over the new separators sends every key to the leaf it was cut into |
| `TwoLevelSplit.HomeUnique` | nvmevirt/twolevel.c:202-213 | a key has at most one home under sorted separators |
| `TwoLevelSplit.SortByHidxAscending` | nvmevirt/twolevel.c:175 | the sort used by reload and bulk insert is ascending |
| `TwoLevelTable.InPage` | nvmevirt/twolevel.c:307-309 | every slot of root and leaves lies inside the page |
| `TwoLevelTable.Locate` | nvmevirt/twolevel.c:252 | the byte position reported by a find names the slot of that mapping |
| `TwoLevelTable.LocateForDelete` | nvmevirt/twolevel.c:236-239 | the slot that a delete computes from whole grains and the size of the root is the slot the position was taken from |
| `TwoLevelTable.CloseGap` | nvmevirt/twolevel.c:242-248 | a delete moves the later slots of the leaf down and empties the last |
| `TwoLevelTable.Table.constructor` | nvmevirt/twolevel.c:15-35 | a fresh table has two leaves, no separator set, and stands for the empty map |
| `TwoLevelTable.Table.LowerBound` | nvmevirt/twolevel.c:202-213 | the binary search returns the home of the key |
| `TwoLevelTable.Table.Find` | nvmevirt/twolevel.c:285-320 | the latest undeleted grain and its byte position, otherwise UINT_MAX |
| `TwoLevelTable.Table.Overwrite` | nvmevirt/twolevel.c:252-253 | writing at a byte position changes the mapping of that key, in its slot, and no other slot |
| `TwoLevelTable.Table.Delete` | nvmevirt/twolevel.c:233-250 | deleting at a byte position removes that key; the later slots of its leaf close up and nothing else moves |
| `TwoLevelTable.Table.Insert` | nvmevirt/twolevel.c:256-283 | inserting a new key adds exactly that mapping: behind the entries of its home, or by a reload if and only if that is full; a full leaf is never met during a reload |
| `TwoLevelTable.Table.Gather` | nvmevirt/twolevel.c:152-167 | the first loop of a reload reads out exactly the mappings of the table and empties it |
| `TwoLevelTable.Table.Collect` | nvmevirt/twolevel.c:169-176 | the entries of a reload are the mappings, with the new one if any, strictly ascending |
| `TwoLevelTable.Table.Reload` | nvmevirt/twolevel.c:137-200 | a reload keeps the map, with one more mapping unless the key is UINT_MAX; the leaves are then the even cut of the sorted mappings, in order, and the separators are its own |
| `TwoLevelTable.Table.Reinsert` | nvmevirt/twolevel.c:190-197 | reinserting the sorted entries under the new separators moves no separator and puts every entry into the leaf that it was cut into, within its eight slots |
| `TwoLevelTable.Table.BulkInsert` | nvmevirt/twolevel.c:90-135 | a bulk insert of distinct unsorted entries, none with hash index 0, yields a valid table of exactly those entries in an even cut, with the count that the caller adds |
| `TwoLevelTable.Table.BulkFill` | nvmevirt/twolevel.c:105-132 | walking entries and separators together puts every entry in its home |
| `TwoLevelTable.Room` | nvmevirt/twolevel.c:193-195 | during a reload the next key always finds room in its home |
| `TwoLevelTable.Capacity` | nvmevirt/twolevel.c:230 | a table holds at most eight mappings per leaf in use |
| `TwoLevelTable.MissingKeyLeavesRoom` | nvmevirt/demand_ftl.c:3919-3928 | a section that misses one of its 480 indexes is not full, so `__update_map` never grows past 60 leaves |
| `TwoLevelTable.Section.UpdateMap` | nvmevirt/demand_ftl.c:3903-3959 | the table after `__update_map` stands for the updated map; it has one leaf more if and only if the key is new and all leaves were full, is rebuilt before the insert then, and still fits a page |
| `TwoLevelTable.Section.Step` | nvmevirt/demand_ftl.c:3903-3959 | find then update is a store, a delete or a lookup of the map, at the place that the find reports |
| `TwoLevelTable.Section.Run` | nvmevirt/twolevel.c:15-320 | any run answers as a map, `cached_cnt` is the number of keys, and the table has exactly the leaves for the most keys that it ever held, two at least |
| `Directory.UnionStep` | nvmevirt/cache.c:178-195 | an operation on the section of an index is that operation on the union of all sections |
| `Directory.Sections.constructor` | nvmevirt/cache.c:18-60 | all sections, with nothing mapped and nothing shared |
| `Directory.Sections.Do` | nvmevirt/cache.c:178-195 | a store, delete or lookup in the section of its index is one on the union |
| `Directory.Mapper.constructor` | nvmevirt/cache.c:18-60 | a formatted device and empty sections agree |
| `Directory.Mapper.Follow` | nvmevirt/demand_ftl.c:2582-2601 | moved and added mappings are updated section by section until the union is the mapping table |
| `Directory.Mapper.CatchUp` | nvmevirt/demand_ftl.c:4846-4858 | a removed mapping is dropped from its section as well |
| `Directory.Mapper.Advance` | nvmevirt/demand_ftl.c:5129-5890 | a step of the FTL adds indexes of existing sections only, and removes at most the one that was deleted |
| `Directory.Mapper.Step` | nvmevirt/demand_ftl.c:3903-3959 | after each step of the FTL, which does what it is specified to do, its mapping table is the union of the sections |
| `Directory.Mapper.Run` | nvmevirt/demand_ftl.c:3903-3959 | over any run the mapping table is the union of the section tables, each step of the FTL does what it is specified to do, and the lengths are those of a plain map of the run; it stops early only where the run of the FTL does |
| `Geometry.PosOfAt` | nvmevirt/demand_ftl.c:718-773 | the page at a position of a line has that position |
| `Geometry.AtOfPos` | nvmevirt/demand_ftl.c:718-773 | every page of a line is the page at its position |
| `Geometry.NextIsNext` | nvmevirt/demand_ftl.c:621-652 | a step goes to the next mixed-radix position (wordline, LUN, channel, page) and from the last to the first page of the next line |
| `Geometry.WalkEnumerates` | nvmevirt/demand_ftl.c:621-652 | iterating from the first page visits the pages of a line by position, all of them once, and then leaves the line |
| `Geometry.WritePointer.Advance` | nvmevirt/demand_ftl.c:718-826 | the write pointer moves like `peek_next_page` and closes the line exactly at its last page |
| `Geometry.IndexConsecutive` | nvmevirt/demand_ftl.c:418-436 | pages are numbered from 0 on, block by block, LUN by LUN and channel by channel, the first page of each right behind the last of the one before |
| `Geometry.IndexRoundTrip` | nvmevirt/demand_ftl.c:418-436 | page numbers are below the number of pages, and give the address back but for the channel modulo the pages per channel |
| `Geometry.RoundTripIff` | nvmevirt/demand_ftl.c:1291-1311 | page numbers and addresses are inverse on the whole device if and only if there are no more channels than pages per channel |
| `Geometry.GroupOfPos` | nvmevirt/demand_ftl.c:670-715 | a line is a sequence of LUN groups of equal size |
| `Geometry.NextInGroup` | nvmevirt/demand_ftl.c:684-700 | with two LUNs or more a step changes the LUN exactly after the last page of a group |
| `Geometry.EnoughSpace` | nvmevirt/demand_ftl.c:670-715 | accepts a nonempty extent exactly if it ends before the last page of its group; otherwise reports the bytes that fit |
| `Geometry.RunsAreConsecutive` | nvmevirt/demand_ftl.c:1426-1555 | the runs of an extent are consecutive in its line, page by page |
| `Geometry.StoreRuns` | nvmevirt/demand_ftl.c:5785-5834 | the byte-counting store loop marks exactly the runs that an invalidation of the same grains visits |
| `FtlGeometry.GrainRoundTrip` | nvmevirt/demand_ftl.c:1313-1320 | a grain number determines its line and its position in it, and stays below 2^31 |
| `FtlGeometry.NumberingOk` | nvmevirt/demand_ftl.c:418-436 | the numbering of a usable geometry is one that the FTL model accepts |
| `FtlGeometry.SpaceIsFits` | nvmevirt/demand_ftl.c:670-715 | the space test of the FTL model is `enough_space_in_line` |
| `FtlGeometry.VisitOrder` | nvmevirt/demand_ftl.c:3442-3485 | the nested loops of a collection list the positions of its pages in their order |
| `FtlGeometry.VisitedNext` | nvmevirt/demand_ftl.c:3442-3485 | the page visited next is the next of the flash page, then the same flash page of the next LUN, of the next channel, and then the next flash page |
| `FtlGeometry.OrderCovers` | nvmevirt/demand_ftl.c:3442-3485 | a collection visits every page of its line exactly once |
| `FlashLine.HeaderRoundTrip` | nvmevirt/demand_ftl.c:2212-2218 | an OOB header gives back hash index and length |
| `FlashLine.WriteOob` | nvmevirt/demand_ftl.c:5838-5878 | writes the header and on every further page the grains that belong to the pair, and touches no earlier word |
| `FlashLine.Sees` | nvmevirt/demand_ftl.c:2892-2924 | at each grain the scan sees a header exactly where a pair starts, otherwise how far to skip |
| `FlashLine.ScanPage` | nvmevirt/demand_ftl.c:2892-2924 | the scan of a page finds the header of each pair that starts on it, once and in order, and nothing else |
| `FlashLine.MarkGrainValid` | nvmevirt/demand_ftl.c:1322-1393 | adds the grains to the valid count of the line |
| `FlashLine.MarkGrainInvalid` | nvmevirt/demand_ftl.c:1413-1556 | moves the grains from valid to invalid and counts them on their pages, never past 64; valid plus invalid stay the grains marked valid since the erase |
| `InvalidLog.Record` | nvmevirt/demand_ftl.c:1609-1740 | appends the mapping to the log and loses none; only a full buffer is flushed |
| `InvalidLog.PackedIs` | nvmevirt/demand_ftl.c:1609-1740 | what is on which flushed page and what in the buffer follows from the entries alone |
| `InvalidLog.MarkedGrain` | nvmevirt/demand_ftl.c:1949-1963 | an entry is taken for the marker of a partial delete exactly if its grain needs the 32nd bit |
| `InvalidLog.Drain` | nvmevirt/demand_ftl.c:1890-2093 | reads the pages and the buffer back as the specified fold and leaves the log empty |
| `InvalidLog.DrainExact` | nvmevirt/demand_ftl.c:1890-2093 | distinct entries without markers are read back exactly, each once |
| `InvalidLog.BufferFoldComplete` | nvmevirt/demand_ftl.c:2036-2086 | a buffer is read back completely if and only if no entry after the first looks like a marker |
| `InvalidLog.DrainedIff` | nvmevirt/demand_ftl.c:1890-2093 | what any log without markers convicts: the words that its flushed pages hold an odd number of times, and those in its buffer |
| `InvalidLog.DrainedOnce` | nvmevirt/demand_ftl.c:1890-2093 | a word recorded at most once is convicted exactly if it was recorded |
| `InvalidLog.DuplicateInBuffer` | nvmevirt/demand_ftl.c:3085-3109 | a word recorded twice cancels out on flushed pages but not in the buffer |
| `FtlLine.PutOnLine` | nvmevirt/demand_ftl.c:5785-5878 | a pair written at the fill point is counted valid and described in OOB |
| `FtlLine.ClearOnLine` | nvmevirt/demand_ftl.c:828-876 | cleared grains are counted valid and at once invalid, and get filler words |
| `FtlLine.LineKill` | nvmevirt/demand_ftl.c:5552-5674 | invalidating a pair takes exactly its word out of the valid ones |
| `FtlLine.LineRecord` | nvmevirt/demand_ftl.c:3930-3942 | logging a pair takes exactly its word out of the live ones |
| `FtlLine.LinePlaced` | nvmevirt/demand_ftl.c:5785-5878 | a new pair adds exactly its word on both sides |
| `FtlLine.LineCleared` | nvmevirt/demand_ftl.c:828-876 | clearing changes no word |
| `FtlLine.ValidIsLive` | nvmevirt/demand_ftl.c:1322-1556 | the valid grains of a line are the grains of the pairs on it that the table maps to |
| `FtlLine.LogIsExact` | nvmevirt/demand_ftl.c:2109-2129 | the log of a line, read back, convicts a pair whose word was not left over exactly if the table no longer maps its index to it |
| `FtlLine.InvalidPage` | nvmevirt/demand_ftl.c:2832-2891 | a page whose grains are all invalid has no live pair starting on it |
| `Ftl.MisfitSpot` | nvmevirt/demand_ftl.c:5745-5775 | a pair that does not fit its LUN group is stored if and only if, from the start of the next group, it ends before the end of that line, or with it and one more line is free |
| `Ftl.ShortSpot` | nvmevirt/demand_ftl.c:670-715 | a pair of at most a LUN group less 128 grains is stored exactly if it fits or there is a next group, and never leaves the group it starts in |
| `Ftl.NotLast` | nvmevirt/demand_ftl.c:5785-5834 | a pair that fits its group or starts the line, and is shorter than all groups but one, leaves space before the last group |
| `Ftl.LaidNext` | nvmevirt/demand_ftl.c:2426-2601 | a pair moved to the frontier of collection is behind all that were moved before it |
| `Ftl.VisitsFirst` | nvmevirt/demand_ftl.c:3442-3485 | a collection that finds no place for a pair of one page cannot succeed as a whole |
| `Ftl.LoggedAre` | nvmevirt/demand_ftl.c:3082-3109 | the words that a collection records again are those of the pairs it looked at that were neither mapped nor convicted |
| `Ftl.Shard.constructor` | nvmevirt/demand_ftl.c:1045-1094 | a formatted device: four lines with the write pointers, the rest free, page 0 unused, all logs empty |
| `Ftl.Shard.Clear` | nvmevirt/demand_ftl.c:828-876 | filler up to a page end keeps all lines in agreement with the table |
| `Ftl.Shard.Roll` | nvmevirt/demand_ftl.c:776-815 | the frontier goes to the next LUN group, of a fresh line after the last one; it fails exactly if there is neither |
| `Ftl.Shard.SkipGroup` | nvmevirt/demand_ftl.c:828-876 | the rest of the LUN group is cleared, and the frontier is at the start of the next one; it fails exactly if there is none |
| `Ftl.Shard.MakeRoom` | nvmevirt/demand_ftl.c:5745-5775 | the frontier stays if the pair fits and else skips to the next group, where it fits, or the line has invalid grains, or is new; it fails exactly if there is no further group |
| `Ftl.Shard.Place` | nvmevirt/demand_ftl.c:5743-5878 | a pair of any length is appended at the place that the position of the frontier determines, at a grain where none starts; it fails exactly if there is no room and no further group, or if the pair would end behind its line, or with it and no line is free |
| `Ftl.Shard.Append` | nvmevirt/demand_ftl.c:5785-5878 | a pair that ends within the line is written, described and mapped at the grain where the line was filled up to, and the frontier is in the group in which it ends |
| `Ftl.Shard.NextPage` | nvmevirt/demand_ftl.c:5826-5833 | a pair that ends with its LUN group is followed by a page of the next one; it fails exactly if there is none |
| `Ftl.Shard.ReadLength` | nvmevirt/demand_ftl.c:4797-4798 | the OOB header at the grain of a mapped index gives the length it was stored with |
| `Ftl.Shard.Invalidate` | nvmevirt/demand_ftl.c:5552-5674 | the grains of the old pair, by its OOB length, become invalid |
| `Ftl.Shard.RecordInvalid` | nvmevirt/demand_ftl.c:3930-3942 | the old mapping goes to the log of its own line, and no other log changes |
| `Ftl.Shard.Put` | nvmevirt/demand_ftl.c:5129-5890 | a store of a pair of any length maps the index to a new pair at the determined grain, changes no other mapping, logs exactly the old one and leaves the frontier of collection alone; it fails exactly if the pair has no place within a line, and then changes no mapping |
| `Ftl.Shard.Delete` | nvmevirt/demand_ftl.c:4846-4858 | a full delete removes and logs exactly the mapping, and moves no frontier |
| `Ftl.Shard.Relocate` | nvmevirt/demand_ftl.c:2426-2601 | a live pair moves off the victim to the frontier of collection: same index, same length, the determined grain, no other mapping changed; it fails exactly if there is no place |
| `Ftl.Shard.RecordAgain` | nvmevirt/demand_ftl.c:3082-3109 | an unconvicted pair whose mapping moved has its word appended to the log of the victim again |
| `Ftl.Shard.CleanPair` | nvmevirt/demand_ftl.c:3038-3305 | a pair that the log convicts is left; one that it does not is relocated if the table maps to it, else recorded again; it fails exactly if the pair has to move and has no place |
| `Ftl.Shard.CleanPage` | nvmevirt/demand_ftl.c:2832-3364 | after a page is cleaned, of the pairs on it that were mapped exactly those that the log convicts are still mapped; the others lie behind each other at the frontier of collection in the order of the page, and exactly the words that were neither mapped nor convicted are in the log again; a page without valid grains is passed over |
| `Ftl.Shard.CleanPages` | nvmevirt/demand_ftl.c:3442-3485 | the same for all pages in the order of the collection; it fails exactly if some pair that has to move has no place |
| `Ftl.Shard.ReadLog` | nvmevirt/demand_ftl.c:3433-3437 | the log is read back before anything moves |
| `Ftl.Shard.CleanLine` | nvmevirt/demand_ftl.c:3430-3485 | after all pages exactly the mappings that the log convicts point into the victim; where the others went and what the log has got back is determined; if all are convicted nothing moves |
| `Ftl.Shard.Collect` | nvmevirt/demand_ftl.c:3386-3573 | for a victim with any log, also the one that the pointer of collection has just filled: it succeeds exactly if every pair to move has a place; every index and length is kept, the victim is erased and at the end of the free list, mapping by mapping the place of every pair moved and of the frontier is given, exactly the mappings convicted by the log still point into it, the invariant holds exactly if there are none, and an unread log is kept |
| `Ftl.Shard.CollectClosed` | nvmevirt/demand_ftl.c:3386-3573 | the same for a line that no write pointer is on |
| `Ftl.Shard.FinishPage` | nvmevirt/demand_ftl.c:3489-3540 | the open page of collection is filled up to its end and nothing else changes |
| `Ftl.Shard.CleanStep` | nvmevirt/demand_ftl.c:3386-3573 | a collection as a step: a line that may not be collected leaves everything as it was; another is collected, erased and freed exactly if every pair to move has a place, and the step succeeds exactly if moreover the log convicts no mapping; after it no index maps into the line |
| `Ftl.Shard.Erase` | nvmevirt/demand_ftl.c:1756-1800 | an erased line joins the free list with its log as left-over; the invariant holds exactly if no index maps into it |
| `Ftl.Shard.Lend` | nvmevirt/demand_ftl.c:563-578 | mapping pages take the head of the free list |
| `Ftl.Shard.Return` | nvmevirt/demand_ftl.c:3366-3384 | an erased mapping line joins the tail of the free list |
| `Ftl.Shard.Step` | nvmevirt/demand_ftl.c:5129-5890 | each step succeeds exactly under its condition and does what it is specified to do to table, logs, frontiers, free list and lines of mapping pages |
| `Ftl.Shard.Run` | nvmevirt/demand_ftl.c:5129-5890 | any run of stores, deletes, collections and hand-overs leaves the indexes and lengths of a plain map of the steps done, every step having done what it is specified to do; it stops exactly at the first step that cannot be done, without a free line, with a mapping into a freed line, or while a pair longer than a LUN group less 128 grains is mapped or to be stored |
| `Ftl.OnlyLeftOvers` | nvmevirt/demand_ftl.c:2109-2129 | a pair is lost only to a word left over from an earlier life of its line |
| `Ftl.NothingAgain` | nvmevirt/demand_ftl.c:3082-3109 | a collection of a line without left-overs in its log records no word again |
| `Ftl.NothingMapped` | nvmevirt/demand_ftl.c:3433-3435 | a line has valid grains exactly if an index maps into it |
| `Ftl.HeaderOfMapped` | nvmevirt/demand_ftl.c:2892-2924 | every mapped index finds itself and its length in the OOB header at its grain, and all its grains are valid |
| `Ftl.MappedApart` | nvmevirt/demand_ftl.c:2426-2601 | pairs of different indexes never share a grain |
| `Ftl.ClosingLineHasInvalid` | nvmevirt/demand_ftl.c:776-792 | when the write pointer leaves a data line of two LUN groups or more, the line has invalid grains, unless a pair on it is as long as all groups but one |
| `StaleLog.CollectDead` | nvmevirt/demand_ftl.c:3433-3435 | a line that nothing maps into is erased with its log unread |
| `StaleLog.FirstLife` | nvmevirt/demand_ftl.c:5129-5890 | a store of a key, its delete and two stores of another leave line 0 without valid grains and two words in its log |
| `StaleLog.InBetween` | nvmevirt/demand_ftl.c:3386-3573 | the line is erased and its log kept |
| `StaleLog.SecondLife` | nvmevirt/demand_ftl.c:5129-5890 | the deleted key is stored at its old grain again and the line filled up |
| `StaleLog.LoseKey` | nvmevirt/demand_ftl.c:3433-3435 | a run of stores, a delete and collections on an empty device, after which the table maps the slot of a stored key into a line that was erased and freed |
| `Hashing.PeriodicProbe` | nvmevirt/demand_ftl.h:268-271 | probes repeat after 2^32 collisions |
| `Hashing.OneOfThree` | nvmevirt/demand_ftl.c:4519-4535 | of probes 0, 22 and 31 one is outside section 0 |
| `Hashing.ProbeStep` | nvmevirt/demand_ftl.h:268-271 | the first probe is the hash, and each collision moves on by two more than the one before |
| `Hashing.HashIdx` | nvmevirt/demand_ftl.c:4519-4535 | the search for a hash index ends, skipping exactly the probes into section 0 |
| `Hashing.OpenWithin` | nvmevirt/demand_ftl.c:5430-5594 | a key has an open probe at all exactly if it has one among the first 2^32 |
| `Hashing.StoreHolds` | nvmevirt/demand_ftl.c:5430-5594 | a store keeps every key where its own last store ended, all probes before it taken by others |
| `Hashing.SearchAgrees` | nvmevirt/demand_ftl.c:4749-4835 | a stored key is found with its last value within `max_try`, a key never stored is missing |
| `Hashing.DeleteKeepsIff` | nvmevirt/demand_ftl.c:4846-4858 | after a delete another key is found if and only if the emptied slot was not on the way to it |
| `Hashing.DeleteLosesKey` | nvmevirt/demand_ftl.c:4846-4858 | two keys with one hash: deleting the first loses the second |
| `Hashing.DeleteHoldsIff` | nvmevirt/demand_ftl.c:4846-4858 | the slots still hold the map after a delete if and only if the emptied slot was on the way of no other key |
| `Hashing.AllFoundIff` | nvmevirt/demand_ftl.c:4749-4858 | every pair left is found after a delete if and only if the emptied slot was on the way of none |
| `Hashing.SectionsSuffice` | nvmevirt/cache.c:22-28 | every hash index has a table section if and only if the number of pages is not 7 modulo 15 |
| `Device.KvSsd.constructor` | nvmevirt/demand_ftl.c:915-1020 | an empty store on a formatted device |
| `Device.KvSsd.Find` | nvmevirt/demand_ftl.c:4749-4835 | the search finds a key exactly if it is stored, at its slot, and its pair and length with it; no section past the allocated ones is looked at |
| `Device.KvSsd.Retrieve` | nvmevirt/demand_ftl.c:4749-4835 | the value last stored under the key and the grains of its pair, or missing; presence is read from the mapping table, the length from OOB |
| `Device.KvSsd.FindSlot` | nvmevirt/demand_ftl.c:5430-5594 | the store loop ends at the first probe that the mapping table shows free or that holds the key, with the length of the old pair |
| `Device.KvSsd.Store` | nvmevirt/demand_ftl.c:5400-5890 | the store maps the key to the value, of any length, and its slots are those before with the pair at its probe; it succeeds if and only if some probe of the key is open and its pair has a place within a line, and else no answer changes |
| `Device.KvSsd.Delete` | nvmevirt/demand_ftl.c:4846-4858 | a full delete removes the key and empties its slot; the device stays valid if and only if the emptied slot was on the way of no other key, which is if and only if every other key is still found; a delete of a missing key changes nothing |
| `Device.KvSsd.Collect` | nvmevirt/demand_ftl.c:3386-3573 | a collection keeps the slots, and so every answer; it succeeds exactly if every pair to move has a place and the log convicts no mapped pair, and then the victim is erased and free and nothing maps into it |
| `Device.KvSsd.Step` | nvmevirt/demand_ftl.c:6453-6484 | each command answers and changes the store as on a map, and does on flash what it is specified to do |
| `Device.KvSsd.Run` | nvmevirt/demand_ftl.c:6453-6484 | over any run, up to where it stops, the device answers as a map from keys to values, and every command does on flash what it is specified to do; it stops early only without a free line, without room for a long pair or a slot for a key, after a lost mapping, or after a delete that cut a key off |
| `Assembly.EnoughIndexes` | nvmevirt/cache.c:22-28 | there is a hash index for every grain of every line, and on the real geometries enough for every search to end |
| `Assembly.EnoughSections` | nvmevirt/cache.c:22-28 | every hash index has an allocated section unless the pages are 7 modulo 15 |
| `Assembly.NewDevice` | nvmevirt/demand_ftl.c:1045-1094 | a formatted device on the real geometry, with pages not 7 modulo 15, is a valid empty store; stores start behind page 0 and all logs are empty |
| `Assembly.CollectInOrder` | nvmevirt/demand_ftl.c:3386-3573 | a collection in its own page order keeps the store, erases and frees its victim and leaves nothing mapped into it, unless it fails for want of a free line or of room for a long pair, or its log convicts a mapped pair |
| `Assembly.WritersAgree` | nvmevirt/demand_ftl.c:670-715 | the write pointers and the frontiers of the FTL have the same lines and the same test for space |
| `Assembly.LoseOnFlash` | nvmevirt/demand_ftl.c:3433-3435 | the run that loses a key exists from a formatted device on one channel with two LUNs and six blocks of one wordline of eight pages |
| `Assembly.LongPairStops` | nvmevirt/demand_ftl.c:5838-5878 | on that device, just formatted and with two lines free, a store of a pair of one grain more than a LUN group fails |
| `Assembly.LongestPair` | nvmevirt/ssd_config.h:261-286 | on the default geometry a pair of a 256 KB value and its key is longer than a LUN group; where it does not fit it is stored exactly if the next group is not the last of its line |
| `ChannelModel.RingIsMod` | nvmevirt/channel_model.c:85-102 | places in the ring are counted from its head |
| `ChannelModel.MovedShows` | nvmevirt/channel_model.c:43-59 | after the head moved to the current time the ring still shows the ledger |
| `ChannelModel.MoveIsRightIff` | nvmevirt/channel_model.c:44-45 | the 32-bit distance is right if and only if fewer than 2^32 slots passed or the remainder covers the valid part |
| `ChannelModel.MoveShowsIff` | nvmevirt/channel_model.c:43-59 | after a move by the 32-bit distance the ring shows the ledger if and only if fewer than 2^32 slots passed or the valid slots that were missed are free |
| `ChannelModel.TakenExactly` | nvmevirt/channel_model.c:91-109 | a request consumes exactly its credits, or everything up to the end of a full ring |
| `ChannelModel.IdleIsPrompt` | nvmevirt/channel_model.c:87-124 | on an idle channel a request has no queueing delay |
| `ChannelModel.Channel.constructor` | nvmevirt/channel_model.c:17-29 | a fresh channel shows the empty ledger |
| `ChannelModel.Channel.MoveTo` | nvmevirt/channel_model.c:43-59 | the head moves to the current time by the slots that have passed of the valid part, and the ring still shows the ledger exactly under the condition of `MoveShowsIff` |
| `ChannelModel.Channel.Consume` | nvmevirt/channel_model.c:83-109 | credits are taken from the earliest slots that have any, no slot gives more than it has |
| `ChannelModel.Channel.Request` | nvmevirt/channel_model.c:32-129 | the request ends in the earliest slot that can hold its credits; it is prompt if and only if it needs no more slots than its credits fill at full bandwidth, late by exactly the slots beyond, and never ends before its last slot less those |
| `ChannelModel.ServesIn` | nvmevirt/channel_model.c:87-128 | the time that the request computes from its delay is that one |
| `NandTiming.SerialApart` | nvmevirt/ssd.c:398-494 | no two intervals of work on a LUN overlap |
| `NandTiming.Lun.constructor` | nvmevirt/ssd.c:398-420 | a fresh LUN is available at once and has done no work |
| `NandTiming.OneMorePart` | nvmevirt/ssd.c:441-456 | a transfer goes on with its next part where it ended |
| `NandTiming.Lun.Transfer` | nvmevirt/ssd.c:441-456 | the parts of a read are requested from the channel one after the other, each when the one before has ended, and with interleaving from the host link when they have ended themselves; completion is that of the last |
| `NandTiming.Lun.Advance` | nvmevirt/ssd.c:398-494 | each command works from the later of issue and availability until the new availability; a read then transfers its parts, a write ends its latency after the end of its channel request, an erase and a nop use no channel |
| `Eviction.StepKeeps` | nvmevirt/demand_ftl.c:3602-4262 | every step of collector, evictor, loads and updates keeps the invariant |
| `Eviction.RunsKeep` | nvmevirt/demand_ftl.c:3602-4262 | the invariant holds in every state of every interleaving |
| `Eviction.EvictorIsSafe` | nvmevirt/demand_ftl.c:4000-4040 | in every run the evictor never reads past its victims; each is a cached candidate of at most a page; the ring does not overflow |
| `Eviction.NoLostUpdate` | nvmevirt/demand_ftl.c:4060-4148 | in every run a section that is not in memory is on flash with every update ever made to it; the evictor writes a section back exactly if it was updated since it was last written |
| `Eviction.StaysDirty` | nvmevirt/demand_ftl.c:3602-3608 | in every run an updated section is dirty, or a dirty candidate, until the evictor takes it, and is written back then |
| `Eviction.HistoryOf` | nvmevirt/demand_ftl.c:3825-3900 | in every run a section holds as many updates as there were, and two leaves and one for each expansion |
| `Eviction.FirstInFirstOut` | nvmevirt/demand_ftl.c:3620-3690 | in every run sections are evicted in the order in which they were loaded |
| `Eviction.EvictorCounts` | nvmevirt/demand_ftl.c:3996-4240 | in every run the evictor, while it has the buffer, can do exactly one thing: take a victim if the cache is too full and it has freed less than a page, else give the buffer back; what it counts is what it frees |
| `Eviction.CollectorMoves` | nvmevirt/demand_ftl.c:3610-3690 | in every run the collector can do exactly one thing in each of its states, whatever the others do |
| `Eviction.CollectedAPage` | nvmevirt/demand_ftl.c:3610-3690 | in every run the collector hands the buffer over with at least a page of grains more than it found in it, unless there was plenty |
| `Eviction.BufferHasOneOwner` | nvmevirt/demand_ftl.c:3996-3998 | in every run the flag goes 0, 1, 2, 0; the buffer grows only at 0 and shrinks only at 2 |
| `Eviction.CacheIsAccounted` | nvmevirt/demand_ftl.c:4254-4257 | in every state of every run the cache counter is the sum of root and leaves over the cached sections, each in one place, candidates exactly in the buffer |
| `VictimHeap.SwapUp` | nvmevirt/pqueue/pqueue.c:56-71 | one step up moves the only misplaced edge to the parent |
| `VictimHeap.SwapDown` | nvmevirt/pqueue/pqueue.c:87-102 | one step down moves the misplaced edges to the child |
| `VictimHeap.RootIsLeast` | nvmevirt/pqueue/pqueue.c:170-178 | the root of an ordered heap has the least priority |
| `VictimHeap.RaisedIff` | nvmevirt/demand_ftl.c:1362-1366 | a priority raised behind the back of the queue leaves it in order if and only if the line is not queued or its children are not below the new priority |
| `VictimHeap.RaiseBreaks` | nvmevirt/demand_ftl.c:1362-1366 | two queued lines for which it does not |
| `VictimHeap.Unqueued` | nvmevirt/demand_ftl.c:1493-1498 | the priority of a line that is not queued does not matter |
| `VictimHeap.IsValidIff` | nvmevirt/pqueue/pqueue.c:225-247 | the recursive check accepts exactly the globally ordered heaps |
| `VictimHeap.QueuedIff` | nvmevirt/demand_ftl.c:453-461 | a line is queued exactly if the place it remembers holds it |
| `VictimHeap.PQueue.constructor` | nvmevirt/pqueue/pqueue.c:14-41 | an empty queue is valid and ordered |
| `VictimHeap.PQueue.BubbleUp` | nvmevirt/pqueue/pqueue.c:56-71 | keeps members and positions, and restores the order if only the edge above was broken |
| `VictimHeap.PQueue.LeastChild` | nvmevirt/pqueue/pqueue.c:73-85 | the child with the least priority, or none |
| `VictimHeap.PQueue.PercolateDown` | nvmevirt/pqueue/pqueue.c:87-102 | keeps members and positions, and restores the order if only the edges below were broken |
| `VictimHeap.PQueue.Insert` | nvmevirt/pqueue/pqueue.c:104-129 | adds exactly the line, keeps order and the positions of others |
| `VictimHeap.PQueue.ChangePriority` | nvmevirt/pqueue/pqueue.c:131-142 | changes exactly one priority, keeps members and order |
| `VictimHeap.PQueue.Remove` | nvmevirt/pqueue/pqueue.c:144-154 | removes exactly the line, keeps order |
| `VictimHeap.PQueue.Pop` | nvmevirt/pqueue/pqueue.c:156-168 | removes a line of least priority |
| `VictimHeap.PQueue.Peek` | nvmevirt/pqueue/pqueue.c:170-178 | a line of least priority, if any |
| `VictimHeap.PQueue.IsValid` | nvmevirt/pqueue/pqueue.c:225-247 | true exactly if the queue is in heap order |
| `LineLife.NotFullData` | nvmevirt/demand_ftl.c:1484-1488 | a data line never has all its grains valid |
| `LineLife.AllValidIsFull` | nvmevirt/demand_ftl.c:1484-1507 | a line with all grains valid is on the full list and for mapping pages |
| `LineLife.StuckApart` | nvmevirt/demand_ftl.c:1484-1507 | a line on the full list with invalid grains is in no other place and never has all grains valid |
| `LineLife.ClosedOk` | nvmevirt/demand_ftl.c:776-795 | closing a line and taking a free one keeps every line in exactly one place |
| `LineLife.Lines.constructor` | nvmevirt/demand_ftl.c:483-522 | initially four lines are with the write pointers and the rest is free |
| `LineLife.Lines.MarkValid` | nvmevirt/demand_ftl.c:1322-1393 | raises the valid count and moves no line; heap order survives if and only if the line is not queued or its children are not below the new count |
| `LineLife.Lines.Close` | nvmevirt/demand_ftl.c:776-815 | the used-up line goes to the full list if it has no invalid grains, else to the queue, and a free line takes its place; only mapping lines go to the full list; order and stuck lines stay |
| `LineLife.Lines.InvalidateRun` | nvmevirt/demand_ftl.c:1484-1512 | one page of an invalidation, with the flag of the page before: counters move, a full line goes from the full list to the queue |
| `LineLife.Lines.MarkInvalid` | nvmevirt/demand_ftl.c:1413-1556 | a whole invalidation: the flag is never set when a second page begins, and the line leaves the full list if and only if all its grains were valid; stuck lines stay |
| `LineLife.Lines.SelectVictim` | nvmevirt/demand_ftl.c:1802-1866 | picks a queued line other than the one of the open page of stores, which is put back; while the queue is in order the least of them; finds none only if no other is queued |
| `LineLife.Lines.FreeLine` | nvmevirt/demand_ftl.c:3366-3384 | a collected line joins the free list with its counters cleared |
| `Writers.UsedUpClosable` | nvmevirt/demand_ftl.c:776-792 | a data line that is used up has invalid grains |
| `Writers.Marked` | nvmevirt/demand_ftl.c:1322-1393 | marking grains of an open page keeps all write pointers in agreement with their lines |
| `Writers.Cleared` | nvmevirt/demand_ftl.c:828-876 | so does clearing the rest of a page |
| `Writers.Dropped` | nvmevirt/demand_ftl.c:1413-1556 | so does an invalidation anywhere |
| `Writers.HandedOut` | nvmevirt/demand_ftl.c:718-773 | so does handing out a page |
| `Writers.Rolled` | nvmevirt/demand_ftl.c:776-815 | so does handing out the last page of a line, which closes it |
| `Writers.TakenAway` | nvmevirt/demand_ftl.c:1802-1866 | so does the choice of a victim |
| `Writers.GivenBack` | nvmevirt/demand_ftl.c:3366-3384 | so does freeing it |
| `Writers.Manager.constructor` | nvmevirt/demand_ftl.c:483-620 | four pointers on four empty lines |
| `Writers.Manager.TakePage` | nvmevirt/demand_ftl.c:718-826 | the next page of the line; with the last page the line is closed, to the full list exactly if it has no invalid grains, and a free line taken; it fails exactly if there is none |
| `Writers.Manager.Mark` | nvmevirt/demand_ftl.c:1322-1393 | grains of the open page become valid; the order of the queue survives exactly under the condition of `VictimHeap.RaisedIff` |
| `Writers.Manager.ClearPage` | nvmevirt/demand_ftl.c:4152-4165 | the rest of the open page becomes valid and at once invalid, and no other counter changes |
| `Writers.Manager.NewPage` | nvmevirt/demand_ftl.c:5019-5044 | the next page that is not page 0 of the device, which is cleared and passed over; nothing else changes |
| `Writers.Manager.ClearGroup` | nvmevirt/demand_ftl.c:828-876 | exactly the grains that are left in the LUN group are cleared, and the line has invalid grains unless it was closed |
| `Writers.Manager.FindSpace` | nvmevirt/demand_ftl.c:5745-5775 | if a pair of any length fits before the last page of the LUN group nothing changes; else the rest of the group is cleared and the next page opened, after which the pair fits, or the line has invalid grains, or is new; a pair of at most a group less 128 grains fits |
| `Writers.Manager.WritePair` | nvmevirt/demand_ftl.c:5745-5835 | the grains of a pair become valid on one line, that of the open page if the pair fits, and no other counter changes but for what was cleared to make room; the pointer is that much further on; every line stays closable; it fails only without a free line or if the pair would end behind its line |
| `Writers.Manager.WritePart` | nvmevirt/demand_ftl.c:5785-5834 | one turn of the loop marks what fits the open page, and opens the next one if that is full |
| `Writers.PairIsCounted` | nvmevirt/demand_ftl.c:5785-5834 | the valid grains of all lines together grow by the length of the pair |
| `Writers.RunIsCounted` | nvmevirt/demand_ftl.c:1322-1556 | over a run the valid grains of all lines are those that were marked, less those that were invalidated or erased |
| `Writers.ReadySafe` | nvmevirt/demand_ftl.c:5745-5835 | a pair with a place, shorter than all LUN groups but one, can be marked as far as the line goes; if it fits its group it ends within the line |
| `Writers.SafeNext` | nvmevirt/demand_ftl.c:5785-5834 | and so can what is left of it after each page, also over the last page of the line |
| `Writers.Manager.Invalidate` | nvmevirt/demand_ftl.c:1413-1556 | an invalidation of an extent moves counters and at most its own line |
| `Writers.Manager.PickVictim` | nvmevirt/demand_ftl.c:1802-1866 | a victim without an unfinished page |
| `Writers.Manager.GiveBack` | nvmevirt/demand_ftl.c:3366-3384 | the collected line is free again, with both its counters cleared and no other |
| `Writers.Manager.Do` | nvmevirt/demand_ftl.c:718-826 | what each step does to lines, pointers and counters: a pair, a mapping page, its grains, a finished page, an invalidation, the choice of a victim and its return |
| `Writers.Manager.Run` | nvmevirt/demand_ftl.c:718-826 | over any run every line is in exactly one place with sound counters, each step changes lines, pointers and counters as specified, and stuck lines stay stuck; it stops early only without a free line or with a pair longer than a LUN group less 128 grains |
| `Writers.StuckLine` | nvmevirt/demand_ftl.c:4046-4125 | a run of mapping pages after which a line with invalid grains is on the full list, the first line having gone to the queue |
| `Writers.BrokenOrder` | nvmevirt/demand_ftl.c:1362-1366 | a run of mapping pages after which the victim queue, with two lines in it, is out of order |
| `WorkQueue.StillInOrder` | nvmevirt/io.c:1021-1024 | the order of requests survives the passing of time |
| `WorkQueue.NoneMissing` | nvmevirt/io.c:1170-1187 | every entry is on exactly one of the two chains |
| `WorkQueue.InsertedInOrder` | nvmevirt/io.c:597-613 | the place where the backward walk stops keeps the requests ordered by due time |
| `WorkQueue.Worker.constructor` | nvmevirt/io.c:1165-1187 | all entries start on the free chain |
| `WorkQueue.Worker.Tick` | nvmevirt/io.c:1021-1024 | time goes on and the queue stays valid |
| `WorkQueue.Worker.Complete` | nvmevirt/io.c:1085-1125 | completion marks one request and moves none |
| `WorkQueue.Worker.Enqueue` | nvmevirt/io.c:633-693 | takes the first free entry unless it is the last one, and inserts it behind the last request that is due or not later |
| `WorkQueue.Worker.InsertSorted` | nvmevirt/io.c:584-631 | links the entry in at one place of the chain, forwards and backwards |
| `WorkQueue.Worker.Reclaim` | nvmevirt/io.c:785-834 | moves exactly the finished prefix to the end of the free chain; nothing uncompleted is reclaimed |
| `LruList.LruCache.constructor` | nvmevirt/lru.c:7-12 | an empty list |
| `LruList.LruCache.Get` | nvmevirt/lru.c:14-44 | moves the item to the front, the others keep their order |
| `LruList.LruCache.Set` | nvmevirt/lru.c:46-74 | puts the item in front; at capacity the least recently touched one goes |
| `LruList.LruCache.Remove` | nvmevirt/lru.c:76-107 | removes exactly the item of the id |
| `LruList.LruCache.GetOldest` | nvmevirt/lru.c:109-130 | removes and returns the least recently touched item |

## Assumptions

- The hash function (CityHash) is an arbitrary fixed function of the key with 32-bit values; the clock is
  a parameter that never goes back. Signed overflow in the probe formula wraps around, as in the kernel's
  build.
- A collection runs with no store inside it, and picks its victim while no page of mappings or of
  collection is half filled. Steps of the eviction protocol are atomic, as each holds the lock of the one
  section it touches.
- One plane per LUN, two LUNs per channel or more, three pages per LUN group or more, no more channels
  than pages per channel, grain numbers below 2^31, and address fields wide enough for the geometry.
- The bytes of a pair stay in host memory with its hash index, as in the source; the flash model carries
  index and length. Where the source stops (no free line, a pair past the end of its line), the methods here
  return false.

## Left out

- Writers.Manager.WritePair: requires that a pair is shorter than all LUN groups of its line but one (7.75 MB
  with the default geometry, where MDTS lets 256 KB through). A longer one could fill the line up to its
  last page without invalid grains.
- Assembly.WritersAgree: `Writers` and `Ftl` keep lines, free list and write pointers of their own, and agree
  on the size of lines and groups and on the test for space; no run drives both, so the victim of a
  collection is any line in `Ftl` and the least queued one in `Writers`.
- Device.KvSsd.Retrieve: reads whole pairs, not offset reads or buffers that are too small.
- TwoLevelTable.Table.Reload: requires at least one mapping, because a reload of an empty table would read
  before the first entry; `__update_map` never asks for it.
- Directory.Mapper.Follow: updates the sections after a collection, one index after the other, and not
  between the single relocations; the union is the same.
- Append buffers, partial deletes, shift merging and the markers they leave in the log, beyond
  `InvalidLog.MarkedGrain`: unfinished in the source.
- Stores racing with a collection, and the shadow list.
- Collection of mapping lines and the contents of mapping pages: such lines only leave and rejoin the
  free list in `Ftl`, and only their counters are kept in `Writers`, so that moves of mappings by a
  collection do not meet the dirty bits of `Eviction`.
- Fast fill, batch decoding, write credits, statistics, wall-clock calls, memory allocation failure and
  64-bit time overflow.
- PRP copying, DMA, PCI registers, admin commands, host drivers and example clients: I/O and foreign calls.
