# Verified model of the Neon pageserver core

This project models, in Dafny, the parts of the Neon pageserver whose correctness spans several
functions or unboundedly many runs, and proves what they are meant to do.

- **Page cache** (`PageCacheMachine`, `PageCacheSafety`, `PageMapping`, `ClockSweep`): a step machine
  over every interleaving of any number of threads, with slot locks, the mapping, the size gauges, the
  disk below and the page contents callers have stored; the three mapping tables; the clock sweep.
- **Virtual files** (`VirtualFileMachine`, `VirtualFileSafety`, `VirtualFileRefinement`,
  `VirtualFileOwnership`, `VictimSlot`): a step machine over opens, failed opens, uses, evictions and
  drops; its refinement of plain files with a position; the clock that picks a slot.
- **Keys and key spaces** (`Keys`, `KeyLayout`, `KeySpace`): 144-bit keys, the layout of relations,
  SLRUs and other files in them, and sets of key ranges.
- **Data directory mapping** (`Snapshot`, `CollectKeyspace`, `Timeline`, `Modification`,
  `FlushNeutrality`, `RelSizeCache`, `RelExistence`, `LogicalSize`, `DatadirModification`): which keys
  are live, and what a modification does to the store, the logical size and the relation size cache.
- **Export and import** (`Transfer`): relations cut into segment files and read back.
- **Disk usage eviction** (`FilesystemUsage`, `EvictionOrder`, `Eviction`): when there is pressure, the
  order of the candidates, the choice of the victims, the accounting.
- **postgresql.conf** (`PostgresConf`): escaping, printing and reading settings.
- Shared by these: `Options`, `PostgresFfi` (constants), `Arith`, `Seqs`, `Sums`.

Operations that update objects in place are classes or methods with loops; each is proved against a
function on values, and the laws are proved about those functions. Concurrent code is a function from
a state and one thread's action to the next state, and the laws hold for every sequence of actions.

## How things are modelled

- In the page cache one agent is one call of the interface together with the guard it returns. A
  section under a mapping lock is one step. `find_victim` may try any slot in the machine; which slots
  the clock arm really visits is the subject of `ClockSweep`. A failed writeback may leave anything in
  the ephemeral file's block.
- What the page cache leaves to its callers is a condition on the caller's steps: a missed page is
  filled from disk before `mark_valid`, and only ephemeral pages are changed, and then marked dirty.
- The timeline is a map from key and LSN to value; a read gives the newest version not above the
  requested LSN. Directory structs and sizes appear decoded. A deleted range is recorded and does not
  affect reads, as the comment on `DatadirModification::get` says.
- Hash sets and hash maps are visited in any order, and `sort_unstable_by_key` may give any sorted
  permutation.
- Floating-point arithmetic is exact arithmetic followed by a rounding. The rounding is a parameter that
  keeps the order of numbers, as that of 64-bit floats does; where closeness matters it is off by about a
  millionth at most, which 64-bit floats are well within.
- The word characters of the configuration regex are any class of characters without `=`, `#` and
  white space.

## Results that are not as one might expect

- If everything is readable, `collect_keyspace` fails its ordering assertion exactly when a database is
  numbered (0, 0), a relation fork (0, 0), or a prepared transaction 0 (`CollectKeyspace.Collect`).
- `key_range_size` looks at the last two fields only. `partition` is exact on a range if and only if
  the range is not cut, or the full pieces its computed size asks for fit into it
  (`KeySpaces.PiecesAreExact`); a short range across two prefixes is a counterexample
  (`KeySpaces.ShortRangeAcrossPrefixes`).
- `KeySpace::partition` ends if and only if the target size is BLCKSZ or more, or all ranges have
  size 0 (`KeySpaces.PartitionEndsIff`); below that a turn of the loop changes nothing
  (`KeySpaces.NoProgress`), so a range of one key is never done (`KeySpaces.OneKeyNeverEnds`).
- `find_victim` looks at its limit of 10n turns only where it meets a held lock. Counts that other
  threads raise can keep it going (`ClockSweep.RaisedForever`), by at most one turn for each raise
  (`ClockSweep.FindVictimShared`).
- `to_i128` and `from_i128` are inverse exactly when field1 is below 16 and field2 below 0xffff
  (`Keys.I128RoundTrip`).
- Truncating, extending or dropping a relation that is not live puts the logical size out of step
  unless its block count stays (`LogicalSize.ResizeBalance`, `LogicalSize.DropBalance`). Dropping a
  database does unless it cannot be counted at the last record, where the drop fails, or its size at
  the last record is its size now (`LogicalSize.DropDbBalance`).
- A `latest` read between a pending drop and its commit brings the relation back into the cache: then
  `get_rel_exists` says that it exists (`RelExistence.ReadAfterPendingDropExists`), and its size is stale
  if and only if the modification had resized it before the drop (`RelSizeCache.ReadAgreesIff`,
  `RelSizeCache.ReadAfterPendingDrop`).
- `drop_dbdir` leaves the cache and the relation directory as they are, so `get_rel_exists` still says
  that a relation of the database exists if and only if it was cached or listed
  (`RelExistence.DroppedDbAnswers`). When a relation is created in the database again its directory
  starts anew, and the answer and the directory disagree (`RelExistence.CreateAfterDropDb`): a creation
  leaves them in agreement exactly when the database was listed or had no other relation in the cache
  (`RelExistence.CreateAgreesIff`).
- Truncating or extending a relation that is not listed makes `get_rel_exists` and the directory
  disagree exactly when a size is stored for it (`RelExistence.ResizeAgreesIff`); a drop and an extension
  in one modification do that (`RelExistence.ExtendAfterDrop`).
- `add_rel` exports at most 2^32 - 131072 blocks (`Transfer.AddRel`). Above that `startblk + RELSEG_SIZE`
  overflows, which panics where overflow checks are on. The release profile does not set them (Cargo.toml:195):
  there the sum wraps to 0, and the loop writes an empty segment and starts again from block 0.
- The disk usage percentage is the exact one or one off (`FilesystemUsage.PctWithinOne`). With 9 of 10
  bytes available 64-bit floats give 9, not 10 (`FilesystemUsage.RoundedBelowShare`).
- What an iteration reports as failed leaves out layers that failed in an error, alone or with their batch.
  It explains the gap between planned and assumed usage exactly when no such layer takes space
  (`Evictions.ReportExplainsIff`).
- A printed configuration is read back to the same options if and only if every name is one the reader
  knows and the last value of every option has no white space but newlines (`PostgresConfs.ReadBackIff`).
  A configuration that was read is printed without line ends (`PostgresConfs.LineEndsAreLost`).

## Model

| member | source | states |
|---|---|---|
| PageCacheSafety.RunIsSafe | pageserver/src/page_cache.rs:472-864 | over every interleaving of any number of agents no assertion, unwrap, index or "could not find old key" panics, and the invariant holds at the end |
| PageCacheSafety.StepKeepsInv | pageserver/src/page_cache.rs:251-286 | every step keeps locks, mapping, gauges and page data in order |
| PageCacheSafety.StepNeverPanics | pageserver/src/page_cache.rs:711-864 | no step panics in a state that satisfies the invariant |
| PageCacheSafety.MappingAgreesWithSlots | pageserver/src/page_cache.rs:520-639 | an unlocked slot with key k is the slot mapped for k; a mapped slot holds its key or is being filled by its writer; no two unlocked slots share a key |
| PageCacheSafety.GaugesWithinMaxBytes | pageserver/src/page_cache.rs:711-809 | each gauge is the size of its own map's entries in pages, and together they stay within the cache's size |
| PageCacheSafety.ReaderSeesContents | pageserver/src/page_cache.rs:472-489 | a reader has a buffer that was marked valid for its key and holds what callers stored there |
| PageCacheSafety.ViewIsContents | pageserver/src/page_cache.rs:251-286 | cached buffer if mapped, else disk, is what callers stored |
| PageCacheSafety.ViewChangesOnlyByWrites | pageserver/src/page_cache.rs:811-886 | eviction, failed writeback, lookups and abandoned guards change nothing a caller can see; writing through a valid guard changes its page only |
| PageCacheSafety.ContentsChangeOnlyByWrites | pageserver/src/page_cache.rs:213-286 | the stored contents change by writes through valid guards and by nothing else |
| PageCacheSafety.EffectKeepsData | pageserver/src/page_cache.rs:811-886 | a step that unmaps a page leaves its contents on disk; every other step keeps buffer, disk and contents related |
| PageCacheSafety.EffectNeverCrashes | pageserver/src/page_cache.rs:251-286 | a guard's slot has a key, only ephemeral pages get dirty, and memorizing a page again finds the same image |
| PageMapping.BinarySearch | pageserver/src/page_cache.rs:655-669 | finds the version of an LSN, or the place where it belongs |
| PageMapping.Mappings.SearchMapping | pageserver/src/page_cache.rs:655-683 | gives the greatest cached LSN not above the request, or says that there is none |
| PageMapping.Mappings.SearchMappingForWrite | pageserver/src/page_cache.rs:685-705 | gives the slot of exactly this key, if it is mapped |
| PageMapping.Mappings.TryInsertMapping | pageserver/src/page_cache.rs:754-805 | inserts unless mapped; version lists stay non-empty and strictly sorted, gauges count entries |
| PageMapping.Mappings.RemoveMapping | pageserver/src/page_cache.rs:711-748 | removes exactly this key and says when the source panics; a missing version of a listed page is no panic |
| ClockSweep.Clock.IncUsageCount | pageserver/src/page_cache.rs:134-147 | raises one count up to 5 |
| ClockSweep.Clock.DecUsageCount | pageserver/src/page_cache.rs:149-166 | lowers one count down to 0 and gives the old value |
| ClockSweep.Clock.FindVictim | pageserver/src/page_cache.rs:811-864 | counts go down once per visit; alone it takes the first slot of minimum count within 5n+1 turns; where others hold locks it ends within 10n+1 turns unless writebacks fail |
| ClockSweep.FindVictimShared | pageserver/src/page_cache.rs:811-864 | while others move the arm and lower and raise counts at any point, it ends at the first turn that has an ending, at most 5n turns and one for each raise after both the limit of 10n and the last failed writeback |
| ClockSweep.SharedBound | pageserver/src/page_cache.rs:811-864 | a sweep that has not ended after so many turns has met that many raised counts |
| ClockSweep.RaisedForever | pageserver/src/page_cache.rs:820-838 | a lone slot raised before every visit is never taken, though its lock is free |
| ClockSweep.FirstEmptyIsMinimum | pageserver/src/page_cache.rs:816-830 | the first slot whose count is used up has the minimum count and is first in arm order among those |
| ClockSweep.SweepBound | pageserver/src/page_cache.rs:811-830 | the first slot of minimum count is reached within 5n+1 turns |
| VirtualFileSafety.StepIsSafe | pageserver/src/virtual_file.rs:109-171 | no step of any thread panics, and the locks, tags and open descriptors stay in order |
| VirtualFileRefinement.RunsOnOwnFile | pageserver/src/virtual_file.rs:250-323 | with_file runs its closure on the VirtualFile's own file |
| VirtualFileRefinement.StepRefines | pageserver/src/virtual_file.rs:250-418 | every step is one operation of a plain file with a position, or is invisible |
| VirtualFileRefinement.InsideIsInvisible | pageserver/src/virtual_file.rs:109-171 | taking slots, closing and reopening descriptors and moving handles change nothing a user can see |
| VirtualFileRefinement.RunIsSafe | pageserver/src/virtual_file.rs:109-418 | over every interleaving: no panic, at most as many descriptors as slots, and the files are those of the same operations on plain files |
| VirtualFileRefinement.HandlesIssuedOnce | pageserver/src/virtual_file.rs:157-171 | over a whole run no (slot, tag) pair is issued twice |
| VirtualFileRefinement.EachCallRunsOnce | pageserver/src/virtual_file.rs:250-323 | a call that returned a result ran its closure exactly once, a call that failed to open did not run it |
| VirtualFileOwnership.StepKeepsOwned | pageserver/src/virtual_file.rs:250-345 | a descriptor in a slot is the one its VirtualFile's handle names, or its VirtualFile is being dropped |
| VirtualFileOwnership.NoDescriptorIsLost | pageserver/src/virtual_file.rs:325-345 | when all calls have returned, every open descriptor is the current one of a VirtualFile not yet dropped |
| VictimSlots.OpenFiles.FindVictimSlot | pageserver/src/virtual_file.rs:109-171 | whatever others hold at each turn, takes the slot of the first turn that finds it neither locked nor recently used, a second round counting as not used, else waits for the one under the arm, within 2n+1 turns; closes its file and gives it a new tag |
| VictimSlots.SteadyVictim | pageserver/src/virtual_file.rs:122-145 | while the same slots stay locked, that is the nearest slot neither locked nor recently used, else the nearest unlocked one, else the one under the arm |
| Keys.Add | pageserver/src/repository.rs:55-82 | addition on the 144-bit number, failing exactly on overflow |
| Keys.AddCarry | pageserver/src/repository.rs:55-82 | the carry chain computes that addition |
| Keys.NextIsSuccessor | pageserver/src/repository.rs:51-53 | next is the immediate successor in key order |
| Keys.LessIsValueOrder | pageserver/src/repository.rs:15-27 | field order is number order |
| Keys.FromValueIsInverse | pageserver/src/repository.rs:15-27 | every number below 2^144 is a key's number |
| Keys.KeyRangeSizeIsLength | pageserver/src/repository.rs:105-126 | key_range_size is the number of keys exactly when the range is in one prefix or saturates |
| Keys.PrefixByFields | pageserver/src/repository.rs:105-126 | keys share the prefix exactly when fields 1 to 4 agree |
| Keys.WriteToByteSlice | pageserver/src/repository.rs:95-102 | writes the big-endian bytes of the key and nothing else |
| Keys.BytesRoundTrip | pageserver/src/repository.rs:84-102 | from_slice undoes write_to_byte_slice |
| Keys.I128RoundTrip | pageserver/src/repository.rs:30-49 | from_i128 undoes to_i128 if and only if field1 < 16 and field2 < 0xffff |
| KeyLayout.KeysNeverCollide | pageserver/src/pgdatadir_mapping.rs:1349-1570 | different objects never share a key, for nonzero numbers and blocks below 0xffffffff |
| KeyLayout.ItemRoundTrip | pageserver/src/pgdatadir_mapping.rs:1349-1625 | the object can be read off its key |
| KeyLayout.RelRoundTrip | pageserver/src/pgdatadir_mapping.rs:1573-1586 | key_to_rel_block undoes rel_block_to_key |
| KeyLayout.SlruRoundTrip | pageserver/src/pgdatadir_mapping.rs:1603-1619 | key_to_slru_block undoes slru_block_to_key |
| KeyLayout.RelRangeIsExact | pageserver/src/pgdatadir_mapping.rs:1420-1438 | a relation's delete range holds its blocks and size and nothing else |
| KeyLayout.SlruRangeIsExact | pageserver/src/pgdatadir_mapping.rs:1485-1508 | a segment's delete range holds its blocks and size and nothing else |
| KeyLayout.TwophaseRangeIsExact | pageserver/src/pgdatadir_mapping.rs:1531-1550 | a prepared transaction's delete range holds its file and nothing else |
| KeyLayout.DbdirRangeIsExact | pageserver/src/pgdatadir_mapping.rs:1358-1374 | a database's delete range holds exactly the keys of its objects, but for its end, the size of fork 255 of relation 0xffffffff; in tablespace 0 it would hold the list of databases too |
| KeySpaces.CanonicalIsUnique | pageserver/src/keyspace.rs:154-187 | there is one sorted list of separated ranges for a set of keys |
| KeySpaces.KeySpaceRandomAccum.ToKeyspace | pageserver/src/keyspace.rs:167-187 | the result holds exactly the keys added, and is the canonical list when no range was empty |
| KeySpaces.OrderDoesNotMatter | pageserver/src/keyspace.rs:154-187 | permuting the insertions gives the same list |
| KeySpaces.Overlaps | pageserver/src/keyspace.rs:68-76 | true exactly when some range meets the query, which for non-empty ranges means a common key |
| KeySpaces.KeySpaceAccum.AddRange | pageserver/src/keyspace.rs:120-133 | accepts a range that does not start before the last end, merging what touches; otherwise the assertion fails |
| KeySpaces.KeySpaceAccum.ToKeyspace | pageserver/src/keyspace.rs:135-142 | separated ranges with exactly the keys added |
| KeySpaces.AcceptedInOrder | pageserver/src/keyspace.rs:120-133 | ranges are all accepted if and only if they come in key order, and then separated ranges with their keys result |
| KeySpaces.Partition | pageserver/src/keyspace.rs:20-63 | on every input on which it ends, the parts joined are the input's pieces in order, and no part exceeds the target when sizes are honest |
| KeySpaces.PartitionEndsIff | pageserver/src/keyspace.rs:20-63 | its loop ends on every range if and only if the target is BLCKSZ or more, or all ranges have size 0 |
| KeySpaces.NoProgress | pageserver/src/keyspace.rs:41-50 | with a target below BLCKSZ no number of turns changes the start or the size left |
| KeySpaces.OneKeyNeverEnds | pageserver/src/keyspace.rs:20-63 | a range of one key and a target of 8191 bytes |
| KeySpaces.SizeOfKeyRange | pageserver/src/repository.rs:105-126 | sizes and lengths on positions are those on keys |
| KeySpaces.PiecesAreExact | pageserver/src/keyspace.rs:20-63 | a range's pieces cover exactly its keys if and only if it is not cut, or the full pieces its computed size asks for fit into it |
| KeySpaces.OnePrefixFits | pageserver/src/keyspace.rs:20-63 | ranges within one prefix, and saturated ones, are cut exactly |
| KeySpaces.ShortRangeAcrossPrefixes | pageserver/src/repository.rs:105-126 | a range of 16 keys across two prefixes is not |
| KeySpaces.AllPiecesKeepKeys | pageserver/src/keyspace.rs:20-63 | partitioning such ranges neither loses nor adds a key |
| CollectKeyspace.Collect | pageserver/src/pgdatadir_mapping.rs:546-621 | gives separated ranges with exactly the live keys, and only if everything is readable; it stops only at something unreadable, and its ordering assertion fails only on a clash of numbers |
| Modifications.DroppedIsDeleted | pageserver/src/pgdatadir_mapping.rs:846-1021 | committing an operation deletes, at the modification's LSN, exactly the keys of the relation or database that it successfully dropped |
| FlushNeutrality.FlushesAreNeutral | pageserver/src/pgdatadir_mapping.rs:1141-1197 | wherever flushes are put among the operations of a modification, the committed timeline is the same in every version, the cache and the logical size |
| FlushNeutrality.PerformAlike | pageserver/src/pgdatadir_mapping.rs:1201-1224 | with or without an earlier flush an operation does the same, down to its error |
| FlushNeutrality.FlushAlike | pageserver/src/pgdatadir_mapping.rs:1141-1170 | flushing leaves what is about to be committed as it was |
| RelSizeCache.CacheAgrees | pageserver/src/pgdatadir_mapping.rs:624-660 | over every run of modifications committed one at a time at increasing LSNs, a hit at or below the last record is the stored size |
| RelSizeCache.HitIsStored | pageserver/src/pgdatadir_mapping.rs:153-195 | in a good state a hit is the stored size at the requested LSN |
| RelSizeCache.PerformKeepsCache | pageserver/src/pgdatadir_mapping.rs:846-1021 | every operation keeps the cache in agreement |
| RelSizeCache.CommitKeepsCache | pageserver/src/pgdatadir_mapping.rs:1177-1197 | so does committing, for the new LSN too |
| RelSizeCache.ReadAgreesIff | pageserver/src/pgdatadir_mapping.rs:153-195 | after a latest read and the commit the cache answers with the stored size if and only if the read did not find a relation that the modification had resized and dropped |
| RelSizeCache.ReadAfterPendingDrop | pageserver/src/pgdatadir_mapping.rs:995-1021 | extend, drop, latest read, commit: the cache answers the old size where the new one is stored |
| RelExistence.ExistenceAgrees | pageserver/src/pgdatadir_mapping.rs:198-226 | over every such run, drops of databases included, get_rel_exists says what the relation directory at that LSN says, as long as a database that is set up anew has an empty directory |
| RelExistence.StartIsOk | pageserver/src/pgdatadir_mapping.rs:87-98 | such runs can start from any timeline whose cache is empty |
| RelExistence.ExistsIsListed | pageserver/src/pgdatadir_mapping.rs:198-226 | in a good state get_rel_exists at or below the last record says whether the directory at that LSN lists the relation |
| RelExistence.PerformKeepsExist | pageserver/src/pgdatadir_mapping.rs:846-1021 | creations list, drops take off the list and out of the cache, and nothing else does either, the drop of a database included |
| RelExistence.DroppedDbAnswers | pageserver/src/pgdatadir_mapping.rs:846-878 | after drop_dbdir get_rel_exists says that a relation of the database exists if and only if it was cached, or listed at the last record or by the modification |
| RelExistence.CreateAfterDropDb | pageserver/src/pgdatadir_mapping.rs:846-935 | a database is dropped and a relation created in it: an old relation exists by the cache and is not listed |
| RelExistence.CreateAgreesIff | pageserver/src/pgdatadir_mapping.rs:883-935 | a creation leaves get_rel_exists in agreement with the database's directory if and only if the database was listed or no other relation of it is cached |
| RelExistence.ResizeAgreesIff | pageserver/src/pgdatadir_mapping.rs:938-992 | truncating or extending leaves get_rel_exists in agreement with the directory if and only if the relation is listed, or the state before says that no size is stored for it |
| RelExistence.ExtendAfterDrop | pageserver/src/pgdatadir_mapping.rs:969-1021 | drop, extend, commit: the relation exists by the cache and is not listed |
| RelExistence.ReadAfterPendingDropExists | pageserver/src/pgdatadir_mapping.rs:995-1021 | drop, latest read, commit: the relation exists by the cache and is not listed |
| LogicalSize.IncrementalSizeIsTotal | pageserver/src/pgdatadir_mapping.rs:846-1021 | over every run that resizes and drops live relations, and databases whose size at the last record is their size now, after every commit the incremental logical size is the size counted from scratch |
| LogicalSize.EmptyIsOk | pageserver/src/pgdatadir_mapping.rs:684-712 | an empty timeline is a state to start such runs from |
| LogicalSize.CreateBalance | pageserver/src/pgdatadir_mapping.rs:883-935 | creation keeps recorded plus pending size equal to the total, whether it succeeds or not |
| LogicalSize.ResizeBalance | pageserver/src/pgdatadir_mapping.rs:938-992 | truncation and extension keep it if and only if the relation is live, or the state before says that no block is counted |
| LogicalSize.DropBalance | pageserver/src/pgdatadir_mapping.rs:995-1021 | dropping keeps it if and only if the relation is live, has no blocks, or cannot be dropped |
| LogicalSize.DropDbBalance | pageserver/src/pgdatadir_mapping.rs:846-878 | dropping a database keeps it if and only if the database cannot be counted at the last record, where the drop fails, or has the same size there and now |
| LogicalSize.CountedAtLast | pageserver/src/pgdatadir_mapping.rs:132-151 | the drop counts the sizes of the relations listed at the last record, cache hits included, and fails exactly when one of them is unreadable |
| LogicalSize.UntouchedCount | pageserver/src/pgdatadir_mapping.rs:132-151 | a database the modification has not touched has the same size at the last record and now |
| LogicalSize.RelmapBalance | pageserver/src/pgdatadir_mapping.rs:780-813 | storing a relation map keeps it if and only if the map is not that of (0, 0), whose key is that of the list of databases |
| LogicalSize.ActKeepsSize | pageserver/src/pgdatadir_mapping.rs:1141-1197 | flush, commit and the start of the next modification keep it |
| LogicalSize.CurrentLogicalSizeNonIncremental | pageserver/src/pgdatadir_mapping.rs:507-540 | counts the sizes of all live relations, and gives up exactly when a directory or a size is unreadable |
| DatadirModifications.Tline.GetRelExists | pageserver/src/pgdatadir_mapping.rs:198-226 | cache first, then the directory |
| DatadirModifications.Tline.RelSize | pageserver/src/pgdatadir_mapping.rs:153-195 | the size and the cache after it, missing free space and visibility maps counting as empty |
| DatadirModifications.Tline.DbSize | pageserver/src/pgdatadir_mapping.rs:132-151 | the sum over the listed relations in some order, up to the first unreadable one |
| DatadirModifications.DatadirModification.constructor | pageserver/src/pgdatadir_mapping.rs:87-98 | a modification starts with nothing pending |
| DatadirModifications.DatadirModification.PutRelCreation | pageserver/src/pgdatadir_mapping.rs:883-935 | does what the state machine's creation does, with its error |
| DatadirModifications.DatadirModification.PutRelTruncation | pageserver/src/pgdatadir_mapping.rs:938-965 | likewise for truncation, which does nothing when the relation is unknown at the last record |
| DatadirModifications.DatadirModification.PutRelExtend | pageserver/src/pgdatadir_mapping.rs:969-992 | likewise for extension, which never shrinks |
| DatadirModifications.DatadirModification.PutRelDrop | pageserver/src/pgdatadir_mapping.rs:995-1021 | likewise for the drop, which changes the directory even when the size turns out unreadable |
| DatadirModifications.DatadirModification.DropDbdir | pageserver/src/pgdatadir_mapping.rs:846-878 | likewise for the drop of a database |
| DatadirModifications.DatadirModification.PutRelPage | pageserver/src/pgdatadir_mapping.rs:758-767 | puts one page |
| DatadirModifications.DatadirModification.PutRelmapFile | pageserver/src/pgdatadir_mapping.rs:780-813 | puts the relation map, listing the database first if need be |
| DatadirModifications.DatadirModification.FlushBlocks | pageserver/src/pgdatadir_mapping.rs:1141-1170 | writes the pending blocks, relation sizes among them, once 10000 blocks are pending |
| DatadirModifications.DatadirModification.CommitAll | pageserver/src/pgdatadir_mapping.rs:1177-1197 | writes everything pending at the modification's LSN and settles the logical size |
| Transfer.AddRel | pageserver/src/basebackup.rs:242-280 | gives every segment with its pages, an empty relation one empty segment; fails to read exactly when the size or a page before block 2^32 - 131072 is unreadable, and otherwise overflows exactly above that many blocks |
| Transfer.ImportRel | pageserver/src/import_datadir.rs:112-195 | creates the relation unless it exists, puts the pages, extends to the segment's end |
| Transfer.ImportEffect | pageserver/src/import_datadir.rs:147-192 | the size becomes the greater of the old one and the segment's end, and the growth is what is counted |
| Transfer.RoundTrip | pageserver/src/import_datadir.rs:112-195 | importing the segments in any order, even repeatedly, restores the size and every page and counts exactly the relation's blocks |
| Transfer.CopyRel | pageserver/src/basebackup.rs:242-280 | what add_rel exports import_rel restores: whenever the export succeeds, importing its files one by one gives the relation as it was read |
| EvictionOrder.ListTenant | pageserver/src/disk_usage_eviction_task.rs:508-559 | a tenant's resident layers, and the size it is to keep: the override, or the size of its largest layer, resident or remote |
| EvictionOrder.LocalLayers | pageserver/src/tenant/timeline.rs:4506-4541 | a timeline's resident layers, and its largest layer |
| EvictionOrder.CollectEvictionCandidates | pageserver/src/disk_usage_eviction_task.rs:485-589 | every tenant's resident layers, most recent first, marked by what is above min_resident_size, in eviction order |
| EvictionOrder.PartitionByCumsum | pageserver/src/disk_usage_eviction_task.rs:565-580 | a layer is above when the more recent ones already exceed min_resident_size |
| EvictionOrder.AboveGoesFirst | pageserver/src/disk_usage_eviction_task.rs:582-588 | no Below layer goes before every Above layer of every tenant |
| EvictionOrder.KeptIsAsRecent | pageserver/src/disk_usage_eviction_task.rs:561-588 | within a tenant every kept layer is at least as recent as every victim |
| EvictionOrder.MinResidentSizeKept | pageserver/src/disk_usage_eviction_task.rs:545-580 | when no Below layer goes, each tenant keeps min_resident_size or all it has |
| EvictionOrder.LargestKept | pageserver/src/disk_usage_eviction_task.rs:534-559 | without an override each tenant then keeps as much as any one of its layers takes, or all it has |
| EvictionOrder.OneLayerStays | pageserver/src/disk_usage_eviction_task.rs:534-580 | each tenant with resident layers then keeps one of them |
| EvictionOrder.PrefixObeysPolicy | pageserver/src/disk_usage_eviction_task.rs:485-589 | whatever prefix of the candidates goes, Above goes first, kept layers are as recent as victims, and min_resident_size is kept, for all tenants and layers at once |
| Evictions.PlanIteration | pageserver/src/disk_usage_eviction_task.rs:286-367 | without pressure nothing is planned; with pressure the victims are the shortest sufficient prefix of the candidates and obey the policy |
| Evictions.PlanEvictions | pageserver/src/disk_usage_eviction_task.rs:332-367 | takes candidates while there is pressure, with the usage planned and the batches by timeline |
| Evictions.VictimsAreShortest | pageserver/src/disk_usage_eviction_task.rs:335-342 | the victims are the shortest prefix that ends the pressure, or all candidates, and no longer prefix brings pressure back, however percentages are rounded |
| Evictions.PlannedIsCounted | pageserver/src/disk_usage_eviction_task.rs:343-367 | planned usage is the start plus the Above victims, or plus all victims in the fallback |
| Evictions.BatchesAreBatched | pageserver/src/disk_usage_eviction_task.rs:350-355 | each timeline's batch is its victims in order, and timelines without victims have none |
| Evictions.BatchesWeighTheSame | pageserver/src/disk_usage_eviction_task.rs:350-355 | grouping by timeline loses no byte |
| Evictions.EvictBatch | pageserver/src/disk_usage_eviction_task.rs:383-414 | adds the evicted bytes, and counts the refused ones |
| Evictions.EvictBatches | pageserver/src/disk_usage_eviction_task.rs:369-422 | sums over all timelines in any order, and ends early exactly on cancellation |
| Evictions.Accounting | pageserver/src/disk_usage_eviction_task.rs:332-431 | planned minus assumed is the size of what was not evicted |
| Evictions.GapIsReported | pageserver/src/disk_usage_eviction_task.rs:383-431 | that size is what is reported as failed, plus what failed in an error or was skipped |
| Evictions.ReportExplainsIff | pageserver/src/disk_usage_eviction_task.rs:383-431 | the report explains the gap if and only if no layer that takes space failed in an error or was skipped |
| Evictions.PlannedIsAssumed | pageserver/src/disk_usage_eviction_task.rs:244-249 | planned and assumed usage agree when every eviction succeeds |
| FilesystemUsage.PressureMonotone | pageserver/src/disk_usage_eviction_task.rs:635-657 | freeing space never brings pressure, however results are rounded |
| FilesystemUsage.PctNeverRises | pageserver/src/disk_usage_eviction_task.rs:636-638 | nor does it raise the percentage |
| FilesystemUsage.PctWithinOne | pageserver/src/disk_usage_eviction_task.rs:636-638 | with a rounding off by a millionth at most the percentage is the exact one, or one off |
| FilesystemUsage.RoundedBelowShare | pageserver/src/disk_usage_eviction_task.rs:636-638 | with the roundings of 64-bit floats, 9 of 10 bytes available give 9 percent |
| FilesystemUsage.ExactlyExact | pageserver/src/disk_usage_eviction_task.rs:636-638 | without rounding the percentage is the exact one |
| FilesystemUsage.PctMeansShare | pageserver/src/disk_usage_eviction_task.rs:636-638 | the exact percentage is reached exactly when that share of the disk is used |
| PostgresConfs.DeescapeEscape | control_plane/src/postgresql_conf.rs:128-195 | deescape_str undoes escape_str on every string |
| PostgresConfs.DeescapeStr | control_plane/src/postgresql_conf.rs:160-195 | the loop computes the de-escaped string, failing exactly on octal escapes |
| PostgresConfs.QuotedStep | control_plane/src/postgresql_conf.rs:146-155 | the three replacements act on each character by itself |
| PostgresConfs.ReadBack | control_plane/src/postgresql_conf.rs:30-61 | a printed configuration read back has the last clean setting of every option |
| PostgresConfs.RoundTrip | control_plane/src/postgresql_conf.rs:30-125 | with clean values it has the same value for every option, the last setting winning |
| PostgresConfs.ReadBackIff | control_plane/src/postgresql_conf.rs:22-125 | a printed configuration is read back to the same options if and only if every name is one the reader knows and every last value has no white space but newlines |
| PostgresConfs.ReadBackIffClean | control_plane/src/postgresql_conf.rs:22-61 | one setting is read back if and only if the reader knows its name and its value has no white space but newlines |
| PostgresConfs.LineEndsAreLost | control_plane/src/postgresql_conf.rs:116-125 | printing what was read gives the same text if and only if it had no newline |
| PostgresConfs.PostgresConf.Append | control_plane/src/postgresql_conf.rs:105-109 | adds a line and sets the option |
| PostgresConfs.PostgresConf.Display | control_plane/src/postgresql_conf.rs:116-125 | joins the lines |
| PostgresConfs.Read | control_plane/src/postgresql_conf.rs:30-61 | reads line by line, later settings replacing earlier ones |

## Left out

- Network, HTTP, process management and the rest of `control_plane` and `compute_tools`: no state of their own worth a proof here.
- WAL decoding and ingest, layer maps, walredo and the inside of `Timeline`: replaced by a versioned map.
- Tar headers and file names: a segment file carries its relation and segment number.
- Encodings of the directory structs: they appear decoded.
- Metrics, logging and tracing, except the three page cache gauges.
- The bit patterns of 64-bit floats: `has_pressure` is proved for roundings of exact results.
- I/O errors of the store's writer, and integer overflow of byte and block counters held in 64 bits.
- Wrap-around of the two clock arms after 2^64 turns.
- A page put at block 0xffffffff: it would overwrite the relation's size, and the laws on sizes exclude it.
- SLRU, two-phase, control file and checkpoint operations of `DatadirModification`: they do not touch relations; their keys are in `CollectKeyspace` and `KeyLayout`.
- `append_line` and the typed getters of `PostgresConf`: no other operation depends on them.
- Cancellation while candidates are collected, and the fallback for a layer without a last activity: candidates are collected to the end from the activities given.
- PageCacheSafety.RunIsSafe: says nothing about termination of the retry loops, which depend on the scheduler; the clock sweep's own bound is in ClockSweep.FindVictimShared.
- ClockSweep.Clock.FindVictim: states the counts exactly while this sweep alone changes them; with other threads at work see ClockSweep.FindVictimShared.
- VictimSlots.OpenFiles.FindVictimSlot: the arm and the flags are changed by this sweep only; the bound of 2n+1 turns does not depend on them.
- Transfer.AddRel: segments already written to the archive when a later page cannot be read are not part of the result.
- VirtualFileRefinement.StepRefines: the position is moved in one step with the read or write, since the source holds a mutable reference to the file for the whole call.
