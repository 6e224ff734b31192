# Verified model of den-edge

A Dafny model of the state machines at the centre of den-edge: the two library stores its benchmark compares, the held
requests and the assistant queue that rides on them, guest grants, rate limits, cache validators, the wake controller and
the admission lanes. Check everything with `dafny verify dfyconfig.toml`.

| part | files |
|---|---|
| Library stores, disk and crashes | `LibraryLog`, `RangeMeaning`, `IndexCodec`, `Disk`, `CowSpec`, `CowOpen`, `CowContents`, `CowCrash`, `CowOps`, `CowCompact`, `CowReopen`, `CowTheorems`, `CowRuns`, `Stores`, `StoreObjects` |
| Held requests | `Holds`, `HoldTable` |
| Assistant queue and its drains | `AssistantQueue`, `QueueObject`, `DrainProtocol`, `DrainAnswers` |
| Rate limits | `Throttles`, `RateBounds`, `ThrottleTable` |
| Calendar, dates, conditional requests | `Calendar`, `Decimal`, `HttpDate`, `Revalidate` |
| Cached file sidecars | `SidecarCodec`, `Sidecar`, `SidecarProgress` |
| Guest grants | `GrantRecord`, `GrantFields`, `GrantStore`, `GrantRuns`, `GrantTable`, `SessionKill`, `Base64Url` |
| Wake controller | `WakeEvents`, `WakeController`, `WakeSnapshots`, `WakeTable` |
| Admission lanes | `Admission`, `AdmissionLanes` |
| Shared | `Bytes`, `Results`, `Ordered`, `Counting` |

Each part has the same shape. What an operation does is a function on values; classes and loops that work in place are
proved to compute it; concurrent parts are state machines over the steps between two awaits; and the theorems are about
every run of those steps, told from histories and written-out conditions rather than from the functions they are about.
Where a promise turns out not to hold of the code, the code is kept, a lemma gives the input or the run on which it fails,
and another states exactly when it does hold:

- a state the store accepts can be one it cannot open again (`CowRuns.AcceptedThenRefused`);
- a compaction cut short can block every later one (`CowRuns.CutCompactionBlocks`);
- a throttle key that comes back to counting after use as a bucket can be answered by what was swept
  (`Throttles.MixedKeysDiffer`), and the window's bound fails for the largest limit (`RateBounds.WindowRateIff`);
- an append dropped after its save leaves its drain waiting (`DrainProtocol.DroppedAppendLosesWakeUp`);
- dates from the year 10000 on are printed and not read back (`HttpDate.TenThousandUnread`);
- the tag comparison is the weak one only for a strong tag (`Revalidate.WeakComparison`);
- a rename inside a publisher's critical section mislabels a file, by maintenance or by an earlier publisher that was
  dropped while writing (`Sidecar.ForeignRenameMisleads`, `Sidecar.LatePutMisleads`);
- a ticket whose first save fails to sync admits a second device (`GrantRuns.TicketAdmitsTwo`);
- a library is reserved twice after a reservation that stops short, or a sweep that deletes a pointer and not its record
  (`GrantStore.NotThroughClaimedTwice`, `GrantRuns.ReservedTwice`, `GrantRuns.SweptAndReservedAgain`);
- a new code can come without a free device slot (`GrantRecord.LoweredLimitLeavesNoRoom`);
- a session kill can be acknowledged for an end stored again after it (`SessionKill.ReExpiryMisleads`), or with nothing
  sent at all by a process without its secret or relay (`SessionKill.UnconfiguredMisleads`);
- a stored wake watermark can fall when two polls overlap (`WakeSnapshots.WatermarkFalls`).

## Assumptions

- Disk: a rename is atomic; a crash keeps the synced bytes of a file and any prefix of the others, and any directory
  version since the last directory sync; no file is changed by anyone else.
- Clocks that the code reads for expiry and rates never go back, except in grants and session kills, where any times do.
- Random ids and hashes never collide: they are opaque values, and fresh ones are numbered.
- A lock held across awaits makes what it protects one step; where the source lets go between two awaits, the model has
  two steps.
- A request is not dropped inside a locked section, except where there is a step for it: openers, renewers and publishers
  of cached files (`Sidecar`), drains, and appends after their save (`DrainProtocol`), `end_sessions` (`SessionKill`) and
  admitted requests (`Admission`). A grant save that stores its record and fails to sync (`GrantStore.Save`) stands for a
  request dropped at that point too.
- Integers are unbounded except where the width matters: the stores assume 64-bit counters have not overflowed
  (`CowReopen.Machine`, `IndexCodec.Sized`), 32-bit lengths, checksums, generation counters and parsers are modelled at their width.

## Model

| member | source | states |
|---|---|---|
| `CowTheorems.CrashAtomic` | bench/library_v3.rs:126-173 | Cut any batch or compaction after any action, keep any part of the unsynced bytes and any of the unsynced directory versions: opening answers for exactly the state before or exactly the state after the operation. |
| `CowTheorems.ReopensIffFits` | bench/library_v3.rs:126-145 | Opening a quiet disk gives back exactly the running state, key map included, if and only if the state is within the limits only `read_index` checks (50,000 rows, 200 KiB fragments, 256-byte keys, numbers up to the head). |
| `CowTheorems.FitsIffLogFits` | bench/library_v3.rs:264-276 | Whether a state can be opened again is decided by its live writes alone, so a caller can tell before a batch is made. |
| `CowRuns.AcceptedThenRefused` | bench/library_v3.rs:147-173 | A run from an empty directory: the first opening, one batch of a fragment one byte over 200 KiB that succeeds, a crash with nothing under way, and an opening refused with `BadBounds`. |
| `CowTheorems.OpSafe` | bench/library_v3.rs:147-173 | Every prefix of a batch’s disk actions, published, unpublished or failing on an over-long fragment, leaves only directory versions that publish the old or the new state. |
| `CowTheorems.CompactSafe` | bench/library_v3.rs:209-236 | The same for every prefix of a compaction: copy, index, marker, clean-up. |
| `CowRuns.RunsAreSound` | bench/library_v3.rs:126-236 | From any sound system, over every run of openings, batches, compactions and crashes, the open store holds exactly a history of whole published batches, and an opening is never refused because a file is torn or missing. |
| `CowRuns.RunsFromNothing` | bench/library_v3.rs:126-236 | The same from an empty directory, the first opening and any crashes of it included. |
| `CowRuns.NextGrows` | bench/library_v3.rs:147-173 | From event to event the history only grows, by whole batches: no crash loses a published write. |
| `CowRuns.InitCrash` | bench/library_v3.rs:126-134 | A crash during the very first opening leaves a directory the next opening starts over on, or the empty store. |
| `CowRuns.CutCompactionBlocks` | bench/library_v3.rs:209-236 | Once a cut compaction has left the next payload file behind, `create_new` refuses every later compaction, over every run of batches, attempted compactions, crashes and reopenings. |
| `CowRuns.CutCompactionLeaves` | bench/library_v3.rs:209-236 | Such a cut is possible: a crash right after the file is created can leave it. |
| `CowReopen.KeysRebuilt` | bench/library_v3.rs:135-144 | Collecting the read rows by key rebuilds exactly the key map the running store held. |
| `CowReopen.SafeReopens` | bench/library_v3.rs:126-145 | Opening after a crash of a disk on which two states may be published gives one of the two, and leaves the disk publishing it. |
| `CowOpen.OpenedIsReadable` | bench/library_v3.rs:126-145 | Whatever bytes the files hold, a store that opens has every row inside its payload and within the reader’s limits, and points each key to its last row. |
| `CowOpen.CompactionCleansUp` | bench/library_v3.rs:209-236 | A compaction that succeeds leaves nothing of the generation before it. |
| `CowContents.DescribesStaged` | bench/library_v3.rs:147-173 | The tables and payload of a staged batch describe the log with its writes: each live row locates its own write’s bytes. |
| `CowContents.DescribesMoved` | bench/library_v3.rs:209-236 | The tables of a compaction describe the same log in a payload of nothing but the live fragments, in order. |
| `CowSpec.MarkerRoundTrip` | bench/library_v3.rs:127-134 | The generation written to the marker is the one read back from it. |
| `IndexCodec.IndexRoundTrip` | bench/library_v3.rs:239-284 | Reading a written index gives exactly the head and rows, or `TooManyRows`, or `BadBounds`, the success case if and only if the rows are within the reader’s limits. |
| `IndexCodec.IndexLayout` | bench/library_v3.rs:239-256 | Where the magic, the head, the count and every row’s number, offset, length, key length and key stand in the file, byte by byte, least significant first. |
| `IndexCodec.WriteIndex` | bench/library_v3.rs:239-256 | The row loop writes the encoding the round trip is about. |
| `IndexCodec.ReadIndex` | bench/library_v3.rs:258-284 | The reading loop, over any bytes whatever, returns the decoded rows or the same error. |
| `LibraryLog.LiveIsLast` | bench/library_v3.rs:49-72 | A write is in the sequence table exactly when no later write has its key. |
| `LibraryLog.TracksWrite` | bench/library_v3.rs:54-68 | One write keeps both tables exact: rows are the live writes, and each key points to its last one. |
| `LibraryLog.TablesAreInverse` | bench/library_v3.rs:49-72 | The key and sequence tables are inverse bijections and nothing in them is past the head. |
| `LibraryLog.AfterIsLiveAfter` | bench/library_v3.rs:74-93 | Reading the sequence table past `since` visits exactly the live writes past it, oldest first. |
| `RangeMeaning.RangeSays` | bench/library_v3.rs:74-93 | A range answer counts, measures and sums up exactly the writes after `since` that no later write has replaced, oldest first, the first `limit` of them unless the limit is zero. |
| `RangeMeaning.ChecksumOfAll` | bench/library_v3.rs:315-320 | The checksum is the xor of all the fragments’ bytes in one run, each turned left by five bits for every byte after it. |
| `Stores.CowRangeRefines` | bench/library_v3.rs:181-201 | The copy-on-write `range` answers what the list of writes answers, bytes and checksum included. |
| `Stores.RedbRangeRefines` | bench/library_v3.rs:74-93 | So does the redb `range`. |
| `Stores.StoresAgree` | bench/library_v3.rs:49-236 | After the same batches and compactions both stores give the same answer for every `since` and every limit; a limit of zero means no limit in both. |
| `Stores.CompactionInvisible` | bench/library_v3.rs:209-236 | A compaction that succeeds changes no answer and leaves a payload exactly as long as the live fragments. |
| `StoreObjects.Checksum` | bench/library_v3.rs:315-320 | The rotate-and-xor loop computes the checksum the answers are compared by. |
| `StoreObjects.CowStore.BatchStage` | bench/library_v3.rs:147-173 | The batch updates the maps only when it publishes, and the disk becomes the disk after exactly the specified actions. |
| `StoreObjects.CowStore.Range` | bench/library_v3.rs:181-201 | The reading loop returns the count, bytes and checksum of the located fragments past `since`. |
| `StoreObjects.CowStore.Compact` | bench/library_v3.rs:209-236 | The copying loop, the index, the marker and the clean-up together are the specified compaction, or nothing when the next file is in the way. |
| `StoreObjects.Open` | bench/library_v3.rs:126-145 | Opening returns the loaded state, initialises an empty directory, or fails with the reader’s error. |
| `StoreObjects.RedbStore.Batch` | bench/library_v3.rs:49-72 | The transaction’s loop replaces the committed tables by the specified ones. |
| `StoreObjects.RedbStore.Range` | bench/library_v3.rs:74-93 | The table scan returns the count, bytes and checksum of the fragments past `since`. |
| `Holds.AlwaysConsistent` | src/hold.rs:60-184 | In every reachable state the total and each owner’s count equal the active holds, both caps hold, and the waiting lists name exactly the active holds under exactly their keys, with no empty list. |
| `Holds.HeldExactly` | src/hold.rs:60-184 | Over every run the places in use are exactly those given and neither given back nor cancelled since, one is given exactly while both caps leave room, and a write to a key wakes exactly the holds in use that wait on it. |
| `Holds.TakenConsistent` | src/hold.rs:60-81 | Taking a hold under the caps keeps all of that. |
| `Holds.CancelledConsistent` | src/hold.rs:101-133 | Cancelling an owner frees its whole share and leaves the lists exact, while its guards still exist. |
| `Holds.DroppedConsistent` | src/hold.rs:162-184 | Dropping a guard, cancelled or not, underflows nothing and leaves the lists exact. |
| `Holds.StaleDropsGiveNothingBack` | src/hold.rs:101-184 | A hold removed by `cancel_owner` can be dropped after any later steps, in any order, without giving back its replacement’s place. |
| `HoldTable.FilterLists` | src/hold.rs:104-117 | The retaining loop over the lists removes exactly the owner’s ids, drops emptied lists and collects what it removed. |
| `HoldTable.HoldTable.Hold` | src/hold.rs:60-81 | A hold is refused exactly when stopped or at a cap, and otherwise becomes the specified state under a fresh id. |
| `HoldTable.HoldTable.CancelOwner` | src/hold.rs:101-133 | The new table is the specified one, and exactly the removed holds are notified. |
| `HoldTable.HoldTable.Drop` | src/hold.rs:162-184 | The new table is the specified one; a guard no longer active changes nothing. |
| `HoldTable.HoldTable.Wake` | src/hold.rs:84-91 | Exactly the holds waiting on the key are notified. |
| `HoldTable.HoldTable.ReleaseAll` | src/hold.rs:53-55 | Stopping refuses every later hold and changes no existing one. |
| `HoldTable.HoldTable.WaitingOn` | src/hold.rs:95-97 | A key is waited on exactly when an active hold lists it. |
| `DrainProtocol.NoLostWakeUp` | src/assistant.rs:539-604 | Over every interleaving of drains (hold, read, wait) and appends (save, wake), with expiry, shutdown and clients that go away, a drain waiting unwoken while an unread committed request waits in its queue means that request’s append is between its save and its wake, or was dropped there. |
| `DrainProtocol.NoneDropped` | src/assistant.rs:539-561 | No append is dropped there in a run without such a step, so the second case never holds then. |
| `DrainProtocol.DroppedAppendLosesWakeUp` | src/assistant.rs:539-561 | A run in which one is: a drain waits on a queue with a request in it and nothing left to wake it. |
| `DrainProtocol.AtMostOneWait` | src/assistant.rs:584-604 | A drain waits at most once, whatever wakes it. |
| `DrainProtocol.AlwaysKept` | src/hold.rs:60-91 | Every hold in the table belongs to the one drain that took it, on that drain’s own key. |
| `DrainAnswers.AnswersWhatWaits` | src/assistant.rs:587-603 | Over every interleaving, whenever a drain comes to answer, held, refused a hold or woken, its answer is exactly the requests of its queue that were saved, are not acknowledged and are not past their lane’s time at that moment, each as it was saved, oldest first; read off the saves and acknowledgements of the run alone. |
| `DrainAnswers.ReadDecides` | src/assistant.rs:587-600 | A drain that has registered or woken waits after its read exactly when it holds a place and no request waits; otherwise it answers. |
| `DrainAnswers.WokenAnswers` | src/assistant.rs:593-603 | A waiting drain that is woken, by an append, its deadline or a stop, answers exactly what waits by then. |
| `DrainAnswers.PlaceGivenIff` | src/assistant.rs:583-586 | A drain gets a place exactly when it asks to wait, the process is not stopping, and fewer holds are in use than both caps; the place is on its own queue. |
| `DrainAnswers.AppendNumbered` | src/assistant.rs:539-552 | An append is taken exactly while fewer than 200 requests wait in a library’s queue, or 20 in a TV’s, and is numbered one past every request ever saved there. |
| `DrainAnswers.HistoryHolds` | src/assistant.rs:409-637 | After every run each stored queue stands for its own history of saves, acknowledgements and time. |
| `AssistantQueue.AlwaysStands` | src/assistant.rs:409-419 | From every reachable state on, and at every later time, a load returns exactly the unacknowledged fresh requests and the acknowledged fresh ones, in order. |
| `AssistantQueue.ReportIsFate` | src/assistant.rs:745-755 | Every number ever issued is reported as exactly one of queued, taken or unknown, as its own history says. |
| `AssistantQueue.FateOnlyMovesOn` | src/assistant.rs:745-755 | A request’s reported state only moves from queued to taken to unknown. |
| `AssistantQueue.DrainIsExact` | src/assistant.rs:409-419 | A load returns exactly the requests neither acknowledged nor expired, oldest first, and the next number was never issued. |
| `AssistantQueue.AcksCompose` | src/assistant.rs:623-637 | Two acknowledgements do what the larger alone does, so repeating one does nothing. |
| `AssistantQueue.AckRemoves` | src/assistant.rs:623-637 | An acknowledgement removes, and counts, exactly the requests waiting up to its number, and leaves exactly the later ones. |
| `AssistantQueue.FullIsFull` | src/assistant.rs:539-552 | An append is refused exactly when the lane is full of requests still waiting. |
| `AssistantQueue.KeysAreApart` | src/assistant.rs:112-140 | Different lanes and libraries share neither their stored file nor the key their drains wait on. |
| `AssistantQueue.RequestsApart` | src/assistant.rs:115-131 | Two requests reach the same stored queue if and only if their parameters parse to the same lane of the same library. |
| `AssistantQueue.LaneOf` | src/assistant.rs:112-123 | Which parameters reach the library’s queue, the shared TV queue or one TV’s lane, and which are refused for the lane id rather than the queue. |
| `QueueObject.LoadQueue` | src/assistant.rs:409-419 | The two retaining loops compute the specified load. |
| `QueueObject.QueueFile.Append` | src/assistant.rs:539-552 | The file becomes the specified queue and the number given is the one issued, or it is unchanged and full. |
| `QueueObject.QueueFile.Ack` | src/assistant.rs:623-637 | The file becomes the specified queue and the answer is how many requests were removed. |
| `QueueObject.QueueFile.GetRequest` | src/assistant.rs:745-755 | The two searches report exactly the specified state. |
| `Throttles.SweepingInvisible` | src/link.rs:38-52 | With each key used as a bucket, then for counting, then as a bucket again, any of these parts empty, every request is answered as by a table that is never swept and skips only the requests refused for room; and only a key the table does not hold is refused for room. |
| `Throttles.MixedKeysDiffer` | src/link.rs:38-175 | The one order left out is counting, bucket, counting: a run of 1026 requests after which the table that swept such a key admits an act the never-swept table refuses. |
| `Throttles.OpenBudgetsSafe` | src/link.rs:38-52 | A key whose window is open is neither refused for room nor forgotten, whoever acts. |
| `Throttles.TableBounded` | src/link.rs:38-52 | The table never holds more than 8192 budgets. |
| `Throttles.RefusedWhenFull` | src/link.rs:38-52 | A call is refused for room exactly when its key is new and the table holds 8192 budgets none of which is past, or was swept for room within the last second and not since. |
| `Throttles.SweptForRoom` | src/link.rs:38-52 | A sweep for room leaves only budgets whose time is not past and puts off the next one by a second. |
| `RateBounds.CellRate` | src/link.rs:163-175 | In any span of length T a bucket of p acts a minute admits at most its burst, or one, and T / (60,000 / p) acts more, from any starting budget; with p zero one a minute, with p over 60,000 one a millisecond. |
| `RateBounds.TableCellRate` | src/link.rs:38-52 | The same bound, in the same numbers, through the shared table, with its sweeps, ceiling and other callers in between. |
| `RateBounds.CellRetryExact` | src/link.rs:163-175 | A refused act spends nothing and its retry time is exact: refused at every earlier instant, admitted at that one. |
| `RateBounds.WholeBurst` | src/link.rs:163-175 | A bucket that is full again admits its whole burst at one instant, and the next act waits exactly 60,000 / p milliseconds. |
| `RateBounds.SteadyAlwaysAdmitted` | src/link.rs:163-175 | A caller that leaves 60,000 / p milliseconds between its acts is never refused. |
| `RateBounds.WindowRate` | src/link.rs:137-156 | The fixed window admits at most twice its limit in any span of one window, for every limit below the largest 32-bit one and every window that is not empty. |
| `RateBounds.WindowRateIff` | src/link.rs:137-156 | And exactly for those, and the limit of zero: at the largest limit, or in an empty window, three acts of the whole limit are admitted at one instant. |
| `RateBounds.TableWindowRate` | src/link.rs:38-52 | The same bound through the shared table, with its sweeps, ceiling and other callers in between. |
| `RateBounds.WindowRateSharp` | src/link.rs:137-156 | And twice the limit can be reached. |
| `RateBounds.WindowRetryExact` | src/link.rs:137-156 | A refused act spends nothing and is refused until the window closes; then it fits if it ever can. |
| `RateBounds.WindowIsGreedy` | src/link.rs:137-156 | From its first act until it closes, a window takes exactly the acts that still fit, in the order they come, and a refused one is told to wait for the window’s end. |
| `RateBounds.SlidingRetryExact` | src/link.rs:106-119 | The sliding guard’s refusals spend nothing and its retry time is exact. |
| `RateBounds.SlidingIsGreedy` | src/link.rs:106-119 | Within a minute of its first act the sliding guard takes exactly the acts that still fit, in the order they come. |
| `RateBounds.SlidingClears` | src/link.rs:106-119 | An admitted act holds the window open for exactly a minute; a minute’s pause brings the whole limit back. |
| `RateBounds.SlidingNeverForgets` | src/link.rs:106-119 | A caller that never pauses for a whole window is refused at the limit however slowly it asks. |
| `ThrottleTable.Sweep` | src/link.rs:41-46 | The retaining loop drops exactly the budgets whose time is past. |
| `ThrottleTable.ThrottleTable.Entry` | src/link.rs:38-52 | Sweeping and the ceiling leave the specified table and say whether the budget has a place. |
| `ThrottleTable.ThrottleTable.ThrottledBy` | src/link.rs:106-119 | The table and answer are the specified sliding-guard call. |
| `ThrottleTable.ThrottleTable.ThrottledPerWindow` | src/link.rs:137-156 | The table and answer are the specified fixed-window call. |
| `ThrottleTable.ThrottleTable.ThrottledBucket` | src/link.rs:163-175 | The table and answer are those of the cell-rate call the bounds above are about. |
| `Calendar.CivilValid` | src/cache.rs:498-520 | `civil` of every integer day is a valid date, and `days_from_civil` leads back to the day. |
| `Calendar.CivilInverse` | src/cache.rs:498-520 | `civil` of `days_from_civil` of every valid date is the date. |
| `Calendar.CivilSteps` | src/cache.rs:498-509 | `civil(d + 1)` is the Gregorian day after `civil(d)`, for every integer day. |
| `Calendar.CivilOrdered` | src/cache.rs:498-509 | Later days have later dates. |
| `Calendar.MonthIndexIsCivil` | src/grants.rs:273-284 | The separately written `month_index` is year * 12 + month - 1 of `civil`. |
| `Calendar.MonthIndexMonotone` | src/grants.rs:273-284 | And it never goes back. |
| `HttpDate.DateRoundTrip` | src/cache.rs:453-495 | What `http_date` prints, `parse_http_date` reads back as the same second if the year is at most 9999, and refuses otherwise. |
| `HttpDate.YearsToFourDigits` | src/cache.rs:453-466 | The year is at most 9999 exactly through second 253,402,300,799, so a caller can tell. |
| `HttpDate.TenThousandUnread` | src/cache.rs:477-495 | The next second is printed and not read back. |
| `HttpDate.DayPrinted` | src/cache.rs:453-458 | The weekday printed is the one counted day by day from Thursday 1 January 1970. |
| `HttpDate.FixdateForm` | src/cache.rs:453-466 | Through the year 9999 the text is exactly the fixed form: weekday, two-digit day, month name, four-digit year and clock, each in its place. |
| `HttpDate.IsoForm` | src/cache.rs:469-473 | The ISO day is the four-digit year, the month and the day, in that order. |
| `HttpDate.IsoOrdered` | src/cache.rs:469-473 | Through the year 9999 `iso_date` texts stand in text order exactly as their days do. |
| `HttpDate.ClockRoundTrip` | src/cache.rs:486-495 | The clock part is read back as the seconds of the day it shows. |
| `Revalidate.EchoedDates` | src/cache.rs:430-440 | A client that echoes a date and sends no `If-None-Match` gets 304 exactly when the answer’s second is not later, through the year 9999 (section 13.1.3 of RFC 9110). |
| `Revalidate.KeepsItsStatus` | src/cache.rs:416-446 | An answer keeps its status when it is not a 200, when there is no condition, when tags are sent and it has none, and when a date is sent and either date is missing or unreadable. |
| `Revalidate.ListedTags` | src/cache.rs:420-429 | Over any number of `If-None-Match` lines, some unreadable, and whatever the dates, an answer is 304 exactly when it has a tag and a readable line lists the star, that tag, or that tag marked weak (section 13.1.2 of RFC 9110). |
| `Revalidate.WeakComparison` | src/cache.rs:425-427 | The tag comparison is the weak one of section 8.8.3.2 of RFC 9110 for every tag if and only if the answer’s own tag is not weak. |
| `SidecarCodec.RoundTrip` | src/cache.rs:62-107 | A written sidecar is read back for its own stamp as its digest, and for no other stamp. |
| `SidecarCodec.ReadExactly` | src/cache.rs:82-107 | Bytes are read for a stamp as a digest if and only if, the two reserved bytes aside, they are the record of both. |
| `SidecarCodec.RecordLayout` | src/cache.rs:62-74 | Where each field of the 64 bytes stands, byte by byte, most significant first. |
| `SidecarCodec.Encode` | src/cache.rs:62-74 | Filling the zeroed buffer field by field gives the specified 64 bytes. |
| `Sidecar.TagsAreTheirFiles` | src/cache.rs:220-346 | Under any interleaving of opens, hash upgrades, renewals, publishers, tasks dropped anywhere, body and sidecar renames that land after their task is gone, touches, sweeps and renames by anyone else, every answer’s tag is the digest of the file it holds open, and a sidecar matching a file’s stamp carries that file’s digest, as long as no file is put under the name by anyone but the publisher between a publisher’s own put and its stamp, unless it has the same bytes or is longer than the publisher’s body. |
| `SidecarProgress.OpenerIsServed` | src/cache.rs:304-346 | From any state of the protocol, an opener left alone with a free lock and a file under the name is served that file with its stamp and the digest of its bytes, whether the sidecar matches, is stale or is missing; a sidecar matches afterwards, and the next opener is served from it without hashing. |
| `SidecarProgress.WaiterIsServed` | src/cache.rs:310-315 | An opener that waited for the lock behind one that recorded is served from that record without hashing. |
| `SidecarProgress.UnservedSawNothing` | src/cache.rs:304-346 | Under any interleaving an opener starts on the file then under the name, ends without an answer only by looking again when no file was there, and otherwise goes away only by being dropped. |
| `SidecarProgress.PublisherPublishes` | src/cache.rs:274-298 | A publisher left alone puts its file under the name and records that file’s own stamp with its digest. |
| `SidecarProgress.RenewerRenews` | src/cache.rs:217-243 | A renewer left alone moves the time of the very file it holds and of no other; a sidecar then matches it exactly when its stamp is still the one under the name, and otherwise the sidecar is untouched. |
| `Sidecar.NotCarefulMisleads` | src/cache.rs:274-298 | That condition is exact: from any step that breaks it, the publisher goes on to record and the next opener is answered with one file’s bytes under another’s tag. |
| `Sidecar.StampedRight` | src/cache.rs:292-298 | What a publisher records is right if and only if the file it stamps holds the bytes it wrote. |
| `Sidecar.ForeignRenameMisleads` | src/cache.rs:274-298 | A run in which maintenance renames a file over the name there. |
| `Sidecar.LatePutMisleads` | src/tmdb.rs:1963-1982 | A run with nothing external in it: a publisher is dropped while its blocking write is under way, another takes the lock and puts its body, and the first one’s rename lands before the second reads the stamp. |
| `Base64Url.Bijection` | src/grants.rs:461-492 | A text decodes to some bytes if and only if it is their encoding, for every text and every byte string (sections 3.5 and 5 of RFC 4648). |
| `Base64Url.Alphabet` | src/grants.rs:461-473 | The 64 symbols in order (section 5 of RFC 4648). |
| `Base64Url.Encode` | src/grants.rs:464-473 | The chunk loop writes the bytes’ bits, filled out with zeros, cut into sixes. |
| `Base64Url.Decode` | src/grants.rs:475-492 | The bit accumulator returns the bytes those bits spell, and refuses a length of one more than a multiple of four, an unknown symbol, or spare bits that are not zero. |
| `GrantRecord.LifeKeeps` | src/grants.rs:680-1573 | Over every run of operations on a record: a revoked one stays revoked and holds no devices, installs or personal install; any other’s installs are exactly its non-empty addons; `redeemed_at` and the library never change once set; `access_days` and `access_until` are never both set; devices stay distinct and are added one at a time, below the limit. |
| `GrantRecord.OperationKeeps` | src/grants.rs:863-965 | Each operation’s saved record is good and evolves from the one it loaded. |
| `GrantRecord.Apply` | src/grants.rs:680-749 | The field-by-field body, with its de-duplicating loop and early returns, computes the change that `GrantFields.UpdateFollows` and `GrantFields.CreateFollows` describe field by field, or nothing. |
| `GrantRecord.Dedupe` | src/grants.rs:688-697 | The de-duplicating loop keeps each listed addon once, in the order they first appear. |
| `GrantFields.UpdateFollows` | src/grants.rs:680-888 | An update is taken exactly when the grant is not revoked, every field is of its shape and range, and the grant is whole with it. Then name, addons, code expiry, days, end and devices each follow their own change — given is stored, null clears, absent keeps, and days or an end given clears the other — each lent addon has the segment given last, and nothing else changes but a kill no longer owed. |
| `GrantFields.CreateFollows` | src/grants.rs:680-787 | The same for a new grant, over one device, a code for fourteen days, no end of access and nothing redeemed. |
| `GrantFields.DedupedInOrder` | src/grants.rs:688-697 | The addons kept are the listed ones, each once, in the order of their first appearance. |
| `GrantFields.TrialRunsItsDays` | src/grants.rs:334-361 | A grant created for d days and first redeemed at t is live exactly before t + d days, through whatever happens until it is updated or revoked. |
| `GrantFields.FirstRedeemIff` | src/grants.rs:1226-1257 | A new grant’s code lets the first device in exactly before the code lapses, and before the end of access where there is one. |
| `GrantFields.LiveMeans` | src/grants.rs:334-361 | A grant is live exactly when it is not revoked, its end, absolute or counted from its first redemption, has not come, and, not redeemed yet, its code has not lapsed. |
| `GrantFields.NewCodeExact` | src/grants.rs:901-952 | A new code is issued exactly while access is not over, for a time within ninety days, fourteen unless given, with room made for one device where there is none, up to five; nothing else changes. |
| `GrantFields.OperationsTouchOnly` | src/grants.rs:955-1573 | Each other operation touches only its own fields: devices and the first redemption, the den install, the library, or what a revocation empties. |
| `GrantFields.TakenWhen` | src/grants.rs:955-1471 | A den install or a reservation is taken exactly from a redeemed, live grant, the latter only for a library free or its own; a revocation is stamped with its first moment; a sweep leaves an ended grant owing a kill for exactly its end and a live one owing none. |
| `GrantRecord.RevokedForGood` | src/grants.rs:955-965 | After a revocation, over any life, everything but revoking, sweeping or acknowledging again is refused. |
| `GrantRecord.DeviceStaysIn` | src/grants.rs:1227-1257 | A device let in stays in through any operations until the grant is revoked. |
| `GrantRecord.RedeemAgain` | src/grants.rs:1240-1257 | So, while the grant is live, that device is let in again by the current code and nothing changes. |
| `GrantRecord.ClockStartsOnce` | src/grants.rs:334-336 | A trial’s end is counted from the first redemption through whatever follows it. |
| `GrantRecord.EveryDeviceAdmitted` | src/grants.rs:1227-1257 | Every device a grant gains over its life was admitted at a moment of it, by the code then current before it lapsed or by a ticket to a redeemed grant, while the grant was live and not full. |
| `GrantRecord.OldCodeStaysRefused` | src/grants.rs:895-952 | A code that is no longer the grant’s is refused after any further operations, unless it is issued again. |
| `GrantRecord.NewCodeWorksIff` | src/grants.rs:932-939 | While the grant is live and the code has not lapsed, a new code lets a new device in if and only if the limit was not below the devices already in; the comment above it promises it always. |
| `GrantRecord.LoweredLimitLeavesNoRoom` | src/grants.rs:895-939 | Lowering the limit to one under three devices and then asking for a code gives a code no device can use. |
| `GrantStore.RunKeeps` | src/grants.rs:901-1573 | Over every run of the store’s steps, with saves that fail before or after storing, every record is good and an unreaped grant keeps its revocation, first redemption and library. |
| `GrantStore.TicketOnce` | src/grants.rs:1539-1573 | A ticket admits at most one device, and at most one more for each save that stored its device but failed to sync. |
| `GrantStore.TicketsLapse` | src/grants.rs:1539-1573 | Over every run, a ticket lets a device in only within ten minutes of its minting, only to the grant it was minted for, and only while that grant is live, redeemed and has room or the device already. |
| `GrantStore.TicketWorks` | src/grants.rs:1498-1573 | And for those ten minutes a new ticket does let a device in, on exactly those terms. |
| `GrantStore.TicketSpent` | src/grants.rs:1553-1573 | A ticket is spent exactly when its device was known or its save succeeded, and its device is stored unless the save stored nothing. |
| `GrantStore.MintSpares` | src/grants.rs:156-170 | Minting drops lapsed tickets and, of the others, only the grant’s own oldest beyond two. |
| `GrantStore.UnsyncedTicketAdmitsTwo` | src/grants.rs:417-421 | That exception is real: after such a save the same ticket admits a second device. |
| `GrantStore.AlwaysFewTickets` | src/grants.rs:156-170 | No grant ever has more than three tickets outstanding. |
| `GrantStore.MintTicket` | src/grants.rs:156-170 | Minting drops lapsed tickets and the grant’s oldest until there is room, keeps the rest, and adds the new one. |
| `GrantStore.LibrariesClaimedOnce` | src/grants.rs:1370-1471 | While every step writes through — a new reservation’s writes all succeed or its record is not stored, and a sweep that deletes a pointer deletes the record too — no two grants hold the same library. |
| `GrantStore.StepPointsIff` | src/grants.rs:1839-1853 | From a state where every reservation is found by its pointer, a step leaves it so if and only if it writes through. |
| `GrantStore.RetryPoints` | src/grants.rs:1439-1471 | A reservation whose pointer was never written is found again once its grant asks again, with nothing else changed. |
| `GrantStore.ReapedLate` | src/grants.rs:1839-1853 | A record is reaped exactly when its grant ended thirty days ago or more. |
| `GrantStore.NotThroughClaimedTwice` | src/grants.rs:1439-1471 | After any step that does not write through, any other grant free to reserve takes the same library with all its own writes succeeding. |
| `GrantRuns.ReservedTwice` | src/grants.rs:1453-1471 | A run from an empty server to two grants with one library, both when a reservation’s save does not sync and when its pointer is not put. |
| `GrantRuns.SweptAndReservedAgain` | src/grants.rs:1839-1853 | Another, in which a sweep deletes an ended grant’s pointer and fails to delete its record. |
| `GrantRuns.TicketAdmitsTwo` | src/grants.rs:1539-1573 | A run from an empty server in which one ticket admits two devices. |
| `GrantStore.InitialGood` | src/grants.rs:126-137 | A server with no grants satisfies everything the runs above start from. |
| `GrantTable.Grants.RedeemCode` | src/grants.rs:1226-1257 | The in-place redeem is the specified step, granted exactly when saved or already known. |
| `GrantTable.Grants.RedeemTicket` | src/grants.rs:1539-1573 | The in-place step spends the ticket exactly when it answers yes. |
| `GrantTable.Grants.ReserveLibrary` | src/grants.rs:1439-1471 | The in-place step writes the record, then the pointer, as specified, or nothing. |
| `GrantTable.Grants.EndGrant` | src/grants.rs:955-965 | The in-place step is the specified revocation. |
| `GrantTable.Grants.DeviceTicket` | src/grants.rs:156-170 | The in-place step is a specified minting. |
| `SessionKill.AckedMeansKilled` | src/grants.rs:1747-1782 | Across failed kills, lost answers, retries, restarts, extensions and re-expiry, `remux_kill_acked` implies a kill carried out after the end event in `remux_kill_for` was stored, in every run in which no end is stored again at the very time a task is already done with, and no process without the edge secret or the relay takes a kill as done for an end no kill has followed. |
| `SessionKill.NotCarefulMisleads` | src/grants.rs:1763-1782 | Both conditions are exact: from any reachable state, any step that breaks one leads on to an end acknowledged with no kill after it. |
| `SessionKill.ConfiguredNeverSkips` | src/grants.rs:1784-1793 | While every process in a run has the secret and the relay, none takes a kill as done without sending it. |
| `SessionKill.ConfiguredAckedMeansKilled` | src/grants.rs:1747-1793 | So in such runs the first condition alone is enough. |
| `SessionKill.UnconfiguredMisleads` | src/grants.rs:1784-1793 | Restarted without them between the sweep and the kill, the server acknowledges the end with no kill ever sent. |
| `SessionKill.StoredAgainMisleads` | src/grants.rs:1763-1782 | A task that has struck, or whose kill is confirmed, can acknowledge the same end stored again after it. |
| `SessionKill.ReExpiryMisleads` | src/grants.rs:878-882 | And such a state is reached: extending an expired grant and shortening it back to the same end while a kill’s answer is on its way. |
| `SessionKill.ObligationKept` | src/grants.rs:1747-1782 | In every reachable state the record says what the history of the obligation says, and no kill was ever sent by a task that read the record acknowledged. |
| `SessionKill.KillCompletes` | src/grants.rs:1747-1782 | From any reachable state with a kill owed for an end less than six hours old, a task left alone sends it, and once answered it is acknowledged for that very end, with nothing else in the record changed. |
| `SessionKill.ReadDecides` | src/grants.rs:1750-1762 | A task goes on to a kill exactly when the record is not acknowledged and its end, if any, is less than six hours old. |
| `SessionKill.EveryEndOwed` | src/grants.rs:1853-1877 | In every reachable state a stored sweep or revocation leaves an ended grant owing a kill for its own end, acknowledged only if that very end, to the millisecond, had been owed and acknowledged before, and still to be killed while sessions could remain. |
| `SessionKill.SweptOnce` | src/grants.rs:1853-1877 | A sweep repeated later, with nothing else in between, owes nothing new and un-acknowledges nothing. |
| `SessionKill.ExtensionOwesAfresh` | src/grants.rs:878-882 | An extension that revives a grant drops what its last expiry left. |
| `WakeController.PendingIsOutstanding` | src/controller.rs:197-256 | In every reachable state a target’s pending event exists exactly when a trigger is outstanding in its history, with the union of the sources and the first and last of the times. |
| `WakeEvents.NeverSwallowed` | src/controller.rs:611-625 | A trigger stays outstanding until its target is dropped or an id issued for it at or after the trigger is acknowledged. |
| `WakeEvents.OlderIdSpares` | src/controller.rs:206-218 | Acknowledging an id given out before a trigger leaves the trigger alone. |
| `WakeEvents.RaisedStands` | src/controller.rs:206-218 | A trigger keeps the pending table the summary of what is outstanding. |
| `WakeEvents.AckedStands` | src/controller.rs:611-625 | So does an acknowledgement, of whatever id. |
| `WakeController.WatermarksNeverFall` | src/controller.rs:611-625 | With each poll one atomic step, its record read included, a stored watermark never moves back, across failed saves and restarts. |
| `WakeSnapshots.FallsIff` | src/controller.rs:526-528 | With the record read before the lock, a stored watermark falls if and only if a poll is stored that read an earlier one and did not itself acknowledge as far. |
| `WakeSnapshots.CurrentPollsNeverFall` | src/controller.rs:611-658 | So it never falls while every stored poll read the watermarks then stored. |
| `WakeSnapshots.OverlapUndoes` | src/controller.rs:526-658 | Of two polls that read the same record, the second, stored without acknowledging, undoes the first one’s watermark. |
| `WakeSnapshots.WatermarkFalls` | src/controller.rs:526-658 | A run from a controller that never polled in which a stored watermark goes back. |
| `WakeSnapshots.OverlappingPollsKeep` | src/controller.rs:569-658 | Pending events stay exactly what is outstanding, however polls overlap. |
| `WakeController.WatermarksAreAcked` | src/controller.rs:611-625 | While every snapshot is stored, a watermark is exactly the latest trigger an acknowledgement ever cleared. |
| `WakeController.CatchUpExact` | src/controller.rs:627-653 | A poll that registers anew leaves outstanding for each target, beyond what its registration and acknowledgements leave, exactly the oldest and newest message of its inbox and the newest request of its lane, each only while its TV is offline and when the newest is later than the watermark; a poll that only renews the lease adds nothing. |
| `WakeController.NewsExact` | src/controller.rs:220-256 | News at a time leaves exactly one trigger more outstanding for a target, of its source and that time, if the lease runs past it and the news is for the target — in the lane of its TV, or in its inbox while its TV is offline — and changes nothing otherwise. |
| `WakeController.PollLeases` | src/controller.rs:572-596 | A poll leases exactly its targets for sixty seconds: news for them is outstanding for the controller until then and not after. |
| `WakeTable.Retain` | src/controller.rs:611-625 | The retaining loop over the pending events removes those acknowledged and moves their watermarks, never back. |
| `WakeTable.Controller.AddEvent` | src/controller.rs:206-218 | The in-place step coalesces a trigger into the pending event under a new id, or makes one. |
| `WakeTable.Controller.Register` | src/controller.rs:572-590 | The in-place step renews the lease and generation, and on a change drops the events of targets no longer listed. |
| `WakeTable.Controller.Notify` | src/controller.rs:220-256 | The notification loop over the targets is the step `WakeController.NewsExact` describes. |
| `WakeTable.Controller.PollStep` | src/controller.rs:569-658 | Registration, the acknowledgement loop, the catch-up loop and the snapshot are the specified poll. |
| `Admission.LanesHold` | src/handler.rs:349-376 | In every reachable state held and free permits add up in both semaphores, a request holds one admission’s permits or none, queues hold exactly the waiting requests once each, a control request is admitted at once while fewer than 16 are, and a bulk request queues for a request permit only while at least 17 are. |
| `Admission.AlwaysConserved` | src/handler.rs:248-274 | Every run of arrivals, tries, time-outs, waits, re-admissions, answers, body ends and drops keeps the permits each request has taken at one admission’s at most, and loses or makes none. |
| `Admission.HeldUntilGivenUp` | src/handler.rs:380-419 | Over every run an admitted request keeps exactly the permits it has, through its handler and its body, until it waits, its body ends or it is dropped; then it holds none. |
| `Admission.BulkTakesAtOnce` | src/handler.rs:365-376 | A bulk request takes its bulk permit at once while fewer than 48 are taken, and its request permit while at most 16 control requests are admitted. |
| `Admission.FirstIsNext` | src/handler.rs:349-363 | However an admission is given back — before a wait, at a body’s end or by a drop — the permit goes to the first in the queue. |
| `AdmissionLanes.Lanes.TryPermit` | src/handler.rs:349-376 | The in-place step takes the next permit at once or queues for it. |
| `AdmissionLanes.Lanes.Release` | src/handler.rs:278-287 | Dropping an admission gives back exactly what the request held. |
| `AdmissionLanes.Lanes.WaitOut` | src/handler.rs:252-262 | The admission goes back before the wait. |
| `AdmissionLanes.Lanes.Retake` | src/handler.rs:263-274 | After the wait the request is admitted again from the start. |
| `AdmissionLanes.Lanes.EndBody` | src/handler.rs:380-419 | The last frame gives the admission back, and a body without one gives nothing. |

## Left out

- Routing, headers, JSON shapes, authentication headers, names and config segments: bodies arrive parsed, with a case for a field of the wrong shape.
- Cryptography, token hashing, constant-time comparison and random generation: opaque values.
- Opening a file with create and truncate is a fresh file under the name in the disk model; only temporary files and the first payload are opened so.
- Store operations that carry on after a failed read or write: a failure part-way is a crash at that point. Failing queue writes are not modelled.
- The marker file is read as ASCII digits with surrounding white space.
- `redb` itself: a committed transaction replaces the tables at once and survives.
- Drain name recording, projections, drop-box keys and TV presence in the assistant module; presence is an input to the wake controller.
- Wake stage reports, the response's order of events, poll supersession, controller deletion and enrolment. What a poll does under its lock is one step; its record is read in another (`WakeSnapshots`).
- Grant caps per host and in total, the index file, usage counters, remembered source addresses and guest path filtering.
- Loss of an unsynced grant record at a power failure: a save that failed to sync is taken to be stored.
- Admission metrics and the 25 ms bound on a queued wait: a queued request may time out at any step.
- The content of cached bodies: a file is its stamp and its digest, and hashing is one step. An opener's size cap and read errors while it hashes: each only makes it end without an answer.
- SidecarProgress.UnservedSawNothing: leaves out those two ways of ending, which the model has no step for.
- HttpDate.IsoOrdered: stated through the year 9999, because a five-digit year does sort as text before a four-digit one.
- CowTheorems.CrashAtomic: speaks of states whose counters fit 64 bits, as the running process keeps them.
