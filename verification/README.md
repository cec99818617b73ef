# Verified model of the edit-stream pipeline's consumer, sink, reads and rollups

The pipeline counts Wikimedia edits in tumbling windows. An aggregator polls Kafka, routes each message of a partition
into an epoch-aligned window, and on every turn of its loop closes the windows whose end plus a grace period has
passed. It writes one slice per (window, partition) to Redis, then releases the offsets those windows covered, then
commits them. A crash loses the open windows and the pending offsets and keeps the log, the committed offset and
Redis. Readers merge the slices of a window back together. Beside this hot path, two chained views roll the raw rows up
per minute and per day.

This project models those parts and proves what they promise:

* `Events`, `Counters`, `Tallies`: messages, insertion-ordered dictionaries of counts, `TumblingWindow` and its summary.
* `Payloads`, `Shapes`: the same read off the payload fields, and the size, order and rate of every list.
* `Alignment`, `Windows`, `WindowManagers`: alignment, `WindowManager` as a class with its emission loop, and the
  functions its methods are proved against. `Routing`, `WindowRuns`: what holds over any sequence of calls.
* `Offsets`: `OffsetTracker` as a class, and exactly when a release is safe.
* `Sinks`, `SinkHistory`, `Expiry`: the write-and-trim script, and the reference state it refines for any batches, any
  replicas and any expiry of hashes.
* `Workers`, `Aggregators`: the `Aggregator` class with its main loop over several partitions.
* `Lanes`, `TimeSources`, `Protocol`, `Delivery`: replicas as a state machine with a crash possible between any two of
  the steps poll, close, write, release and commit, and the invariant of every reachable state.
* `Guarantees`, `LateEvents`, `Uniqueness`, `ExactlyOnce`, `Replays`, `Confluence`, `PollRuns`, `EndToEnd`,
  `ArrivalSink`: what every run of that machine promises.
* `Refinement`: the loop of the `Aggregator` class takes exactly the machine's steps, alone or beside other replicas and
  expiring hashes.
* `Merge`, `Partitioned`, `Determinism`: merging slices, against one window that was fed everything.
* `Reads`, `ReadPath`: the API's reads, and what a reader sees of the logs.
* `Rollups`: the chained views under any block split, merge schedule, expiry and redelivery.
* `Counterexamples`, `DoubleCount`, `StaleOwners`: the inputs on which a promise needs its hypothesis.

## Modelling choices

* Window starts are integers, timestamps and clocks are reals, and `align` is the floor of the quotient times the
  window size. Rates are exact quotients.
* A partition's log is a sequence indexed by offset. Partition ownership is fixed within an incarnation, and two live
  replicas never own the same partition; a takeover starts with fresh managers and trackers.
* In the delivery theorems `grace >= 0` and `max_gap_windows >= 1`. Event time additionally assumes window-monotone
  logs: every message carries a usable clock and window starts never decrease along a partition's log. Arrival time
  assumes that the wall clock used for a partition does not go backwards, across restarts too. `Counterexamples` shows
  what happens without the first of these; `Offsets.EveryReleaseIsSafeIff` shows that the offset rule itself is safe
  exactly under it.
* No theorem assumes that no resync happens unless it says so: a resync discards counted messages and still releases
  their offsets. `LateEvents.CommittedIsWrittenOrLate` says that every committed message is written or counted late,
  and `Guarantees.DiscardsOnlyAtResync` says exactly when a flush discards.
* A history is a run of the protocol in which the hash of any window may expire at any moment. The end-to-end theorems
  and the readers' are over such histories; no expiry is excluded. What Redis then holds of a window is what was written
  since its hash last expired, the live keys of `Expiry`. A window whose hash expires under one partition's slice and is
  written again by another is served in part (`Expiry.LapseLeavesPartOfAWindow`); `Expiry.HashIsWholeIff` and
  `ReadPath.ReadIsWholeIff` say exactly when it is not.
* `torn` holds the messages, partition and offset, that a flush had written when its replica crashed before the commit.
* The time source is a free string, as in the source: only "event" stamps by payload and only "arrival" closes by
  wall clock.
* The order in which Redis returns a hash's fields is a parameter of the reads, proved irrelevant to the result.
* `TumblingWindow` listings keep the dictionary order, so ties are listed in first-seen order.

## Where the code and its documentation disagree

The model follows the code.

* `pipeline/consumer/window.py:72` calls a summary deterministic for a given set of events. It depends on arrival order
  whenever a tie shows in one of its lists; `Determinism.TwoEditorsTie` shows two such orders and
  `Determinism.SnapshotIsDeterministicIff` gives the exact condition.
* `pipeline/merge.py:22-23` and `docs/DESIGN.md:275-279` say that with one aggregator there is a single slice and the
  merged top editors are exact. There is one slice per partition, so one aggregator with two partitions already merges
  two; `Counterexamples.MergedListCanMissTheTopEditor` shows a true leader missing from the list. All counts are exact
  if and only if no slice has more editors than it lists (`Partitioned.MergedCountsExactIff`), and a single slice does
  give a true top list (`Partitioned.SingleSliceIsExact`).
* `pipeline/consumer/offsets.py:42-50` promises an offset that is safe to commit. In event time on a log whose window
  starts go backwards it is not (`Counterexamples.BackwardsLogSkipsAnOpenMessage`).
* `pipeline/consumer/offsets.py:17-20` promises that a replay overwrites the same fields. That holds in event time. In
  arrival time a replay lands in later windows, so keys are never overwritten (`Uniqueness.KeysAreWrittenOnce`):
  `DoubleCount.ReplayCountsTwice` is a run in which a crash between write and commit counts a message twice. Under
  either time source a committed message is counted in exactly one write if and only if no crash tore it
  (`Replays.CountedOnceIffNotTorn`), so only torn messages are affected (`ArrivalSink.HeldOnce`,
  `ArrivalSink.TornIsHeldAgain`).
* `docs/DESIGN.md:280-285` says that state left behind by a rebalance leaks memory rather than corrupting data. That
  holds in event time, where an idle manager is silent after its next flush (`StaleOwners.IdleManagerIsSilent`). In
  arrival time `StaleOwners.StaleOwnerErasesASlice` shows an old owner writing zero over a counted window: its flushes
  replace the new owner's field of a window if and only if the window is in
  reach of the old manager's clock (`StaleOwners.StaleFlush`); this is why the protocol's replicas own disjoint
  partitions.

## Model

| member | source | states |
|---|---|---|
| Events.ReplayStampIsStable | pipeline/consumer/aggregator.py:102-107 | A message is stamped alike on every replay if and only if event mode finds a usable clock in its payload |
| Payloads.StampIsPayloadOrArrival | pipeline/consumer/aggregator.py:102-107 | In event mode a positive payload clock is the stamp, as it stands; every other message is stamped with its arrival |
| Tallies.TumblingWindow.constructor | pipeline/consumer/window.py:47-55 | A new window is the empty tally of its start and size |
| Tallies.TumblingWindow.Add | pipeline/consumer/window.py:61-69 | One event advances total, bot or human count and the three dictionaries, with the placeholders for missing fields |
| Tallies.TumblingWindow.TakeSnapshot | pipeline/consumer/window.py:71-85 | The summary is the specified function of the window's value |
| Tallies.TallyCountsTheStream | pipeline/consumer/window.py:61-69 | After any stream every dictionary counts exactly the occurrences, has distinct keys and sums to the total, and bots plus humans make the total |
| Tallies.TallyNames | pipeline/consumer/window.py:61-69 | A name is a key if and only if it occurs in the stream |
| Payloads.OccurrencesByField | pipeline/consumer/window.py:61-69 | Counting a name by label is counting the events whose field is that name, with the missing and empty fields under "unknown" or "anonymous" |
| Payloads.WindowCountsThePayload | pipeline/consumer/window.py:61-69 | A window counts each wiki, type and user as often as its events carry it, those that carry none under the placeholder, and never an empty name |
| Payloads.DictionaryIsFirstSeen | pipeline/consumer/window.py:61-69 | Each dictionary is in the order in which its names first occur in the stream |
| Payloads.SliceCountsThePayload | pipeline/consumer/window.py:71-85 | Every number of a summary, read off its events: interval, total, bots, humans, each wiki, each type, each listed user |
| Shapes.SliceShape | pipeline/consumer/window.py:71-85 | A summary lists five editors, or all if there are fewer, and its rate times the window size is its total |
| Shapes.SliceListsDescend | pipeline/consumer/window.py:71-85 | All three lists run from the largest count down |
| Tallies.TopOfBound | pipeline/consumer/window.py:81-84 | The top five keep their counts, and a user cut has at most a sixth of all edits |
| Counters.MostCommonKeepsTieOrder | pipeline/consumer/window.py:78-84 | Names with equal counts are listed in first-seen order |
| Determinism.NoTieOneList | pipeline/consumer/window.py:71-85 | Without a tie that shows, a listing depends on the counts alone |
| Determinism.TieShows | pipeline/consumer/window.py:71-85 | With such a tie, some reordering of the same events gives a different listing |
| Determinism.SnapshotIsDeterministicIff | pipeline/consumer/window.py:71-85 | A summary is determined by the set of its events if and only if no tie shows in its lists |
| Determinism.TwoEditorsTie | pipeline/consumer/window.py:81-84 | Two edits by two users, in either order: same events, different lists |
| Alignment.AlignBounds | pipeline/consumer/window.py:122-124 | The aligned start is a multiple of the size with the timestamp in [start, start + size) |
| WindowManagers.NewManager | pipeline/consumer/window.py:99-116 | A non-positive size is refused; anything else gives a manager with nothing counted |
| WindowManagers.WindowManager.Add | pipeline/consumer/window.py:126-151 | The new state is that of AddTo, and the result says whether the event's window was still open |
| WindowManagers.WindowManager.DropBefore | pipeline/consumer/window.py:206-208 | Windows at or before the bound are gone and their totals are in the late count |
| WindowManagers.WindowManager.Resynchronise | pipeline/consumer/window.py:168-174 | More due than the cap skips to the last windows the cap allows and drops what lies before |
| WindowManagers.WindowManager.Emit | pipeline/consumer/window.py:176-181 | The loop emits one summary per window in range, empty where nothing was counted, and removes those windows |
| WindowManagers.WindowManager.PopClosed | pipeline/consumer/window.py:153-184 | State and summaries after the call are PopState and PopSlices of the state before |
| Windows.DueWhenEndPassed | pipeline/consumer/window.py:164-165 | A window is due if and only if its end plus the grace has passed |
| WindowRuns.PopEmits | pipeline/consumer/window.py:161-184 | One call emits a gap-free ascending chain up to the newest closed window, exactly min(gap, cap) long |
| WindowRuns.CallIsCapped | pipeline/consumer/window.py:161-184 | In plain numbers: a call emits min(gap, cap) summaries, exactly of the aligned starts after both the last emission and newest minus cap windows; it goes on from the newest, keeps the windows after it, and counts late the totals of the open windows at or below the bound if the gap exceeds the cap |
| WindowRuns.EmitsIffInReach | pipeline/consumer/window.py:161-184 | A call emits a window's summary, of whatever it counted there, if and only if the window is due, aligned and past the emission point |
| WindowRuns.FirstEventOpensTheSeries | pipeline/consumer/window.py:139-151 | Whatever the next call's clock, no window before the first event's is emitted, and from that one on every due window within the cap is |
| WindowRuns.WatermarkIsHighest | pipeline/consumer/window.py:131-132 | Over any run the watermark is the highest timestamp added, late events included, and absent before the first |
| WindowRuns.ClosingIsExact | pipeline/consumer/window.py:161-184 | Everything emitted had end plus grace behind it, and nothing left open does |
| WindowRuns.EmissionOrder | pipeline/consumer/window.py:153-184 | Over any run with arbitrary clocks, starts strictly increase and are aligned, and the series is broken once per resync and nowhere else |
| WindowRuns.PopConserves | pipeline/consumer/window.py:153-184 | A call moves events between open windows, summaries and the late count and loses none |
| WindowRuns.PopLosesNothingUnless | pipeline/consumer/window.py:168-174 | The late count grows in a call if and only if it resynchronises past an open window |
| WindowRuns.EventsAreConserved | pipeline/consumer/window.py:126-184 | Over any run, adds equal late events plus open totals plus emitted totals |
| WindowRuns.EmittedIsComplete | pipeline/consumer/window.py:126-184 | Every emitted summary is the in-order fold of all events the run counted for its window |
| Offsets.OffsetTracker.Record | pipeline/consumer/offsets.py:33-37 | The window's entry becomes the larger of its old offset and the new one |
| Offsets.OffsetTracker.ReleasePartition | pipeline/consumer/offsets.py:39-62 | Returns one past the highest offset of the windows through the bound and drops them; nothing if there are none |
| Offsets.OffsetTracker.Forget | pipeline/consumer/offsets.py:64-66 | Only that partition's entry is gone |
| Offsets.RecordKeepsHighest | pipeline/consumer/offsets.py:33-37 | In whatever order offsets arrive, each window is pending at the highest offset recorded for it |
| Offsets.ReleasePointsPastLast | pipeline/consumer/offsets.py:55-62 | The released offset is just past the last consumed message of a written window |
| Offsets.ReleaseIsSafeIff | pipeline/consumer/offsets.py:39-62 | A release never passes a message of an open window if and only if no message of a written window follows one |
| Offsets.EveryReleaseIsSafeIff | pipeline/consumer/offsets.py:39-62 | Every possible release is safe if and only if window starts never decrease along the log |
| Sinks.RedisStore.RunScript | pipeline/consumer/sink.py:41-65 | From the flat argument list, all writes in order, then the trim to the largest starts with their hashes; returns the index size |
| Sinks.RedisStore.Put | pipeline/consumer/sink.py:50-51 | One start indexed and one field set |
| Sinks.RedisStore.DropOldest | pipeline/consumer/sink.py:55-61 | Exactly the lowest starts leave the index, and exactly their hashes are deleted |
| Sinks.TrimmedIsLargest | pipeline/consumer/sink.py:55-58 | Removing the lowest ranks leaves the k largest starts |
| Expiry.LargestSize | pipeline/consumer/sink.py:55-57 | The trim leaves min(written, HISTORY_MAX) starts, none if HISTORY_MAX is not positive |
| Sinks.WriteEntries | pipeline/consumer/sink.py:77-98 | An empty batch sends nothing; any other is one run of the script on the marshalled arguments |
| SinkHistory.TrimBeforeUnion | pipeline/consumer/sink.py:55-62 | Trimming before adding a batch changes nothing after the next trim |
| SinkHistory.TrimmedStaysTrimmed | pipeline/consumer/sink.py:55-62 | A start trimmed once is never retained again |
| SinkHistory.LastWriteWins | pipeline/consumer/sink.py:50-51 | A field is present if and only if its key was written, and holds the last such write |
| SinkHistory.SinkRefinesLastWrites | pipeline/consumer/sink.py:47-64 | After any batches Redis holds the last write per key for the HISTORY_MAX largest starts ever written |
| SinkHistory.ReplayChangesNothing | pipeline/consumer/sink.py:47-64 | Replaying any suffix of the writes changes nothing |
| SinkHistory.ReplicasCommute | pipeline/consumer/sink.py:47-64 | Batches with disjoint keys commute anywhere in the history |
| SinkHistory.SameLastWritesSameState | pipeline/consumer/sink.py:47-64 | Histories with the same last writes leave the same Redis, however they were batched |
| Expiry.SinkRemembersLiveWrites | pipeline/consumer/sink.py:47-64 | With hashes expiring at any time, Redis is the largest starts ever written with the writes since each hash last expired |
| Expiry.StoreStaysKeyed | pipeline/consumer/sink.py:47-64 | Hash keys stay within the index, the index holds as many starts as were written but no more than HISTORY_MAX, and every field is a slice of its own window |
| Expiry.HashIsWholeIff | pipeline/consumer/sink.py:50-52 | A hash holds all the last writes to its window if and only if every partition that wrote the window has written it since the hash last expired |
| Expiry.NoLapseAllLive | pipeline/consumer/sink.py:47-64 | Without expiry everything written is live and Redis is the last writes to the newest starts |
| Expiry.LapseLeavesPartOfAWindow | pipeline/consumer/sink.py:50-52 | Two partitions write a window, its hash expires and one writes again: the index lists the start, and the other slice is missing |
| Aggregators.Aggregator.ManagerFor | pipeline/consumer/aggregator.py:126-135 | A partition's manager is created on first sight and kept |
| Aggregators.Aggregator.Receive | pipeline/consumer/aggregator.py:171-178 | One message is stamped and routed, and its offset noted unless it was late |
| Aggregators.Aggregator.Poll | pipeline/consumer/aggregator.py:163-180 | All records of a poll are routed, partition by partition, in order |
| Aggregators.Aggregator.CloseDue | pipeline/consumer/aggregator.py:137-147 | A partition closes by the wall clock or by its own watermark, whichever its time source says |
| Aggregators.Aggregator.CollectDue | pipeline/consumer/aggregator.py:185-197 | The entries of all partitions in manager order, and each partition's last emitted window |
| Aggregators.Aggregator.ReleaseAll | pipeline/consumer/aggregator.py:218-227 | Each written partition is released through its last window, and the commits are what was released |
| Aggregators.Aggregator.Flush | pipeline/consumer/aggregator.py:185-231 | Write, release and commit all happen, or, when the sink fails, none does while the windows stay closed in memory |
| Aggregators.Aggregator.TakeTurn | pipeline/consumer/aggregator.py:163-180 | One turn of the loop is TurnOf; it goes on exactly if there is nothing to write or the sink takes it |
| Aggregators.Aggregator.Run | pipeline/consumer/aggregator.py:153-183 | Any number of turns is RunOf; all but the last go on, and it stops early only at a turn whose write fails |
| Protocol.NextKeepsShape | pipeline/consumer/aggregator.py:153-231 | Every step of every replica, crashes included, keeps managers well-formed and lanes within owned partitions |
| TimeSources.IngestKeeps | pipeline/consumer/aggregator.py:171-178 | One in-order message keeps windows, offsets and emission of its partition in step under either time source |
| TimeSources.StartsContainStamps | pipeline/consumer/aggregator.py:171-178 | Each polled message goes to the aligned window that contains its payload clock in event mode, or its arrival where that does not apply |
| Lanes.FlushClosesByItsClock | pipeline/consumer/aggregator.py:137-147 | In arrival mode everything emitted has end plus grace behind the wall clock and nothing left open does; under any other source the same holds of the partition's own highest timestamp |
| TimeSources.NewestIsBehind | pipeline/consumer/window.py:164-165 | What a call closes lies strictly before the window of its clock |
| Lanes.PopKeepsOrder | pipeline/consumer/window.py:153-184 | A flush emits complete slices above the last emission and leaves a lane ready to release |
| Lanes.ReleaseKeepsOrder | pipeline/consumer/offsets.py:39-62 | A release settles the lane at the first message still in an open window |
| Delivery.NextKeeps | pipeline/consumer/aggregator.py:153-231 | Every step of the protocol keeps the delivery invariant |
| Delivery.RunKeeps | pipeline/consumer/aggregator.py:153-231 | The invariant holds after any actions of any replicas, with crashes anywhere |
| Guarantees.EveryWriteIsComplete | pipeline/consumer/aggregator.py:163-231 | Event time: every slice ever written, by any incarnation, is the fold of all its window's messages, so a replay rewrites the identical value |
| Guarantees.WritesFollowThePayload | pipeline/consumer/aggregator.py:163-231 | Event time, by the payload alone: a write counts a message from the origin on if and only if windowStart <= its timestamp < windowStart + size |
| Guarantees.CommittedIsDurable | pipeline/consumer/aggregator.py:185-231 | Every message below the committed offset is counted in a durable write or was discarded by a resync |
| LateEvents.DiscardsAreCountedLate | pipeline/consumer/window.py:206-208 | A flush raises a partition's late count by exactly the number of its offsets it discards |
| LateEvents.LateIsWhatWasDiscarded | pipeline/consumer/window.py:168-174 | In every reachable state a partition's late count is the number of offsets the incarnation has discarded |
| LateEvents.CommittedIsWrittenOrLate | pipeline/consumer/aggregator.py:185-231 | Commit safety: every message below the committed offset is counted in a durable write, or was discarded and counted late by the incarnation that discarded it |
| Guarantees.CoverIsCounted | pipeline/consumer/aggregator.py:185-231 | Each write is the fold of exactly the messages it covers, one count each |
| Guarantees.CommittedWindowIsWritten | pipeline/consumer/aggregator.py:185-231 | Event time: the window of every committed, undiscarded message has been written complete |
| Guarantees.DiscardsOnlyAtResync | pipeline/consumer/window.py:168-174 | A flush discards messages if and only if some partition resynchronises past one of its open windows |
| Guarantees.FlushSettles | pipeline/consumer/aggregator.py:171-227 | Between flushes the messages from the committed offset on are exactly those in open windows, and pending offsets are the last of each |
| Guarantees.CommittedNeverDecreases | pipeline/consumer/aggregator.py:219-231 | The committed offset never goes back in any run |
| Guarantees.PollIsNeverLate | pipeline/consumer/window.py:133-144 | In order, no polled message is late under either time source |
| Uniqueness.KeysAreWrittenOnce | pipeline/consumer/aggregator.py:163-231 | Arrival time: over all incarnations the starts written for a partition strictly increase, so no key is written twice |
| ExactlyOnce.CountedOnceUnlessTorn | pipeline/consumer/aggregator.py:185-231 | A message is counted in at most one write unless a crash cut a write of it off from its commit |
| Replays.CountedOnceIffNotTorn | pipeline/consumer/aggregator.py:185-231 | Either time source: a committed message no resync discarded is counted in exactly one write if and only if no crash ever cut a write of it off from its commit |
| Confluence.PollsDoNotMatter | pipeline/consumer/aggregator.py:163-180 | Event time without resync: any two ways of cutting a log into polls emit the same summaries and leave the same windows and offsets |
| Confluence.PollsEmitTheSeries | pipeline/consumer/window.py:153-184 | What any such run emits is the complete gap-free series of windows the log determines |
| PollRuns.PollsAreProtocol | pipeline/consumer/aggregator.py:163-231 | A sole replica that joins at the start of a log and polls it, however cut and whenever, rests in the lane of the run over those polls and has written exactly its summaries |
| PollRuns.CutsDoNotMatter | pipeline/consumer/aggregator.py:163-231 | Two such replicas cutting one log differently rest in the same lane and have written the same slices |
| EndToEnd.RedisHoldsTheTrace | pipeline/consumer/sink.py:47-64 | Redis after any history of steps, crashes and expiries is the reference state of all writes made; without expiry, their last writes to the newest starts |
| EndToEnd.RedisHoldsTheTruth | pipeline/consumer/aggregator.py:163-231 | Event time, with crashes and expiry: Redis holds exactly the complete slices of the keys written since their hash last expired, for the newest starts |
| EndToEnd.CrashesLeaveNoMark | pipeline/consumer/aggregator.py:163-231 | Event time, with expiry: two histories with the same keys written and live leave the same Redis, however often either crashed |
| ArrivalSink.FieldIsTheWrite | pipeline/consumer/sink.py:47-64 | Arrival time: a field is there exactly while its window is retained and its hash has not expired since, and holds the one write there ever was to its key |
| ArrivalSink.HeldOnce | pipeline/consumer/aggregator.py:163-231 | Arrival time: a committed message neither discarded nor torn was written to one window; Redis counts it in that field exactly while it is neither trimmed nor expired, and in no other |
| ArrivalSink.TornIsHeldAgain | pipeline/consumer/aggregator.py:204-231 | Arrival time: a committed torn message was written to at least two windows, and Redis counts it in each that is neither trimmed nor expired |
| Refinement.JoinRefines | pipeline/consumer/aggregator.py:111-117 | A newly constructed aggregator is a replica that just joined |
| Refinement.PollRefines | pipeline/consumer/aggregator.py:163-178 | Polling in the class is the protocol's Poll |
| Refinement.PopRefines | pipeline/consumer/aggregator.py:185-201 | Closing windows in the class is the protocol's Pop, with the same entries in the same order |
| Refinement.WriteRefines | pipeline/consumer/aggregator.py:204-231 | Write, release and commit in the class are the protocol's three steps |
| Refinement.TurnRefines | pipeline/consumer/aggregator.py:163-231 | A turn of the loop is a few steps of the protocol; it ends the loop exactly when the sink fails with something to write, and then everything durable is where it was |
| Refinement.RunRefines | pipeline/consumer/aggregator.py:153-233 | Every run of the loop, up to a last turn that may fail, is a run of the protocol with the same Redis and the same committed offsets |
| Refinement.LoopWritesTheTruth | pipeline/consumer/aggregator.py:153-233 | Event time: after any turns of the loop, up to one that may fail, with any steps of other replicas and any expiry in between, Redis holds exactly the complete slices of the keys written and live |
| Refinement.OthersKeepSimulation | pipeline/consumer/aggregator.py:86-99 | A step of another replica of the group, or an expiry, leaves the loop's memory alone and moves only what is shared |
| Refinement.SharedRunRefines | pipeline/consumer/aggregator.py:153-233 | With any steps of other replicas and any expiry between its turns, the last of which may fail, the loop has the protocol's Redis and offsets, and is its replica unless it ended |
| Merge.Accumulate | pipeline/merge.py:53-58 | The dictionary loop computes AddAll |
| Merge.AddSlice | pipeline/merge.py:49-58 | One turn of the loop adds a slice to every sum and dictionary |
| Merge.MergePartials | pipeline/merge.py:34-72 | The loops compute MergeOf; nothing for no slices |
| Merge.AddAllSums | pipeline/merge.py:53-58 | Adding a dictionary unites the keys and adds the counts, key by key |
| Merge.CombineSums | pipeline/merge.py:49-58 | A merged dictionary lists what some slice lists, and each count is the sum over the slices |
| Merge.MergeIsCanonical | pipeline/merge.py:34-72 | Reordering the slices leaves the result the same, ordered lists included, if and only if the first slice spans the same time |
| Merge.HistoryAgreesWithMerge | pipeline/merge.py:75-95 | The sums over comprehensions are what the merge accumulates: the history point is the merged summary's start, total, rate and bots, and absent exactly when that is |
| Counters.SortIsCanonical | pipeline/merge.py:60-71 | Sorting by (-count, name) has one outcome per dictionary |
| Shapes.NameLessIsLexicographic | pipeline/merge.py:60-71 | Names compare lexicographically: a proper prefix comes first, otherwise the first differing character decides |
| Shapes.SummaryListsAreRanked | pipeline/merge.py:60-71 | All three lists of a merged summary run from the largest count down, and lexicographically by name among equals |
| Shapes.SummaryShape | pipeline/merge.py:60-72 | However many slices, the merged list has five editors, or all that some slice lists if those are fewer; the rate times the size is the total, and zero for a zero size |
| Partitioned.PartitionedIsWhole | pipeline/merge.py:34-72 | For any split of a window's events, the merged slices agree with one window fed everything: numbers, both dictionaries in order, breakdowns summing to the total |
| Payloads.SummaryCountsThePayload | pipeline/merge.py:34-95 | For any partitions, every number of the merged summary and of the history point read off the payloads: interval, total, rate, bots, humans, each wiki, each type |
| Partitioned.MergedEditorBound | pipeline/merge.py:57-60 | A user's merged count never exceeds the true one, falls short by at most a sixth of all edits, and is exact if and only if every slice with edits of the user lists the user |
| Partitioned.MergedCountsExactIff | pipeline/merge.py:18-23 | Every user's merged count is exact if and only if no slice has more users than it lists |
| Partitioned.SingleSliceIsExact | pipeline/merge.py:22-23 | A single slice merges to a true top list: true counts, and nobody left out has more edits than anybody listed |
| Partitioned.ShortSlicesGiveTrueList | pipeline/merge.py:57-60 | If no slice has more users than it lists, every count in the final list is true and nobody missing has more edits than anybody listed |
| Partitioned.CutEditorsAreSmaller | pipeline/merge.py:60 | A user outside the final list has no larger merged count than any user in it |
| Partitioned.MissedEditorBound | pipeline/merge.py:57-60 | A user missing from the final list truly has at most a sixth of all edits more than any listed one |
| Reads.ReadLatest | pipeline/api/server.py:83-94 | The merge of the fields of the largest indexed start; nothing without an index or a hash |
| Reads.ReadHistory | pipeline/api/server.py:97-123 | For a positive limit and any store the sink can leave, there is a point for exactly those of the `limit` largest indexed starts that still have a hash; in general the points are those of the members ZRANGE selects |
| Reads.NewestAre | pipeline/api/server.py:106-108 | A positive limit selects the min(limit, size) largest members of the index; limit 0 selects all of them |
| Reads.ReadsTheNewest | pipeline/api/server.py:97-123 | A start has a point if and only if it has a hash and is among the `limit` largest indexed |
| Reads.HistoryIsFaithful | pipeline/api/server.py:97-123 | Points strictly increase in time, there is one for each window that still has its hash and no other, and each is the projection of the merged window |
| Reads.HistoryAfterAnyWrites | pipeline/api/server.py:97-123 | After any writes, trims and expiries the history is strictly increasing, has at most HISTORY_MAX points and at most `limit`, one for exactly those of the `limit` largest starts that still have a hash, each matching the merge |
| Reads.ReadIgnoresFieldOrder | pipeline/api/server.py:72-74 | The order in which Redis returns the fields does not change the result |
| ReadPath.FinishedIsWritten | pipeline/consumer/aggregator.py:204-231 | Once a window's messages are committed, every partition with such a message has its slice written |
| ReadPath.HashIsTrue | pipeline/consumer/sink.py:47-64 | What Redis has of a window lists exactly the partitions that wrote it since its hash last expired, each with its complete slice |
| ReadPath.ReadIsWholeIff | pipeline/api/server.py:72-94 | Event time, with crashes and expiry: merging what Redis has of a window agrees with one window fed all its messages if and only if every partition with such a message has written it since the hash last expired |
| ReadPath.ReadersSeeTheTruth | pipeline/api/server.py:72-94 | Once a window is committed and no slice of it has expired unrewritten, merging its fields agrees with one window fed its messages from every partition |
| Rollups.GroupKeys | clickhouse/init/02_rollups.sql:45-54 | A GROUP BY gives exactly one row per key that occurs |
| Rollups.MinuteContains | clickhouse/init/02_rollups.sql:47 | A minute is a multiple of 60 seconds whose 60000 milliseconds contain the timestamp |
| Rollups.GroupSeen | clickhouse/init/02_rollups.sql:45-54 | Grouping a block changes no query over it |
| Rollups.MergeSeen | clickhouse/init/02_rollups.sql:31-43 | A background merge of two rows of a key changes no query |
| Rollups.MergeJoins | clickhouse/init/02_rollups.sql:40-42 | A merge of two rows of a key leaves one row fewer and the same set of keys |
| Rollups.YoungerAre | clickhouse/init/02_rollups.sql:43 | Expiry removes exactly the rows older than the cut |
| Rollups.MinutesAgreeWithRaw | clickhouse/init/02_rollups.sql:31-54 | Under any blocks and merges, an unexpired minute's sums and editors are those of the raw rows whose timestamps lie in its 60000 milliseconds |
| Rollups.DaysAgreeWithRaw | clickhouse/init/02_rollups.sql:74-83 | Under any blocks, merges and expiry of minutes, a day's sums and editors are those of the raw rows |
| Rollups.SplitsDoNotMatter | clickhouse/init/02_rollups.sql:45-83 | The same rows cut into blocks differently give the same daily answers |
| Rollups.RedeliveryCountsTwice | clickhouse/init/02_rollups.sql:18-24 | A redelivered message adds one to its day's sums and leaves the editors, and other groups, unchanged |
| Counterexamples.BackwardsLogSkipsAnOpenMessage | pipeline/consumer/offsets.py:55-62 | Offsets 9..12 at 101, 105, 104.9, 106: offset 12 is released while offset 10 sits in an open window, and a restart writes that window without it |
| Counterexamples.ResyncLosesTheFirstEvent | pipeline/consumer/window.py:168-174 | One poll at 100 and 1000: the first event is dropped unwritten and its offset released |
| DoubleCount.ReplayCountsTwice | pipeline/consumer/aggregator.py:204-231 | Arrival time: a run with a crash between write and commit in which the only message is written in window 0, written again in window 20 and committed |
| StaleOwners.StaleFlush | pipeline/consumer/aggregator.py:189-208 | A flush of a manager that receives nothing more replaces its partition's field of a window, by its own count, if and only if the window is in reach of its clock |
| StaleOwners.StaleOwnerErases | pipeline/consumer/aggregator.py:189-208 | Another replica's field survives that flush if and only if the window is out of reach or was counted alike |
| StaleOwners.StaleOwnerErasesASlice | pipeline/consumer/aggregator.py:189-208 | Arrival time, size 5, grace 1: at second 11 a manager that last emitted window 0 writes an empty window 5 over a counted one |
| StaleOwners.IdleManagerIsSilent | pipeline/consumer/aggregator.py:137-147 | Unless the wall clock closes windows, a manager that receives nothing more writes nothing after its next flush |
| Counterexamples.MergedListCanMissTheTopEditor | pipeline/merge.py:57-60 | Two slices of one aggregator: the user with the most edits is missing from the merged list |

## Left out

- Rounding of rates to two decimals: rates are exact quotients, and the merge's zero rate for a zero size is kept.
- JSON, the decimal strings of the script's arguments, and key prefixes: slices and keys travel as values.
- `EXPIRE` timing: a hash may expire at any moment of a history, not after a given time; the prefix and TTL arguments are carried but unused.
- Starts with a fractional part cannot occur for an integer window size; `int(...)` of a start is the identity here.
- `auto_offset_reset="latest"`: each partition's first committed offset is a parameter of the run.
- Rebalances of a live group with stale managers, except for what `StaleOwners` says of one manager; the protocol's replicas own disjoint partitions.
- Time sources other than the two documented ones in the delivery theorems; the classes and the protocol accept any string.
- Steps of other replicas, and expiries, inside a turn of the class's loop: `Refinement` puts them between turns; a history of the protocol allows them between any two steps.
- Backward clock steps in the delivery theorems; `WindowRuns` covers arbitrary clocks for one manager.
- Non-positive `max_gap_windows` and negative `grace` in the delivery theorems.
- Uncommitted failure of `consumer.commit` other than a crash: a commit happens or the replica crashes before it.
- Metrics, logging, `format_summary`, signal handling, `build_commit` and topic names other than the one configured.
- The producer, the SSE ingest, FastAPI routes, the WebSocket loop, the dashboard and the analytics query builders.
- ClickHouse's approximate `uniq` sketch, the raw table's own deduplication and its storage engine: editors are exact sets, a merge joins two rows of one key, and time zones are UTC.
