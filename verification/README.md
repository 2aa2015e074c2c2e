# Verified models of fansly-scraper

A Dafny 4.11 project that models the eight parts of the scraper in which a wrong step is hard to
see, and proves what they promise. Check it with `dafny verify dfyconfig.toml`.

| file | models |
|---|---|
| `RateLimiterSpec.dfy`, `RateLimiterProofs.dfy`, `RateLimiterEffects.dfy`, `RateLimiterWaiters.dfy`, `RateLimiter.dfy` | the adaptive token bucket of `api/rate_limiter.py`: a state machine with one step per locked region, proofs over all interleavings, what each step is worth, waiters that reserve, sleep and try, and the object whose methods refine the steps |
| `SegmentCapture.dfy`, `SegmentNames.dfy` | the HLS poll loop of `download/livestream.py`: deduplication by media sequence number, file numbering, and the name order salvage sorts by |
| `SegmentTimeline.dfy` | the mux loop of the same file: rebasing the timestamps of every segment onto one timeline |
| `ConfigRender.dfy` | rendering nested sections of `config/schema.py` into an existing map and loading them back |
| `Cyrb53.dfy`, `Cyrb53Vector.dfy`, `HexDigest.dfy` | the request signature of `api/fansly.py`: JavaScript's 32-bit arithmetic on unbounded integers, a value fixed by the repository's tests, and the hexadecimal printer |
| `CappedDownload.dfy` | the worker threads of `download/m3u8.py` that share a byte counter, and the variant selection rule |
| `WebSocketProtocol.dfy` | handler registration and event delivery between `api/websocket.py`'s parent object and its child process |
| `TokenScrambling.dfy` | the stride-7 token unscrambler of `config/fanslyconfig.py` |
| `LivestreamWatcher.dfy` | the poll, diff and reap cycle of `daemon/livestream_watcher.py` |

Code that updates state in place is a class or a method with loops whose `ensures` equates the new
state with a specification function of the old one; the lemmas are about those functions. Times are
`real`; every clock reading of the rate limiter is a parameter, so a run is any sequence of steps
with nondecreasing readings. `Config.Valid` asks for a nonnegative rate, burst, retry time and
backoff cap and a positive backoff factor; results that need more say so in their `requires`.

Where the code and its own text disagree the model follows the code:

* The limiter's docstring says the floor never resets to 0 once learned. A learned floor can be
  forgotten exactly when no 429 was counted before (`FloorForgottenIff`), and a new limiter that sees
  ten server errors has such a floor (`FloorLearnedFromServerErrors`).
* The reservation cursor spaces waiters only until the next backoff reduction
  (`ReductionLetsLaterWaiterOvertake`); `NextTargetAfterReductionIff` says which reductions break it.
* A 429 is meant to lengthen the freeze of the bucket. Where the learned floor has kept the backoff
  above the schedule it shortens it (`FreezeSurvivesReductionIff`, `A429MayEndTheFreeze`).
* The mux docstring says each segment's first PTS is zeroed; the code zeroes the smaller of the
  first packet's PTS and DTS.
* A success after a failure in one batch makes a later batch reuse a file name
  (`FailedFirstReusesName`, `NamesStayDistinctIff`), a blank prefetch line between two gained
  segments leaves a hole in the captured range (`BlankPrefetchLeavesHole`,
  `CapturedRangeUnbrokenIff`), and a segment that raises after writing beyond its own start is
  overlapped by its successor (`AbortedSegmentOverlaps`, `TimelineSurvivesAbortsIff`).
* `rstrip("fNs")` strips a character set, so some tokens do not survive (`TokenRoundTrip`).
* A WebSocket child started again after a crash, without a stop, is drained by two tasks and loses
  the delivery order (`OrderIffSingleDrainer`, `RestartAfterCrashLeavesTwoDrainers`).  Every restart
  in the repository itself stops first or makes a new object (`daemon/runner.py:1180-1181`,
  `api/fansly.py:885-908`), so it takes a direct caller of `start_in_thread` to get there.
* Nothing catches the exception of an event handler, so it ends the drain task: nothing more is
  received, and `stop_thread` raises it again without joining the child, until a child that has died
  is spawned again (`RaisingHandlerSticks`, `StuckUntilSpawn`).
* A WebSocket child that exits, with or without a stop, does not wait for its event queue to be
  flushed (`api/websocket.py:1024-1030`), so the events still queued may be lost
  (`DeadChildMayLoseQueued`).
* `rshift32` is a logical 32-bit shift only on the numbers between -2^32 and 2^32
  (`ShiftWordIff`); the hash never leaves that range.
* The hash prints 0 as the empty string where JavaScript prints "0" (`ToStr16Inverted`).

## Model

| member | source | states |
|---|---|---|
| RateLimiterProofs.WindowBound | api/rate_limiter.py:99-108 | in every interleaving of reservations, token turns and responses, any window [from, to] sees at most burst + rate * (to - from) tokens, although a 429 moves `last_refill` forward and a recovery pulls it back |
| RateLimiterProofs.StampedWindowBound | api/rate_limiter.py:338-346 | the same by recorded request times: at most one token more |
| RateLimiterProofs.StepPotential | api/rate_limiter.py:181-279 | no locked region creates spendable tokens at the instant it runs, and a grant spends one |
| RateLimiterProofs.FreezeAfter429 | api/rate_limiter.py:181-198 | after a 429 at v with backoff b and until the next reduction, tokens handed out up to `to` number at most rate * (to - (v + b)) |
| RateLimiterProofs.NoTokenBeforeThaw | api/rate_limiter.py:195-198 | the first of them comes no earlier than v + b + one refill interval, whoever reserved it and when |
| RateLimiterProofs.ReservationsClearBackoff | api/rate_limiter.py:299-304 | until the next reduction every reservation checked before v + b is placed at or after v + b |
| RateLimiterProofs.ConsecutiveTargets | api/rate_limiter.py:303-308 | between reductions each target is at least max(floor, refill interval) after the one before |
| RateLimiterProofs.TargetSpacing | api/rate_limiter.py:303-308 | the n-th of any group of waiters is at least n - 1 refill intervals after the first |
| RateLimiterSpec.Reserved | api/rate_limiter.py:295-305 | no target lies before now, the cursor, the end of a running backoff, or the last request plus the floor |
| RateLimiterProofs.ReductionLetsLaterWaiterOvertake | api/rate_limiter.py:237-243 | a run in which a reduction lets a later waiter get an earlier target |
| RateLimiterProofs.NextTargetAfterReductionIff | api/rate_limiter.py:237-243 | a reservation right after a reduction respects the cursor the earlier waiters left exactly when the clamp, at + max(floor, backoff / factor), does not cut it, or the clock or the distance to the last request holds the reservation as long |
| RateLimiterProofs.SpacingSurvivesReductionIff | api/rate_limiter.py:237-308 | the same with any token turns, further responses and 429s between the reduction and the reservation, where a backoff then running may hold it too |
| RateLimiterProofs.ReductionReleases | api/rate_limiter.py:219-279 | after a reduction the backoff is 0 or at least the floor, the bucket pays again one interval after the shortened window, and the next target is no longer held by the old window: by the new one, or, when the backoff ended, by the one the cursor was clamped to |
| RateLimiterProofs.BackoffAfterViolations | api/rate_limiter.py:181-198 | in a run without successes, whatever else comes in between, n 429s add n to the counted violations and leave the window retry * factor^(k-1) of the k-th consecutive one, capped and counted from the last 429, and a bucket that is empty until its end |
| RateLimiterProofs.FloorStep | api/rate_limiter.py:118-174 | the learned floor is 0 or in [0.1, 20], falls only on a full window of successes, and returns to 0 exactly when in addition no 429 was ever counted and it decays below 0.1 |
| RateLimiterProofs.FloorIsNeverForgotten | api/rate_limiter.py:156-159 | once positive with a counted 429 the floor stays at least 0.1 over every run |
| RateLimiterProofs.FloorForgottenIff | api/rate_limiter.py:156-164 | from any state with a positive floor some timely run brings it back to 0 exactly when no 429 was counted so far |
| RateLimiterProofs.FloorLearnedFromServerErrors | api/rate_limiter.py:133-151 | a new limiter that sees ten server errors and one reservation has a floor of at least 1 without a counted 429 |
| RateLimiterProofs.FloorForgottenWithoutViolations | api/rate_limiter.py:160-164 | with a full success window and no counted 429, 4000 reservations are enough |
| RateLimiterProofs.WindowIsLastOutcomes | api/rate_limiter.py:420-422 | `request_outcomes` is the last min(1000, n) of all recorded outcomes |
| RateLimiterProofs.RunKeepsInvariant | api/rate_limiter.py:59-80 | over every run the bucket stays in [0, burst], the backoff nonnegative, the floor in its range and the outcome window within 1000 |
| RateLimiterEffects.FreezeSurvivesReductionIff | api/rate_limiter.py:195-198 | for a bucket a 429 has drained and frozen, after a reduction at v and until the next one every run is paid only from time after min(old refill time, v + new backoff), exactly when the window of the next 429 would not end before that time |
| RateLimiterEffects.ReductionThawsAt | api/rate_limiter.py:276-279 | the first token after the reduction is granted exactly from one refill interval after that time on |
| RateLimiterEffects.A429MayEndTheFreeze | api/rate_limiter.py:181-198 | a state in which a floor of 20 s over a retry time of 1 s lets a 429 end the freeze early |
| RateLimiterEffects.ReducedBackoff | api/rate_limiter.py:219-263 | a reduction leaves no backoff without a floor, else the larger of the floor and backoff / factor, and the schedule one step back or at its start |
| RateLimiterEffects.ReductionTakesTwoSuccesses | api/rate_limiter.py:209-219 | in a backoff a run without 429s reduces exactly when it brings the successes to two |
| RateLimiterEffects.CountRestarts | api/rate_limiter.py:184-184 | a 429 and a reduction both start that count again |
| RateLimiterEffects.FirstSuccessRestartsWindow | api/rate_limiter.py:209-216 | the first success restarts the window at its own time and releases nothing |
| RateLimiterEffects.OtherResponses | api/rate_limiter.py:176-212 | without adaptation, for failures other than 429 and for successes outside a backoff only the outcome is recorded |
| RateLimiterEffects.CountsAgainstFloor | api/rate_limiter.py:403-422 | the newest entry of the window is a failure exactly for the eight listed statuses, and the older ones move up |
| RateLimiterEffects.FloorRises | api/rate_limiter.py:133-152 | with failures in a window of at least ten the floor becomes the larger of itself and min(20, 1 + 20 * factor * share of failures), and is 20 exactly when it was or that share calls for it |
| RateLimiterEffects.FloorDecaysTo | api/rate_limiter.py:129-174 | without failures it stays, except on a full window: 95 percent, not below 0.5 once a 429 was counted, 0 below 0.1 if none was |
| RateLimiterEffects.BackoffSchedule | api/rate_limiter.py:186-191 | the first window is the retry time, each further one the factor times the last, capped |
| RateLimiterEffects.TargetIsLeast | api/rate_limiter.py:297-304 | the target is the least time that respects clock, cursor, running backoff and the floor's distance to the last request |
| RateLimiterEffects.BackToBack | api/rate_limiter.py:303-308 | two reservations in one moment lie exactly max(floor, refill interval) apart |
| RateLimiterEffects.GrantHoldsBack | api/rate_limiter.py:303-346 | in every run each reservation after a granted turn keeps the floor's distance to its recorded time |
| RateLimiterEffects.IdleGrants | api/rate_limiter.py:99-108 | after a pause n turns in a row all get a token exactly when n is at most the burst and at most what was left plus what the pause earned |
| RateLimiterEffects.NewBucketIsFull | api/rate_limiter.py:61-62 | a new limiter hands out exactly its burst at once |
| RateLimiterEffects.RatePerMinute | api/rate_limiter.py:55-58 | a minute earns the configured number of tokens, and that many refill intervals are a minute |
| RateLimiterWaiters.ServedNoFasterThanRefill | api/rate_limiter.py:314-354 | between reductions and from any state with nobody waiting, n + 1 waiters are served no earlier than n refill intervals after the first moment, whatever the burst size |
| RateLimiterWaiters.RunSerialized | api/rate_limiter.py:299-308 | between reductions, over every interleaving of waiters and responses, slot i stays i refill intervals after the start, and nobody is served before its slot |
| RateLimiterWaiters.WaitersRunTheLimiter | api/rate_limiter.py:321-350 | every run of waiters, recoveries included, is a timely run of the limiter with the same final state and the same reductions, so every bound above holds for it |
| RateLimiting.RateLimiter.constructor | api/rate_limiter.py:41-84 | a new limiter is in the initial state |
| RateLimiting.RateLimiter.RefillTokens | api/rate_limiter.py:99-108 | refines the refill step |
| RateLimiting.RateLimiter.IsInBackoff | api/rate_limiter.py:110-116 | true exactly inside the backoff window |
| RateLimiting.RateLimiter.CountRecentViolations | api/rate_limiter.py:133 | counts the failures of the outcome window |
| RateLimiting.RateLimiter.CalculateMinimumFloor | api/rate_limiter.py:118-174 | refines the floor evaluation and changes nothing else |
| RateLimiting.RateLimiter.ApplyAdaptiveBackoff | api/rate_limiter.py:176-286 | refines the response step |
| RateLimiting.RateLimiter.RecordViolation | api/rate_limiter.py:181-198 | refines the 429 branch |
| RateLimiting.RateLimiter.ReduceBackoff | api/rate_limiter.py:219-279 | refines the reduction branch |
| RateLimiting.RateLimiter.ReserveSlot | api/rate_limiter.py:288-312 | refines the reservation step |
| RateLimiting.RateLimiter.TryTakeToken | api/rate_limiter.py:339-350 | refines one locked turn of the token loop |
| RateLimiting.RateLimiter.TakeTokenAlone | api/rate_limiter.py:337-352 | a lone waiter's loop ends, with at most ceil(max(0, last_refill - now) / interval) + 1 sleeps |
| RateLimiting.RateLimiter.WaitForRequest | api/rate_limiter.py:314-354 | a lone waiter gets its token, not before its reserved target, within that many sleeps; a disabled limiter changes nothing |
| RateLimiting.RateLimiter.RecordResponse | api/rate_limiter.py:398-424 | refines recording the outcome and the response step; a disabled limiter changes nothing |
| SegmentCapture.CollectedIncreasing | download/livestream.py:444-484 | for any manifests and any failures the collected sequence numbers are strictly increasing and `last_msn` is the last of them |
| SegmentCapture.JobsOf | download/livestream.py:444-469 | the jobs of one poll are exactly the listed entries above `last_msn`, in order, numbered from the collected count |
| SegmentCapture.ListedSegment | download/livestream.py:444-454 | the i-th listed segment is numbered from the media sequence or 0, is downloaded exactly when that number is new, and counts 6 seconds without a duration |
| SegmentCapture.ListedPrefetch | download/livestream.py:456-469 | the j-th prefetch line is numbered after the segments, blank lines included, and is downloaded exactly when it is not blank and its number is new |
| SegmentCapture.CaptureEndsIff | download/livestream.py:494-499 | the capture is over exactly when some fetched manifest carried EXT-X-ENDLIST |
| SegmentCapture.NothingAfterEndlist | download/livestream.py:494-499 | nothing listed after it is captured |
| SegmentCapture.FailedStaysEligible | download/livestream.py:480-484 | a failed number is offered again exactly if nothing after it in its batch succeeded; otherwise no later manifest ever gets it back |
| SegmentCapture.StepUnbrokenIff | download/livestream.py:444-484 | a poll keeps an unbroken range unbroken exactly when no entry between two gained ones is blank or fails and, once something is collected, a manifest with a gained entry starts at or below `last_msn` + 1 and no new entry before a gained one is blank or fails |
| SegmentCapture.CapturedRangeUnbrokenIff | download/livestream.py:444-484 | for any manifests and any failures the captured numbers have no gap exactly when every poll meets that condition |
| SegmentCapture.CapturedRangeUnbroken | download/livestream.py:444-484 | in particular when all downloads succeed, no prefetch line is blank and each manifest reaches back to `last_msn` + 1 |
| SegmentCapture.BlankPrefetchLeavesHole | download/livestream.py:458-466 | a run with a blank prefetch line and a gap although nothing failed |
| SegmentCapture.NumberedIffSuffixFailures | download/livestream.py:452-453 | the k-th collected file is numbered k exactly when in every batch the failures form a suffix |
| SegmentCapture.NamesStayDistinctIff | download/livestream.py:452-453 | names stay distinct under every future without failures exactly when so far the failures of every batch formed a suffix |
| SegmentCapture.FailedFirstReusesName | download/livestream.py:452-453 | a capture of two polls in which one failed download makes the second poll write over the first one's file |
| SegmentCapture.FilesIntactIffDistinct | download/livestream.py:636-653 | every collected file still holds its own segment exactly when the names are distinct |
| SegmentCapture.CollectJobs | download/livestream.py:444-469 | the two listing loops compute the job list |
| SegmentCapture.PollSegmentsLoop | download/livestream.py:425-503 | the poll loop computes the capture |
| SegmentNames.NameHoldsNumber | download/livestream.py:453 | a name is the decimal number, padded to six digits, between `segment_` and `.ts` |
| SegmentNames.NamesDistinct | download/livestream.py:453 | different numbers have different names, beyond a million too |
| SegmentNames.NameOrder | download/livestream.py:453 | below a million, name order is number order |
| SegmentNames.SortedIffFitsSixDigits | download/livestream.py:594 | the sorted names of n consecutive files are in number order exactly for n up to a million |
| SegmentNames.SalvageOrder | download/livestream.py:594 | after a capture with suffix failures the sorted names are in collection order |
| SegmentTimeline.TimelineContinuous | download/livestream.py:871-947 | for segments without segment-level exceptions whose decode times are in order, with pts >= dts and no negative last duration, the written decode times are nondecreasing and nonnegative, and at every boundary the offset separates all earlier presentation times from all later ones |
| SegmentTimeline.TimelineContinuesIff | download/livestream.py:945-987 | the timeline stays in order under every ordered continuation exactly when it is in order and nothing was written beyond the current offset |
| SegmentTimeline.AbortedSegmentIff | download/livestream.py:945-987 | after ordered segments, one that raises leaves every ordered continuation in order exactly when each packet it wrote is decoded no later than its own origin |
| SegmentTimeline.TimelineSurvivesAbortsIff | download/livestream.py:945-987 | for ordered segments any of which may raise, every prefix stays in order under every ordered continuation exactly when that holds of each segment that raises |
| SegmentTimeline.AbortedSegmentOverlaps | download/livestream.py:972-987 | a segment that raises after writing is overlapped by the next one |
| SegmentTimeline.OffsetIsSumOfSpans | download/livestream.py:945-947 | for any packets the final offset is the sum over the segments of largest rebased pts relative to the segment start plus last packet duration |
| SegmentTimeline.ScanMeasures | download/livestream.py:871-920 | the loop variables of a segment are its origin, offset plus largest distance from the origin, and last known duration |
| SegmentTimeline.ReachIsLargest | download/livestream.py:904 | that distance is the largest one, or 0 |
| SegmentTimeline.WrittenPositions | download/livestream.py:882-943 | a segment writes exactly the packets with both timestamps that are not corrupt and that the muxer accepts, in order, each moved by the offset minus the smaller timestamp of the first that is not corrupt |
| SegmentTimeline.MuxPackets | download/livestream.py:882-943 | the interleaved packet loop treats each stream as if it were alone |
| SegmentTimeline.MuxSegments | download/livestream.py:783-1034 | the segment loop writes each stream's track with the packets in the order they came and ends at its offsets; it is accepted when at most a quarter of the segments was unreadable or raised |
| ConfigRender.SectionToMap | config/schema.py:1061-1136 | rendering into any existing map gives a map that depends on the section alone |
| ConfigRender.RenderShowsPaths | config/schema.py:1097-1131 | at every depth the map holds exactly the values whose whole path is set or marked always |
| ConfigRender.RenderedIffMarked | config/schema.py:1097-1131 | a path of fields ending in a leaf holds its value exactly when each field on it is explicitly set or marked always; every other path holds nothing |
| ConfigRender.KeyPresentIffShown | config/schema.py:1123-1126 | a key, also of a nested section, is present exactly when something inside it renders |
| ConfigRender.RoundTrip | config/schema.py:983-1019 | loading a rendered section never fails, restores every value exactly when each field neither set nor marked always is at its default, and renders to the same map again |
| ConfigRender.SaveableIff | config/schema.py:1088-1136 | that condition path by path: every leaf is at its default or has only fields on its path that are set or marked always |
| ConfigRender.LoadIff | config/schema.py:983-1012 | a mapping loads exactly when every present entry has the kind of its field, nested ones load, and strict sections hold no unknown key |
| ConfigRender.EntryWithoutMapping | config/schema.py:964-981 | what a missing key, an explicit null or another scalar does to a required, managed or optional section |
| ConfigRender.EntryRoundTrip | config/schema.py:964-981 | a top-level section survives the file exactly when it is saveable and, if optional, renders something |
| ConfigRender.FileRoundTrip | config/schema.py:983-1019 | a synchronised file loads exactly when it holds no key outside the sections, and then every section is read back as it was exactly when it survives its slot, and renders the same entry again |
| ConfigRender.ConfigFile.constructor | config/schema.py:1032-1033 | without a loaded map the file starts from an empty one |
| ConfigRender.ConfigFile.SyncToMap | config/schema.py:1163-1201 | every section key ends as its section renders or absent, all other root keys stay |
| Cyrb53.Hash | api/fansly.py:1217-1231 | the signed emulation equals the unsigned 32-bit reference for every text and seed, with both words in int32 range throughout and a result in [0, 2^53) |
| Cyrb53Vector.HashOfA | tests/test_crypto.py:17 | the reference hash of "a" with seed 0 is the value the repository's tests expect |
| Cyrb53Vector.AbsorbConcat | api/fansly.py:1217-1222 | a text is absorbed from left to right |
| Cyrb53.Finish | api/fansly.py:1226-1231 | the final mixing agrees with the unsigned one |
| Cyrb53.XorBits | api/fansly.py:1217-1223 | the modelled `^` differs bit by bit, for integers of either sign |
| Cyrb53.XorMod | api/fansly.py:1217-1223 | reading the operands as unsigned words first does not change the low bits |
| Cyrb53.AndMask | api/fansly.py:1231 | masking with 2^k - 1 keeps the low k bits of integers of either sign |
| Cyrb53.ImulWord | api/fansly.py:1193-1196 | `imul32` is the product modulo 2^32, in int32 range |
| Cyrb53.ShiftWordIff | api/fansly.py:1188-1191 | for every shift up to 32 bits `rshift32` is the logical shift of the unsigned word exactly on the numbers from -2^32 up to 2^32 |
| Cyrb53.ShiftWord | api/fansly.py:1188-1191 | on int32 values every shift by 1 to 32 bits is the logical one and stays in int32 range |
| HexDigest.ToStr16Inverted | api/fansly.py:1174-1179 | defined exactly on [0, 2^512), inverted by hexadecimal parsing, no leading zero, equal to JavaScript's printing except for 0, at most k digits exactly below 16^k |
| HexDigest.ClientCheck | api/fansly.py:1233-1257 | the header parses back to the reference hash of key, path and device id and has at most 14 digits |
| CappedDownload.TotalBound | download/m3u8.py:694-704 | in every interleaving the total stays within cap + threads * chunk size and, but for what failed writes left, so do the bytes on disk; the flag is up exactly when the total exceeds the cap; with all workers idle the total equals the bytes written except those of chunks whose writing raised, so all of them when none did |
| CappedDownload.BoundAttained | download/m3u8.py:694-704 | for every cap, chunk size and number of threads some interleaving reaches that bound |
| CappedDownload.OvershootAtMost16MiB | download/m3u8.py:658-744 | with the source's constants the overshoot is at most 16 MiB |
| CappedDownload.MaxWorkers | download/m3u8.py:730 | 4 workers below 16 segments, 16 from 64 on, a quarter of the segments in between |
| CappedDownload.SharedTotal.constructor | download/m3u8.py:670-672 | the counter starts at 0 with the flag down |
| CappedDownload.SharedTotal.CountChunk | download/m3u8.py:701-704 | the locked region adds the chunk and keeps the flag equal to being over the cap |
| VariantSelection.SelectVariant | download/m3u8.py:108-134 | guesses exactly for an empty playlist, filters exactly when a cap is set, some resolution is known and none fits, else picks the first variant of largest area among the eligible ones |
| WebSocketProtocol.RegistrationHolds | api/websocket.py:1110-1125 | over every run of registrations, stops, crashes and restarts each handled type is forwarded by the live child or still queued to it |
| WebSocketProtocol.DrainedForwardsAll | api/websocket.py:948-974 | once the command queue is drained every handled type is forwarded |
| WebSocketProtocol.HandledMessageForwarded | api/websocket.py:365-390 | then a message of a handled type is forwarded exactly when it is neither a protocol message nor a silent service event |
| WebSocketProtocol.FrameForwarded | api/websocket.py:308-395 | the messages of a frame, at any nesting depth, are forwarded from left to right, each exactly when its type is forwarded and it is neither a protocol message nor a silent service event |
| WebSocketProtocol.HandledFrameForwarded | api/websocket.py:376-390 | with the command queue drained that holds of every frame of handled types |
| WebSocketProtocol.BatchIsItsItems | api/websocket.py:377-384 | a batch is its items one after another |
| WebSocketProtocol.RegistersOnce | api/websocket.py:1122-1125 | only the first handler of a type queues a register command, behind the others |
| WebSocketProtocol.StopComesLast | api/websocket.py:948-974 | what was registered before a stop is forwarded before the child obeys it |
| WebSocketProtocol.RestartForwardsHandled | api/websocket.py:1144-1212 | the child of a completed stop and start forwards exactly the handled types and service events, with empty queues and one drain task |
| WebSocketProtocol.ForwardsOnlyRegistered | api/websocket.py:911-974 | in every run nothing but service events is forwarded that was not registered |
| WebSocketProtocol.DeliveryHolds | api/websocket.py:1224-1241 | in every run without a spawn beside a leftover drain task events are received in forwarding order, none twice; until a stop is begun none forwarded since the spawn is lost while the child lives, and at most a suffix of the queued ones once it is dead |
| WebSocketProtocol.DeadChildMayLoseQueued | api/websocket.py:1024-1030 | any suffix of the queued events may be lost by a child that dies without a stop |
| WebSocketProtocol.RaisingHandlerSticks | api/websocket.py:1224-1262 | a handler that raises in the only drain task leaves the client stuck; a start gets it out exactly when the child has died |
| WebSocketProtocol.StuckUntilSpawn | api/websocket.py:1177-1262 | while stuck, over every run that spawns no child, nothing is received and no stop completes |
| WebSocketProtocol.OrderIffSingleDrainer | api/websocket.py:1144-1175 | from a quiet state the order is kept whatever arrives exactly when there is at most one drain task |
| WebSocketProtocol.TwoDrainersReorder | api/websocket.py:1224-1241 | with two drain tasks a run that delivers out of order |
| WebSocketProtocol.RestartAfterCrashLeavesTwoDrainers | api/websocket.py:1144-1175 | a start after a crash without a stop leaves two drain tasks |
| WebSocketProtocol.FanslyWebSocket.constructor | api/websocket.py:1094-1108 | a new client is in the initial state |
| WebSocketProtocol.FanslyWebSocket.Register | api/websocket.py:1110-1125 | refines the registration step and keeps the registration invariant |
| WebSocketProtocol.FanslyWebSocket.StartInThread | api/websocket.py:1144-1175 | refines the spawn and keeps the registration invariant |
| WebSocketProtocol.FanslyWebSocket.StopThread | api/websocket.py:1177-1213 | an undisturbed stop is the two stop steps in a row, or only sends the stop command and raises when a handler ended the held drain task |
| WebSocketProtocol.FanslyWebSocket.SendCmd | api/websocket.py:1322-1326 | queues the command, or does nothing without a queue |
| TokenScrambling.TwoSidedInverse | config/fanslyconfig.py:457-470 | the fill and reading out in stride-7 order are inverse to each other, both ways |
| TokenScrambling.RankOrder | config/fanslyconfig.py:457-470 | the order of reading is by remainder modulo 7, then by position |
| TokenScrambling.ScrambleOrder | config/fanslyconfig.py:457-470 | character k of the scrambled text is the k-th in that order |
| TokenScrambling.FillStrided | config/fanslyconfig.py:457-472 | the nested loops compute the unscrambled text and write every position once, the i-th write taking character i |
| TokenScrambling.TokenRoundTrip | config/fanslyconfig.py:450-472 | scramble(p) + "fNs" gives back p exactly when the character of p read out last is not one of f, N, s |
| TokenScrambling.StripRight | config/fanslyconfig.py:455 | drops exactly the trailing characters of the set |
| TokenScrambling.GetUnscrambledToken | config/fanslyconfig.py:441-476 | computes the unscrambled token; a token is changed only if it is some text followed by "fNs", and the absent one stays absent |
| LivestreamWatcher.AtMostOneRecorder | daemon/livestream_watcher.py:210-249 | over any polls and completions a creator has at most one unfinished recorder, and it is the active entry |
| LivestreamWatcher.StepRespectsEntries | daemon/livestream_watcher.py:231-249 | entries leave only when their task is done; a poll sets the stop event of exactly the active creators it misses, a shutdown that of every active one, a failed poll or a completion none; stop events are never cleared |
| LivestreamWatcher.LiveCreatorAfterPoll | daemon/livestream_watcher.py:210-249 | a poll leaves a live creator without a running recorder exactly when its finished one still waits to be reaped |
| LivestreamWatcher.RecorderReplacedByNextPoll | daemon/livestream_watcher.py:210-249 | then the next poll that sees the creator gives it a new running recorder, whatever happens in between |
| LivestreamWatcher.LiveCreators | daemon/livestream_watcher.py:183-208 | collects exactly the creators of accounts in scope whose channel has status 2 |
| LivestreamWatcher.Watcher.constructor | daemon/livestream_watcher.py:39-40 | the watcher starts without recordings |
| LivestreamWatcher.Watcher.PollAndDiff | daemon/livestream_watcher.py:145-249 | refines one poll; a failed one changes nothing |
| LivestreamWatcher.Watcher.SpawnFor | daemon/livestream_watcher.py:215-228 | one new task and entry for each given creator |
| LivestreamWatcher.Watcher.SignalStop | daemon/livestream_watcher.py:231-241 | sets the stop event of each given creator's task |
| LivestreamWatcher.Watcher.Reap | daemon/livestream_watcher.py:244-249 | removes exactly the finished entries |
| LivestreamWatcher.Watcher.StopAllRecordings | daemon/livestream_watcher.py:75-92 | sets the stop event of every active task |

## Left out

- RateLimiterProofs.FreezeAfter429: asks for a backoff factor of at least 1, because with a smaller one a second 429 may lift before the first.
- RateLimiterProofs.WindowBound: dates a token by the clock reading its refill used; `StampedWindowBound` covers the reading recorded a moment later.
- RateLimiting.RateLimiter.WaitForRequest: covers a lone waiter; several waiters are the interleavings of `RateLimiterWaiters`.
- SegmentCapture.FilesIntactIffDistinct: describes the writes of collected segments only; a `write_bytes` that raises can truncate a file or leave a partial one.
- SegmentNames.SalvageOrder: orders the collected files; the salvage glob also finds files that failed writes left behind.
- ConfigRender.SectionToMap: maps are values, so comments, key order and the identity of nested maps are not captured.
- WebSocketProtocol.FanslyWebSocket.StopThread: assumes nothing else runs while it waits for the child; the runs of the state machine allow other steps between its two halves.
- Floating-point rounding: times and rates are reals.
- `update_config`, `reset_stats`, `get_stats`, request history and the statistics counters of the limiter.
- Pydantic validators, retired keys, secret wrappers and scalar formatting: leaves are written and read unchanged.
- Opening, probing and writing media files, and stopping a mux halfway: a segment is its packets, each with a verdict of the muxer.
- HTTP, playlist parsing, sockets, cookies and process start-up: only queue contents and step order.
- Characters outside the basic plane in hashed texts: Python counts code points there and JavaScript surrogates; the reference takes the codes the source sees.
- A drain task blocked on the queue of a dead child while a new one starts: a pull always uses the current queue.
- The timed wait for recordings at shutdown: a cancelled task is a task that finishes.
