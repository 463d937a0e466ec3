# chzzk-timeline chat tooling, modelled in Dafny

This project models the chat-analysis core of the chzzk-timeline repository. That repository collects and studies the chat of CHZZK live-stream replays. The model covers these parts:

- **Event detection** (`EventDetect`). Messages are counted per second. The counts are smoothed with an EWMA, and each second is scored against the median and MAD of a trailing ten-minute window. One peak is kept per run of high scores, peaks less than 12 s apart are chain-merged, and every interval is widened while the score stays above 2.5.
- **Event matching** (`EventMatch`). The events of two recordings of one broadcast are matched. The clock offset is estimated from a weighted histogram of peak-time differences. Candidate pairs come from a binary-searched window and are resolved greedily one to one, best score first.
- **Set-overlap analyses**:
  - the union-find replay clustering (`ReplayCluster`);
  - channel distances and the related-links export (`ChannelDistance`);
  - video relations by overlapping airtime and Jaccard similarity of chatters (`VideoAnalyzer`);
  - ten-minute chat timelines (`Timeline`);
  - per-log statistics (`Analysis`).
- **The chat-log format**. `ChatLoader` covers the file-name and line patterns of the reader, including the round trip from the line writer. `ExtractChat` covers the lambda that pages through the chat API and writes the lines.
- **Two copies of the reader and the statistics**. The repository holds the chat-log reader twice, as chzzk-chat/src/data/chat/loader.rs and chzzk-chat/src/data/chat_loader.rs, and the per-log statistics twice, as chzzk-chat/src/data/chat/analysis.rs and chzzk-chat/src/data/chat_analyzer.rs. The two copies parse lines and compute statistics the same way, so `ChatLoader` and `Analysis` model both; the table cites the `chat/` copies, which add a cache and a channel lookup for printing.
- **The `extract-event` command** (`ExtractEvent`). It validates the options, chooses the logs, drops duplicate intervals and returns the JSON document or per-event files as values.
- **The LLM prompt preparation** (`LlmChatEvent`). It compresses repeats, drops noise-only lines, de-duplicates runs, strips time stamps and checks the three-line answer format.
- **The Python lambdas and scripts**:
  - `QueueingVideos`: which replays to queue, and SQS batching;
  - `S3Lists` and `S3Paths`: S3 listing, path splitting and key derivation;
  - `ListReplays`: channel resolution, the page loop and request retries;
  - `ChannelWithReplays`: the replay pick, the replay entries and the chunk split of the per-channel summary.

`Models`, `Json`, `Text`, `Seqs` and `Wrappers` hold the shared records, the decoded-JSON values with the Python built-ins applied to them (`int()`, `str()`, `dict.get`), the string helpers (two whitespace classes, strip/trim, `splitlines`, decimal rendering and parsing), the sequence helpers (stable sort, filter, counting) and `Option`/`Result`.

Code that works by updating state is modelled as methods with loop invariants, proved against specification functions. This covers the counting maps, the scans that push into lists and the page loops. The union-find forest is a class over an array, whose `Find` compresses paths in place. Pure code is modelled as functions with lemmas. Clocks, HTTP, S3, SQS and the date parsers and formatters are parameters of the operations that use them.

## Model

| member | source | states |
|---|---|---|
| Models.UserIdSetMembers | chzzk-chat/src/data/chat/analysis.rs:23-27 | the set of user ids collected from the messages holds a user id exactly when some message carries it |
| Models.InsertUserIds | chzzk-chat/src/data/video_analyzer.rs:63-65 | inserting every message's user id into a set yields the old set joined with the messages' user-id set |
| Models.AllReplays | chzzk-chat/src/data/video_analyzer.rs:111-114 | the flattened replay list holds a replay exactly when some channel has it |
| Models.UsersOfVideoMembers | chzzk-chat/src/data/video_analyzer.rs:54-69 | a user is among a video's chatters exactly when some log of that video has a message of theirs |
| Models.VideoIds | chzzk-chat/src/data/video_analyzer.rs:54-69 | the set of video ids holds exactly the ids of the logs |
| Models.ViewersSnoc | chzzk-chat/src/data/video_analyzer.rs:54-69 | merging one more log's user ids into the per-video map keeps it equal to the per-video chatter sets of all logs seen, with no other key |
| Models.FindReplayProps | chzzk-chat/src/data/chat/analysis.rs:95 | `find` fails exactly when no replay has the video number, and otherwise returns the first replay that has it |
| Analysis.CountEach | chzzk-chat/src/data/chat/analysis.rs:39-52 | the `entry(..).or_insert(0) += 1` loop leaves a map whose keys are exactly the values seen, each with its number of occurrences |
| Analysis.SortedTimestampEnds | chzzk-chat/src/data/chat/analysis.rs:55-60 | after sorting the timestamps the first is the earliest and the last the latest, none lost |
| Analysis.AnalyzeChatLog | chzzk-chat/src/data/chat/analysis.rs:19-78 | the analysis holds the message count, the distinct user and nickname counts, per-user and per-nickname counts, the earliest and latest time and their difference, `None` for an empty log |
| Analysis.AnalysisProps | chzzk-chat/src/data/chat/analysis.rs:19-78 | the fields agree: distinct counts equal the map sizes and are at most the message count, the per-key counts sum to the message count, the duration is not negative and every message lies between first and last |
| Analysis.AnalyzeChatLogs | chzzk-chat/src/data/chat/analysis.rs:82-84 | one analysis per log, in order, each that of its log |
| Analysis.FilterByUserCountProps | chzzk-chat/src/data/chat/analysis.rs:178-214 | a log is kept exactly when its distinct user count is below the limit, with all its occurrences; nothing is added |
| Analysis.FindChannelAndReplayProps | chzzk-chat/src/data/chat/analysis.rs:87-100 | channel and replay are found together or not at all; nothing is found exactly when no channel has the video; otherwise the first such channel and its first such replay |
| ChannelDistance.AddReplaysProps | chzzk-chat/src/data/chat/channel_distance.rs:50-57 | adding a channel's replays to the video-to-channel map gives a key exactly for the old keys and the channel's videos; its videos map to it, the other keys keep their value |
| ChannelDistance.VideoToChannelProps | chzzk-chat/src/data/chat/channel_distance.rs:50-57 | a video is mapped exactly when some channel has it, and then to the last such channel (a later `collect` entry overwrites an earlier one) |
| ChannelDistance.ChannelUsersKeys | chzzk-chat/src/data/chat/channel_distance.rs:60-74 | a channel has a user set exactly when some log's video is mapped to it |
| ChannelDistance.ChannelUsersMembers | chzzk-chat/src/data/chat/channel_distance.rs:60-74 | a user is in a channel's set exactly when they chat in some log whose video is mapped to that channel |
| ChannelDistance.BuildChannelUserMap | chzzk-chat/src/data/chat/channel_distance.rs:44-77 | the loop builds exactly the per-channel union of the chatters of the logs whose video belongs to the channel |
| ChannelDistance.TopNodesMember | chzzk-chat/src/data/chat/channel_distance.rs:89-116 | every node comes from a channel with a positive distinct-chatter count equal to its `chat_count`; without `max_nodes` every such channel is a node |
| ChannelDistance.TopNodesOrder | chzzk-chat/src/data/chat/channel_distance.rs:110-116 | exactly `min(max_nodes, n)` of the `n` channels with a viewer are kept (all `n` without `max_nodes`), in non-increasing `chat_count` order |
| ChannelDistance.TopNodesRanks | chzzk-chat/src/data/chat/channel_distance.rs:110-116 | the kept nodes are a sub-multiset of the channels' nodes, and every node the cut drops has a `chat_count` no larger than that of any kept node |
| ChannelDistance.PrefixRanks | chzzk-chat/src/data/chat/channel_distance.rs:110-116 | after a descending sort, no element past a prefix has a larger `chat_count` than an element of it |
| ChannelDistance.TopNodesDropped | chzzk-chat/src/data/chat/channel_distance.rs:89-116 | a channel with a viewer whose node is not kept has no more viewers than any kept node |
| ChannelDistance.AllLinksProps | chzzk-chat/src/data/chat/channel_distance.rs:130-181 | a link is produced exactly for each pair `i < j` of nodes, with the pair's intersection size and distance, and there are `n(n-1)/2` of them |
| ChannelDistance.LinkBounds | chzzk-chat/src/data/chat/channel_distance.rs:158-167 | a distance lies between 0 and 1 and is positive exactly when the intersection is not empty |
| ChannelDistance.Endpoints | chzzk-chat/src/data/chat/channel_distance.rs:193-197 | the set holds exactly the sources and targets of the links |
| ChannelDistance.LinkedIds | chzzk-chat/src/data/chat/channel_distance.rs:193-197 | the insertion loop yields exactly the endpoint set |
| ChannelDistance.TotalPairsNoNodes | chzzk-chat/src/data/chat/channel_distance.rs:125 | with no node, `n * (n - 1)` underflows (the unsigned subtraction panics) |
| ChannelDistance.TotalPairsCountsLinks | chzzk-chat/src/data/chat/channel_distance.rs:122-125 | the pair count equals the number of links generated, and the source's expression gives it whenever there is a node |
| ChannelDistance.CalculateChannelDistances | chzzk-chat/src/data/chat/channel_distance.rs:80-213 | the nodes are the top nodes that are an endpoint of a kept link, the links are the kept links sorted by distance descending, and the pair count is that of the top nodes |
| ChannelDistance.KeptLinks | chzzk-chat/src/data/chat/channel_distance.rs:189-210 | the returned links are sorted by distance descending and are exactly the node pairs with a common chatter, each with a distance in (0, 1] |
| ChannelDistance.ReportedNodes | chzzk-chat/src/data/chat/channel_distance.rs:199-203 | a node is reported exactly when it is a top node and an endpoint of a returned link (sorting does not change the endpoints) |
| ChannelDistance.LinkEndsReported | chzzk-chat/src/data/chat/channel_distance.rs:199-212 | both endpoints of every returned link are reported nodes |
| ChannelDistance.DistancesProps | chzzk-chat/src/data/chat/channel_distance.rs:80-213 | for the result: links sorted by distance descending, a link exactly for each pair of top nodes sharing a chatter, distance in (0, 1], both endpoints among the nodes |
| ChannelDistance.BlackSet | chzzk-chat/src/data/chat/channel_distance.rs:253 | the blacklist set holds exactly the listed ids |
| ChannelDistance.PushLinkProps | chzzk-chat/src/data/chat/channel_distance.rs:265-274 | pushing a link adds both endpoints as keys and adds to each endpoint's list the item pointing at the other end |
| ChannelDistance.AdjMembers | chzzk-chat/src/data/chat/channel_distance.rs:256-276 | a channel is a key exactly when it is an end of a link at or above the distance bound with no blacklisted end, and its list holds exactly the items of those links |
| ChannelDistance.AdjSymmetric | chzzk-chat/src/data/chat/channel_distance.rs:255-276 | the adjacency is symmetric, never involves a blacklisted channel and holds only items at or above the bound |
| ChannelDistance.BuildAdjacency | chzzk-chat/src/data/chat/channel_distance.rs:252-276 | the loop builds exactly the adjacency defined by the links, the bound and the blacklist |
| ChannelDistance.ClosestShape | chzzk-chat/src/data/chat/channel_distance.rs:292-301 | a channel's list is the first `max_per_channel` of its neighbours sorted by distance descending: that many (or all), sorted, a sub-multiset of the neighbours |
| ChannelDistance.ClosestRanks | chzzk-chat/src/data/chat/channel_distance.rs:292-301 | a neighbour that was cut is no closer than any neighbour that was kept |
| ChannelDistance.ExportRelatedChannelLinks | chzzk-chat/src/data/chat/channel_distance.rs:243-305 | the map written is exactly the per-channel top lists of the adjacency, without blacklisted keys or empty lists |
| ChannelDistance.RelatedProps | chzzk-chat/src/data/chat/channel_distance.rs:243-305 | a channel is in the map exactly when it touches an eligible link and the per-channel limit is positive; its list is non-empty, at most the limit long, sorted by distance descending, with no blacklisted target and no distance below the bound |
| ChannelWithReplays.StampOf | channel_with_replays.py:25-28 | the publish stamp is numeric exactly when `publishDateAt` holds a number (a missing or `None` stamp is skipped, any other value makes `>` raise) |
| ChannelWithReplays.LatestUnique | channel_with_replays.py:21-30 | at most one video is the latest: the first one with the greatest stamp above -1 |
| ChannelWithReplays.PickLatestReplay | channel_with_replays.py:21-34 | the pick raises exactly when some stamp cannot be compared; otherwise it is the first video with the greatest stamp, or when no video has a stamp the first video, or `None` for no video |
| ChannelWithReplays.DurationSeconds | channel_with_replays.py:44-49 | `int(durationSec)`: an integer is itself, `None` gives `None` |
| ChannelWithReplays.DurationFromText | channel_with_replays.py:44-49 | the decimal text of an integer parses back to that integer |
| ChannelWithReplays.DurationOfFloat | channel_with_replays.py:44-49 | a float is truncated toward zero |
| ChannelWithReplays.ParseDatetime | channel_with_replays.py:37-41 | a value that is not a string gives `None` (the `TypeError`) |
| ChannelWithReplays.FormatTimeWindow | channel_with_replays.py:52-65 | an unparsable start gives both placeholder texts; otherwise the start is the formatted start and the end the formatted start plus the duration, or the placeholder when there is no duration |
| ChannelWithReplays.WindowEnds | channel_with_replays.py:52-65 | the end is the placeholder exactly when the start or the duration is missing; a zero duration gives an end equal to the start |
| ChannelWithReplays.EntryOf | channel_with_replays.py:70-85 | an entry carries the title (or the placeholder title), the time window and the video's `videoNo`, `thumbnailUrl`, `tags` and `categoryKo` |
| ChannelWithReplays.EntryTitle | channel_with_replays.py:71 | a missing title gives the placeholder; a present one, even `None`, is kept |
| ChannelWithReplays.BuildReplayEntries | channel_with_replays.py:68-86 | one entry per video, in order, each that video's entry |
| ChannelWithReplays.SplitChunks | channel_with_replays.py:157-161 | the two chunks concatenate back to the summary, the first holding a tenth (rounded down) and no more than the second |
| ChatLoader.DigitRunLength | chzzk-chat/src/data/chat/loader.rs:15 | the run of digits that `\d+` takes at a position: all digits, and followed by the end or by a non-digit |
| ChatLoader.FileNameMatchAt | chzzk-chat/src/data/chat/loader.rs:15 | a match at a position is `chatLog-`, a non-empty digit run and `.log` found there |
| ChatLoader.FindFileNameMatch | chzzk-chat/src/data/chat/loader.rs:15 | the leftmost match found is a digit run framed by `chatLog-` and `.log` at some position |
| ChatLoader.ExtractVideoIdFromFilename | chzzk-chat/src/data/chat/loader.rs:25-28 | a result is below 2^64 and is the value of a digit run that the name holds between `chatLog-` and `.log` |
| ChatLoader.ExtractRoundTrip | chzzk-chat/src/data/chat/loader.rs:209-220 | `chatLog-{n}.log` gives back `n` for every `n` below 2^64 (the unit test's 9902485 and 123456 among them) |
| ChatLoader.ExtractWithoutPrefix | chzzk-chat/src/data/chat/loader.rs:25-28 | a name without `chatLog-` gives `None` |
| ChatLoader.ExtractInvalid | chzzk-chat/src/data/chat/loader.rs:219 | `invalid.log` gives `None` |
| ChatLoader.ExtractOverflow | chzzk-chat/src/data/chat/loader.rs:27 | a digit string of 2^64 or more fails the `u64` parse and gives `None` |
| ChatLoader.NextChar | chzzk-chat/src/data/chat/loader.rs:19 | the first occurrence of a character from a position, or the end |
| ChatLoader.LastHit | chzzk-chat/src/data/chat/loader.rs:19 | the greedy `(.+)` backtracks from the right: the last position where the tail matches, none after it |
| ChatLoader.NickEnd | chzzk-chat/src/data/chat/loader.rs:19 | `[^:]+` ends at the first ':', which `: ` must follow |
| ChatLoader.LineMatchAt | chzzk-chat/src/data/chat/loader.rs:19 | a match at a position starts there and its capture spans lie in the line |
| ChatLoader.FindLineMatch | chzzk-chat/src/data/chat/loader.rs:19 | the leftmost match at or after a position has spans inside the line |
| ChatLoader.LeapSecondIsLast | chzzk-chat/src/data/chat/loader.rs:39-43 | second 60, which chrono's `%S` accepts as a leap second, names the same whole-second instant as second 59 |
| ChatLoader.ParseChatLine | chzzk-chat/src/data/chat/loader.rs:32-55 | a parsed nickname and message are already trimmed |
| ChatLoader.MessageOf | chzzk-chat/src/data/chat/loader.rs:36-54 | the captures become a message at the +09:00 offset, with trimmed nickname and message and the user id as captured, or `None` for an invalid date or time |
| ChatLoader.ParseRendered | chzzk-chat/src/data/chat/loader.rs:32-55 | round trip: a line written as `[ts] nick: text (uid)`, with a nickname without ':', a one-line non-empty text and a non-empty user id without parentheses, parses to the message of those pieces |
| ChatLoader.RenderedSpans | chzzk-chat/src/data/chat/loader.rs:19 | such a line matches at its start with captures exactly the pieces it was built from |
| ChatLoader.SampleInstant | chzzk-chat/src/data/chat/loader.rs:222-231 | the unit test's 2025-10-24 18:03:15 at +09:00 is 1761296595 seconds after the epoch |
| ChatLoader.EmptyLineNone | chzzk-chat/src/data/chat/loader.rs:76-81 | a blank line does not parse |
| ChatLoader.LineMessageIsParseOfTrim | chzzk-chat/src/data/chat/loader.rs:75-82 | a line yields exactly what its trimmed text parses to |
| ChatLoader.LoadMessages | chzzk-chat/src/data/chat/loader.rs:72-83 | no more messages than lines |
| ChatLoader.RustLinesTerminated | chzzk-chat/src/data/chat/loader.rs:74 | `lines()` of a text written one line per `\n` gives back those lines |
| ChatLoader.LoadTerminated | chzzk-chat/src/data/chat/loader.rs:72-83 | loading such a text keeps, in order, the messages of exactly the lines that parse after trimming |
| ChatLoader.SampleLine | chzzk-chat/src/data/chat/loader.rs:222-231 | the unit test's sample line parses to nickname `1연지`, message `머타타` and its user id, at 1761296595 |
| ChatLoader.SampleReadable | chzzk-chat/src/data/chat/loader.rs:224 | the sample's timestamp, nickname, message and user id meet the round trip's conditions |
| ChatLoader.SampleFields | chzzk-chat/src/data/chat/loader.rs:224 | the sample's timestamp reads as 2025-10-24 18:03:15 |
| ChatLoader.SampleMessage | chzzk-chat/src/data/chat/loader.rs:224-230 | the sample's captures give the expected message, trimmed fields unchanged |
| EventDetect.Elapsed | chzzk-chat/src/data/chat/event.rs:40 | one elapsed second per message, its timestamp minus the first time |
| EventDetect.ResampleToSeconds | chzzk-chat/src/data/chat/event.rs:33-45 | the count map has exactly the elapsed seconds as keys, each counted as often as it occurs |
| EventDetect.DenseSeries | chzzk-chat/src/data/chat/event.rs:278-288 | one bin per second from min to max inclusive, the count of the map there or 0 |
| EventDetect.DenseSum | chzzk-chat/src/data/chat/event.rs:282-288 | the dense rate sums to the number of messages when every elapsed second lies in the range |
| EventDetect.Ewma | chzzk-chat/src/data/chat/event.rs:48-62 | the smoothed series is the reference recurrence seeded with the first value, one value per input |
| EventDetect.EwmaBounds | chzzk-chat/src/data/chat/event.rs:48-62 | with alpha in [0, 1] every smoothed value lies within the bounds of the input |
| EventDetect.EwmaFirst | chzzk-chat/src/data/chat/event.rs:54-58 | the first smoothed value is the first input value |
| EventDetect.MedianBounds | chzzk-chat/src/data/chat/event.rs:85-99 | the median of a non-empty list is at least one element and at most one element |
| EventDetect.MedianWithin | chzzk-chat/src/data/chat/event.rs:85-99 | the median lies within any bounds of its elements |
| EventDetect.Mad | chzzk-chat/src/data/chat/event.rs:102-117 | the MAD is never below the 1e-10 floor (0 deviations give 1.0) |
| EventDetect.MadOfConstant | chzzk-chat/src/data/chat/event.rs:102-117 | a constant window has median c and MAD 1.0 |
| EventDetect.MadAt | chzzk-chat/src/data/chat/event.rs:324-329 | the MAD of a point's window (1.0 when empty) is never below the floor |
| EventDetect.PointScore | chzzk-chat/src/data/chat/event.rs:302-334 | one iteration of the baseline loop yields the window's base, MAD and z of that point |
| EventDetect.ZScores | chzzk-chat/src/data/chat/event.rs:298-334 | one base, MAD and z per second, each the reference value of its window |
| EventDetect.ZAtPast | chzzk-chat/src/data/chat/event.rs:309-313 | a point's z depends only on the smoothed values up to that point |
| EventDetect.WindowNonEmpty | chzzk-chat/src/data/chat/event.rs:304-313 | on a dense series starting at min_sec every baseline window holds at least one value |
| EventDetect.RunEnd | chzzk-chat/src/data/chat/event.rs:147-152 | the end of a run above the threshold: all inside are above, the one at the end is not |
| EventDetect.BestFrom | chzzk-chat/src/data/chat/event.rs:145-150 | the best index of a run is its start or inside the run |
| EventDetect.PeaksFrom | chzzk-chat/src/data/chat/event.rs:134-162 | peaks are strictly increasing indices whose z is above the threshold |
| EventDetect.PickPeaksFromRuns | chzzk-chat/src/data/chat/event.rs:134-162 | the loop returns exactly the reference peak list |
| EventDetect.BestFromProps | chzzk-chat/src/data/chat/event.rs:145-150 | the chosen index is beaten by no index of the run, and beats every earlier index it displaced (higher z, z ties broken by higher rate, first wins) |
| EventDetect.PeaksSeparated | chzzk-chat/src/data/chat/event.rs:138-159 | consecutive peaks are separated by a point whose z is not above the threshold (one peak per run) |
| EventDetect.PeaksBest | chzzk-chat/src/data/chat/event.rs:145-150 | no point of a peak's run beats the peak, and an earlier point of the run is strictly beaten |
| EventDetect.PeaksCoverRuns | chzzk-chat/src/data/chat/event.rs:138-159 | every point above the threshold shares its run with some peak |
| EventDetect.MergeNearbyPeaks | chzzk-chat/src/data/chat/event.rs:165-200 | the loop returns exactly the reference merge |
| EventDetect.MergeSnoc | chzzk-chat/src/data/chat/event.rs:176-196 | a peak within the gap of the last tuple's end is absorbed into it (end moves, peak moves only on a strictly higher z), otherwise it opens a new tuple; earlier tuples are unchanged |
| EventDetect.MergeShape | chzzk-chat/src/data/chat/event.rs:165-200 | no more tuples than peaks, none only for no peaks, first start is the first peak, last end the last peak, and consecutive tuples lie more than the gap apart |
| EventDetect.MergeWitness | chzzk-chat/src/data/chat/event.rs:176-196 | every tuple's peak second, z and count come from one input peak |
| EventDetect.MergeOrdered | chzzk-chat/src/data/chat/event.rs:165-200 | on increasing peaks the tuples are ordered and disjoint, start <= peak <= end |
| EventDetect.MergeCovers | chzzk-chat/src/data/chat/event.rs:165-200 | every input peak lies inside some tuple |
| EventDetect.MergeRepresentative | chzzk-chat/src/data/chat/event.rs:184-191 | a tuple's peak z is the highest of the peaks it spans, and the earliest among equals |
| EventDetect.ExpandIntervals | chzzk-chat/src/data/chat/event.rs:203-251 | one event per merged tuple, each the reference expansion of that tuple |
| EventDetect.LeftScanProps | chzzk-chat/src/data/chat/event.rs:211-224 | the expanded start is at most the start, a time point when moved, every point passed over has z above z_end, and a point at or below z_end stops it |
| EventDetect.RightScanProps | chzzk-chat/src/data/chat/event.rs:226-239 | the expanded end is at least the end, a time point when moved, every point passed over has z above z_end, and a point at or below z_end stops it |
| EventDetect.RealRate | chzzk-chat/src/data/chat/event.rs:286 | the rate as floats, element by element |
| EventDetect.DenseTimes | chzzk-chat/src/data/chat/event.rs:287 | the time points run from min_sec upward by one |
| EventDetect.ZSeries | chzzk-chat/src/data/chat/event.rs:298-334 | one z per second, each the reference value of its window |
| EventDetect.PeakInfos | chzzk-chat/src/data/chat/event.rs:341-347 | one (index, second, z, count) tuple per peak index |
| EventDetect.Zipped | chzzk-chat/src/data/chat/event.rs:353-357 | the (time, z) pairs, element by element |
| EventDetect.ExpandSpec | chzzk-chat/src/data/chat/event.rs:203-251 | one expanded event per merged tuple |
| EventDetect.Counts | chzzk-chat/src/data/chat/event.rs:362-367 | the count column of the timeline |
| EventDetect.ElapsedFromFirst | chzzk-chat/src/data/chat/event.rs:270-272 | the earliest message is at elapsed second 0 |
| EventDetect.EarliestOfMin | chzzk-chat/src/data/chat/event.rs:269-272 | the first message after sorting carries the smallest timestamp |
| EventDetect.CollectPeaks | chzzk-chat/src/data/chat/event.rs:341-347 | the loop returns exactly the tuple per peak index |
| EventDetect.SeriesEvents | chzzk-chat/src/data/chat/event.rs:294-359 | the z-scores and events of the dense series are the reference ones |
| EventDetect.CountSeries | chzzk-chat/src/data/chat/event.rs:274-288 | one bin per second from 0 to the latest elapsed second, each the number of messages in that second, summing to the message count |
| EventDetect.DetectEventIntervals | chzzk-chat/src/data/chat/event.rs:254-374 | None exactly for an empty log; otherwise the earliest timestamp, the dense timeline with its z-scores, and the reference events |
| EventDetect.DetectedUnique | chzzk-chat/src/data/chat/event.rs:254-374 | the detection of a log is unique |
| EventDetect.TimelineUnique | chzzk-chat/src/data/chat/event.rs:362-367 | the timeline of a log is unique |
| EventDetect.MergeWithin | chzzk-chat/src/data/chat/event.rs:165-200 | merged tuples stay within any bounds of the peak seconds |
| EventDetect.PeaksOfProps | chzzk-chat/src/data/chat/event.rs:338-347 | peak tuples are increasing in second, and each is a point of the series with z above 8.0 and its own count |
| EventDetect.ZippedIncreasing | chzzk-chat/src/data/chat/event.rs:353-357 | the time points of the zipped series are increasing |
| EventDetect.EventPeak | chzzk-chat/src/data/chat/event.rs:338-359 | every event peaks at a second of the series whose z is above 8.0, with that second's count |
| EventDetect.EventBounds | chzzk-chat/src/data/chat/event.rs:203-251 | every event satisfies min <= start <= peak <= end <= max of the series |
| EventDetect.EventsApart | chzzk-chat/src/data/chat/event.rs:165-200 | consecutive events' peaks lie more than 12 seconds apart |
| EventMatch.SelectTopProps | chzzk-chat/src/data/chat/event.rs:456-466 | min(k, n) distinct events of the input with their own indices, in non-increasing z order with ties in index order (stable sort), and no event left out has a higher z than one chosen |
| EventMatch.TruncDiv | chzzk-chat/src/data/chat/event.rs:504 | division truncating toward zero, as Rust's i64 division, for either sign of the dividend |
| EventMatch.BinProps | chzzk-chat/src/data/chat/event.rs:504 | a difference lies less than one bin from its bin, on the side of zero; differences strictly between -10 and 10 fall in bin 0 |
| EventMatch.RealTrunc | chzzk-chat/src/data/chat/event.rs:590 | the float-to-integer cast truncates toward zero |
| EventMatch.AllPairsMembers | chzzk-chat/src/data/chat/event.rs:479-494 | a (delta, weight) is among the pairs exactly when it is the difference of peak times and the weaker z of some A and B event |
| EventMatch.AllPairsEmpty | chzzk-chat/src/data/chat/event.rs:479-498 | no pairs exactly when either side is empty |
| EventMatch.BinMapProps | chzzk-chat/src/data/chat/event.rs:501-506 | a bin is a key of the histogram exactly when some difference falls in it, and its value is the total weight of those differences |
| EventMatch.BinWeightAbsent | chzzk-chat/src/data/chat/event.rs:501-506 | a bin no difference falls in has weight 0 |
| EventMatch.BestBinExists | chzzk-chat/src/data/chat/event.rs:509-513 | a non-empty histogram has a bin of greatest weight |
| EventMatch.EstimateOffset | chzzk-chat/src/data/chat/event.rs:469-531 | 0.0 when either side is empty; otherwise the refinement around some bin of greatest total weight |
| EventMatch.RefineAround | chzzk-chat/src/data/chat/event.rs:516-530 | the weighted mean of the differences within 10 s of the best bin, or the bin itself when they carry no weight |
| EventMatch.DeltasWithWeights | chzzk-chat/src/data/chat/event.rs:479-494 | the nested loop builds every (A, B) pair in order |
| EventMatch.Histogram | chzzk-chat/src/data/chat/event.rs:501-506 | the histogram of a non-empty pair list is the reference bin map and is not empty |
| EventMatch.NearSumsBounds | chzzk-chat/src/data/chat/event.rs:516-524 | with non-negative weights the weighted sum near the bin stays within the bin's ±10 s band |
| EventMatch.RefineWithin | chzzk-chat/src/data/chat/event.rs:519-530 | with positive weights and a bin that holds some difference, the refined offset lies within 10 s of the bin |
| EventMatch.OffsetWithin | chzzk-chat/src/data/chat/event.rs:469-531 | with positive z-scores on both sides the estimated offset lies within 10 s of a bin of greatest weight |
| EventMatch.FirstNotBelow | chzzk-chat/src/data/chat/event.rs:597-604 | the first position whose peak time is not below the target |
| EventMatch.SearchExists | chzzk-chat/src/data/chat/event.rs:597-604 | binary search on entries sorted by peak time always has a result: an equal entry or the insertion point |
| EventMatch.SearchWindow | chzzk-chat/src/data/chat/event.rs:596-607 | whatever equal entry the two searches find, every entry strictly inside the window lies between them |
| EventMatch.CandidateProps | chzzk-chat/src/data/chat/event.rs:607-650 | a pair is a candidate exactly when the peaks are within 90 s, the overlap is at least 15 s and at least 0.35 of the shorter interval; its fields are the aligned peaks, their distance, the overlap and a ratio in [0.35, 1] |
| EventMatch.RatioBounds | chzzk-chat/src/data/chat/event.rs:628-640 | the overlap ratio is at most 1, and at least 0.35 exactly when the overlap is at least 0.35 of the shorter length |
| EventMatch.CollectCandidates | chzzk-chat/src/data/chat/event.rs:588-652 | every candidate comes from a kept A event and a B entry, and every pair strictly inside the window that passes the checks is a candidate |
| EventMatch.WindowCandidates | chzzk-chat/src/data/chat/event.rs:589-651 | for one A event: each candidate comes from some B entry, and every B entry strictly inside the window that passes yields one |
| EventMatch.ScanWindow | chzzk-chat/src/data/chat/event.rs:607-651 | the inner loop keeps exactly the passing entries of the searched slice, in order |
| EventMatch.WindowMembers | chzzk-chat/src/data/chat/event.rs:607-651 | the kept entries of the slice come from B entries, and every passing entry of the slice is kept |
| EventMatch.ResolveGreedy | chzzk-chat/src/data/chat/event.rs:677-697 | the loop returns exactly the greedy pass over the sorted candidates |
| EventMatch.GreedyOneToOne | chzzk-chat/src/data/chat/event.rs:681-697 | the chosen pairs are input pairs with unused events, and no event of either side is chosen twice |
| EventMatch.GreedySorted | chzzk-chat/src/data/chat/event.rs:675-697 | the chosen pairs keep the non-increasing score order |
| EventMatch.GreedyMaximal | chzzk-chat/src/data/chat/event.rs:681-697 | every input pair is chosen, blocked by an event used before, or lost to a chosen pair of at least its score sharing one of its events |
| EventMatch.StrongMembers | chzzk-chat/src/data/chat/event.rs:544-556 | the kept events are exactly those with z-score at least 3, each with its own index |
| EventMatch.SortedBOrder | chzzk-chat/src/data/chat/event.rs:575-582 | the B entries are sorted by absolute peak time |
| EventMatch.CandidateSupported | chzzk-chat/src/data/chat/event.rs:642-672 | a candidate names events of the two detections and scores to the ratio plus 0.03 times the weaker z |
| EventMatch.MatchEventsTimeOnly | chzzk-chat/src/data/chat/event.rs:534-703 | no kept event on a side gives offset 0 and no matches; otherwise the offset is the estimate from the top-40 events, and the matches are scored candidates under the truncated offset, one-to-one, in non-increasing score, and every eligible pair is matched or lost to a match of at least its score |
| EventMatch.EligibleStrong | chzzk-chat/src/data/chat/event.rs:544-556 | an eligible pair is made of events kept on both sides |
| EventMatch.MatchWithOffset | chzzk-chat/src/data/chat/event.rs:574-697 | for a fixed offset: matches are supported, one-to-one, in non-increasing score, and greedy-maximal over the eligible pairs |
| EventMatch.ResolvedOrder | chzzk-chat/src/data/chat/event.rs:675-697 | resolving sorted candidates gives one-to-one matches in non-increasing score |
| EventMatch.ResolvedMaximal | chzzk-chat/src/data/chat/event.rs:654-697 | every eligible pair is matched or blocked by a match of at least its score |
| ExtractChat.EnvIntCases | infra/lambda/extract-chat-from-video.py:12-22 | an unset or blank variable gives the default; otherwise the result is Ok exactly when the stripped text parses as a Python int, and then it is that int |
| ExtractChat.EnvIntOf | infra/lambda/extract-chat-from-video.py:12-22 | the decimal text of any integer reads back as that integer |
| ExtractChat.EnvIntOfText | infra/lambda/extract-chat-from-video.py:19-20 | a text `int()` accepts reads back as its value |
| ExtractChat.GetOutputTarget | infra/lambda/extract-chat-from-video.py:25-44 | the bucket is the stripped message value, else the environment value, else the default; the prefix likewise and always ends in `/`, gaining one only when it lacks it |
| ExtractChat.MessageTargetWins | infra/lambda/extract-chat-from-video.py:32-36 | a non-blank bucket in the message beats the environment |
| ExtractChat.OutputTargetStable | infra/lambda/extract-chat-from-video.py:25-44 | feeding the chosen target back in as a message gives the same target without any environment |
| ExtractChat.TargetStripped | infra/lambda/extract-chat-from-video.py:40-43 | bucket and prefix come out stripped and the prefix is never empty |
| ExtractChat.SafeNickname | infra/lambda/extract-chat-from-video.py:53-65 | falsy or "null" profiles and non-object, non-text profiles give Unknown; an object gives its nickname; text that does not decode to an object gives Unknown |
| ExtractChat.NicknameOfText | infra/lambda/extract-chat-from-video.py:58-62 | a text profile that decodes to an object has the object's nickname |
| ExtractChat.NicknameNonEmpty | infra/lambda/extract-chat-from-video.py:53-65 | the nickname is never empty, and a non-empty nickname text of an object profile is kept as is |
| ExtractChat.MessageSeconds | infra/lambda/extract-chat-from-video.py:122-126 | a number gives its value divided by 1000, a text gives a value exactly when `float()` accepts it, null, lists and objects give none |
| ExtractChat.OneLine | infra/lambda/extract-chat-from-video.py:133-138 | the text holds no carriage return and no newline |
| ExtractChat.CleanTextProps | infra/lambda/extract-chat-from-video.py:133-138 | the cleaned text has no line break and is already stripped, both by Python's strip and by Rust's trim |
| ExtractChat.ChatPieces | infra/lambda/extract-chat-from-video.py:119-138 | a chat yields a line exactly when it is an object whose messageTime converts to seconds |
| ExtractChat.RenderedTrimmed | infra/lambda/extract-chat-from-video.py:140 | a rendered line is unchanged by Rust's trim |
| ExtractChat.ChatLineReadsBack | infra/lambda/extract-chat-from-video.py:140 | a written line read back by the chat loader gives the chat's capture, with the message text the writer wrote |
| ExtractChat.RenderedPlain | infra/lambda/extract-chat-from-video.py:140 | a written line holds no newline when time, nickname and user id hold none |
| ExtractChat.RenderPlain | infra/lambda/extract-chat-from-video.py:140 | a line rendered from pieces without newlines holds no newline |
| ExtractChat.WritePage | infra/lambda/extract-chat-from-video.py:119-141 | the loop writes exactly the reference lines of the page |
| ExtractChat.PageStep | infra/lambda/extract-chat-from-video.py:104-150 | a page halts exactly when the code is not 200 or it has no chats; otherwise it yields the page's lines, and a next token is non-empty, stripped and differs from the current one |
| ExtractChat.CrawlBound | infra/lambda/extract-chat-from-video.py:89-93 | a successful crawl has made at most max_pages pages |
| ExtractChat.CrawlUnfold | infra/lambda/extract-chat-from-video.py:89-150 | one page of the crawl: a halting page stops with the pages so far, a last page adds one page, a next token continues with its lines in front |
| ExtractChat.WriteChatLog | infra/lambda/extract-chat-from-video.py:68-152 | the loop returns exactly the reference crawl from token "0" (error when max_pages is reached) |
| ExtractChat.ReadMessage | infra/lambda/extract-chat-from-video.py:155-165 | "no records" exactly when the Records value is falsy; a non-list Records or a non-object first record is an error; a text body that does not decode reads as `{"video_id": body}`, and otherwise the message is accepted exactly when it is an object |
| ExtractChat.PlanJob | infra/lambda/extract-chat-from-video.py:155-172 | no job exactly when there are no records; a text body that does not decode stands for `{"video_id": body}`, while a non-list Records, a non-object record or a non-object message is an error, and so is a blank video id; with a video id the job exists exactly when the three integer settings parse, and it names the video, the chosen bucket, the key prefix + `chatLog-<id>.log` and the parsed page bound |
| ExtractChat.KeyNamesVideo | infra/lambda/extract-chat-from-video.py:172 | the uploaded key's last segment is the log name the chat loader reads the same video id back from |
| ExtractChat.NameReadsBack | infra/lambda/extract-chat-from-video.py:172 | `chatLog-<n>.log` holds no slash and the loader reads `n` back from it |
| ExtractChat.LastSegment | infra/lambda/extract-chat-from-video.py:172 | the last segment of prefix + name is the name |
| ExtractChat.Handler | infra/lambda/extract-chat-from-video.py:155-192 | no records gives the no-records answer and writes nothing; a planning error is an error; otherwise the answer is an error exactly when the crawl fails, and reports the video, bucket, key, page count and line count of the lines written |
| ExtractEvent.FlagProps | chzzk-chat/src/command/extract_event.rs:49-51 | a flag parses exactly for "true" or "false", each reads back, and anything else falls back to the default |
| ExtractEvent.ValidateProps | chzzk-chat/src/command/extract_event.rs:53-72 | options are accepted exactly when one of video id and channel is given and a channel comes with recent_days; video mode carries the id, channel mode the channel and the days |
| ExtractEvent.FindChatLogProps | chzzk-chat/src/command/extract_event.rs:80-85 | the search finds nothing exactly when no log has the id, and otherwise the first log with it |
| ExtractEvent.FindChannelProps | chzzk-chat/src/command/extract_event.rs:107-110 | the search finds nothing exactly when no channel has the id, and otherwise a channel of the list with it |
| ExtractEvent.ChannelTargetsProps | chzzk-chat/src/command/extract_event.rs:103-152 | in channel mode a successful choice is non-empty, and holds a log exactly when the channel has a replay of that video whose start parses and is at or after the cutoff |
| ExtractEvent.VideoTargetsOne | chzzk-chat/src/command/extract_event.rs:78-85 | in video mode exactly one log is chosen |
| ExtractEvent.Kept | chzzk-chat/src/command/extract_event.rs:212-237 | the kept event indices are below the count |
| ExtractEvent.DedupIntervals | chzzk-chat/src/command/extract_event.rs:212-237 | the loop with its seen set keeps the reference indices; saved counts them and saved + skipped is the number of events |
| ExtractEvent.KeptIncreasing | chzzk-chat/src/command/extract_event.rs:220-237 | kept indices appear in increasing order |
| ExtractEvent.KeptMembers | chzzk-chat/src/command/extract_event.rs:220-237 | an event is kept exactly when it is the first with its (start, end) interval |
| ExtractEvent.KeptCovers | chzzk-chat/src/command/extract_event.rs:220-237 | every event's interval is the interval of some kept event |
| ExtractEvent.KeptProps | chzzk-chat/src/command/extract_event.rs:212-237 | kept indices are increasing, in range, exactly the first of each interval, pairwise of distinct intervals, and cover every interval |
| ExtractEvent.MapKeptProps | chzzk-chat/src/command/extract_event.rs:217-261 | one output per kept event, in order, each the output of a first-of-interval event, and every such event has its output |
| ExtractEvent.FirstOfEach | chzzk-chat/src/command/extract_event.rs:220-237 | every event's interval first occurs at or before it |
| ExtractEvent.WindowProps | chzzk-chat/src/command/extract_event.rs:240-250 | a message is in an event's window exactly when its timestamp is within the interval, with its multiplicity; the window is sorted by time, and messages of equal time keep their log order (stable sort) |
| ExtractEvent.Texts | chzzk-chat/src/command/extract_event.rs:253-256 | the message texts, element by element |
| ExtractEvent.RenderedClock | chzzk-chat/src/command/extract_event.rs:269-272 | the rendered time ends in the +09:00 wall clock and its zone; equal renderings have the same local second of the day |
| ExtractEvent.JsonDocProps | chzzk-chat/src/command/extract_event.rs:204-288 | every JSON entry is the entry of a first-of-interval event, and every such event has its entry |
| ExtractEvent.JsonEntryAt | chzzk-chat/src/command/extract_event.rs:217-264 | the a-th JSON entry is the entry of the a-th kept event |
| ExtractEvent.JsonEntryOf | chzzk-chat/src/command/extract_event.rs:217-264 | every first-of-interval event has its entry in the document |
| ExtractEvent.JsonDocDistinct | chzzk-chat/src/command/extract_event.rs:225-237 | no two JSON entries share an interval |
| ExtractEvent.KeptDistinct | chzzk-chat/src/command/extract_event.rs:225-237 | no two kept events share an interval |
| ExtractEvent.JsonDocCovers | chzzk-chat/src/command/extract_event.rs:225-237 | every event's interval appears in the document |
| ExtractEvent.SaveEventChatsToJson | chzzk-chat/src/command/extract_event.rs:204-288 | the file is `<video_id>_chat.json` holding the reference document; saved is its event count and saved + skipped the number of events |
| ExtractEvent.LocalSecondOfDay | chzzk-chat/src/command/extract_event.rs:341 | the +09:00 wall-clock second of the day lies in [0, 86400) |
| ExtractEvent.Pad2Props | chzzk-chat/src/command/extract_event.rs:343 | a two-digit zero-padded field reads back as its value |
| ExtractEvent.ClockPartsProps | chzzk-chat/src/command/extract_event.rs:341 | hour, minute and second are two digits each, below 24, 60 and 60, and make up the local second of the day |
| ExtractEvent.ClockReadBack | chzzk-chat/src/command/extract_event.rs:394 | equal HH:MM:SS renderings have the same local second of the day |
| ExtractEvent.HhmmssProps | chzzk-chat/src/command/extract_event.rs:341-342 | the HHMMSS field is six digits that make up the local second of the day |
| ExtractEvent.EventFileNameProps | chzzk-chat/src/command/extract_event.rs:343 | `event_{:03}_..._....log`: the index + 1 zero-padded to at least three digits, then two six-digit clocks; 27 characters below 1000 events |
| ExtractEvent.MessageLines | chzzk-chat/src/command/extract_event.rs:389-401 | one line per message, in order |
| ExtractEvent.EventFileLayout | chzzk-chat/src/command/extract_event.rs:360-401 | an event file is its header followed by one line per window message, in order |
| ExtractEvent.HeaderLinesProps | chzzk-chat/src/command/extract_event.rs:364-386 | the header holds six lines: event and video, start and end with the +0900 zone, peak, total with the window's message count, then an empty line |
| ExtractEvent.HeaderClockIsNameClock | chzzk-chat/src/command/extract_event.rs:341-376 | the clock in the header's start line and the clock in the file name are the same digits |
| ExtractEvent.EventFilesProps | chzzk-chat/src/command/extract_event.rs:315-410 | at most one file per event; every file is the file of a first-of-interval event and every such event has its file |
| ExtractEvent.EventFileAt | chzzk-chat/src/command/extract_event.rs:315-410 | the a-th file is the file of the a-th kept event |
| ExtractEvent.EventFileIn | chzzk-chat/src/command/extract_event.rs:315-410 | every first-of-interval event has its file |
| ExtractEvent.EventFileNamesAt | chzzk-chat/src/command/extract_event.rs:335-344 | file names are the names of the kept events, in order |
| ExtractEvent.EventFileNamesDistinct | chzzk-chat/src/command/extract_event.rs:343-344 | no two files of one run share a name, so none overwrites another |
| ExtractEvent.NamesDiffer | chzzk-chat/src/command/extract_event.rs:343 | event names of different indices differ whatever their times |
| ExtractEvent.SaveEventChatsToFiles | chzzk-chat/src/command/extract_event.rs:291-418 | the folder is `<id>_chat` when a header or timestamps are printed and `<id>_chat_raw` otherwise; the files are the reference event files; saved is their count and saved + skipped the number of events |
| ExtractEvent.OutputForName | chzzk-chat/src/command/extract_event.rs:96-100 | the output is named after the log in the chosen form, JSON exactly when output_json is set |
| ExtractEvent.ProcessLog | chzzk-chat/src/command/extract_event.rs:88-100 | nothing exactly when the log has no messages; otherwise what is saved for the log's detection, under its name and in the chosen form |
| ExtractEvent.OutputsForSnoc | chzzk-chat/src/command/extract_event.rs:157-182 | appending a log's saved output keeps the outputs those of the processed logs |
| ExtractEvent.RunVideo | chzzk-chat/src/command/extract_event.rs:78-101 | video mode fails exactly when the log has no messages, and otherwise saves its output |
| ExtractEvent.RunChannel | chzzk-chat/src/command/extract_event.rs:157-182 | channel mode never fails, skips logs without messages, and saves the output of every other log in order |
| ExtractEvent.RunExtractEvent | chzzk-chat/src/command/extract_event.rs:44-186 | an error in choosing the logs is returned as is; otherwise the outcome of the video or channel run over the chosen logs |
| ListReplays.Classify | list_replays.py:19-28 | an attempt is retried exactly on 429/500/502/503, accepted exactly on 200 with a decoded object whose code is 200 and which has content, and passes on with no sleep exactly on a non-retryable status outside 400-599 |
| ListReplays.Pow2 | list_replays.py:26 | powers of two are at least 1 |
| ListReplays.RequestShape | list_replays.py:17-29 | a request makes no more than max_retries attempts, keeps going only on non-final answers, returns the content of the last attempt when it succeeds, stops early only on a final answer, and sleeps at most once per attempt |
| ListReplays.FirstFinalDecides | list_replays.py:18-28 | the first final answer decides the outcome: its content on acceptance and its error otherwise, after exactly that many attempts |
| ListReplays.Request | list_replays.py:17-29 | the retry loop returns the reference outcome, attempt count and sleeps of `_request` |
| ListReplays.ChannelIdPlain | list_replays.py:32-33 | a channel id (32 lower-case hex digits) is already stripped and does not start with http |
| ListReplays.ExtractHandle | list_replays.py:36-41 | the handle holds no slash and ends the slash-stripped path |
| ListReplays.HandleOfPath | list_replays.py:36-41 | a path `/name` or `/name/` gives back the name |
| ListReplays.QueryKey | list_replays.py:45-48 | a URL query is reduced to a slash-free last segment; any other query is only stripped |
| ListReplays.FirstExact | list_replays.py:61-62 | the first search item whose channel name equals the query, or none exactly when no item does |
| ListReplays.ChannelIdOf | list_replays.py:57-66 | a resolved id comes from a non-empty item list and is truthy |
| ListReplays.PickRule | list_replays.py:61-63 | the id is that of the first exact-name item, or of the first item when none matches |
| ListReplays.ChannelIdFound | list_replays.py:57-66 | a non-empty list whose picked item has a truthy id resolves |
| ListReplays.ResolveId | list_replays.py:50-51 | a query key that is a channel id is returned as is |
| ListReplays.ResolveSearch | list_replays.py:53-66 | any other key resolves exactly when the search succeeds and picks a truthy id, and then to that id |
| ListReplays.ResolveDirect | list_replays.py:44-51 | a stripped channel id resolves to itself without consulting the search |
| ListReplays.KeyIsId | list_replays.py:45-48 | a query that strips to a channel id keys the lookup as that id |
| ListReplays.ResolveUrl | list_replays.py:47-51 | a URL whose last path segment is a channel id resolves to it |
| ListReplays.VideosOfShape | list_replays.py:80-97 | the item list converts exactly when every item is an object, one video per item in order |
| ListReplays.PageOfShape | list_replays.py:78-107 | a page converts exactly when the content is an object whose data converts; it carries those videos, the channel id and the page, size and totals of the content |
| ListReplays.FetchReplaysPage | list_replays.py:80-107 | the loop builds exactly the reference page |
| ListReplays.ScanVideos | list_replays.py:80-97 | the loop converts exactly the reference video list, failing on the first non-object |
| ListReplays.VideosOfPrefix | list_replays.py:81-97 | a failure in a prefix is the failure of the whole list |
| ListReplays.ListReplays | list_replays.py:110-112 | a resolution error is an error; otherwise the page of the resolved channel, which carries its id |
| ListReplays.FetchPage | list_replays.py:69-107 | fetching a page is the reference page for that channel and page number |
| ListReplays.CollectFuel | list_replays.py:140-163 | once the paging loop ends within some fuel, more fuel gives the same result |
| ListReplays.StepShape | list_replays.py:141-160 | a round either stops on an empty page, or adds the page's videos and moves on one page; it goes on only below max_pages and before total_pages |
| ListReplays.CollectUnfold | list_replays.py:140-163 | one round of the paging loop: an error ends it, a stop returns the state, otherwise the loop goes on from the new state |
| ListReplays.CollectShape | list_replays.py:140-163 | the loop appends the videos of consecutive non-empty pages, fetches at most max_pages (at least one) and stops on an empty page, max_pages or total_pages |
| ListReplays.CountUnknown | list_replays.py:146-147 | with no totalCount on any page the count stays unknown |
| ListReplays.ListFromShape | list_replays.py:133-173 | the listing carries the channel, start page and size, the videos of consecutive non-empty pages, at most max_pages pages, a known total, and the video count when no page has a count |
| ListReplays.ListAllOf | list_replays.py:115-173 | a resolution error is an error; otherwise the listing of the resolved channel |
| ListReplays.TakePage | list_replays.py:141-160 | one round of the loop body is the reference round |
| ListReplays.ListReplaysAll | list_replays.py:115-173 | the method returns exactly the reference listing |
| ListReplays.FollowPages | list_replays.py:140-163 | the loop returns exactly the reference paging outcome |
| LlmChatEvent.LeadRunProps | chzzk-chat/llm-chat-event.py:41-48 | the leading run of a character: all equal to it, and the next one differs |
| LlmChatEvent.CompressCharEnds | chzzk-chat/llm-chat-event.py:41-48 | compressing runs of one character keeps the first two and the last character of the text |
| LlmChatEvent.CompressCharStep | chzzk-chat/llm-chat-event.py:41-48 | compression works block by block: a run of three or more becomes two, anything else is kept |
| LlmChatEvent.CompressCharNoRun | chzzk-chat/llm-chat-event.py:41-48 | after compression no three of that character are in a row |
| LlmChatEvent.CompressCharKeeps | chzzk-chat/llm-chat-event.py:41-48 | compressing one character creates no run of three of another |
| LlmChatEvent.CompressCharNoop | chzzk-chat/llm-chat-event.py:41-48 | a text without a run of three is left unchanged |
| LlmChatEvent.CompressCharOthers | chzzk-chat/llm-chat-event.py:41-48 | the other characters of the text are kept, in order |
| LlmChatEvent.CompressRepeats | chzzk-chat/llm-chat-event.py:52-56 | the loop over the eight patterns returns the reference compression |
| LlmChatEvent.CompressedProps | chzzk-chat/llm-chat-event.py:40-56 | after compress_repeats no character of ㅋ ㅎ ㅠ ㅜ ! ? ~ . occurs three times in a row, the text is no longer, its first and last characters and all other characters are kept, and compressing again changes nothing |
| LlmChatEvent.CompressCharConcat | chzzk-chat/llm-chat-event.py:41-48 | compression distributes over a join that splits no run |
| LlmChatEvent.CompressCharRun | chzzk-chat/llm-chat-event.py:41-48 | a run of k copies becomes two when k >= 3 and stays otherwise |
| LlmChatEvent.RunBecomesTwo | chzzk-chat/llm-chat-event.py:41-48 | a maximal run of three or more inside a text becomes exactly two copies |
| LlmChatEvent.NoiseWordChars | chzzk-chat/llm-chat-event.py:31-38 | a noise word is made only of noise characters |
| LlmChatEvent.NotNoise | chzzk-chat/llm-chat-event.py:59-62 | a line with a non-space character outside the noise characters is not noise |
| LlmChatEvent.NoiseIgnoresSpaces | chzzk-chat/llm-chat-event.py:59-62 | whitespace anywhere does not change the noise test |
| LlmChatEvent.SpacedLaughIsNoise | chzzk-chat/llm-chat-event.py:59-62 | "ㅋㅋ ㅋ" is noise once spaces are removed |
| LlmChatEvent.SingleLaughIsNotNoise | chzzk-chat/llm-chat-event.py:31-38 | a single ㅋ is not noise (two or more are needed) |
| LlmChatEvent.WordWithLaughIsNotNoise | chzzk-chat/llm-chat-event.py:30-38 | a word followed by laughter is kept |
| LlmChatEvent.ExclamationIsNoise | chzzk-chat/llm-chat-event.py:35 | 어 followed by question marks is noise |
| LlmChatEvent.CleanLineProps | chzzk-chat/llm-chat-event.py:72-79 | a kept line is non-empty, stripped, not noise and has no long runs |
| LlmChatEvent.CleanedLinesProps | chzzk-chat/llm-chat-event.py:71-79 | every cleaned line is clean and is the compression of some stripped input line |
| LlmChatEvent.RunsProps | chzzk-chat/llm-chat-event.py:82-94 | the run decomposition of a list expands back to it, its runs are maximal, and its counts sum to its length |
| LlmChatEvent.RunsUnique | chzzk-chat/llm-chat-event.py:82-94 | maximal runs that expand to a list are its run decomposition |
| LlmChatEvent.RunsConcat | chzzk-chat/llm-chat-event.py:82-94 | runs of a join that splits no run are the runs of the parts |
| LlmChatEvent.DedupRun | chzzk-chat/llm-chat-event.py:86-94 | a maximal run of k equal lines becomes `line (xk)` when k reaches the threshold and stays as it is otherwise, the rest unchanged |
| LlmChatEvent.DeduplicatedProps | chzzk-chat/llm-chat-event.py:82-96 | de-duplication never lengthens the list, and a threshold above the length changes nothing |
| LlmChatEvent.RenderMembers | chzzk-chat/llm-chat-event.py:86-94 | every output line is an input line or an input line tagged with its run length |
| LlmChatEvent.TaggedNotNoise | chzzk-chat/llm-chat-event.py:91 | a tagged line is never noise |
| LlmChatEvent.PreprocessedClean | chzzk-chat/llm-chat-event.py:65-96 | every preprocessed line is non-empty, stripped and not noise |
| LlmChatEvent.CleanChatLines | chzzk-chat/llm-chat-event.py:71-79 | the cleaning loop returns the reference cleaned lines |
| LlmChatEvent.RunEnd | chzzk-chat/llm-chat-event.py:86-88 | the inner loop finds the end of the run of equal lines |
| LlmChatEvent.DeduplicateRuns | chzzk-chat/llm-chat-event.py:82-94 | the run loop returns the reference de-duplication |
| LlmChatEvent.PreprocessChatLines | chzzk-chat/llm-chat-event.py:65-96 | the method returns the reference preprocessing |
| LlmChatEvent.LeadSpaces | chzzk-chat/llm-chat-event.py:23 | the leading whitespace of a text, maximal |
| LlmChatEvent.SpacedColonShape | chzzk-chat/llm-chat-event.py:23 | the `\s*:\s*` part of the stamp is spaces, a colon and maximal spaces |
| LlmChatEvent.StampEndShape | chzzk-chat/llm-chat-event.py:23 | a matched prefix is a `[dd:dd:dd]` stamp followed by the spaced colon |
| LlmChatEvent.StripStampRoundTrip | chzzk-chat/llm-chat-event.py:23 | removing the prefix from stamp + spaces + colon + spaces + text gives back the text |
| LlmChatEvent.StripStampKeeps | chzzk-chat/llm-chat-event.py:23 | a line not starting with `[` is unchanged |
| LlmChatEvent.StripStampSuffix | chzzk-chat/llm-chat-event.py:104-106 | the stripped line is a suffix of the line |
| LlmChatEvent.StrippedLines | chzzk-chat/llm-chat-event.py:106 | one stripped line per line |
| LlmChatEvent.StripTimestampsLines | chzzk-chat/llm-chat-event.py:104-106 | strip_timestamps keeps one line per line, each with its stamp removed, when the last result is not empty |
| LlmChatEvent.EnsureThreeLinesAccepts | chzzk-chat/llm-chat-event.py:199-207 | an answer of EVIDENCE, SUMMARY and TITLE lines passes the format check |
| LlmChatEvent.EnsureThreeLinesSkipsBlank | chzzk-chat/llm-chat-event.py:200 | blank lines are ignored by the format check |
| LlmChatEvent.NonBlankThree | chzzk-chat/llm-chat-event.py:200 | three non-blank lines give three stripped lines |
| LlmChatEvent.DoDenoise | chzzk-chat/llm-chat-event.py:308-312 | denoising is on unless only --no_denoise is given |
| LlmChatEvent.KeepLast | chzzk-chat/llm-chat-event.py:319-320 | a positive max_lines keeps the last max_lines lines when there are more; otherwise all lines |
| LlmChatEvent.PrepareChatText | chzzk-chat/llm-chat-event.py:302-322 | the lines are the reference preparation (stamps stripped, cleaned with a threshold of at least 2 or only stripped, cut to the last lines) and the text is their newline join |
| LlmChatEvent.PreparedLinesProps | chzzk-chat/llm-chat-event.py:302-322 | every prepared line is non-empty and stripped, and not noise when denoising |
| QueueingVideos.RawQuery | workflows/lambda/queueing-videos.py:32-33 | the appended query is `?raw=1` or `&raw=1` |
| QueueingVideos.NormalizeIdempotent | workflows/lambda/queueing-videos.py:28-34 | normalising a GitHub URL twice is normalising it once |
| QueueingVideos.WithRawFixed | workflows/lambda/queueing-videos.py:30-34 | a stripped URL stays stripped once `raw=1` is appended, and appending is done at most once |
| QueueingVideos.RawAppended | workflows/lambda/queueing-videos.py:31-33 | the appended URL holds `raw=1` |
| QueueingVideos.StrippedFixed | workflows/lambda/queueing-videos.py:31 | a stripped URL that already holds `raw=1` is kept |
| QueueingVideos.NameOf | workflows/lambda/queueing-videos.py:59-66 | an item yields a name only when it is a string or int, a filename, or the last segment of a key; plain names are taken as they are |
| QueueingVideos.NamesAreNames | workflows/lambda/queueing-videos.py:55-66 | every collected name is a string or an int |
| QueueingVideos.IdOf | workflows/lambda/queueing-videos.py:69-75 | a name is skipped exactly when its text strips to nothing |
| QueueingVideos.IdSetMembers | workflows/lambda/queueing-videos.py:68-76 | an id is in the set exactly when some name gives it |
| QueueingVideos.IdOfFileName | workflows/lambda/queueing-videos.py:73-74 | a `.json` suffix in any case is dropped from a file name |
| QueueingVideos.NameOfKey | workflows/lambda/queueing-videos.py:65-66 | a key gives its last path segment |
| QueueingVideos.CollectNames | workflows/lambda/queueing-videos.py:55-66 | the loop collects exactly the reference names |
| QueueingVideos.CollectIds | workflows/lambda/queueing-videos.py:68-76 | the loop builds exactly the reference id set |
| QueueingVideos.LoadHaveIds | workflows/lambda/queueing-videos.py:45-76 | the have-ids are the ids of the names of the decoded chat list |
| QueueingVideos.ParseDays | workflows/lambda/queueing-videos.py:91-98 | RECENT_DAYS is accepted exactly when it parses as a Python int that is not negative, and then is that int |
| QueueingVideos.RecentDaysDefault | workflows/lambda/queueing-videos.py:90 | an unset RECENT_DAYS means 7 |
| QueueingVideos.RecentDaysOf | workflows/lambda/queueing-videos.py:90-92 | the decimal text of a natural number is accepted as that number |
| QueueingVideos.RecentDaysNegative | workflows/lambda/queueing-videos.py:97-98 | a negative RECENT_DAYS is an error |
| QueueingVideos.ReplayVideoNo | workflows/lambda/queueing-videos.py:114-131 | a replay is queued only when it is an object with a videoNo and an end that parses at or after the cutoff, and its id is the stripped text of the videoNo |
| QueueingVideos.ReplayNosMembers | workflows/lambda/queueing-videos.py:114-131 | an id is queued from a replay list exactly when some replay of it qualifies |
| QueueingVideos.ChannelNosMembers | workflows/lambda/queueing-videos.py:107-132 | an id is queued exactly when some channel has a qualifying replay of it |
| QueueingVideos.ScanReplays | workflows/lambda/queueing-videos.py:114-131 | the inner loop adds exactly the qualifying ids |
| QueueingVideos.ExtractVideoNos | workflows/lambda/queueing-videos.py:79-132 | an error exactly when RECENT_DAYS is bad or the data is not a list; otherwise the ids of the qualifying replays of all channels |
| QueueingVideos.ScanChannels | workflows/lambda/queueing-videos.py:107-132 | the outer loop collects exactly the reference ids |
| QueueingVideos.LexTotal | workflows/lambda/queueing-videos.py:173 | Python's string order is total |
| QueueingVideos.LexTrans | workflows/lambda/queueing-videos.py:173 | Python's string order is transitive |
| QueueingVideos.SortedStringsProps | workflows/lambda/queueing-videos.py:173 | sorting a set lists each element once, in strictly increasing order |
| QueueingVideos.MissingProps | workflows/lambda/queueing-videos.py:173 | missing holds exactly the ids not already had, each once, in strictly increasing order |
| QueueingVideos.SampleMissing | workflows/lambda/queueing-videos.py:195 | the sample is the first ten missing ids, or all of them when fewer |
| QueueingVideos.BatchEntries | workflows/lambda/queueing-videos.py:139-142 | entry j of a batch carries id "j" and the j-th message |
| QueueingVideos.SendSqsBatch | workflows/lambda/queueing-videos.py:135-145 | batches are well formed with positional ids, all but the last are full and accepted, the bodies sent are the messages in order, all of them exactly when every batch is accepted, and only the last batch can have been refused |
| S3Paths.RequireStr | workflows/lambda/queueing-videos.py:11-15 | accepted exactly when the field is a string that is not blank; the value returned is that string stripped, non-empty and with no whitespace at either end |
| S3Paths.ParseS3Path | workflows/lambda/queueing-videos.py:18-25 | an accepted path yields a non-empty bucket without `/` and a non-empty key |
| S3Paths.ParsedShape | workflows/lambda/queueing-videos.py:18-25 | what was accepted is exactly bucket and key joined by `/`, with or without `s3://`, up to surrounding whitespace |
| S3Paths.UnschemedShape | workflows/lambda/queueing-videos.py:20-22 | after dropping an optional `s3://` and splitting at the first `/`, the text is the two parts rejoined, with or without the scheme |
| S3Paths.ParseS3Uri | infra/lambda/s3-lists.py:15-30 | round trip: `s3://bucket/key` parses back to the bucket and the key |
| S3Paths.ParseBarePath | infra/lambda/s3-lists.py:15-30 | round trip: `bucket/key` parses back to the bucket and the key unless the bucket is `s3:` |
| S3Paths.JsonSuffixOf | infra/lambda/s3-lists.py:51 | a name ending in `.json` passes the case-insensitive `.json` test |
| S3Paths.SplitAtFirst | workflows/lambda/queueing-videos.py:22 | `split("/", 1)` of `a/b` with no `/` in `a` gives `a` and `b` |
| S3Paths.IndexOfAfter | workflows/lambda/queueing-videos.py:22 | the first `/` of `a/b` with no `/` in `a` is at position `len(a)` |
| S3Lists.FolderPrefix | infra/lambda/s3-lists.py:43-44 | the prefix is kept or gets one `/` appended, and a non-empty prefix ends with `/` |
| S3Lists.FolderPrefixIdempotent | infra/lambda/s3-lists.py:43-44 | normalising a prefix twice is normalising it once |
| S3Lists.OutputKeyCases | infra/lambda/s3-lists.py:48-56 | a folder gets `<ts>.json`, a `.json` name in any case is kept, anything else gets `/<ts>.json` |
| S3Lists.OutputKeyIsJson | infra/lambda/s3-lists.py:48-56 | the output key always ends in `.json` and starts with the given key or prefix |
| S3Lists.ItemOfShape | infra/lambda/s3-lists.py:68-83 | an object is listed exactly when it is not the prefix itself and not a folder; its item keeps key and size, its filename is the last `/`-separated part, and it has a timestamp exactly when the object has one |
| S3Lists.ItemsMembers | infra/lambda/s3-lists.py:62-83 | an item is listed exactly when some object of some page yields it |
| S3Lists.ItemsAreFiles | infra/lambda/s3-lists.py:68-76 | every listed item is a file below the prefix, named by its last path segment |
| S3Lists.ListItems | infra/lambda/s3-lists.py:61-83 | the loop over pages lists exactly the items of the flattened pages, in order |
| S3Lists.ScanPage | infra/lambda/s3-lists.py:67-83 | the loop over one page keeps the items of exactly the objects that yield one, in order |
| S3Lists.ReadRequest | infra/lambda/s3-lists.py:33-56 | accepted exactly when the event is an object with the three non-blank strings and a splittable output path; the bucket, normalised prefix, output bucket and output key are those of the helpers |
| S3Lists.RequestShape | infra/lambda/s3-lists.py:43-56 | an accepted request lists under a prefix ending in `/` and writes a `.json` key in a bucket without `/` |
| S3Lists.Handler | infra/lambda/s3-lists.py:33-105 | fails exactly when the request is rejected; otherwise returns the listed items, their count and the output location |
| ReplayCluster.SimilarityProps | chzzk-chat/src/data/chat/replay_cluster.rs:25-59 | the similarity is symmetric, is 0 when either replay has no viewer set, an empty one, or no shared viewer, and is otherwise the Jaccard ratio, in (0, 1] |
| ReplayCluster.SimilarityRange | chzzk-chat/src/data/chat/replay_cluster.rs:23-24 | every similarity lies in [0, 1] |
| ReplayCluster.BuildViewers | chzzk-chat/src/data/chat/replay_cluster.rs:67-78 | the loop over chat logs yields a viewer set for exactly the videos that have a log, holding every user who chatted in any log of that video |
| ReplayCluster.CandidatesMembers | chzzk-chat/src/data/chat/replay_cluster.rs:80-93 | a replay is a candidate exactly when its video has a chat log and some channel lists it, tagged with that channel |
| ReplayCluster.CollectCandidates | chzzk-chat/src/data/chat/replay_cluster.rs:81-93 | the loop over channels collects exactly the candidates, in channel and replay order |
| ReplayCluster.ChannelReplays | chzzk-chat/src/data/chat/replay_cluster.rs:83-92 | the inner loop keeps exactly the channel's replays that have a chat log, tagged with the channel |
| ReplayCluster.RootProps | chzzk-chat/src/data/chat/replay_cluster.rs:103-108 | following parents from any node ends at a root, never above the node's level |
| ReplayCluster.CompressRoot | chzzk-chat/src/data/chat/replay_cluster.rs:104-106 | pointing a node straight at its root leaves every node's root unchanged |
| ReplayCluster.CompressForest | chzzk-chat/src/data/chat/replay_cluster.rs:104-106 | path compression keeps the forest well founded and keeps every class label |
| ReplayCluster.LinkForest | chzzk-chat/src/data/chat/replay_cluster.rs:113-114 | linking one root under another keeps the forest well founded |
| ReplayCluster.LinkRoot | chzzk-chat/src/data/chat/replay_cluster.rs:113-114 | after linking, the nodes of the first root's class have the second root, every other node keeps its root |
| ReplayCluster.MergeExact | chzzk-chat/src/data/chat/replay_cluster.rs:110-116 | after merging the classes of a and b, two elements share a class exactly when they did before or both were in a's or b's class |
| ReplayCluster.UnionFind.constructor | chzzk-chat/src/data/chat/replay_cluster.rs:101 | every element starts as its own root |
| ReplayCluster.UnionFind.Find | chzzk-chat/src/data/chat/replay_cluster.rs:103-108 | returns the root of x and leaves every class label as it was |
| ReplayCluster.UnionFind.Union | chzzk-chat/src/data/chat/replay_cluster.rs:110-116 | the classes of x and y are merged and every other class is left as it was |
| ReplayCluster.LinkLabels | chzzk-chat/src/data/chat/replay_cluster.rs:110-116 | linking the roots of x and y yields exactly the merged labels |
| ReplayCluster.MergeSame | chzzk-chat/src/data/chat/replay_cluster.rs:113 | merging two elements of one class changes nothing |
| ReplayCluster.RowPairsMembers | chzzk-chat/src/data/chat/replay_cluster.rs:137-152 | the row of i from j on holds (i, k) exactly when j <= k and the similarity reaches the threshold |
| ReplayCluster.PairsFromMembers | chzzk-chat/src/data/chat/replay_cluster.rs:130-155 | the pairs from row i on are exactly the joining pairs whose first index is at least i |
| ReplayCluster.PairsToUnionMembers | chzzk-chat/src/data/chat/replay_cluster.rs:130-155 | the collected pairs are exactly the (i, j) with i < j < n whose similarity reaches the threshold |
| ReplayCluster.PairsInRange | chzzk-chat/src/data/chat/replay_cluster.rs:130-155 | every collected pair indexes two candidates |
| ReplayCluster.MergeAll | chzzk-chat/src/data/chat/replay_cluster.rs:161-163 | joining a list of pairs keeps one label per element |
| ReplayCluster.MergeAllJoins | chzzk-chat/src/data/chat/replay_cluster.rs:161-163 | after all unions, the two elements of every collected pair share a class |
| ReplayCluster.ClassLabels | chzzk-chat/src/data/chat/replay_cluster.rs:160-170 | the classes after all unions give one label per candidate |
| ReplayCluster.JoinedShareClass | chzzk-chat/src/data/chat/replay_cluster.rs:147-163 | two candidates whose similarity reaches the threshold end up in one class |
| ReplayCluster.MembersUpTo | chzzk-chat/src/data/chat/replay_cluster.rs:167-170 | the members of a class listed below k are indices below k carrying that label |
| ReplayCluster.Members | chzzk-chat/src/data/chat/replay_cluster.rs:166-170 | the members listed for a class are indices carrying that label |
| ReplayCluster.MembersUpToProps | chzzk-chat/src/data/chat/replay_cluster.rs:167-170 | the members are listed in increasing order, and every index below k with the label is listed |
| ReplayCluster.MembersPartition | chzzk-chat/src/data/chat/replay_cluster.rs:166-170 | every index is listed under its own class and under no other |
| ReplayCluster.MembersAbsent | chzzk-chat/src/data/chat/replay_cluster.rs:167-170 | a label not yet seen has no members |
| ReplayCluster.PairsUpToValue | chzzk-chat/src/data/chat/replay_cluster.rs:189-199 | the pairs of the first i rows of an m-element list number i(2m - i - 1)/2 |
| ReplayCluster.RowTotalBounds | chzzk-chat/src/data/chat/replay_cluster.rs:190-198 | the similarity total of one row lies between 0 and the row's pair count |
| ReplayCluster.TotalUpToBounds | chzzk-chat/src/data/chat/replay_cluster.rs:189-199 | the similarity total lies between 0 and the pair count |
| ReplayCluster.AverageBounds | chzzk-chat/src/data/chat/replay_cluster.rs:200-204 | the mean similarity lies in [0, 1], the pair count is n(n - 1)/2, and it is positive exactly when n >= 2 |
| ReplayCluster.PairsCount | chzzk-chat/src/data/chat/replay_cluster.rs:188-199 | the double loop counts n(n - 1)/2 pairs, a positive number exactly when n >= 2 |
| ReplayCluster.MeanInUnit | chzzk-chat/src/data/chat/replay_cluster.rs:200-201 | a total of at most c values in [0, 1], divided by c, lies in [0, 1] |
| ReplayCluster.ClusterAverage | chzzk-chat/src/data/chat/replay_cluster.rs:186-204 | the double loop computes the mean pairwise similarity, 0 when there is no pair |
| ReplayCluster.Pick | chzzk-chat/src/data/chat/replay_cluster.rs:181-184 | the picked replays are those at the given indices, in order |
| ReplayCluster.ClassClustersSnoc | chzzk-chat/src/data/chat/replay_cluster.rs:177-211 | the clusters of a longer list of classes are the old ones followed by the new class's cluster |
| ReplayCluster.GroupByRoot | chzzk-chat/src/data/chat/replay_cluster.rs:166-170 | the root of every candidate is found without changing any class; each root is a key once, and its entry lists exactly the class's members in index order |
| ReplayCluster.GroupStep | chzzk-chat/src/data/chat/replay_cluster.rs:168-169 | filing one more candidate under its root keeps the grouping exact |
| ReplayCluster.BuildClusters | chzzk-chat/src/data/chat/replay_cluster.rs:177-211 | exactly the classes with more than one member become clusters, in key order |
| ReplayCluster.BuildStep | chzzk-chat/src/data/chat/replay_cluster.rs:179-210 | one more key adds its cluster exactly when its class has more than one member |
| ReplayCluster.ClusterSimilarReplays | chzzk-chat/src/data/chat/replay_cluster.rs:62-221 | no candidate gives no cluster; otherwise the clusters are, in descending order of mean similarity, one per class of two or more candidates joined by pairs above the threshold |
| ReplayCluster.ClusterCandidates | chzzk-chat/src/data/chat/replay_cluster.rs:99-220 | the clusters of a candidate list are one per class of two or more, sorted by descending mean |
| ReplayCluster.UnionAll | chzzk-chat/src/data/chat/replay_cluster.rs:161-163 | the union loop leaves exactly the classes of all the pairs merged in turn |
| ReplayCluster.ReportClusters | chzzk-chat/src/data/chat/replay_cluster.rs:177-218 | the reported clusters are one per class of two or more, sorted by descending mean |
| ReplayCluster.ClassClustersMembers | chzzk-chat/src/data/chat/replay_cluster.rs:177-211 | every listed class has its cluster among the clusters |
| ReplayCluster.JoinedReported | chzzk-chat/src/data/chat/replay_cluster.rs:147-211 | two candidates above the threshold share a class, and that class's cluster is reported |
| ReplayCluster.ReportedShape | chzzk-chat/src/data/chat/replay_cluster.rs:179-204 | every reported cluster is a class's cluster, has at least two replays and a mean in [0, 1] |
| ReplayCluster.ClassClustersFrom | chzzk-chat/src/data/chat/replay_cluster.rs:177-211 | every cluster comes from one of the listed classes |
| Timeline.BucketProps | chzzk-chat/src/data/timeline.rs:58-61 | a non-negative elapsed time falls in the 600-second bucket that starts at a multiple of 600 at or below it |
| Timeline.Buckets | chzzk-chat/src/data/timeline.rs:56-61 | one bucket per message, taken from its time since the first message |
| Timeline.CountBuckets | chzzk-chat/src/data/timeline.rs:54-65 | the counting loop maps every bucket that occurs to the number of messages in it, and holds no other key |
| Timeline.Times | chzzk-chat/src/data/timeline.rs:13-18 | the times of the entries, in order |
| Timeline.Counts | chzzk-chat/src/data/timeline.rs:13-18 | the counts of the entries, in order |
| Timeline.MapEntries | chzzk-chat/src/data/timeline.rs:68-71 | turning the count map into entries gives one entry per key, with its count, and no time twice |
| Timeline.EntriesNoDup | chzzk-chat/src/data/timeline.rs:68-71 | entries with distinct times are distinct |
| Timeline.PermutedEntries | chzzk-chat/src/data/timeline.rs:72 | reordering the entries keeps them the entries of the map, with the same times |
| Timeline.StrictTimes | chzzk-chat/src/data/timeline.rs:72 | sorted entries with distinct times are in strictly increasing time |
| Timeline.SortedEntries | chzzk-chat/src/data/timeline.rs:68-72 | the sorted timeline is in strictly increasing time, has the same times, and every entry carries its bucket's count |
| Timeline.CalculateChatTimeline | chzzk-chat/src/data/timeline.rs:38-82 | no timeline exactly for an empty log; otherwise the video id is kept, the start is the earliest message's time, and the timeline is the bucket counts in time order |
| Timeline.TimelineUnique | chzzk-chat/src/data/timeline.rs:68-72 | the timeline of a message list is unique |
| Timeline.TimelineEntries | chzzk-chat/src/data/timeline.rs:56-72 | every entry starts at a non-negative multiple of 600 and counts at least one message |
| Timeline.BucketOfLog | chzzk-chat/src/data/timeline.rs:58-61 | every bucket measured from the earliest message is a non-negative multiple of 600 |
| Timeline.BucketOfMessage | chzzk-chat/src/data/timeline.rs:58-61 | a message at or after the reference time falls in a non-negative multiple of 600 |
| Timeline.TimelineStart | chzzk-chat/src/data/timeline.rs:50-61 | a non-empty timeline starts with the bucket at time 0 |
| Timeline.TimelineSum | chzzk-chat/src/data/timeline.rs:54-65 | the counts add up to the number of messages |
| Timeline.TimelineProps | chzzk-chat/src/data/timeline.rs:38-82 | the timeline starts at 0, its buckets are non-negative multiples of 600 holding at least one message each, and its counts add up to the message count |
| Timeline.ExtractVideoChatTimelines | chzzk-chat/src/data/timeline.rs:85-95 | one timeline per log with messages, sorted by video id keeping the logs' order among equal ids |
| Timeline.ExtractProps | chzzk-chat/src/data/timeline.rs:85-95 | the timelines are in non-decreasing video id, one per non-empty log, and each is the timeline of some log |
| VideoAnalyzer.OverlapSymmetric | chzzk-chat/src/data/video_analyzer.rs:38-52 | the overlap test with equal slack on both sides does not depend on which range is the target |
| VideoAnalyzer.OverlapExamples | chzzk-chat/src/data/video_analyzer.rs:31-37 | the three documented cases: 05-15 and 15-19 overlap a 10-17 target, 18-21 does not |
| VideoAnalyzer.OverlapStrict | chzzk-chat/src/data/video_analyzer.rs:44-51 | a candidate ending exactly ten minutes before the target starts does not overlap; one second later it does exactly when it starts before the widened end |
| VideoAnalyzer.JaccardProps | chzzk-chat/src/data/video_analyzer.rs:72-94 | the similarity is symmetric, lies in [0, 1], is positive exactly when the sets share a user, reports the shared count, is the intersection over the union for non-empty sets, and is (1, n) for a set with itself |
| VideoAnalyzer.JaccardSymmetric | chzzk-chat/src/data/video_analyzer.rs:72-94 | swapping the sets changes neither the similarity nor the shared count |
| VideoAnalyzer.JaccardOfNonEmpty | chzzk-chat/src/data/video_analyzer.rs:80-93 | for two non-empty sets the similarity is the intersection size over the union size and the shared count is the intersection size |
| VideoAnalyzer.JaccardSelf | chzzk-chat/src/data/video_analyzer.rs:80-93 | a non-empty set is fully similar to itself |
| VideoAnalyzer.BuildVideoUserMap | chzzk-chat/src/data/video_analyzer.rs:55-69 | the loop maps exactly the videos with a chat log to all users who chatted in that video's logs |
| VideoAnalyzer.UsersInOf | chzzk-chat/src/data/video_analyzer.rs:135-138 | looking a video up with an empty default gives its chatters, and none for a video without a log |
| VideoAnalyzer.ChannelRelationsMembers | chzzk-chat/src/data/video_analyzer.rs:144-199 | a channel contributes a record exactly for its replays that qualify |
| VideoAnalyzer.RelationsFromMembers | chzzk-chat/src/data/video_analyzer.rs:143-200 | a record is collected exactly when some replay of some channel qualifies and the record is its |
| VideoAnalyzer.ChannelRelationsAgree | chzzk-chat/src/data/video_analyzer.rs:356-364 | two parsers that agree on a channel's time strings give the same records |
| VideoAnalyzer.RelationsAgree | chzzk-chat/src/data/video_analyzer.rs:284-300 | the cached times give the same records as parsing each time |
| VideoAnalyzer.ChannelRelationsStep | chzzk-chat/src/data/video_analyzer.rs:144-199 | one more replay adds its record exactly when it qualifies |
| VideoAnalyzer.RelationsFromStep | chzzk-chat/src/data/video_analyzer.rs:143-200 | one more channel appends that channel's records |
| VideoAnalyzer.CheckReplay | chzzk-chat/src/data/video_analyzer.rs:146-198 | one replay is reported exactly when it is not the target, its times parse, it overlaps the target and its similarity reaches the threshold |
| VideoAnalyzer.ScanChannel | chzzk-chat/src/data/video_analyzer.rs:144-199 | the inner loop collects exactly the channel's qualifying records, in order |
| VideoAnalyzer.ScanRelations | chzzk-chat/src/data/video_analyzer.rs:141-200 | the outer loop collects exactly the qualifying records of all channels, in order |
| VideoAnalyzer.ListedProps | chzzk-chat/src/data/video_analyzer.rs:141-207 | the sorted records are in non-increasing similarity, are exactly the qualifying ones, never the target and never below the threshold |
| VideoAnalyzer.NoUsersChannel | chzzk-chat/src/data/video_analyzer.rs:76-78 | a target without chatters gets no record from a channel |
| VideoAnalyzer.NoUsersNoRelations | chzzk-chat/src/data/video_analyzer.rs:76-78 | a target without chatters gets no related replay |
| VideoAnalyzer.FindRelatedReplays | chzzk-chat/src/data/video_analyzer.rs:105-210 | the related list of one target, or the error for an unknown target or an unparsable time |
| VideoAnalyzer.FindInChannels | chzzk-chat/src/data/video_analyzer.rs:111-115 | the target is not found exactly when no channel lists a replay with its number |
| VideoAnalyzer.RelatedProps | chzzk-chat/src/data/video_analyzer.rs:105-210 | fails exactly when the target is missing or its times do not parse; otherwise lists the qualifying replays at 0.05 by descending similarity, and nothing for a target without chatters |
| VideoAnalyzer.VideoNos | chzzk-chat/src/data/video_analyzer.rs:262-265 | the video numbers of the replays, in order |
| VideoAnalyzer.ReplayIndexProps | chzzk-chat/src/data/video_analyzer.rs:277-282 | a number is indexed exactly when some replay has it, and it maps to the last replay with that number |
| VideoAnalyzer.ReplayIndexSnoc | chzzk-chat/src/data/video_analyzer.rs:280 | inserting one more replay overwrites its number's entry |
| VideoAnalyzer.AllReplaysStep | chzzk-chat/src/data/video_analyzer.rs:262-265 | one more channel appends its replays |
| VideoAnalyzer.BuildReplayIndex | chzzk-chat/src/data/video_analyzer.rs:277-282 | the loop builds exactly the index of all replays, last one winning |
| VideoAnalyzer.BuildTimeCache | chzzk-chat/src/data/video_analyzer.rs:286-300 | every cached string parses to its cached time, and every parsable start and end time of a replay is cached |
| VideoAnalyzer.CacheAgrees | chzzk-chat/src/data/video_analyzer.rs:328-364 | reading times from the cache agrees with parsing them on every replay |
| VideoAnalyzer.RelationsMapProps | chzzk-chat/src/data/video_analyzer.rs:310-412 | a target is a key exactly when it is listed and has a list, and maps to that list |
| VideoAnalyzer.RelationsMapStep | chzzk-chat/src/data/video_analyzer.rs:412 | one more target adds or overwrites its entry when it has a list and otherwise leaves the map |
| VideoAnalyzer.AnalyzeAllVideoRelations | chzzk-chat/src/data/video_analyzer.rs:252-417 | the map of every target's related list |
| VideoAnalyzer.AllRelationsProps | chzzk-chat/src/data/video_analyzer.rs:252-417 | a video is a key exactly when its indexed replay's times parse and it has chatters, and its list reports the qualifying replays at 0.02 |
| Text.NatToStringRoundTrip | infra/lambda/extract-chat-from-video.py:20 | the decimal digits written for a number read back as that number |
| Text.PyParseIntRoundTrip | workflows/lambda/queueing-videos.py:92 | `int(str(i)) == i` for every integer, negative ones included |
| Text.PyParseIntSeparator | channel_with_replays.py:45 | `int()` of `"\x1c7"` raises, because `int()` does not skip the ASCII separators U+001C..U+001F, while `str.strip` removes the separator and leaves `"7"` |
| Text.PyParseIntStrips | infra/lambda/extract-chat-from-video.py:16-20 | a text `int()` accepts is accepted with the same value after `str.strip`, so stripping before `int()` only widens what is accepted |
| Text.TrimByIdempotent | infra/lambda/extract-chat-from-video.py:16 | stripping a stripped string changes nothing |
| Text.TrimByEmpty | workflows/lambda/queueing-videos.py:13 | a string strips to empty exactly when every character is whitespace |
| Text.SplitJoin | chzzk-chat/llm-chat-event.py:106 | joining lines that hold no line break with `\n` and splitting the result with `splitlines()` gives the lines back, unless the last one is empty |
| Json.Truncate | channel_with_replays.py:47 | `int()` of a float truncates toward zero, for positive and negative values |
| Json.PyIntOfStr | channel_with_replays.py:45-47 | `int()` of the `str()` of an integer is that integer |

## Left out

- `QueueingVideos.Cutoff`: `now - days * SECONDS_PER_DAY` is always a value. Python's `now_utc - timedelta(days=recent_days)` (workflows/lambda/queueing-videos.py:101) raises `OverflowError` when `RECENT_DAYS` is very large, for example `1000000`. The model does not capture that error, because the date range of `datetime` is not modelled.
- `ExtractEvent.Cutoff`: `now - recent_days` days is always a value. The panic of chrono's `Duration::days` (chzzk-chat/src/command/extract_event.rs:114), and the out-of-range subtraction for a huge `--recent-days`, are not modelled, for the same reason.
- `ChannelWithReplays.FormatTimeWindow`: the end is `format(t + duration)` for every duration. The `OverflowError` of `datetime + timedelta(seconds=…)` for an out-of-range duration (channel_with_replays.py:61) is not modelled.
- `ExtractChat.MessageSeconds`: `float()` is the parameter `Env.parseFloat`, and `ExtractChat.Env.format` stands for `datetime.fromtimestamp(..).strftime(..)` and is total. The `OverflowError`/`OSError` of `fromtimestamp` for a time outside the platform's range, an infinite one included, is not modelled.
- `ChatLoader.ExtractVideoIdFromFilename`: `\d` is read as the ASCII digits. Rust's `regex` reads `\d` as every Unicode decimal digit (Nd). On a name such as `chatLog-١.log chatLog-5.log`, the source finds the leftmost match, fails its `u64` parse and gives `None`; the model gives `Some(5)`.
- `ChatLoader.ParseChatLine`: two behaviours of the line parser are not modelled.
  - `\d` in the line pattern of chzzk-chat/src/data/chat/loader.rs:19 is read as the ASCII digits; Rust's `regex` accepts every Unicode Nd digit. On `[٢٠٢٥-10-24 18:03:15] a: b (c) [2025-10-24 18:03:15] x: y (z)` the source matches at position 0, fails the date parse at loader.rs:39 and gives `None`. The model skips position 0 and gives the message of `x`.
  - A leap second `:60` becomes the whole-second instant of `:59`, which is what chrono's `timestamp()` gives. chrono itself keeps 59 s plus 1e9 ns. So `(timestamp - first_time).num_seconds()` (chzzk-chat/src/data/chat/event.rs:40, chzzk-chat/src/data/timeline.rs:58, chzzk-chat/src/data/chat/analysis.rs:63) counts it one second later than `:59`. `sort_by_key(|m| m.timestamp)` puts it after the `:59` messages, and `%H:%M:%S` (chzzk-chat/src/command/extract_event.rs:394) prints `:60`. The model's whole-second timestamp gives `:59` in each of these places. Sub-second times are not part of the message model.
- `LlmChatEvent.IsStamp`: `\d` is read as the ASCII digits, whereas Python's `re` on `str` accepts every Unicode Nd digit. A line such as `[١٢:٣٤:٥٦] : hi` keeps its prefix in the model.
- `Text.PyParseInt`: digits are the ASCII digits only, with single underscores between them. Python's `int()` also accepts the other Unicode Nd digits, so `RECENT_DAYS="٧"` is 7 in Python and an error in the model. `Json.PyInt` and the environment readers built on it inherit this. The whitespace `int()` skips is modelled as `Text.PyIntSpace`: space and `\t\n\v\f\r` below U+007F, and every `str.isspace` character above it.
- `ListReplays.Collect`, `ListReplays.FollowPages`, `ListReplays.ListReplaysAll`: the `while True` page loop of list_replays.py:140 is followed for at most `fuel` rounds. When the fuel runs out, the model answers `Err(OUT_OF_FUEL)`, an error the source never raises: the source goes on requesting pages. `ListReplays.CollectFuel` shows that a success does not depend on the fuel given beyond what it needs.
- Floating point: every `f64` (the EWMA, median, MAD, z-scores, offsets, scores, similarities and averages) and every Python `float` is a `real`. IEEE rounding is not modelled, and the constants `1e-6` and `1e-10` are exact.
- `HashMap` iteration order:
  - The offset estimate may be any bin of greatest weight (`EventMatch.IsBestBin`). The source's `max_by` picks one by the map's order.
  - The union-find groups are listed in first-seen order, which stands for the map's order.
  - Counting maps are `map`s, and lists drawn from them are sorted as the source sorts them. Entries that tie in the sort key can come in another order in the source.
- `EventMatch`: when several entries share the searched peak time, which one `binary_search_by_key` lands on is left unspecified (`EventMatch.SearchResult`).
- rayon: the parallel iterators of channel_distance.rs, replay_cluster.rs and video_analyzer.rs, and `load_all_chat_logs`, are modelled by their sequential meaning. The progress bars and chzzk-chat/src/data/utils.rs (a global `DashSet` with indicatif) are not part of this model.
- The wall clock (`Utc::now`, `datetime.now`) is the parameter `now`, in whole seconds.
- Foreign behaviour passed in as parameters:
  - `TimeParser`: `parse_replay_time` (chzzk-chat/src/data/utils.rs), a cascade over chrono's parsers.
  - In channel_with_replays, queueing-videos and extract-chat: `parse` and `format` for `strptime`/`strftime`.
  - In list_replays: `search`, `fetch` and `send` for the HTTP answers, and `urlPath` for `urlparse(..).path`.
  - In queueing-videos: `accepts` for the SQS `send_message_batch` outcome.
  - In s3-lists: `ts` and `iso` for the time stamps.
  - `ExtractChat.Env`: the `float()`, `strftime`, `json.loads` and `repr` that the chat writer uses.
  - `ExtractEvent.Formats`: chrono's `%Y-%m-%d %H:%M:%S %z` and Rust's `{:.2}`.
- I/O: reading and writing files, the serde/JSON load of the channel list and chat logs, the CBOR cache of chzzk-chat/src/data/loader.rs, S3 `get_object`/`put_object`/`list_objects_v2` calls, the GitHub download, SQS sends, `urllib` requests and `time.sleep`. Their results are inputs and their outputs are returned values.
- The LLM calls, the API-key lookup and the thread pools of llm-chat-event.py (109-233 and 345-379) are not part of this model. Only the text preparation and the answer check are.
- chzzk-chat/src/main.rs, chzzk-chat/src/command/interactive.rs and every `print_*` function are not part of this model: they are CLI and terminal plumbing.
- chzzk-chat/src/api/ (websocket.rs, scanner.rs, client.rs, models.rs, mod.rs) is not part of this model: it is live acquisition over async network clients.
- bot-replays-chat.py, extract_channel_replays.py and chzzk-chat/src/data/chat/mod.rs are not part of this model: they are an HTTP crawler, orchestration and re-exports only.
- The `handler` of queueing-videos.py (148-196) is modelled through its steps: the required fields, the S3 path split, the held ids, the video numbers of the channel list, the sorted difference and the batching. The assembly of the message dictionaries and of the returned summary is not modelled, because it only combines those results.
- The chunk split of the `main` of channel_with_replays.py is modelled (`ChannelWithReplays.SplitChunks`). How `main` builds the summary is not: its sort by follower count, its rules for skipping a channel and the fields of a channel entry. Its file reading, its messages and its file writing are not modelled either.
- `S3Paths`: the helpers carry the error texts of queueing-videos.py. `S3Lists.ReadRequest` uses the s3-lists.py texts for its own errors.
- `VideoAnalyzer`: the related-video threshold of `analyze_all_video_relations` is the 0.02 of the code (chzzk-chat/src/data/video_analyzer.rs:385), not the 0.01 its comment mentions.

## Findings

| source | as written | input that shows it | evidently intended | confidence | as-written member | corrected member |
|---|---|---|---|---|---|---|
| chzzk-chat/src/data/chat/channel_distance.rs:125 | `total_pairs = n * (n - 1) / 2` on `usize` | no channel has a chatter, or `max_nodes = Some(0)`: then `n = 0`, and `0 - 1` aborts a debug build (a release build wraps it) | the total is 0 pairs when there is no node | not executed | ChannelDistance.TotalPairsNoNodes | ChannelDistance.TotalPairsCountsLinks |
