# Vole, verified

Vole is an in-memory, Redis-like store written in Go. This project models its data structures,
its keyspace, its streams and queues, its cluster metadata and its durability pipeline in Dafny,
and proves what they promise. `dafny verify dfyconfig.toml` checks everything.

The main results, by module:

* **Recovery** — for every run of string, hash, list, set and sorted-set commands without expiry
  times, interleaved with SAVE and FLUSHDB, it is characterised when a restart from the snapshot and
  the bytes of the log file rebuilds the live data. It rests on **AofCodec** (the log's line format),
  **Json** and **TextualData** (what the snapshot's text keeps) and **KeyStore**.
* **Keyspace, KeyStore, SetAlgebra** — the six typed maps of the store behave, under every mutator
  and every clock reading, like one map from keys to typed values; no key is in two maps, no
  container is empty, no expiry outlives its key. Intersections, unions and differences of sets agree
  with their definitions, errors included.
* **CommandLaws, Wire, RingLists** — what every mutator means to a client, in terms of what it can see
  before and after; what each logged command, spelled out as it is sent, does and replies; and lists
  beside the ring buffer that holds them.
* **ConsumerGroups, Streams** — stream IDs stay strictly increasing whatever the clock does, and a
  group hands out every entry after its start once, in order, without a gap.
* **BlockingLists** — over every run, up to the first RENAME or COPY onto a name that clients wait on,
  no wakeup is lost, nobody is handed two elements, and every element pushed is in a list, popped,
  handed out, or (in exactly characterised cases) lost; if clients wait on one key at a time, lines
  are served in the order in which they were joined.
* **ReliableQueue, RateLimits, Eviction, LamportClock, Clusters** — conservation and redelivery
  bounds, the sliding-window bound, termination and footprint of the eviction loop, the clock under
  every interleaving, and the slot partition with agreement on owners.
* **Deques, SortedSets, TimeSeriesStore, Glob, Resp** — fast structures against naive definitions,
  composition of downsampling, the glob matcher against a declared language, the RESP round trips.

Conventions. A `char` stands for one byte of a Go string. Clocks are parameters named `now`, and a
call reads the clock once. Map iteration order and random choices are left open. Scores are reals,
sums of them rounded by a function that is a parameter; samples are exact reals. Objects that the
source updates in place are classes; lists held by the keyspace are sequences there, and the ring
buffer behind them is the class in Deques.

Where the code does not meet what one would expect of it, the model follows the code and the
condition under which it does is proved:

* Log arguments that spell out `\n` or `\t` come back as a real line feed or tab
  (AofCodec.LineRoundTripIffSafe, Recovery.SetRecoversIffSafe).
* FLUSHDB truncates the log but keeps the snapshot (Recovery.Server.FlushAll).
* The snapshot is JSON, which replaces bytes that are not UTF-8 (Recovery.Server.Save,
  Recovery.SaveLosesBytes).
* RENAME of a key onto itself deletes it (Keyspace.RenameKeepsValue); RENAME or COPY of a list onto a
  name that clients wait on wakes nobody (BlockingLists.Lists.RenameList, BlockingLists.Lists.CopyList).
* SINTER and SINTERSTORE report a key of the wrong type only if no empty set comes before it
  (KeyStore.Store.SInter, Recovery.Server.CombineSets).
* An element popped for a waiter that was already served or has given up disappears
  (BlockingLists.LosesNothingIffFresh).
* The stream ID `$`, given explicitly, breaks the order of a stream (Streams.DollarBreaksOrder), and
  so does `*` after the largest sequence number while the clock stands still (Streams.AddedInOrder).
* A stream named twice with `>` in one XREADGROUP is in the reply twice
  (ConsumerGroups.NewAtMostOnceIff).
* A cluster node that joins under the local node's own ID takes away the mark that keeps the local
  node active, after which forgetting a node can leave slots without any
  (Clusters.Cluster.Forget, Clusters.UnmarkedForgetLosesSlots).
* Nodes with the same active IDs can disagree on owners, because health checks move no slots
  (Clusters.OwnersAgree, Clusters.SameActiveIdsDisagree).
* The Lamport clock wraps at the largest 64-bit value (LamportClock.ClockDecreasesOnlyOnOverflow).
* A rate limit below one makes RATELIMIT index an empty slice (RateLimits.Limiter.RateLimit).
* Downsampling twice agrees with downsampling once only if both read the same stretch of time
  (TimeSeriesStore.DownsampleTwice).
* Eviction that returns without evicting may rest on a stale estimate (Eviction.Store.EvictIfNeeded,
  Eviction.StaleEstimate).
* A rate limiter forgets what a shorter window or a sweep has dropped, so a longer window given later
  sees less (RateLimits.Limiter.RateLimit).

## Model

| member | source | states |
|---|---|---|
| Search.FirstTrue | internal/store/sortedset.go:75-82 | binary search returns the least index at which a monotone predicate holds: false before it, true from it on |
| Search.NormalizeRange | internal/store/store.go:3491-3508 | the bounds delimit exactly the valid positions between the two indices, negative ones counted from the end; none exist exactly when it reports an empty range |
| Search.WindowIsSlice | internal/store/store.go:3491-3508 | cutting at the bounds gives the same elements as testing every position one by one |
| Deques.Deque.Grow | internal/store/deque.go:18-29 | a larger buffer with room for one more, same contents in order, unused cells blank, whatever the old wrap-around |
| Deques.Deque.PushFront | internal/store/deque.go:34-43 | the values end up in front, last one first, before the old contents |
| Deques.Deque.PushBack | internal/store/deque.go:46-54 | the values follow the old contents |
| Deques.Deque.PopFront | internal/store/deque.go:57-66 | fails exactly on an empty deque; otherwise splits off the first element and blanks its cell |
| Deques.Deque.PopBack | internal/store/deque.go:69-78 | fails exactly on an empty deque; otherwise splits off the last element and blanks its cell |
| Deques.Deque.Set | internal/store/deque.go:105-107 | replaces the element at a logical index, nothing else |
| Deques.Deque.Insert | internal/store/deque.go:111-133 | inserts at a logical index whichever side is shifted, on a wrapped or full buffer too |
| Deques.Deque.Range | internal/store/deque.go:87-97 | LRANGE: exactly the elements whose position lies in the window, in order |
| Deques.Deque.Run | internal/store/deque.go:18-145 | every sequence of operations acts on the ring buffer as on a plain sequence, and cells outside the live window stay blank |
| SortedSets.ListingUnique | internal/store/sortedset.go:7-12 | a score map has only one strictly (score, member)-ordered listing |
| SortedSets.ListingIs | internal/store/sortedset.go:7-12 | being a strictly ordered listing of the map and being the listing built from the map by insertion are the same |
| SortedSets.RankIsSmaller | internal/store/sortedset.go:138-148 | the position of a member in the listing is the number of members that precede it, counted on the map |
| SortedSets.SortedSet.FindPos | internal/store/sortedset.go:75-82 | everything before the position precedes (score, member), nothing from it on does |
| SortedSets.SortedSet.Add | internal/store/sortedset.go:21-36 | the map is updated at the member, the slice stays the listing of the map, and the result says whether the member is new |
| SortedSets.SortedSet.Remove | internal/store/sortedset.go:39-47 | the member leaves map and slice; the result says whether it was there |
| SortedSets.SortedSet.Rank | internal/store/sortedset.go:138-148 | the number of members that precede, counted on the map; absent exactly for non-members |
| SortedSets.SortedSet.Range | internal/store/sortedset.go:57-65 | the window of the listing of the map |
| SortedSets.SortedSet.RevRange | internal/store/sortedset.go:124-135 | the window of the listing read backwards |
| SortedSets.SortedSet.RangeByScore | internal/store/sortedset.go:100-120 | the listing of the members with a score in the band, after skipping offset and taking count |
| SortedSets.SortedSet.CountByScore | internal/store/sortedset.go:253-265 | the number of members with a score in the band, counted on the map |
| SortedSets.SortedSet.PopMin | internal/store/sortedset.go:151-168 | the first entries of the listing, as many as asked for or available; the map loses exactly those, and they precede all that stay |
| SortedSets.SortedSet.PopMax | internal/store/sortedset.go:171-194 | the last entries of the listing, highest first; the map loses exactly those, and they follow all that stay |
| SortedSets.SortedSet.Run | internal/store/sortedset.go:21-194 | after every run of additions, removals and pops the slice is the listing of the map, and the map is what the operations do to a map |
| TimeSeriesStore.TimeSeries.Add | internal/store/timeseries.go:27-41 | timestamps stay strictly increasing; the sample at the timestamp is replaced or inserted and every other sample is kept |
| TimeSeriesStore.TimeSeries.Range | internal/store/timeseries.go:44-59 | equals the linear filter by timestamp with both ends inclusive, cut to count when that is positive |
| TimeSeriesStore.TimeSeries.Downsample | internal/store/timeseries.go:73-127 | one sample per non-empty bucket, at the bucket start, with the aggregate of exactly the samples in that bucket |
| TimeSeriesStore.Combine | internal/store/timeseries.go:86-118 | the aggregation loops compute average, sum, minimum, maximum, count, first and last |
| TimeSeriesStore.DownsampleInto | internal/store/store.go:4663-4685 | adding the results one by one to a new series stores exactly the downsampled sequence |
| TimeSeriesStore.GroupsCompose | internal/store/timeseries.go:73-127 | downsampling twice equals downsampling once by the larger size, for whole groups of buckets and every aggregation but the average (counts recombine by summing) |
| TimeSeriesStore.DownsampleTwice | internal/store/timeseries.go:73-127 | downsampling by b and then by m·b equals downsampling by m·b for every series if and only if both read the same stretch of time |
| TimeSeriesStore.WholeBuckets | internal/store/timeseries.go:73-127 | when the span is a multiple of m·b both read exactly [from, to) |
| TimeSeriesStore.UncoveredSample | internal/store/timeseries.go:73-127 | otherwise a single sample just past the small buckets is seen by the large bucket only |
| TimeSeriesStore.CountsAddUp | internal/store/timeseries.go:73-127 | the bucket counts add up to the number of samples in the stretch read |
| Glob.MatchGlob | internal/store/store.go:3159-3212 | terminates, and answers exactly whether the pattern, compiled once into tokens with a declared language, matches the string; the laws of each pattern character are the Matches lemmas |
| Glob.MatchBracket | internal/store/store.go:3214-3259 | accepts exactly the bytes of the class as parsed once, and then leaves the pattern after its end; an unclosed class never matches |
| Glob.QuotedMatchesOnlyItself | internal/store/store.go:3159-3212 | a string with every byte escaped is a pattern for itself and nothing else |
| LamportClock.RunKeepsInv | internal/server/multimaster.go:80-95 | over every interleaving of Tick, load and compare-and-swap steps without overflow the clock never decreases |
| LamportClock.TicksExceedEverythingBefore | internal/server/multimaster.go:80-95 | a Tick returns more than every earlier Tick and more than the argument of every Merge that has returned |
| LamportClock.MergeRetriesBounded | internal/server/multimaster.go:85-95 | a Merge loses its compare-and-swap at most remote minus first-loaded times |
| LamportClock.ClockDecreasesOnlyOnOverflow | internal/server/multimaster.go:80-95 | a step lowers the 64-bit clock if and only if it is a Tick at the largest value |
| LamportClock.OverflowExample | internal/server/multimaster.go:80-95 | merging the largest value is possible and makes the next Tick return a negative stamp |
| RateLimits.ReferenceBounded | internal/store/store.go:4201-4250 | for every non-decreasing sequence of request times, no window of the given length holds more than max allowed requests |
| RateLimits.Limiter.RateLimit | internal/store/store.go:4201-4250 | with limit and window given per call: denied exactly when max of the stored timestamps fall in the window; these are all that were allowed in it, with the matching remaining, retry and reset values, unless the window reaches back to what was forgotten; a limit below one indexes an empty slice when nothing is stored |
| RateLimits.Limiter.Sweep | internal/store/store.go:258-268 | drops a limiter exactly if it is empty or idle for more than two windows of its latest call; what it thereby forgets is older than that |
| RateLimits.Limiter.Serve | internal/store/store.go:4201-4250 | over a whole run of requests and sweeps under one limit and window the verdicts are those of a limiter that remembers everything, and no window of that length ever holds more than max allowed requests |
| Decimal.ParseFormat | internal/resp/resp.go:214-225 | printing an integer and parsing it again is the identity on all 64-bit integers |
| Resp.ParseValue | internal/resp/resp.go:84-142 | what is read is shorter than the input, and no simple string or error text in it holds a line feed |
| Resp.Reader.ReadLine | internal/resp/resp.go:152-158 | consumes one line and strips one carriage return |
| Resp.Reader.ReadCommand | internal/resp/resp.go:42-82 | follows the command grammar, inline commands split at Unicode white space, errors and out-of-range panics included, and leaves exactly the unread bytes |
| Resp.Reader.ReadValue | internal/resp/resp.go:84-142 | follows the value grammar at every nesting depth and leaves exactly the unread bytes |
| Resp.Writer.Bulk | internal/resp/resp.go:227-244 | appends the encoding of one bulk string |
| Resp.Writer.Command | internal/resp/resp.go:180-190 | appends the encoding of the command |
| Resp.Writer.WriteValue | internal/server/scripting.go:343-372 | appends the encoding of the value, recursively |
| Resp.CommandRoundTrip | internal/resp/resp.go:42-82 | reading an encoded command yields its arguments, whatever bytes they hold, and consumes exactly its bytes |
| Resp.PipelineRoundTrip | internal/resp/resp.go:42-82 | a concatenation of encoded commands is read back command by command |
| Resp.InlineRoundTrip | internal/resp/resp.go:42-82 | visible words typed on a line with spaces between them are read as a command, unless the first begins with the array marker |
| Resp.ValueRoundTrip | internal/resp/resp.go:84-142 | reading back a written value yields it, if and only if no simple string or error text at any depth holds a line feed |
| Resp.Exchange | internal/resp/resp.go:42-190 | through the reader and writer objects, a pipeline arrives complete with nothing left over |
| AofCodec.UnescapeEscape | internal/server/aof.go:455-472 | the exact effect of the three-pass decoding of an escaped string: `\n` and `\t` spelled out become a line feed and a tab, all else survives |
| AofCodec.MangleFixesSafe | internal/server/aof.go:455-472 | that effect is the identity exactly on strings without a backslash directly before n or t |
| AofCodec.RecordIsOneLine | internal/server/aof.go:52-85 | a record is one line, not empty, and does not end in a carriage return |
| AofCodec.LineRoundTrip | internal/server/aof.go:426-453 | every non-empty command passes its own checksum, keeps its argument count and decodes to the exact effect on each argument |
| AofCodec.LineRoundTripIffSafe | internal/server/aof.go:426-453 | the original arguments come back if and only if none spells out `\n` or `\t` |
| AofCodec.FileRoundTrip | internal/server/aof.go:116-126 | scanning the file yields the appended commands in order, each decoded as above |
| AofCodec.Aof.Append | internal/server/aof.go:52-85 | the file is again the encoding of the log, with the command added |
| AofCodec.Aof.Reset | internal/server/aof.go:87-101 | the file is empty and so is the log |
| AofCodec.VerifyAndParseLine | internal/server/aof.go:426-453 | splits, unescapes and checks a line as the decoding function says, lines without a checksum included |
| ReliableQueue.HistoryOfMessage | internal/store/queue.go:163-184 | over every history a message has been handed out as often as its place says, at most MaxRetry times, and is dead exactly after MaxRetry failures |
| ReliableQueue.DequeuesBounded | internal/store/queue.go:46-184 | there are at most MaxRetry successful dequeues per message ever enqueued |
| ReliableQueue.Queue.Enqueue | internal/store/queue.go:46-78 | the message joins the end of the line, due after its delay; nothing else changes |
| ReliableQueue.Queue.Dequeue | internal/store/queue.go:83-142 | one attempt: expired messages fail first, as in RequeueExpired; of the line that results the first due message is handed out, and none exactly when none is due |
| ReliableQueue.Queue.QAck | internal/store/queue.go:146-159 | succeeds exactly on a message being processed, which is then gone from the queue |
| ReliableQueue.Queue.QNack | internal/store/queue.go:163-184 | succeeds exactly on a message being processed, which fails once: dead on its last permitted failure, else back in line |
| ReliableQueue.Queue.RequeueExpired | internal/store/queue.go:251-269 | exactly the messages past their deadline fail, once each, in whatever order the map is visited: each rejoins the line, due now, or is dead on its last permitted failure |
| ReliableQueue.Queue.Serve | internal/store/queue.go:46-184 | over every run each message is in exactly one place, and there are at most MaxRetry dequeues per message ever enqueued |
| ReliableQueue.Queue.BlockingDequeue | internal/store/queue.go:83-142 | with a timeout, whatever others do between the two attempts: a message handed out is being processed by then, and none is handed out only if none was due at the last attempt |
| Clusters.RangesCover | internal/server/cluster.go:375-385 | of n ranges exactly one contains a given slot, also when there are more nodes than slots |
| Clusters.AssignmentPartitions | internal/server/cluster.go:292-329 | sharing out by ID order partitions all 16384 slots among the active nodes, in whatever order equal IDs end up |
| Clusters.AssignmentIsCanonical | internal/server/cluster.go:292-329 | with distinct active IDs, what a node covers depends on the set of active IDs alone |
| Clusters.ExactlyOneOwner | internal/server/cluster.go:121-123 | each slot has exactly one owner among the active IDs |
| Clusters.Cluster.constructor | internal/server/cluster.go:49-88 | the slots are partitioned among the local node and its peers, duplicates included, and the local entries are marked |
| Clusters.Cluster.Rebalance | internal/server/cluster.go:292-329 | if any node is active the slots are partitioned anew, only ranges change, and the local descriptor is refreshed |
| Clusters.Cluster.Meet | internal/server/cluster.go:213-236 | a node that can be reached at a new address joins at the end and the slots are partitioned anew among the active IDs, whatever the state before; the local mark survives if the answered ID is another one |
| Clusters.Cluster.Forget | internal/server/cluster.go:267-288 | refused exactly for the local ID and unknown IDs; otherwise every entry under the ID is gone, and the slots are partitioned afterwards if and only if another node is active, or they were before and the removed entries had none |
| Clusters.Cluster.Reset | internal/server/cluster.go:332-339 | the local node alone owns every slot |
| Clusters.Cluster.Heartbeat | internal/server/cluster.go:154-185 | only the health of the first node under the ID changes, to what the probe shows, and no slot moves |
| Clusters.Cluster.Owner | internal/server/cluster.go:108-118 | the node that covers the slot of the key, which is the canonical owner when IDs are distinct, or the local node if none does |
| Clusters.Cluster.SelfOwns | internal/server/cluster.go:121-123 | when the slot is covered and the active IDs are distinct, true exactly if the local ID is the canonical owner; true if no node covers the slot |
| Clusters.OwnersAgree | internal/server/cluster.go:108-118 | two nodes with the same distinct active IDs name the same owner for every key, in each table a node whose range holds the key's slot, if each shared out the slots when just those IDs were active |
| Clusters.Cluster.Serve | internal/server/cluster.go:213-339 | no slot ever has two nodes; and every slot has one, over every run of joins, removals, resets and heartbeats in which no other node answers with the local ID |
| Clusters.Cluster.Do | internal/server/cluster.go:213-339 | whether every slot has a node after a change, exactly, in terms of the state before it |
| Clusters.SameActiveIdsDisagree | internal/server/cluster.go:154-185 | after a failed health check two nodes with the same active IDs name different owners for a key, each the node whose range holds its slot |
| Clusters.SameOwnersIffSameIds | internal/server/cluster.go:292-329 | two sets of up to 16384 IDs give every slot the same owner if and only if they are the same |
| Clusters.ExactlyOneSelf | internal/server/cluster.go:121-123 | of nodes that list each other under distinct IDs exactly one takes a key for its own |
| Clusters.UnmarkedForgetLosesSlots | internal/server/cluster.go:213-339 | a run from the start in which a node answers with the local ID, and after which no slot has a node |
| Clusters.TagDecidesSlot | internal/server/cluster.go:366-373 | keys with the same non-empty hash tag have the same slot |
| Streams.ParseFormatID | internal/store/store.go:3541-3555 | a generated ID denotes the pair it was made from |
| Streams.AutoKeyIsGreater | internal/store/store.go:2050-2067 | whatever the clock does, a generated ID is greater than the last one, unless the clock has not passed it and its sequence number is the largest 64-bit value |
| Streams.AddedInOrder | internal/store/store.go:2050-2067 | an accepted addition keeps IDs strictly increasing exactly under a condition known before the call |
| Streams.AddKeepsOrdered | internal/store/store.go:1988-2012 | IDs stay strictly increasing under automatic additions, short of an exhausted sequence number, and explicit ones other than the ID `$` |
| Streams.DollarBreaksOrder | internal/store/store.go:3520-3539 | an entry added under the ID `$` lets a smaller ID in after it |
| Streams.Stream.XAdd | internal/store/store.go:1988-2012 | appends exactly one entry or none, with the chosen ID; keeps the order outside the two cases of AddedInOrder |
| Streams.Stream.PrepareID | internal/store/store.go:2050-2067 | the ID chosen for `*` and the check of an explicit ID, with the counter they leave behind |
| Streams.Stream.XAddPrepared | internal/store/store.go:2026-2048 | adds the prepared ID only if it is still greater than the last one |
| Streams.Stream.AddInTwoSteps | internal/server/server.go:4738-4759 | choosing an ID and then adding it does what XAdd does, except where XAdd would break the order |
| Streams.Stream.XRange | internal/store/store.go:2085-2115 | equals the linear filter by inRange, cut to count |
| Streams.Stream.XRead | internal/store/store.go:2117-2137 | equals the linear filter by greater-than |
| Streams.SearchStart | internal/store/store.go:2079-2083 | entries before the index are not after the ID, all later ones are |
| ConsumerGroups.Group.constructor | internal/store/store.go:2152-2161 | nothing is handed out yet; `$` starts at the last ID of the stream |
| ConsumerGroups.XGroupCreate | internal/store/store.go:2139-2163 | refused exactly for another type, a missing stream without MKSTREAM and an existing group, in that order; otherwise a new group that starts where the ID says |
| ConsumerGroups.Group.XAdd | internal/store/store.go:1988-2012 | a new entry is beyond everything handed out, outside the two cases that break the order of a stream |
| ConsumerGroups.Group.PlanRead | internal/store/store.go:2175-2214 | the reply planned for a stream named any number of times in one command |
| ConsumerGroups.Deliver | internal/store/store.go:2216-2237 | every delivered ID becomes pending for the consumer and the last ID advances to the greatest |
| ConsumerGroups.Group.XReadGroup | internal/server/server.go:4946-4982 | for a stream named any number of times in one command: the reply is as planned; what the first `>` contributes is handed out and every entry of the reply becomes pending for the consumer; new entries are in the reply at most once exactly under the condition of NewAtMostOnceIff |
| ConsumerGroups.HandingOutExtends | internal/store/store.go:2175-2214 | a `>` read extends what was handed out by exactly its entries, leaving no gap |
| ConsumerGroups.HandedOutOnceInOrder | internal/store/store.go:2175-2237 | what was handed out is strictly increasing, holds entries of the stream only and misses none between start and last ID |
| ConsumerGroups.PlanCounts | internal/store/store.go:2175-2214 | every `>` puts the first new entry in the reply once more, and any other new entry at most once more |
| ConsumerGroups.NewAtMostOnceIff | internal/store/store.go:2175-2214 | no new entry is twice in the reply if and only if the stream is named with `>` at most once, or nothing is new |
| ConsumerGroups.Group.XAck | internal/store/store.go:2239-2260 | exactly the pending ones among the IDs become acknowledged, and their number is returned |
| ConsumerGroups.Group.XClaim | internal/store/store.go:2273-2301 | pending entries idle long enough change consumer and are returned; nothing stops or starts being pending |
| ConsumerGroups.Group.XAutoClaim | internal/store/store.go:2304-2350 | pending IDs from the cursor on are examined in order until count entries are claimed; the new cursor is the first not examined |
| ConsumerGroups.Group.Serve | internal/store/store.go:2139-2350 | over every run without additions that break the order of the stream, streams named repeatedly included, what was handed out grows in ID order without repetition or gap, and each entry is pending for one consumer until acknowledged |
| BlockingLists.WakeConserves | internal/store/store.go:2526-2552 | every element is kept, given to one waiter, or lost |
| BlockingLists.WakeEnds | internal/store/store.go:2526-2552 | afterwards nobody waits beside an element, and those no longer waiting were first in line |
| BlockingLists.FreshWakeLosesNothing | internal/store/store.go:2526-2552 | waiters registered once and still listening lose nothing and are served in order of registration |
| BlockingLists.LosesNothingIffFresh | internal/store/store.go:2537-2550 | an element vanishes exactly when one of the first waiters in line, as many as there are elements for, had been served before, had given up, or stands in line twice |
| BlockingLists.Lists.WakeWaiters | internal/store/store.go:2526-2552 | the loop does what the wakeup function says and touches no other key |
| BlockingLists.Lists.Push | internal/store/store.go:1065-1098 | push then wake; no wakeup is lost, the length replied is what is left, and the books of the key gain who was handed which element; nothing is lost and the line keeps its order if it was fair before |
| BlockingLists.Lists.Pop | internal/store/store.go:1100-1129 | the old list is the element popped followed by the rest on the left, the rest followed by it on the right; it is booked, and nothing else changes |
| BlockingLists.Lists.LMove | internal/store/store.go:996-1046 | the element popped from one key is pushed to the other, where it may wake a waiter |
| BlockingLists.Lists.BPop | internal/store/store.go:2476-2504 | an element of the first non-empty list, or else the waiter is registered on every key, all of them empty |
| BlockingLists.Lists.RemoveWaiter | internal/store/store.go:2554-2571 | the waiter leaves every line it joined; the others keep their order |
| BlockingLists.Lists.RemoveList | internal/store/store.go:3442-3472 | deleting a list keeps the books, and everyone who waits goes on waiting |
| BlockingLists.Lists.RenameList | internal/store/store.go:742-797 | moves the list, over whatever list was there, and keeps the books; a wakeup is lost exactly when there is a list to move and somebody waits on the new name |
| BlockingLists.Lists.CopyList | internal/store/store.go:1800-1863 | copies the list unless another is in the way and REPLACE is not given, and keeps the books; a wakeup is lost exactly when there is a list to copy and somebody waits on the new name; onto its own name, with REPLACE, the list is deleted |
| BlockingLists.GivenFacts | internal/store/store.go:2526-2552 | whoever is handed an element was not served before, and is handed no other one |
| BlockingLists.Lists.Serve | internal/store/store.go:996-1129 | over every run, up to the first RENAME or COPY of a list onto a name that somebody waits on, no wakeup is lost, every element that entered a list is in it, popped, handed out or lost, and nobody is handed two elements; if clients wait on one key at a time and leave the line as they stop listening, nothing is lost and on every key those handed an element followed by those waiting are those who joined and did not leave, in that order |
| Eviction.Compute | internal/store/store.go:4077-4109 | the loops over the maps, in any order, compute the footprint |
| Eviction.Store.Estimate | internal/store/store.go:4070-4110 | the cached value for up to a thousand calls and while it is not zero, else the footprint, which is then cached |
| Eviction.Store.EvictRandom | internal/store/store.go:4115-4161 | deletes one whole key of the pool and records it as just accessed; fails exactly when the pool is empty |
| Eviction.Store.EvictLRU | internal/store/store.go:4166-4193 | deletes a least recently used key of a sample of five, or any key if the sample names none; fails only when no key is left |
| Eviction.SampleOldest | internal/store/store.go:4168-4180 | the sample has five keys or all of them, and the result is a least recently used one of them; it is blank only if the sample names no other winner |
| Eviction.Store.EvictIfNeeded | internal/store/store.go:4036-4065 | terminates under every policy and iteration order; only whole keys go, only volatile ones under that policy; when it succeeds under an evicting policy the fresh footprint is within the limit if and only if it did not rest on a cached estimate within the limit for a footprint above it |
| Eviction.StaleEstimate | internal/store/store.go:4070-4110 | a run in which the call succeeds above the limit without evicting anything |
| KeyStore.Overlay | internal/store/store.go:1335-1346 | the two ways of filling the buffer, copying over the old bytes or into a longer zeroed one, both give the text that has the new value at the offset, the old text elsewhere and zero bytes between |
| KeyStore.WrittenReadsBack | internal/store/store.go:1335-1346 | what was written is read back at its offset, every old byte elsewhere is still there, and writing it again changes nothing |
| KeyStore.Store.SInter | internal/store/store.go:1482-1533 | the error exactly if a key of another type comes before every missing, expired or empty set; otherwise exactly the members that every key has, sorted, though only those of the smallest set are looked at |
| KeyStore.Store.SUnion | internal/store/store.go:1537-1561 | the error exactly if some key is of another type; otherwise exactly the members that some key has, once each and sorted |
| KeyStore.Store.SDiff | internal/store/store.go:1565-1603 | the error exactly if some key is of another type; otherwise exactly the members of the first key that no later key has, sorted |
| SetAlgebra.Intersect | internal/store/store.go:1505-1531 | the loop over the smallest set finds exactly the members of all sets |
| SetAlgebra.Subtract | internal/store/store.go:1586-1600 | the loop over the first set keeps exactly the members in none of the others |
| SetAlgebra.DiffComplements | internal/store/store.go:1482-1603 | the difference and the intersection with the union of the other sets split the first set in two |
| SetAlgebra.OrderIsFree | internal/store/store.go:1482-1603 | reordering or repeating operands changes no result, except that the first one of a difference must stay first |
| Keyspace.ApplyKeepsWellFormed | internal/store/store.go:356-4898 | every mutator leaves no container empty and no expiry without its key |
| Keyspace.RunKeepsWellFormed | internal/store/store.go:356-4898 | so does every run, whatever the clock readings |
| Keyspace.RenameKeepsValue | internal/store/store.go:742-797 | RENAME carries the value over exactly when the names differ; onto itself it deletes the key; other keys are untouched |
| Json.CoerceFixesText | internal/server/snapshot.go:11-37 | a string comes back from JSON unchanged if and only if it is valid UTF-8 |
| Json.CoerceIsText | internal/server/snapshot.go:11-37 | whatever comes back is valid UTF-8, and a second trip changes nothing |
| Json.ObjectIsText | internal/server/snapshot.go:39-57 | every name read back is valid UTF-8 and every value one that was written, also when names become equal |
| Json.ObjectFixed | internal/server/snapshot.go:39-57 | an object whose names and values come back unchanged comes back unchanged |
| TextualData.TextStays | internal/store/store.go:356-4898 | valid UTF-8 in the arguments keeps all stored data valid UTF-8, under every mutator but SETRANGE |
| TextualData.SetRangeCutsCharacters | internal/store/store.go:1320-1350 | SETRANGE can leave half a character |
| KeyStore.Store.SetAbsolute | internal/store/store.go:356-373 | on the six maps, as on one map from keys to typed values: a string replaces whatever the key held, with the given expiry or none |
| KeyStore.Store.SetNX | internal/store/store.go:376-393 | on the six maps, as on one map from keys to typed values: sets only a key that does not exist once expiry is taken into account |
| KeyStore.Store.SetXX | internal/store/store.go:396-422 | on the six maps, as on one map from keys to typed values: replaces only a key that exists |
| KeyStore.Store.IncrBy | internal/store/store.go:587-609 | on the six maps, as on one map from keys to typed values: 64-bit addition on a decimal string, wrong type and non-numbers refused without change |
| KeyStore.Store.Append | internal/store/store.go:1250-1264 | on the six maps, as on one map from keys to typed values: appends to a string or creates it |
| KeyStore.Store.GetSet | internal/store/store.go:1268-1292 | on the six maps, as on one map from keys to typed values: returns the old string and replaces it, dropping its expiry |
| KeyStore.Store.SetRange | internal/store/store.go:1320-1350 | on the six maps, as on one map from keys to typed values: overwrites part of a string, padding with zero bytes |
| KeyStore.Store.GetDel | internal/store/store.go:1412-1424 | on the six maps, as on one map from keys to typed values: returns and deletes a string |
| KeyStore.Store.MSetNX | internal/store/store.go:1390-1408 | on the six maps, as on one map from keys to typed values: sets all keys or none |
| KeyStore.Store.HSet | internal/store/store.go:799-823 | on the six maps, as on one map from keys to typed values: assigns the fields in order and counts the new ones |
| KeyStore.Store.HDel | internal/store/store.go:900-928 | on the six maps, as on one map from keys to typed values: removes fields, and the key with its last field |
| KeyStore.Store.HIncrBy | internal/store/store.go:930-955 | on the six maps, as on one map from keys to typed values: 64-bit addition on a field |
| KeyStore.Store.HSetNX | internal/store/store.go:957-976 | on the six maps, as on one map from keys to typed values: sets only a field that does not exist |
| KeyStore.Store.PushList | internal/store/store.go:1065-1098 | on the six maps, as on one map from keys to typed values: pushes on the named end of a list or creates it |
| KeyStore.Store.PopList | internal/store/store.go:1100-1129 | on the six maps, as on one map from keys to typed values: pops the named end, and deletes the key with its last element |
| KeyStore.Store.LMove | internal/store/store.go:996-1046 | on the six maps, as on one map from keys to typed values: pop and push between two keys or on one, with the type checks in the order made |
| KeyStore.Store.LSet | internal/store/store.go:3603-3625 | on the six maps, as on one map from keys to typed values: replaces one element, negative indices from the end |
| KeyStore.Store.LInsert | internal/store/store.go:3629-3659 | on the six maps, as on one map from keys to typed values: inserts beside the first occurrence of the pivot |
| KeyStore.Store.LRem | internal/store/store.go:4693-4755 | on the six maps, as on one map from keys to typed values: removes the first, the last or all occurrences |
| KeyStore.Store.SAdd | internal/store/store.go:1131-1155 | on the six maps, as on one map from keys to typed values: adds members and counts the new ones |
| KeyStore.Store.SRem | internal/store/store.go:1157-1182 | on the six maps, as on one map from keys to typed values: removes members, and the key with its last member |
| KeyStore.Store.SMove | internal/store/store.go:4758-4793 | on the six maps, as on one map from keys to typed values: moves a member between two sets or within one |
| KeyStore.Store.SPop | internal/store/store.go:4796-4826 | on the six maps, as on one map from keys to typed values: whatever members it picks, the effect is SREM of what it returns, and it picks as many as asked for or available |
| KeyStore.Store.ZAdd | internal/store/store.go:1605-1628 | on the six maps, as on one map from keys to typed values: assigns the scores in order and counts the new members |
| KeyStore.Store.ZRem | internal/store/store.go:1647-1674 | on the six maps, as on one map from keys to typed values: removes members, and the key with its last member |
| KeyStore.Store.ZIncrBy | internal/store/store.go:4830-4852 | on the six maps, as on one map from keys to typed values: adds to a score, starting from zero |
| KeyStore.Store.ZPop | internal/store/store.go:4855-4898 | on the six maps, as on one map from keys to typed values: removes and returns the lowest or highest members in order |
| KeyStore.Store.XAdd | internal/store/store.go:1988-2012 | on the six maps, as on one map from keys to typed values: appends an entry under the chosen ID or refuses |
| KeyStore.Store.Del | internal/store/store.go:561-576 | on the six maps, as on one map from keys to typed values: deletes the keys; repeated and expired ones do not count |
| KeyStore.Store.Expire | internal/store/store.go:639-663 | on the six maps, as on one map from keys to typed values: sets or clears the expiry of an existing key |
| KeyStore.Store.Persist | internal/store/store.go:721-734 | on the six maps, as on one map from keys to typed values: clears the expiry and says whether there was one |
| KeyStore.Store.Rename | internal/store/store.go:742-797 | on the six maps, as on one map from keys to typed values: moves value, expiry and counter to the new name |
| KeyStore.Store.Copy | internal/store/store.go:1800-1863 | on the six maps, as on one map from keys to typed values: copies value, expiry and counter, replacing only if asked |
| KeyStore.Store.Delete | internal/store/store.go:3442-3472 | the key is gone from every map |
| KeyStore.Store.PurgeKey | internal/store/store.go:3261-3271 | a key past its expiry is gone, any other is untouched |
| KeyStore.Store.Exec | internal/store/store.go:356-4898 | any mutator keeps each key in at most one map and acts as on the single map |
| KeyStore.Store.Run | internal/store/store.go:356-4898 | so does every run |
| Recovery.DecodeVerb | internal/server/aof.go:127-275 | replay reads a record, its name in any case, as the store call that was made when it was logged |
| Recovery.Untimed | internal/server/aof.go:127-275 | without expiry times no store call depends on the clock, and none creates an expiry |
| Recovery.LMoveAsPopPush | internal/server/server.go:2858-2911 | LMOVE leaves what the pop and the push it logs leave, also onto the same key |
| Recovery.ZIncrByAsZAdd | internal/server/server.go:2249-2269 | ZINCRBY leaves what ZADD of the final, rounded score leaves |
| Recovery.ZPopAsZRem | internal/server/server.go:2169-2248 | ZPOPMIN and ZPOPMAX leave what ZREM of the returned members leaves |
| Recovery.SetsAsSetAbs | internal/server/server.go:4246-4282 | SETNX, SET XX, GETSET and SETRANGE, when they succeed, leave what SETABS of the new value leaves, and nothing otherwise |
| Recovery.PutAllAsSets | internal/server/server.go:2590-2602 | MSETNX, when it succeeds, leaves what the SETABS calls of its record leave |
| Recovery.GetDelAsDel | internal/server/server.go:1803-1812 | GETDEL leaves what DEL leaves when it found a string, and nothing otherwise |
| Recovery.HSetNXAsHSet | internal/server/server.go:1091-1103 | HSETNX leaves what HSET of one field leaves when it succeeds, and nothing otherwise |
| Recovery.LoadUndoesDump | internal/store/store.go:2792-2936 | loading a dump rebuilds the six maps, the text of the file aside |
| Recovery.SavedIffText | internal/server/snapshot.go:11-57 | what is read back from the file equals the data if and only if every key and every string in it is valid UTF-8 |
| Recovery.SaveLosesBytes | internal/server/snapshot.go:11-57 | SET of a single byte 0xff and SAVE: a restart would find the three bytes of U+FFFD |
| Recovery.WholeIsFaithful | internal/server/server.go:5472-5474 | there is a number format that reads back what it prints, so the theorems that assume one are about something |
| Recovery.EffectIsText | internal/server/server.go:700-4144 | a command of valid UTF-8 other than SETRANGE keeps the data valid UTF-8 |
| Recovery.Server.Sent | internal/server/server.go:843-936 | commands logged as sent before they run, failing or not: the log gains the record exactly if the type checks pass, the data and the reply are those of the call even when a check refuses it first, and the data stays recoverable |
| Recovery.Server.SetPlain | internal/server/server.go:4284-4296 | SET logs SETABS; the data stays recoverable |
| Recovery.Server.SetIf | internal/server/server.go:4246-4282 | SETNX and SET with NX or XX log SETABS exactly if they succeed |
| Recovery.Server.MSet | internal/server/server.go:4712-4736 | MSET logs one MSETABS record |
| Recovery.Server.MSetNX | internal/server/server.go:2577-2602 | MSETNX sets and logs all or nothing |
| Recovery.Server.GetSet | internal/server/server.go:2432-2452 | GETSET logs SETABS unless the type is wrong |
| Recovery.Server.SetRange | internal/server/server.go:2506-2535 | SETRANGE logs the whole resulting string |
| Recovery.Server.AppendTo | internal/server/server.go:1779-1795 | APPEND is logged only if it succeeds |
| Recovery.Server.GetDel | internal/server/server.go:1796-1812 | GETDEL logs DEL exactly if it found a string |
| Recovery.Server.HSet | internal/server/server.go:4299-4333 | HSET is logged unless the type is wrong |
| Recovery.Server.HSetNX | internal/server/server.go:1081-1103 | HSETNX logs HSET exactly if it sets the field |
| Recovery.Server.CopyKey | internal/server/server.go:2413-2431 | COPY is logged as sent exactly if it copies |
| Recovery.Server.SPop | internal/server/server.go:1303-1336 | SPOP logs SREM of exactly the members it picked |
| Recovery.Server.ZIncrBy | internal/server/server.go:2249-2269 | ZINCRBY logs ZADD with the final score |
| Recovery.Server.ZPop | internal/server/server.go:2169-2248 | ZPOPMIN and ZPOPMAX log ZREM of what they returned |
| Recovery.Server.LMove | internal/server/server.go:2858-2911 | LMOVE and RPOPLPUSH log a pop and a push |
| Recovery.Server.CombineSets | internal/server/server.go:2716-2790 | SINTERSTORE and its kin put the intersection, union or difference in place of the destination, reply its size and log DEL and, unless it is empty, SADD of the sorted members; a key of the wrong type changes nothing |
| Recovery.Server.Save | internal/server/server.go:5385-5396 | the snapshot, as it will be read back from JSON, takes over from the log, which is truncated; the data is recoverable then if and only if all of it is valid UTF-8 |
| Recovery.Server.FlushAll | internal/server/server.go:1610-1617 | FLUSHDB leaves the data recoverable if and only if the snapshot is empty |
| Recovery.Server.Execute | internal/server/server.go:700-4144 | each command has the effect on the data that it has without a log |
| Recovery.Server.Serve | internal/server/server.go:700-4144 | every run of these commands, snapshots and flushes has their effects in order, and leaves the data recoverable if the last SAVE or FLUSHDB was harmless: exactly if all data was valid UTF-8 at that SAVE, or the snapshot was empty at that FLUSHDB, or neither occurred and the start was harmless; with valid UTF-8 in all arguments and neither SETRANGE nor FLUSHDB it always is |
| Recovery.LastDecides | internal/server/server.go:700-4144 | the last SAVE or FLUSHDB of a run decides whether it was harmless, whatever came after; without either, its start does |
| Recovery.LastSaved | internal/server/server.go:700-4144 | the snapshot is empty exactly if there was no data at the last SAVE of the run |
| Recovery.TextRun | internal/server/server.go:700-4144 | over every run with valid UTF-8 in all arguments and neither SETRANGE nor FLUSHDB, the data stays valid UTF-8 and the last SAVE harmless |
| Recovery.RefusedAnyway | internal/server/server.go:843-936 | the call whose command a type check refuses would have replied the same error and changed nothing |
| Recovery.Restart | internal/server/aof.go:103-424 | loading the snapshot and replaying the lines of the file yields the replay of the records on the loaded data |
| Recovery.CrashAndRestart | internal/server/server.go:87-107 | the restart replays the records read from the bytes of the log file on the loaded snapshot; at every moment between commands, a restart at any time rebuilds the live data, if the last snapshot or flush was harmless and no argument logged since spells out `\n` or `\t` |
| Recovery.SetRecoversIffSafe | internal/server/server.go:4284-4296 | for a single SET that condition is exact |
| Decimal.PrintsDecimal | internal/store/store.go:597-609 | numbers are printed digit by digit: one character for each decimal digit, the most significant first, after a minus sign if negative |
| Decimal.ReadsDecimal | internal/resp/resp.go:144-150 | one more digit multiplies by ten and adds, while the result fits in 64 bits; then the number is out of range for good |
| Decimal.ReadsNegative | internal/resp/resp.go:144-150 | the same below zero, down to the smallest 64-bit number |
| Decimal.ReadsSign | internal/resp/resp.go:144-150 | a plus sign changes nothing, a minus sign negates |
| Decimal.ReadsNothingElse | internal/resp/resp.go:144-150 | exactly the strings that are not an optional sign followed by one or more digits are no numbers |
| Strings.LessIs | internal/store/sortedset.go:75-82 | one string comes before another exactly if it is a proper beginning of it or has the smaller byte where they first differ |
| Common.PoppedAt | internal/store/store.go:1100-1129 | the left end is position 0 and the right end the last; the other elements keep their order |
| Common.PushedAt | internal/store/store.go:1065-1098 | position by position: pushed on the left the last value comes first, pushed on the right the values follow in order |
| RingLists.PushBoth | internal/store/store.go:1065-1098 | LPUSH does to the list what PushFront does to a ring buffer with the same contents, RPUSH what PushBack does, and the reply is its length |
| RingLists.PopBoth | internal/store/store.go:1100-1129 | LPOP replies what PopFront returns on the same contents and leaves what it leaves; RPOP does so with PopBack |
| RingLists.PushThenPopAll | internal/store/store.go:1065-1129 | for every list of values: pushed on one end of a missing list, they come out of the other end in their order and out of the same end in reverse, and the key is gone |
| Search.IndicesFromTheEnd | internal/store/store.go:3491-3508 | -1 is the last position, and both ends of a window belong to it |
| Glob.MatchesEmpty | internal/store/store.go:3159-3212 | the empty pattern matches the empty string only |
| Glob.MatchesAnyOne | internal/store/store.go:3159-3212 | a question mark followed by p matches exactly the strings of a byte followed by a string that p matches |
| Glob.MatchesRun | internal/store/store.go:3159-3212 | a star followed by p matches exactly the strings with a suffix that p matches |
| Glob.MatchesByte | internal/store/store.go:3159-3212 | an ordinary byte, and any byte after a backslash, stands for itself |
| Glob.MatchesNothing | internal/store/store.go:3159-3212 | a final backslash and a class that is never closed match no string |
| Glob.MatchesClass | internal/store/store.go:3214-3259 | a class of bytes, quoted bytes and ranges matches exactly a byte in one of them, after `^` or `!` exactly a byte in none |
| Glob.MatchesRanges | internal/store/store.go:3214-3259 | on the bytes of the pattern: both ends of a range belong to it, its complement, and a closing bracket in first place |
| Glob.MatchesSingleton | internal/store/store.go:3214-3259 | a class of one byte, plain or quoted, matches that byte |
| Streams.IdParts | internal/store/store.go:3541-3555 | an ID is two numbers with a dash between; a part that is no number counts as zero and one too large as the largest; `-`, `+` and `$` have fixed values |
| Streams.CompareIs | internal/store/store.go:3520-3539 | IDs compare by the first number and then the second, and every ID is greater than `$` |
| Streams.RangedIs | internal/store/store.go:2085-2115 | a range holds exactly the entries from its start to its end, both included, in stream order |
| Streams.LaterIs | internal/store/store.go:2117-2137 | exactly the entries after the ID, in stream order |
| Streams.ChosenIs | internal/store/store.go:1988-2012 | the numbers of a generated ID for every clock reading, and exactly when a given ID is accepted |
| ConsumerGroups.HistoryRead | internal/store/store.go:2175-2214 | a read of the history replies exactly the entries of the stream that are pending for this consumer and have an ID greater than the one given, in stream order and once each; of more than `count`, the first |
| ConsumerGroups.NewRead | internal/store/store.go:2175-2214 | a read with `>` replies exactly the entries after the last one handed out, in stream order, the first `count` of them |
| ConsumerGroups.NamedOnceMore | internal/store/store.go:2175-2214 | naming the stream once more adds the beginning of what that name alone would reply: as much as `count` leaves room for, and one entry at least |
| ConsumerGroups.ClaimedIs | internal/store/store.go:2304-2350 | a claim returns exactly the named entries that are pending and old enough, in the order of the IDs |
| Resp.ReadsHeader | internal/resp/resp.go:144-150 | a header line may hold any numeral, not only the ones the writer prints; anything else is an error |
| Resp.ReadsCount | internal/resp/resp.go:42-82 | a count of zero ends the command, a negative one crashes the reader, and no number is an error |
| Resp.ReadsArgument | internal/resp/resp.go:42-82 | on bytes: an argument is a dollar sign, its length in decimal, a line end, that many bytes and a line end, and what follows is read as the rest of a command with one argument less |
| Resp.ReadsNoArgument | internal/resp/resp.go:42-82 | another first byte, or no line end after the bytes, is an error |
| Resp.ReadsNegativeLength | internal/resp/resp.go:42-82 | a negative length crashes the reader, except -1 at the end of the input |
| Resp.ReadsWords | internal/resp/resp.go:160-166 | a line that is no array is cut into words at white space, character by character |
| Resp.ReadsScalar | internal/resp/resp.go:84-142 | on bytes: which kind of value each first byte announces, and what it holds |
| Resp.ReadsItem | internal/resp/resp.go:84-142 | an array is its first item followed by what is read as an array with one item less |
| Resp.WritesBytes | internal/resp/resp.go:180-268 | the bytes of every kind of reply |
| Resp.ReadKnownBytes | internal/resp/resp.go:42-82 | a reader gets GET and a ten-byte argument from the bytes a client sends |
| Utf8.ScalarIsRune | internal/server/snapshot.go:11-37 | the encoding of every Unicode scalar value is recognised as one character |
| Utf8.RuneIsScalar | internal/server/snapshot.go:11-37 | and whatever is recognised is the encoding of one |
| Utf8.SpaceIs | internal/resp/resp.go:160-166 | the white space is that of Unicode, listed by code point |
| Json.CoerceByRune | internal/server/snapshot.go:11-37 | characters are kept, and each byte that starts none becomes the three bytes of U+FFFD |
| Json.ObjectIs | internal/server/snapshot.go:11-37 | every name is written; of names that become equal, the greatest decides the value |
| AofCodec.EscapesBytes | internal/server/aof.go:455-460 | escaping byte by byte, and what escaping and unescaping do to every position |
| AofCodec.SplitsAtTabs | internal/server/aof.go:462-472 | fields are what lies between tabs |
| AofCodec.HexIs | internal/server/aof.go:426-453 | checksums are read as hexadecimal digits, in either case |
| AofCodec.RecordShape | internal/server/aof.go:52-85 | a record is the escaped arguments between tabs, a tab, a hash sign and eight digits that are the checksum of all before |
| AofCodec.ChecksumDecides | internal/server/aof.go:426-453 | a line that ends in a checksum is taken exactly if it is that of what precedes it, and is corrupt otherwise |
| AofCodec.NoChecksum | internal/server/aof.go:426-453 | a line without one is taken as it is |
| AofCodec.ReadsLine | internal/server/aof.go:103-424 | records are read line by line, without a final carriage return; corrupt ones are skipped and the rest is read |
| Clusters.NoTagHashesAll | internal/server/cluster.go:366-373 | without a tag the whole key is hashed: no opening brace, none closed after it, or nothing between |
| Clusters.ShareOf | internal/server/cluster.go:375-385 | the slots of the j-th of n nodes, as numbers |
| Clusters.ChecksDecide | internal/server/cluster.go:154-185 | after a check the local node and those that answered are active, and no others |
| TimeSeriesStore.BetweenIs | internal/store/timeseries.go:44-59 | exactly the samples of a stretch of time, in order |
| TimeSeriesStore.AggregateIs | internal/store/timeseries.go:73-127 | each aggregate by what it is: the sum, the sum divided by the number, a bound that is reached, the number, the two ends |
| TimeSeriesStore.DownsampledAt | internal/store/timeseries.go:73-127 | there is a result at the start of a bucket exactly if it starts before the end and is not empty, and its value is the aggregate of the bucket |
| TimeSeriesStore.DownsampledOnly | internal/store/timeseries.go:73-127 | and there are results at no other times |
| SortedSets.ListedIs | internal/store/sortedset.go:75-82 | every member once with its score, by score and then by name |
| SortedSets.BandIs | internal/store/sortedset.go:100-120 | exactly the members whose score lies between the bounds, both included |
| SortedSets.LimitIs | internal/store/sortedset.go:100-120 | LIMIT position by position |
| SortedSets.PopsAre | internal/store/sortedset.go:151-168 | how many members a pop takes, and in which order a backward listing holds them |
| LamportClock.TickAddsOne | internal/server/multimaster.go:80-82 | a tick adds exactly one, or wraps, and returns what it stored |
| LamportClock.MergeTakesLarger | internal/server/multimaster.go:85-95 | an undisturbed merge leaves the larger of the two clocks |
| LamportClock.DisturbedMergeRetries | internal/server/multimaster.go:85-95 | a merge that finds the clock changed alters nothing and starts over |
| RateLimits.VerdictIs | internal/store/store.go:4201-4250 | the verdict, the rest of the budget and the two times in numbers, from the requests in the window |
| BlockingLists.WakeInOrder | internal/store/store.go:2526-2552 | waiters on the same end are handed the elements in the order in which they lie from that end, and the rest stays in order |
| BlockingLists.TookFirstMeans | internal/store/store.go:2476-2524 | the element is the first or the last of the first list that is not empty, and the list is shorter by it |
| ReliableQueue.SweepIs | internal/store/queue.go:251-269 | a message past its deadline is back in line or dead with one failure more, and one in time is still being processed |
| SetAlgebra.CombinedHas | internal/store/store.go:1482-1603 | the members of an intersection, a union and a difference |
| SetAlgebra.OperandIs | internal/store/store.go:1482-1603 | a missing or expired key is an empty operand, and only a key of another type is an error |
| Eviction.StringAdds | internal/store/store.go:4070-4110 | a string adds the lengths of key and value and 64 to the footprint |
| Eviction.ListAdds | internal/store/store.go:4070-4110 | a list adds the length of its key, 64, and 48 for every element |
| Eviction.SetAdds | internal/store/store.go:4070-4110 | so does a set |
| Eviction.ZSetAdds | internal/store/store.go:4070-4110 | a sorted set adds 64 for every member |
| Eviction.HllAdds | internal/store/store.go:4070-4110 | a HyperLogLog adds its 16384 registers |
| Eviction.HashAdds | internal/store/store.go:4070-4110 | each field of a hash adds the lengths of its name and value and 32 |
| Eviction.StreamAdds | internal/store/store.go:4070-4110 | each entry of a stream adds the length of its ID and 48, each field its length and 16 |
| CommandLaws.SeenUntil | internal/store/store.go:296-305 | a key is seen until its time of expiry and not at it |
| CommandLaws.OthersStay | internal/store/store.go:3261-3271 | keys that a mutator does not name look the same afterwards, at all times |
| CommandLaws.SetLaws | internal/store/store.go:356-373 | SET replaces anything, SETNX only what cannot be seen, SETXX only what can, each with its time of expiry |
| CommandLaws.IncrLaw | internal/store/store.go:587-609 | the number seen, or zero, plus the increment, wrapped to 64 bits, is replied and stored in decimal; other strings and types are errors that change nothing |
| CommandLaws.TextLaws | internal/store/store.go:1250-1264 | APPEND adds at the end, GETSET and GETDEL reply what was seen |
| CommandLaws.SetRangeLaw | internal/store/store.go:1320-1350 | byte by byte |
| CommandLaws.MSetNXLaw | internal/store/store.go:1390-1408 | all keys get their last value exactly if none was seen |
| CommandLaws.HSetLaw | internal/store/store.go:799-823 | each field gets its last value, the others stay, and the reply counts the new ones |
| CommandLaws.HDelLaw | internal/store/store.go:900-928 | exactly the named fields are gone, those that were there are counted, and an empty hash is no key |
| CommandLaws.FieldLaws | internal/store/store.go:930-955 | HINCRBY adds in a field, HSETNX sets a missing one |
| CommandLaws.PushLaw | internal/store/store.go:1065-1098 | the list seen afterwards, position by position |
| CommandLaws.PopLaw | internal/store/store.go:1100-1129 | what was seen is the element replied and the rest, in that order on the left and reversed on the right |
| CommandLaws.LMoveLaw | internal/store/store.go:996-1046 | one element leaves the named end of one list and is found at the named end of the other, which may be the same |
| CommandLaws.LSetLaw | internal/store/store.go:3603-3625 | the element at an index, a negative one counted from the end, is replaced |
| CommandLaws.LInsertLaw | internal/store/store.go:3629-3659 | the value is next to the first occurrence of the pivot, on the side asked for |
| CommandLaws.RemovedIs | internal/store/store.go:4693-4755 | so many occurrences are removed from the front, from the back, or all |
| CommandLaws.LRemLaw | internal/store/store.go:4693-4755 | the reply counts them, and an empty list is no key |
| CommandLaws.SAddLaw | internal/store/store.go:1131-1155 | the union is seen afterwards, and the new members are counted |
| CommandLaws.SRemLaw | internal/store/store.go:1157-1182 | the difference is seen afterwards, and the members that were there are counted |
| CommandLaws.SMoveLaw | internal/store/store.go:4758-4793 | the member leaves one set and is in the other |
| CommandLaws.ZAddLaw | internal/store/store.go:1605-1628 | each member gets its last score, the others keep theirs, and the new ones are counted |
| CommandLaws.ZRemLaw | internal/store/store.go:1647-1674 | the named members are gone and counted |
| CommandLaws.ZIncrByLaw | internal/store/store.go:4830-4852 | the score seen, or zero, plus the increment, rounded, is replied and stored |
| CommandLaws.ZPopLaw | internal/store/store.go:4855-4875 | the reply is the lowest members from below or the highest from above, as many as asked for, and exactly they are gone |
| CommandLaws.XAddLaw | internal/store/store.go:1988-2012 | the stream seen afterwards has one more entry, with the ID replied |
| CommandLaws.DelLaw | internal/store/store.go:561-576 | none of the keys is seen any more; those that were are counted once |
| CommandLaws.ExpiryLaws | internal/store/store.go:650-663 | EXPIRE and PERSIST change the time of a key that is seen, and never its value |
| CommandLaws.RenameLaw | internal/store/store.go:742-797 | value and time are found under the new name and not under the old |
| CommandLaws.CopyLaw | internal/store/store.go:1800-1863 | value and time are found under both names, unless a value in the way was not to be replaced |
| Wire.Incr | internal/server/server.go:856-877 | INCR replies and stores the number plus one, in decimal, wrapped to 64 bits; it is logged unless the string is no number |
| Wire.Decr | internal/server/server.go:920-936 | DECR replies and stores the number minus one |
| Wire.IncrementBy | internal/server/server.go:878-898 | INCRBY replies and stores the sum |
| Wire.DecrementBy | internal/server/server.go:899-919 | DECRBY replies and stores the difference |
| Wire.HDelete | internal/server/server.go:4421-4443 | HDEL removes exactly the named fields and counts them |
| Wire.HIncrement | internal/server/server.go:1057-1080 | HINCRBY adds to the number in a field |
| Wire.PushOn | internal/server/server.go:1104-1107 | LPUSH puts the values before the list, the last first; RPUSH after it, in order |
| Wire.PopFrom | internal/server/server.go:1108-1111 | LPOP replies and removes the first element, RPOP the last |
| Wire.SetElement | internal/server/server.go:1133-1152 | LSET replaces the element at an index, a negative one counted from the end |
| Wire.InsertNextTo | internal/server/server.go:1153-1188 | LINSERT puts the value before or after the first occurrence of the pivot |
| Wire.RemoveSome | internal/server/server.go:1189-1209 | LREM removes occurrences and counts them |
| Wire.AddMembers | internal/server/server.go:4565-4585 | SADD adds members and counts the new ones |
| Wire.RemoveMembers | internal/server/server.go:4587-4609 | SREM removes members and counts them |
| Wire.MoveMember | internal/server/server.go:1280-1302 | SMOVE takes the member from its first argument to its second |
| Wire.SetScores | internal/server/server.go:4611-4639 | ZADD sets scores and counts the new members |
| Wire.RemoveScores | internal/server/server.go:4688-4710 | ZREM removes members and counts them |
| Wire.DeleteKeys | internal/server/server.go:843-855 | DEL removes keys and counts them |
| Wire.RenameKey | internal/server/server.go:1594-1609 | RENAME moves the value from its first argument to its second |
| Wire.UpperIs | internal/server/server.go:700-720 | command names are compared with small letters as capitals |
| Wire.RecordForms | internal/server/server.go:818-842 | the records of SET, MSET and HSET, argument by argument |
| Wire.MSetIs | internal/server/server.go:818-842 | MSET gives every key its last value and touches no other |

## Left out

- Keys with an expiry time are outside the recovery theorem, because replay happens later than execution.
- Commands outside the recovery theorem: streams, queues, JSON, time series, HyperLogLog, tags, GEOADD, SETBIT, BITOP, INCRBYFLOAT, SORT with STORE, blocking pops (logged after the pop), evictions, HTTP writes.
- Numerals other than the canonical form: live execution parses them with strconv and replay with fmt.Sscan, which differ (a leading zero means octal to the latter); the predicate Recovery.Faithful states the assumption that printed integers and floats are read back unchanged.
- Infinite and undefined scores, which JSON cannot write.
- File errors, fsync policies, the scanner's line-length limit and the moment between snapshot rename and log truncation are not modelled.
- CRC32 is an arbitrary function, so that corrupted lines are detected is not stated.
- KeyStore.Store.PushList: nobody waits on the list here, so the length replied is that of the list with the new elements; BlockingLists.Lists.Push states the length that is left after a wakeup.
- KeyStore.Store: JSON documents, time series, HyperLogLogs, delayed visibility, tags, versions and change events are not part of the keyspace model; consumer groups are modelled on one stream, in ConsumerGroups.
- KeyStore.Store.ZPop: sorted sets are held as score maps and listed through the SortedSets class, so sharing of sorted-set objects between keys is not captured.
- ReliableQueue.Queue: messages are values moved between containers rather than shared objects.
- ConsumerGroups.Group.XReadGroup: one stream per command; several streams in one command are independent of each other, and BLOCK is a second read later.
- BlockingLists.Lists: edits inside a list (LSET, LINSERT, LREM), expiry and other types of keys are left to KeyStore; a client that stops listening and the removal of its registrations are two steps.
- Clusters.SameOwnersIffSameIds: stated for up to 16384 IDs, because with more only the greatest ID owns slots.
- Eviction.Store: JSON documents and time series, which the estimate does not count, are not modelled.
- RateLimits.Limiter: one key; deleting the key resets its limiter.
- Clusters: parsing of the peer list, the network probes and the CRC32 of keys are parameters.
- Resp.Reader: a length too large to allocate is not modelled.
- Streams, LamportClock: counters wrap at 64 bits as in the source; other integers are unbounded.
- SortedSets: NaN scores and RangeByLex; TimeSeriesStore: overflow of timestamps near the 64-bit limits, and rounding of sums.
- Replication, transactions, pub/sub, scripting other than the value printer, the HTTP interface, metrics, webhooks, audit, cron, schemas, namespaces and configuration.
