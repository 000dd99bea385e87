# game-im in Dafny

A model of the hard parts of game-im, a chat server for games, with proofs over
every run of the concurrent parts and every input of the sequential ones.

Two forms stand side by side.  Objects that change their fields are classes
whose methods are tied to specification functions.  Protocols that several
goroutines or nodes run at once are step systems: a `State`, a `Step`, what a
step does (`CanStep`, `Do`), and runs of any length over any number of threads,
nodes, connections or senders (`IsRun`).  What always holds is proved by
induction over runs; where an intended claim fails, a reachable run or a
concrete input shows it and the exact condition is proved.  Beside what always
holds it is proved that the systems get on: a reader catches up, a writer
finishes, a success is answered, a bind completes.

| file | models |
|---|---|
| `SeqAlloc.dfy` | message-id allocation: fast path, INCRBY, install, as separate steps |
| `SendPath.dfy` | `SendMsg` over the allocator and the dedup-and-rate script |
| `RateLimit.dfy` | what the rate limit guarantees over those runs |
| `RetryRuns.dfy` | runs in which a send succeeds although nothing of it was posted, and one that reaches the rate bound |
| `StoredPosts.dfy` | the send path, the write channels and batching writers of all nodes, and the store, in one system |
| `BroadcastRing.dfy` | the broadcast ring object and one undisturbed pass over it |
| `RingProtocol.dfy` | the ring with many producers and connections, step by step |
| `RingWaiting.dfy` | which of the wake-ups of waiting connections are lost |
| `RingReading.dfy` | when connections on it wait, and that they catch up |
| `Codec.dfy` | the frame format, byte by byte |
| `WriteLoop.dfy` | the write loop of a connection and what the client decodes |
| `MessageStore.dfy` | the message collection: first-wins inserts, reads in id order |
| `PullMsg.dfy` | the cache in front of it, pulling, paging |
| `AsyncWriter.dfy` | the batching writer |
| `ContentFilter.dfy` | the dirty-word filter and filter chains |
| `ConnRegistry.dfy` | the connection registry, whole handlers |
| `RegistryProtocol.dfy` | the connection registry, every map operation a step of its own |
| `AcceptLoop.dfy` | the connection limit under fine-grained steps |
| `LocalCache.dfy` | the 5-second caches of ban and availability |
| `Prelude.dfy` | `Option` and `Result` |

Modelling decisions:

- Redis and MongoDB are maps, lists and counters; each command, pipeline or
  script is one atomic step.  Redis keys are compared by the values they are
  built from.  Keys and cache entries expire by a clock that steps advance.
- Numbers are mathematical integers; int64 counters are taken not to overflow
  and not to be reset.  Frame fields are 32-bit, and longer varints are cut to
  32 bits as protobuf does.
- Errors of Redis, MongoDB and the ban and availability services are outcomes
  that a step or a parameter chooses, both with and without the command having
  taken effect.
- A posted message is recorded in one step for the cache write, the write
  channel and the delivery (internal/service/msg.go:137-166).

Where the code and its own words differ, the model follows the code:

- `Next` is said to return monotonically increasing numbers; it does on one
  node exactly as long as refills of a channel do not overlap
  (`OrderedWithoutOverlap`, `OverlapBreaksOrder`).
- `Get` on the ring is said to return nil for an overwritten position; it
  returns the newer data of the slot (`Ring.Get`, `WholePutsReadNewest`).
- The ring is said to have a single producer; `LocalBus.Publish` starts a
  goroutine per handler, so `RingProtocol` has many.  The comment on `LocalBus`
  says it dispatches synchronously; line 42 does not.
- `Wait` is said to block until there is data; `Put` broadcasts without the
  lock, so the wake-up is lost of exactly those Puts that are claimed after a
  connection's check and broadcast before its enrolment (`AsleepUnread`,
  `LostWakeup`).
- The dedup key is set even if the call is then rate limited, so a retry can be
  answered with success although nothing was posted; and it is built from the
  client message id alone, so a send can be answered with the message of another
  user or channel (`ReplyBackedIff`, `RateLimitedRetry`, `SharedClientId`).
- `BindUser` is said to kick the user's previous connection; two binds to one
  user that overlap kick neither, and a bind that overlaps or follows the close
  of its own connection leaves a closed connection in the index.  Other overlaps
  are harmless, also a reconnect in the middle of the old connection's close,
  because sync.Once makes the kick wait for it (`ExactWithoutClash`,
  `ClashBreaksIndex`).
- The cache keeps the newest messages of a pull that is cut, the store the
  oldest (`PullsAgreeIff`, `CutPullEndsPaging`).
- `marshalPush` is said to create wire bytes; it leaves out the length header
  (`PushReadsTooLarge`, `ClientDecodesAllIff`).

## Model

| member | source | states |
|---|---|---|
| `SeqAlloc.SeqAllocator.constructor` | internal/service/seqalloc.go:28-33 | A new allocator stands at 0 for every channel. |
| `SeqAlloc.SeqAllocator.Next` | internal/service/seqalloc.go:37-60 | Used by one caller, the batching allocator refines one INCR per call: each success is one more than the last number of its channel and other channels stay; it fails only when a refill was needed and failed, then a lost reply costs a whole batch and a refused one nothing. |
| `SeqAlloc.PoolsAfter` | internal/service/seqalloc.go:38-57 | A step creates no reserved numbers except the fresh batch of an INCRBY, which lies above the old counter, and moves them only by an install from the batch to its node. |
| `SeqAlloc.InvStep` | internal/service/seqalloc.go:37-60 | Every step keeps: reserved numbers have one owner and lie within the counter, issued ids are unique, within the counter and no longer reserved, and a fixed result belongs to one thread. |
| `SeqAlloc.HoldsAfter` | internal/service/seqalloc.go:38-59 | After a step a thread holds what it held before, or the step just issued it a number never issued before. |
| `SeqAlloc.InvAlways` | internal/service/seqalloc.go:37-60 | That invariant holds at every point of every run of any number of threads and nodes. |
| `SeqAlloc.IdsUnique` | internal/service/seqalloc.go:37-60 | In every interleaving no id is handed out twice for a channel by any node, and each is between 1 and the Redis counter, even when a late install overwrites a newer range. |
| `SeqAlloc.OrderStep` | internal/service/seqalloc.go:38-57 | While refills of a channel do not overlap on a node, a step keeps its ids increasing and everything it has reserved above them. |
| `SeqAlloc.OrderedWithoutOverlap` | internal/service/seqalloc.go:38-57 | In every run where refills of a channel never overlap on a node, the ids that node fixes for it strictly increase, whatever other nodes reserve. |
| `SeqAlloc.InstallStale` | internal/service/seqalloc.go:55-57 | Of two overlapping batches, installing the lower one and calling once more hands out an id smaller than one before it. |
| `SeqAlloc.OverlapBreaksOrder` | internal/service/seqalloc.go:46-57 | The converse: from any reachable state with two overlapping refills the run can be continued so that an id fixed by the continuation is smaller than one before it, whatever happened so far. |
| `SeqAlloc.BatchesWhole` | internal/service/seqalloc.go:38-57 | In every run where refills of a channel never overlap on a node, each batch of 1000 is handed out there number by number to its end before another is begun. |
| `SendPath.RedisStore.DedupAndRateCheck` | internal/store/redis.go:425-480 | A living dedup key answers with its id and nothing changes; otherwise the call is counted, is within the limit exactly when fewer calls than the limit were counted before, a newly counted key lives one second, and a non-empty client message id is remembered for 24 hours, rate limited or not. |
| `SendPath.AcceptedIff` | internal/service/msg.go:110-119 | A call is accepted exactly when its reply arrived and reads as no duplicate and within the limit of 100. |
| `SendPath.CheckLeadsTo` | internal/service/msg.go:110-137 | In every run a check whose reply arrives leads to a post exactly when no key of its client message id lives and fewer than 100 calls were counted, and to a success response with the key's id exactly when a key lives; otherwise the sender gives up. |
| `SendPath.IdStep` | internal/service/msg.go:103-118 | Every step of the send path keeps: each id handed out is with exactly one holder (a call of `Next`, a sender before its check, or a script call). |
| `SendPath.DedupStep` | internal/store/redis.go:433-450 | Every step keeps: each dedup key was created by the last fresh call with its client message id, two such calls are a key lifetime apart, and every duplicate repeats a call within its key's life. |
| `SendPath.PostStep` | internal/service/msg.go:110-168 | Every step keeps: posts and replies rest on accepted calls, each call is posted at most once, and no accepted call is lost. |
| `SendPath.Always` | internal/service/msg.go:103-168 | All of this holds at every point of every run. |
| `SendPath.LifeAnswers` | internal/store/redis.go:433-437 | Within one key's life every later call is answered with the id of the call that created the key. |
| `SendPath.OneMessagePerLife` | internal/service/msg.go:103-168 | For a non-empty client message id, of the script calls made during the life of its dedup key at most one leads to a post, the one that created the key, and every success response to them carries that call's id.  A message belongs to the life its call fell into: a sender that stalls after its call can post once the key has expired. |
| `SendPath.EveryReplyHasALife` | internal/service/msg.go:114-168 | Every success response for a non-empty client message id falls into the life of some dedup key. |
| `SendPath.PostsFarApart` | internal/service/msg.go:103-168 | Two messages posted with one non-empty client message id had their script calls at least 24 hours apart. |
| `SendPath.EmptyIdNeverDuplicate` | internal/store/redis.go:461-464 | A call without a client message id is never taken for a duplicate. |
| `SendPath.PostedIdsDistinct` | internal/service/msg.go:103-133 | No two posted messages share a channel and an id, whichever nodes sent them. |
| `SendPath.BacksIff` | internal/service/msg.go:110-137 | Of the calls in a key's life only the one that created the key can have a message posted or pending, and it has one exactly when it was within the rate limit and its reply arrived. |
| `SendPath.ReplyBackedIff` | internal/service/msg.go:110-137 | A success response in a key's life is backed by a message of its own user and channel, posted or pending in that life, exactly when the call that created the key was within the rate limit, had its reply arrive, and was by that user to that channel. |
| `SendPath.EverySuccessAnswered` | internal/service/msg.go:114-168 | In every run each posted message has a success response with its own id, or its sender is about to give it, and each duplicate whose reply arrived has the response with the first send's id. |
| `SendPath.PostsThenReplies` | internal/service/msg.go:137-168 | A sender past its checks needs only its own steps to post its message and respond with its id. |
| `RetryRuns.RetryUnbacked` | internal/store/redis.go:445-460 | From any reachable state, if the first of two checks with one client message id is not accepted, or is by another user or to another channel, the second is answered with success and no message of its own is posted or pending. |
| `RetryRuns.SendsInARow` | internal/service/msg.go:103-168 | From any reachable state as many sends of a user can be accepted within one instant as the living rate key leaves room for. |
| `RetryRuns.RateLimitedRetry` | internal/store/redis.go:445-448 | The rate-limited case is reachable: a run in which the first call was over the limit and its retry is answered with success with nothing posted. |
| `RetryRuns.SharedClientId` | internal/store/redis.go:457-460 | For any two different requests with one client message id there is a run in which one is accepted and the other answered with success, with nothing of its own posted or pending. |
| `RetryRuns.IntervalBoundReached` | internal/store/redis.go:439-443 | A run in which 199 of a user's calls pass within one second. |
| `RateLimit.ScriptFits` | internal/store/redis.go:439-443 | The count a fresh call gets is one more than the earlier calls that used the same rate key, its key is alive, and it does not overlap an older key of the user. |
| `RateLimit.RatedAlways` | internal/store/redis.go:433-450 | At every point of every run the calls made so far and the rate keys agree in this way. |
| `RateLimit.AllowedIff` | internal/store/redis.go:472-478 | A call is let through exactly when fewer than 100 earlier calls used the same rate key; answered duplicates are not among them. |
| `RateLimit.Pigeonhole` | internal/store/redis.go:440-443 | Calls with pairwise distinct counts above n and up to m are at most m - n. |
| `RateLimit.LimitPerKey` | internal/service/msg.go:114-119 | In every run at most 100 of a user's calls pass per rate-key lifetime. |
| `RateLimit.LimitPerInterval` | internal/service/msg.go:114-119 | In every run at most 199 of a user's calls pass in any half-open interval of one second, one less than twice the limit, because a key older than the interval was created by a call before it. |
| `StoredPosts.InvStep` | internal/service/msg.go:139-249 | Every step of the send paths and writers of all nodes keeps: what waits at a node is in post order and newer than what reached the store from there, every document is of a posted message and reaches the store at most once, and the store is the first-wins union of what reached it. |
| `StoredPosts.InvAlways` | internal/service/msg.go:139-249 | This holds at every point of every run. |
| `StoredPosts.PostsSurvive` | internal/store/mongo.go:141-155 | In every run of any number of nodes, a document handed to the store in an insert that succeeds is from then on in the store, unchanged, under its own key. |
| `StoredPosts.OnlyPostsStored` | internal/service/msg.go:146-158 | Every document in the store was made for a posted message, with its channel and id, and reached the store once. |
| `StoredPosts.PostQueued` | internal/service/msg.go:146-161 | The document of a post is queued at its node exactly if fewer than 4096 are. |
| `StoredPosts.WriterFinishes` | internal/service/msg.go:234-248 | From any state the steps of a node's writer bring everything that waits there to the store, in order. |
| `BroadcastRing.MaskIsRemainder` | internal/gateway/ringbuf.go:20-21 | For a power of two, masking with one less is the remainder. |
| `BroadcastRing.Slots` | internal/gateway/ringbuf.go:41-56 | Positions less than one lap apart use different slots, a lap apart the same one. |
| `BroadcastRing.StoreNext` | internal/gateway/ringbuf.go:42-43 | Storing the next position's data in its slot moves the lap that the slots hold on by one. |
| `BroadcastRing.Ring.constructor` | internal/gateway/ringbuf.go:27-38 | The size is rounded up to the least power of two, at least 1, and the ring is empty. |
| `BroadcastRing.Ring.Put` | internal/gateway/ringbuf.go:41-45 | As one step, the log of everything put grows by the data, and the slots hold the last lap of it. |
| `BroadcastRing.Ring.Get` | internal/gateway/ringbuf.go:54-56 | A position at most one lap old gives exactly its data; an older one gives the newest data of its slot, never nil. |
| `BroadcastRing.OfferAllKeepsPrefix` | internal/gateway/conn.go:190-194 | Offering to the push queue drops only what does not fit, from the end. |
| `BroadcastRing.Consumer.constructor` | internal/gateway/conn.go:54-57 | A new connection starts at the write position. |
| `BroadcastRing.Consumer.Deliver` | internal/gateway/conn.go:185-195 | The entries of a range that is at most a lap old are offered in order. |
| `BroadcastRing.Consumer.Pass` | internal/gateway/conn.go:157-196 | An undisturbed pass offers exactly the unread entries of the last lap, in order, and catches up. |
| `RingProtocol.WindowStep` | internal/gateway/ringbuf.go:41-45 | Every step of a run without lapped producers keeps the last lap of slots right. |
| `RingProtocol.WindowAlways` | internal/gateway/ringbuf.go:41-56 | With many producers and claim and store apart, while none is lapped before it stores, each position of the last lap has in its slot its own data or, while its store is outstanding, what the slot held a lap before (nothing on the first lap). |
| `RingProtocol.LappingBreaksWindow` | internal/gateway/ringbuf.go:41-45 | The condition is exact: the first claim that laps an outstanding store breaks that, unless the lapped slot already held equal data. |
| `RingProtocol.ConsumersAlways` | internal/gateway/conn.go:149-198 | In every run a connection reads strictly increasing positions, everything from its start to where it stands was read or was more than a lap old when a pass began, its cursor never passes the write position, and Wait has returned only if there is something to read. |
| `RingProtocol.CursorsOnlyAdvance` | internal/gateway/conn.go:196 | No step moves a cursor back or takes back a read. |
| `RingReading.JoinedAt` | internal/gateway/conn.go:54-57 | A connection only ever reads what was put after it joined. |
| `RingReading.WaitsOnlyCaughtUp` | internal/gateway/conn.go:157-175 | In every run a connection waits only if at its last load its cursor was at the write position, and has done nothing but wait since. |
| `RingReading.CatchesUp` | internal/gateway/conn.go:157-196 | From any reachable state a connection with unread data can catch up by its own steps: it then has read, in order, exactly the positions from its cursor, or from one lap behind the write position if that is later, to the write position, and its cursor is there. |
| `RingReading.WakesToRead` | internal/gateway/ringbuf.go:62-65 | A connection that checks while there is unread data leaves Wait, and can catch up. |
| `RingProtocol.ReadsAlways` | internal/gateway/ringbuf.go:41-56 | While no producer is lapped, every read at most one lap behind the writer gave that Put's data if it was stored, else the previous lap's. |
| `RingProtocol.OnlyJustClaimed` | internal/gateway/ringbuf.go:41-45 | With Put as one step, only the position claimed by the last step can be unstored, so no producer is ever lapped. |
| `RingProtocol.WholePutsReadExactly` | internal/gateway/conn.go:185-195 | With Put as one step, every read at most one lap behind the writer returned exactly that Put's data. |
| `RingProtocol.WholePutsReadNewest` | internal/gateway/ringbuf.go:52-56 | With Put as one step, a read at any distance gave the newest data written to its slot at that moment. |
| `RingWaiting.WaitAlways` | internal/gateway/ringbuf.go:41-66 | In every run each claimed position is either unfinished or announced, and a sleeping connection enrolled after exactly the broadcasts made so far. |
| `RingWaiting.SleepsSinceSome` | internal/gateway/ringbuf.go:60-66 | Every sleeping connection has a last check, an enrolment after it, and nothing else of its own since. |
| `RingWaiting.AsleepUnread` | internal/gateway/ringbuf.go:41-66 | Of a sleeping connection's unread Puts, exactly those claimed after its check and broadcast before its enrolment have no broadcast to come. |
| `RingWaiting.BroadcastWakes` | internal/gateway/ringbuf.go:44 | Nothing is broadcast while a connection sleeps: any broadcast wakes it. |
| `RingWaiting.NoWakeupLost` | internal/gateway/ringbuf.go:60-66 | If nothing is broadcast between a connection's check and its enrolment, every unread Put still has a broadcast to come. |
| `RingWaiting.LostWakeup` | internal/gateway/ringbuf.go:41-66 | The converse: wherever a run leaves a connection between its check and its enrolment, it can be continued, with any data, to one that leaves the connection asleep with that data unread and no broadcast to come. |
| `RingWaiting.ChecksInVain` | internal/gateway/ringbuf.go:62-63 | Any connection with nothing to read can get between its check and its enrolment. |
| `Codec.VarintRoundTrip` | api/proto/gateway.proto:7-11 | A number that fits reads back from its varint, followed by any bytes, consuming exactly its own. |
| `Codec.CutVarintRefused` | internal/gateway/codec.go:81-84 | A varint that stops short is refused. |
| `Codec.WideScalarCut` | internal/gateway/codec.go:81 | Of a scalar wider than 32 bits the low 32 bits count. |
| `Codec.CutPayloadRefused` | internal/gateway/codec.go:81-84 | A payload that stops short of its length is refused. |
| `Codec.BadTagRefused` | internal/gateway/codec.go:81-84 | Field number 0, an end of group outside a group, and wire types that do not exist are refused. |
| `Codec.ReadsMarshal` | internal/gateway/codec.go:80-81 | Reading a marshalled frame, with anything behind it, merges it into what was read before. |
| `Codec.MarshalRoundTrip` | internal/gateway/codec.go:80-83 | Unmarshalling the marshalled frame gives it back. |
| `Codec.ConcatMerges` | internal/gateway/codec.go:81 | Two marshalled frames in a row read as the second merged into the first. |
| `Codec.ForeignFieldsIgnored` | internal/gateway/codec.go:81 | Fields that Frame does not have, of any wire type and with groups nested to the limit, before or behind a frame's own, do not disturb it. |
| `Codec.MarshalSize` | internal/gateway/codec.go:31 | A frame is at least as long as its payload and at most 16 bytes longer. |
| `Codec.MarshalEmptyIff` | internal/gateway/codec.go:60-62 | Only the all-default frame marshals to nothing. |
| `Codec.BigEndianRoundTrip` | internal/gateway/codec.go:56 | The 4-byte header gives the length back. |
| `Codec.PacketIff` | internal/gateway/codec.go:101-103 | Exactly the frames whose body is at most 65536 bytes have a packet, in particular all with a payload of at most 65520 and none with one above 65536. |
| `Codec.PacketHeader` | internal/gateway/codec.go:105-107 | The header of a packet is the number of bytes that follow it, most significant byte first. |
| `Codec.PacketRoundTripIff` | internal/gateway/codec.go:49-109 | Every frame with a body of at most 65536 bytes has a packet, and followed by any bytes it decodes to the frame and consumes exactly its own bytes if and only if the frame is not the all-default one, which is refused as empty. |
| `Codec.ReadsCarried` | internal/gateway/codec.go:49-88 | A readable packet at the front of a stream adds its frame to what the rest decodes to. |
| `Codec.StreamRoundTrip` | internal/gateway/codec.go:49-109 | Any concatenation of packets decodes to the same list of frames, then goes on with what follows. |
| `Codec.PutUint32` | internal/gateway/codec.go:37 | The header is filled in place, the rest of the buffer stays. |
| `Codec.EncodeRaw` | internal/gateway/codec.go:91-109 | The buffer built in place is the packet of the frame, with a header that says its length; a payload of at most 65520 bytes is always encoded and one above 65536 never. |
| `Codec.Stream.Encode` | internal/gateway/codec.go:26-46 | The two writes append the same bytes as EncodeRaw, or nothing when the body is too large; a payload of at most 65520 bytes is always written and one above 65536 never. |
| `Codec.Stream.ReadFull` | internal/gateway/codec.go:52 | Takes the wanted bytes off the stream, or all of them at its end. |
| `Codec.Stream.Decode` | internal/gateway/codec.go:49-88 | Takes one packet off the stream, consuming exactly header and body; fewer than 4 bytes, a length above 65536, a length of 0 and a short body each have their own error, exactly then. |
| `WriteLoop.MergeStep` | internal/gateway/conn.go:206-248 | Every step keeps: what was taken from a queue followed by what is queued is what was accepted, and buffer and wire are whole items. |
| `WriteLoop.BatchStep` | internal/gateway/conn.go:224-244 | Every step keeps the shape of batches. |
| `WriteLoop.MergeAlways` | internal/gateway/conn.go:202-250 | At every point of every run the bytes written are whole items, each queue in order and each item once, and every batch has its responses before its pushes apart from the first item, with at most 256 pushes after it. |
| `WriteLoop.PushesPerBatch` | internal/gateway/conn.go:236-243 | A batch carries at most 257 pushes. |
| `WriteLoop.ResponsesFirst` | internal/gateway/conn.go:224-243 | In every run, when pushes are taken or a batch is written, the response queue was found empty before that in the same batch: every response accepted up to then was taken first, and only pushes followed. |
| `WriteLoop.Queued` | internal/gateway/conn.go:72-89 | A response is queued exactly if fewer than 64 are, a push exactly if its queue has room. |
| `WriteLoop.WritesBatch` | internal/gateway/conn.go:206-248 | From any state in which the loop is blocked and a queue is not empty, its own steps write an item of the queue that select picks, then every queued response, then up to 256 pushes, in order. |
| `WriteLoop.ClientDecodesMerge` | internal/gateway/conn.go:202-250 | If every item written is the packet of a frame other than the all-default one, the client decodes exactly the frames of the merge. |
| `WriteLoop.PushReadsTooLarge` | internal/delivery/engine.go:132-145 | Read as a packet, every marshalPush buffer announces a body of 144776986 bytes, which is refused. |
| `WriteLoop.ClientStops` | internal/gateway/conn.go:246 | The client decodes the packets before the first item it cannot read and stops there, whatever is written after. |
| `WriteLoop.ClientDecodesAllIff` | internal/delivery/engine.go:132-145 | For any mix of EncodeRaw packets and marshalPush buffers the client decodes the frames up to the first all-default frame or unframed push, and the whole merge exactly when there is none. |
| `WriteLoop.Conn.constructor` | internal/gateway/conn.go:45-46 | Both queues start empty. |
| `WriteLoop.Conn.Send` | internal/gateway/conn.go:72-79 | A push is appended if there is room and dropped otherwise. |
| `WriteLoop.Conn.SendResp` | internal/gateway/conn.go:82-89 | A response is appended if there is room and dropped otherwise. |
| `WriteLoop.Conn.WriteBatch` | internal/gateway/conn.go:207-248 | One undisturbed iteration writes the first item, then all responses, then up to 256 pushes, and leaves the other pushes queued. |
| `MessageStore.InsertKeys` | internal/store/mongo.go:149-153 | After an insert the keys are the old ones and those of the batch, and old documents stay. |
| `MessageStore.InsertAppend` | internal/store/mongo.go:141-155 | Two inserts in a row are one insert of both batches. |
| `MessageStore.FirstWins` | internal/store/mongo.go:149-153 | Of the new documents with one key the first is stored. |
| `MessageStore.SortedSound` | internal/store/mongo.go:163 | Sorting lists a set's elements strictly ascending, each once. |
| `MessageStore.SortedUnique` | internal/store/mongo.go:163 | An ascending sequence is determined by its elements. |
| `MessageStore.AllNewerSound` | internal/store/mongo.go:157-177 | A query without limit lists exactly the stored documents of the channel after the given id, in ascending order. |
| `PullMsg.GetMsgCache` | internal/store/redis.go:306-331 | The backward walk over the list gives the newest `limit` readable messages after the id, oldest first. |
| `PullMsg.PullLimit` | internal/service/msg.go:172-174 | A limit from 1 to 50 is kept, any other becomes 50. |
| `PullMsg.Rebuild` | internal/service/msg.go:191-206 | The loop rebuilds the messages of the documents in order, with every stored field. |
| `PullMsg.Pull` | internal/service/msg.go:171-208 | The cache's answer if it is not empty, else the store's, also when the cache failed; an error only when the store fails; at most as many messages as asked for, or 50, all newer than the given id. |
| `PullMsg.CorruptSkipped` | internal/store/redis.go:318-321 | Cache entries that do not unmarshal make no difference. |
| `PullMsg.PulledFromCache` | internal/service/msg.go:171-183 | With messages stored and cached in id order, a pull returns exactly the newest of the newer ones, as many as asked for or all if they are fewer. |
| `PullMsg.PulledFromStore` | internal/service/msg.go:185-207 | With the cache empty or failing it returns exactly the oldest of them, as many. |
| `PullMsg.CacheHolds` | internal/store/redis.go:494-498 | Pushing and trimming leaves the newest 200 messages, newest first. |
| `PullMsg.ReadsSuffix` | internal/store/redis.go:315-325 | A newest-first list of the end of a channel yields its newer messages, oldest first. |
| `PullMsg.CacheGivesNewest` | internal/store/redis.go:327-329 | A cache read gives the newest `limit` of the newer messages. |
| `PullMsg.StoreGivesOldest` | internal/store/mongo.go:162-164 | A store read gives the oldest `limit` of the newer messages. |
| `PullMsg.PullsAgreeIff` | internal/service/msg.go:176-207 | With messages cached in id order, all stored and the cache alive, a cache pull and a store pull agree on the stored fields exactly when no more messages are newer than the limit allows. |
| `PullMsg.StoredFieldsSurvive` | internal/service/msg.go:191-206 | A message rebuilt from a document carries every stored field. |
| `PullMsg.StoredMessageBack` | internal/service/msg.go:147-206 | Storing a message and rebuilding it keeps id, channel, content, types, parameters, time and the sender's id and name. |
| `PullMsg.CutPullEndsPaging` | internal/service/msg.go:176-207 | After a cache pull that was cut, a client going on from its last id is offered nothing more by cache or store, so the older newer messages never reach it. |
| `PullMsg.PageAdvances` | internal/store/mongo.go:157-177 | A page is the front of what is left, and going on from its last id leaves exactly the rest. |
| `PullMsg.GoOn` | internal/store/mongo.go:157-177 | Going on after the first newer messages leaves exactly the rest. |
| `PullMsg.PagingComplete` | internal/service/msg.go:186-207 | Paging through a fixed store returns every later message exactly once in ascending order and ends after the number of messages divided by the limit, rounded up. |
| `AsyncWriter.FlushConserves` | internal/service/msg.go:222-232 | A flush, whatever its outcome, moves the batch behind what was flushed and loses nothing else. |
| `AsyncWriter.Writer.constructor` | internal/service/msg.go:74-77 | The writer starts with nothing accepted and nothing flushed. |
| `AsyncWriter.Writer.Offer` | internal/service/msg.go:146-161 | A document is accepted if fewer than 4096 are queued and dropped otherwise. |
| `AsyncWriter.Writer.FlushBatch` | internal/service/msg.go:222-232 | The whole batch becomes one flush, an empty one none; accepted documents are still flushed, batched or queued, in order. |
| `AsyncWriter.Writer.TakeOne` | internal/service/msg.go:236-244 | One document moves from the channel to the batch; the 64th flushes it. |
| `AsyncWriter.Writer.Handle` | internal/service/msg.go:235-247 | One event adds to what was accepted and flushed what the event says, and ends the writer only when the channel is closed and drained. |
| `AsyncWriter.Writer.Run` | internal/service/msg.go:234-248 | Over any events: what was accepted and flushed is what the events say one after the other; accepted documents equal flushed batches, batch and channel joined in order; each flush has 1 to 64; the store is the first-wins union of what reached it; after close everything accepted has been flushed. |
| `AsyncWriter.TickFlushes` | internal/service/msg.go:245-246 | The ticker hands over whatever is in the batch, however little. |
| `AsyncWriter.AllHandedOver` | internal/service/msg.go:234-248 | After as many receives as documents are queued and one tick, everything queued or batched has been handed over, in order. |
| `AsyncWriter.PickedExactly` | internal/store/mongo.go:149-153 | A failed unordered insert stores exactly the documents at some positions of the batch. |
| `AsyncWriter.StoreIsFirstWins` | internal/store/mongo.go:141-155 | If every flush succeeded, the store holds exactly the keys flushed, each with its first document. |
| `AsyncWriter.NothingShadowed` | internal/store/mongo.go:149-153 | With distinct keys no flushed document loses its place. |
| `ContentFilter.IndexFrom` | internal/service/filter.go:70 | Finds the leftmost match, and none only if there is none. |
| `ContentFilter.ReadsIff` | internal/service/filter.go:46-66 | A lower-cased word is found in the lower-cased text exactly where the word can be read letter for letter in any case, letters being told by their codes. |
| `ContentFilter.FindsOccurrence` | internal/service/filter.go:65-70 | Searching the lower-cased text finds the leftmost occurrence in any case. |
| `ContentFilter.ReplaceIgnoreCase` | internal/service/filter.go:64-80 | Jumping from match to match gives what a character-by-character scan that replaces at every match gives. |
| `ContentFilter.ScanAdvancesIff` | internal/service/filter.go:69-77 | The loop moves on from a match exactly when the word is not empty; an empty word matches where it stands for ever. |
| `ContentFilter.MaskedStars` | internal/service/filter.go:56-57 | Masking keeps the length and changes a character only to a star under an occurrence of the word. |
| `ContentFilter.MaskedFree` | internal/service/filter.go:56-57 | The masked text contains the word nowhere, in any case. |
| `ContentFilter.DirtyWordFilter.constructor` | internal/service/filter.go:43-49 | The words are kept lower-cased. |
| `ContentFilter.DirtyWordFilter.Check` | internal/service/filter.go:51-62 | The guarded loop gives the text with the listed words masked one after the other, in which no listed word can be read in any case if none contains a star. |
| `ContentFilter.FilteredStars` | internal/service/filter.go:51-62 | Whatever the non-empty words, the length is kept and a character changes only to a star. |
| `ContentFilter.OnlyListedStarred` | internal/service/filter.go:51-62 | If no word but perhaps the first contains a star, the length is kept and a character changes only to a star and only where a listed word lay over it in the original. |
| `ContentFilter.NoListedWordLeft` | internal/service/filter.go:51-62 | No listed word can be read anywhere in the filtered text, in any case. |
| `ContentFilter.CleanUnchanged` | internal/service/filter.go:51-62 | Text without listed words passes unchanged. |
| `ContentFilter.Idempotent` | internal/service/filter.go:51-62 | A second pass changes nothing. |
| `ContentFilter.CaseBlind` | internal/service/filter.go:51-66 | Texts that differ only in the case of letters are starred at the same positions. |
| `ContentFilter.ListCaseBlind` | internal/service/filter.go:43-49 | Lists that differ only in the case of letters filter alike. |
| `ContentFilter.StarInLaterWord` | internal/service/filter.go:54-60 | With a star in a later word a character can be starred that no listed word lay over. |
| `ContentFilter.StarInFirstWord` | internal/service/filter.go:54-60 | With a star in the only word the filtered text can contain the word again, and a second pass can change it. |
| `ContentFilter.CheckChain` | internal/service/filter.go:25-36 | The loop over the filters passes each one's replacement on and stops at the first rejection. |
| `ContentFilter.ChainRejects` | internal/service/filter.go:26-30 | The first filter that rejects what the ones before it left gives the answer. |
| `ContentFilter.ChainPasses` | internal/service/filter.go:31-35 | If none rejects, the answer is what the last one left. |
| `ContentFilter.FilteredConcat` | internal/service/filter.go:25-62 | Filtering by one list and then another is filtering by the joined list. |
| `ContentFilter.ChainOfTwo` | internal/service/filter.go:25-36 | A chain of two word filters is one word filter on the joined list. |
| `ConnRegistry.ConnManager.constructor` | internal/gateway/conn_manager.go:18-23 | The registry starts empty with count 0. |
| `ConnRegistry.ConnManager.RegisterConn` | internal/gateway/conn_manager.go:26-30 | Adds the connection and counts it; indexes and counter stay in agreement. |
| `ConnRegistry.ConnManager.UnregisterConn` | internal/gateway/conn_manager.go:33-40 | Removes the connection, deletes the index entry of its uid whoever holds it, and counts down. |
| `ConnRegistry.ConnManager.CloseConn` | internal/gateway/conn.go:266-272 | Unregisters the connection, the first time only; afterwards it is not registered, and indexes and counter stay in agreement. |
| `ConnRegistry.ConnManager.BindUser` | internal/gateway/conn_manager.go:43-53 | Closes the user's previous connection if it is another one and takes its place; afterwards the connection is the user's only open one, and indexes and counter stay in agreement. |
| `ConnRegistry.ConnManager.GetByUid` | internal/gateway/conn_manager.go:56-62 | While the indexes agree, finds exactly the open connection bound to the user. |
| `ConnRegistry.CloseKeeps` | internal/gateway/conn.go:266-272 | Closing a connection, open or closed, keeps indexes and counter in agreement. |
| `ConnRegistry.BindKeeps` | internal/gateway/conn_manager.go:43-53 | A bind of an open connection that has no other uid keeps them in agreement, kick included. |
| `ConnRegistry.Agree` | internal/gateway/conn_manager.go:26-53 | In every run of whole handlers the uid index is exactly the open authenticated connections, at most one per uid, and count is the number of registered connections. |
| `ConnRegistry.OnePerUser` | internal/gateway/conn_manager.go:43-62 | In every run a user has at most one open connection, the one the index gives. |
| `ConnRegistry.BindExactIff` | internal/gateway/conn_manager.go:33-53 | From agreement, a bind of a positive uid keeps the index exact if and only if the connection is registered and not bound to another uid. |
| `RegistryProtocol.BasicAlways` | internal/gateway/conn_manager.go:26-53 | In every interleaving: registered means made and not yet out of the map, a connection keeps one uid and its close drops that one, and the counter is the map's size plus the closes past it. |
| `RegistryProtocol.InvStep` | internal/gateway/conn_manager.go:33-53 | For each user every step, except a store while binds clash, keeps: a connection that has not dropped the user's entry yet has it, was taken from it by a bind that waits for its close, or is about to store it. |
| `RegistryProtocol.ExactWithoutClash` | internal/gateway/conn_manager.go:33-53 | For each user, in every interleaving of single operations in which binds to the user overlap neither each other nor the close of their own connection, the index has exactly the user's open connection whenever nothing of the user's is under way; closes may overlap everything else. |
| `RegistryProtocol.AgreeAtRest` | internal/gateway/conn_manager.go:26-53 | In runs without clashes indexes and counter agree at rest, as after whole handlers. |
| `RegistryProtocol.FirstClash` | internal/gateway/conn_manager.go:43-53 | The first clash of a run is a second bind, just begun, to the user of a bind in progress, or a bind whose own connection has begun to close. |
| `RegistryProtocol.ClashBreaksIndex` | internal/gateway/conn_manager.go:33-53 | The condition is exact: from the first clash of any run, for any user, the run can be continued to a state with nothing of the user's under way in which the index is wrong for the user. |
| `RegistryProtocol.BindCompletes` | internal/gateway/conn_manager.go:43-53 | Without a clash any bind in progress can be brought to its end, and then its connection, open, has the user's entry. |
| `RegistryProtocol.CloseCompletes` | internal/gateway/conn.go:266-272 | Any close can be brought to its end; the connection is then registered no more, and has no entry left if it was registered. |
| `RegistryProtocol.OverlappingBinds` | internal/gateway/conn_manager.go:43-53 | Clashes happen: for any user and two connections there is a run that ends with a wrong index. |
| `RegistryProtocol.ReconnectDuringClose` | internal/gateway/conn_manager.go:34-50 | A reconnect in the middle of the old connection's close is not a clash: a run in which the bind has taken the entry that the close is about to drop. |
| `AcceptLoop.InvStep` | internal/gateway/server.go:56-75 | Every single atomic step keeps: the counter is behind the map by an entering connection and ahead of it by those leaving, and within the limit. |
| `AcceptLoop.LimitHolds` | internal/gateway/server.go:66-73 | In every run with one accept loop, neither the counter nor the number of registered connections exceeds MaxConnections. |
| `AcceptLoop.CountAtRest` | internal/gateway/conn_manager.go:26-38 | When no register or unregister is under way the counter is the number of registered connections. |
| `AcceptLoop.AdmittedIff` | internal/gateway/server.go:66-73 | A connection that arrives is registered and counted exactly when the counter is below the limit; otherwise nothing changes. |
| `AcceptLoop.FullIff` | internal/gateway/server.go:66-70 | At rest a connection is turned away exactly when as many as the limit are registered. |
| `LocalCache.Cache.constructor` | internal/service/cache.go:22-27 | A new cache is empty. |
| `LocalCache.Cache.Get` | internal/service/cache.go:29-37 | Gives an entry up to and including its expiry time. |
| `LocalCache.Cache.Set` | internal/service/cache.go:39-43 | From then on the key answers with the value for exactly five seconds. |
| `LocalCache.Cache.Delete` | internal/service/cache.go:45-49 | The key answers no more, at any time; other keys are untouched. |
| `LocalCache.Cache.Check` | internal/service/msg.go:252-277 | The cached answer if alive, else the store's, which is cached; a failed read gives the fail-open answer and caches nothing. |
| `LocalCache.TracedAlways` | internal/service/msg.go:252-277 | At every point of every run each entry and each read in progress was held by the store at an instant no older than its age allows. |
| `LocalCache.AnswersFresh` | internal/service/msg.go:252-277 | Every error-free answer equals what the store held at some instant within the last five seconds plus the longest time from a store read to its cache write. |
| `LocalCache.BoundReached` | internal/service/msg.go:252-263 | That bound is reached for every delay: there is a run whose last answer the store held at no later instant. |
| `LocalCache.AnswersFiveSeconds` | internal/service/cache.go:29-43 | Counting a store read and its cache write as one instant, within the last five seconds. |

## Left out

- SeqAlloc.SeqAllocator.Next: describes one caller on the only node using the counters; other callers and nodes are covered by the step system.
- BroadcastRing.Consumer.Pass: describes a pass during which nothing is put; interleaved passes are covered by RingProtocol.
- ConnRegistry.OnePerUser: describes whole handlers; interleavings are covered by RegistryProtocol.
- RegistryProtocol.ExactWithoutClash: connections that authenticate for a second, different user are excluded by the steps; what such a bind does undisturbed is in ConnRegistry.BindExactIff.
- RingWaiting.AsleepUnread: does not model the lock inside `Wait`, which never excludes `Put`.
- ContentFilter.StarInLaterWord: shows that lists with starred words can fail; which of those lists still work is not characterised beyond OnlyListedStarred.
- ContentFilter.DirtyWordFilter.Check: covers the calls that end; an empty listed word with non-empty text never ends, as ScanAdvancesIff states.
- ContentFilter: non-ASCII text, where lower-casing can move byte offsets.
- WriteLoop.Conn.WriteBatch: describes an iteration during which nothing is enqueued; the others are covered by the step system.
- WriteLoop.MergeAlways: leaves out socket write failures, which end the loop, and drainAndClose, whose writes follow the close of the socket.
- RingProtocol: what the push queue drops is in BroadcastRing and WriteLoop only.
- Message length, content filter, ban and availability checks of SendMsg before the id is allocated: they only reject earlier, and the filter and the caches have modules of their own.
- Expiry of the message cache and failures of its asynchronous write: the comparison of cache and store is for a live cache pushed in id order.
- The created_at field of stored documents, which no read returns.
- JSON, pipelines, drivers and connections of Redis and MongoDB, sockets, deadlines, buffer pool and logging.
- Protobuf of the inner messages: payloads are byte strings.
- Authentication, dispatcher, heartbeat, presence, ban and channel services, offline messages: single-branch routing or wrappers of store calls.
- LocalBus subscriptions and Engine.Deliver routing: easy list facts.
- Configuration, wiring, load generator and deployment files.
