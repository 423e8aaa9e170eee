# gomq: a verified model of the broker's core

gomq is an AMQP 0-9-1 message broker written in Go. This project models the parts of it where
correctness is hard to see from one function and proves what they promise, over every input, every
interleaving or every run.

| file | models |
|---|---|
| `RaftNode.dfy`, `RaftCluster.dfy` | Raft elections and log replication |
| `ElectionRounds.dfy`, `PromotionGap.dfy`, `CommitGap.dfy` | runs with chosen elections, and what the code leaves open in Raft |
| `Paths.dfy`, `ExchangeGraph.dfy` | exchange-to-exchange bindings and the cycle guard |
| `Topic.dfy`, `Routing.dfy`, `Publisher.dfy` | topic matching, routing, publishing with overflow and dead-lettering |
| `Wire.dfy`, `Tables.dfy`, `Frames.dfy` | the AMQP table codec and the two frame readers |
| `Pipeline.dfy` | the concurrent publish pipeline |
| `Messages.dfy`, `PriorityQueue.dfy`, `MessageStore.dfy` | the message store and priority insertion |
| `Sums.dfy`, `Delivery.dfy` | pull delivery, acknowledgement and requeueing |
| `PageFormat.dfy`, `Paging.dfy` | queue overflow to page files |
| `Consumers.dfy`, `RoundRobin.dfy`, `RateLimiter.dfy` | consumer indexes, round-robin selection, the token bucket |

Objects whose methods update their fields are classes, and each method is proved against a function
of the old state; what the source promises is then proved about those functions, as theorems over
whole runs. Concurrent parts are state machines: one action per lock-held block or atomic operation,
in any order. Clocks, the file system, expiry checks and the iteration order of Go maps are inputs
that may take any value.

## Assumptions

- Raft: fixed membership, every node's peers are all the others, no node has an empty name, no
  restarts. Requests may be delayed, reordered, repeated and lost. `RaftCluster` takes the check of
  an election's result and the promotion to leader as one action although the code releases the lock
  in between (internal/cluster/raft_node.go:145). `PromotionGap` takes them apart, with any number of
  elections between the two at once: a late promotion is the same step as the joined one if and only
  if the winner's term is still the one it won or it leads already (`LatePromotionIff`), and a run
  whose promotions are all like that ends as a run of the joined model does (`TimelyRunJoins`,
  `TimelyElectionSafety`). Otherwise a term can get two leaders, in clusters of any size
  (`PromotionOutOfTerm`).
- Consumers: the group manager is installed first, and groups change only through it.
- Each method that holds one mutex throughout is atomic. Enqueueing with paging and fetching take
  several locks in turn; runs of `Paging` and `Delivery` are sequences of whole calls.
- The bind handler locks once for the cycle check and again for the bind. `HandleBind` and the runs of
  `RunsKeepAcyclic` are sequential, one whole request after the other; `InterleavedAcyclicIff` is
  about handlers that interleave.

## Where the code does less than it may seem to promise

- A table round trip loses nanoseconds of times and fractions of floats; it returns the same table
  exactly when there are none (`Tables.TableRoundTrip`).
- The peeking reader sees a frame only if it fits the buffer of its reader. The connection's buffer
  holds 4096 bytes while its frame limit is 131072, so payloads above 4088 bytes that the other
  reader accepts are refused (`Frames.ConnectionReads`).
- A page drops everything of a message but payload, content type, tag and time, and a time outside
  the range of 64-bit nanoseconds, such as that of a message never stamped, comes back as another
  (`PageFormat.KeptIff`). A page cut short at the start of a field loses its last message without an
  error (`PageFormat.CutPage`).
- The older half of a queue leaves memory before its page is written, so a failed write loses it.
  Pages and memory hold the arrivals exactly when no page failed (`Paging.ArrivalsKeptInOrder`).
- Fetching a message replaces a delivery already recorded under the new tag. A fetch conserves
  messages exactly when its tag is free or it tracks nothing (`Delivery.GetConservesIff`); with one
  pull consumer per run tags are always free. With a new one per request, as in the basic.get
  handler, the second unacknowledged fetch loses a message (`Delivery.NewConsumerLoses`).
- The rate limiter's comment says that a refill rate of 0 disables limiting. In the code such a
  limiter grants the first `burst` calls and refuses all others, so it limits nothing exactly when
  the burst is not positive or the run is no longer than the burst
  (`RateLimiter.ZeroRateUnlimitedIff`, `RateLimiter.ZeroRateRefuses`).
- Stop may be called again, and after cancellation Submit may still send. When the workers have
  returned an item is published exactly when it is not in the channel, and what is in the channel was
  sent after the first Stop began (`Pipeline.StoppedIff`); such an item stays there
  (`Pipeline.Stranded`).
- Two bind handlers that both check before either binds can close a cycle
  (`ExchangeGraph.HandlersMayClose`). The graph stays acyclic exactly when every request still closes
  no cycle at the moment it binds (`ExchangeGraph.InterleavedAcyclicIff`).
- A round robin whose counter wraps at 2^64 jumps from the last value's place to the first, and can
  pick one of three members twice in a row (`RoundRobin.WrapPicksTwice`). Runs are fair exactly under
  `Harmless` (`RoundRobin.RoundRobinFairIff`).
- A node's commit index is whatever it is told, so committed entries may differ between nodes and be
  missing from a later leader (`CommitGap.CommitsMayDiffer`). Whether they do can be seen from one
  entry: two nodes agree on what is committed exactly when the shorter list ends with the term the
  longer one has there (`CommitGap.CommittedAgreeIff`), and a leader holds what a node has committed,
  then or earlier, exactly when it has an entry of the same term at the last committed index
  (`CommitGap.HoldsCommittedIff`). Nothing is committed unless `SetCommitIndex` is
  called (`CommitGap.NothingCommitted`), and nothing outside the repository's tests calls it, so the run
  of `CommitsMayDiffer` needs a caller that the repository does not have.

## Model

| member | source | states |
|---|---|---|
| RaftNode.MergeMeaning | internal/cluster/raft.go:132-145 | for entries that continue at the previous index the append loop keeps the log if all are present, and otherwise keeps exactly what precedes the first conflict and replaces the rest by the entries from there on |
| RaftNode.Node.constructor | internal/cluster/raft.go:54-64 | a node starts as follower of term 0 with no vote, an empty log and nothing committed |
| RaftNode.Node.Propose | internal/cluster/raft.go:86-100 | only a leader accepts a command; it gets the next index and the current term |
| RaftNode.Node.AppendNew | internal/cluster/raft.go:132-145 | the loop with truncation leaves the merged log |
| RaftNode.Node.AppendEntries | internal/cluster/raft.go:103-152 | stale terms are refused, later terms adopted, the previous entry compared, entries merged and the commit index raised to at most the log's length |
| RaftNode.VoteIff | internal/cluster/raft.go:155-192 | a vote is granted if and only if the term is not stale, the voter has not voted for another in it, and the candidate's log is at least as recent, comparing last terms and then lengths; a vote once cast in a term stays |
| RaftNode.Node.RequestVote | internal/cluster/raft.go:155-192 | the fields are updated as the vote function says, term and vote first adopted from a later term |
| RaftNode.Node.BecomeCandidate | internal/cluster/raft.go:195-201 | the term grows by one and the node votes for itself |
| RaftNode.Node.BecomeLeader | internal/cluster/raft.go:204-208 | only the role changes |
| RaftNode.Node.SetCommitIndex | internal/cluster/raft.go:230-236 | the commit index never decreases |
| RaftNode.Node.ReplicateAll | internal/cluster/raft_node.go:196-239 | a leader with a log sends every peer its last entry with the index and term before it; anyone else sends nothing |
| RaftCluster.LogMatching | internal/cluster/raft.go:86-152 | in every reachable state, if two logs hold an entry of the same index and term they are identical up to and including it |
| RaftCluster.ElectionSafety | internal/cluster/raft_node.go:92-153 | no two nodes are ever leader in the same term, at the same or at different times of a run |
| RaftCluster.LeaderHasMajority | internal/cluster/raft_node.go:103-152 | a leader holds recorded votes of a strict majority of the members, and its voters voted for nobody else in that term |
| RaftCluster.ElectedUnique | internal/cluster/raft.go:155-192 | two nodes elected by majorities in one term are the same node |
| RaftCluster.WinnerIsFirst | internal/cluster/raft_node.go:141-152 | a won election excludes that its term had a leader before |
| RaftCluster.RunLater | internal/cluster/raft.go:103-208 | along every run terms never decrease, votes are never withdrawn and the leader of a term is never replaced |
| RaftCluster.LeaderAppendOnly | internal/cluster/raft.go:86-152 | as long as a node stays in the term it leads it stays leader and its log only grows |
| RaftCluster.MergeChained | internal/cluster/raft.go:132-145 | merging a suffix of a leader's log keeps the property that every log is a prefix of what was proposed |
| RaftCluster.RequestsAreIndexed | internal/cluster/raft_node.go:215-237 | every append request ever sent carries entries numbered from one, as the receiver's slice indexing needs |
| RaftCluster.Reachable | internal/cluster/raft_node.go:92-239 | the invariants on votes, leaders and logs hold in every reachable state |
| PromotionGap.LatePromotionIff | internal/cluster/raft_node.go:141-152 | however long the gap between the check and the promotion, the late promotion is the conclusion of the election as one step if and only if the winner's term is still the one it won or it leads already |
| PromotionGap.TimelyRunJoins | internal/cluster/raft_node.go:141-152 | a run in which checks and promotions are separate steps, with any number of elections in between at once, ends as a run of the joined model does if every promotion is timely when it happens |
| PromotionGap.TimelyElectionSafety | internal/cluster/raft_node.go:141-152 | in such a run from a fresh cluster no two nodes are ever leader in one term, at the same or at different times |
| PromotionGap.PromotionOutOfTerm | internal/cluster/raft_node.go:141-152 | in a cluster of any size with two nodes that could both win, there is a run in which the term moved on and the late promotion gives it a second leader |
| PromotionGap.RivalsInit | internal/cluster/raft.go:54-64 | any two members of a fresh cluster are such nodes |
| CommitGap.HoldsIff | internal/cluster/raft.go:103-152 | what one node's log held up to an entry is in the log of any node, then or at any later time of any run, if and only if that log has an entry of the same term at that index |
| CommitGap.HoldsCommittedIff | internal/cluster/raft.go:211-236 | a leader, as any node, holds all that a node has committed, then or earlier, if and only if its log has an entry of the same term at the last committed index |
| CommitGap.CommittedAgreeIff | internal/cluster/raft.go:211-236 | of what two nodes have committed, each at its own time, one is a prefix of the other if and only if the shorter ends with the term the longer has there |
| CommitGap.NothingCommitted | internal/cluster/raft.go:148-150 | in every run without a call of SetCommitIndex no node ever has anything committed |
| CommitGap.CommitsMayDiffer | internal/cluster/raft.go:230-236 | in every cluster of three or more there is a run after which two nodes have committed different commands at one index and the later leader lacks the earlier commit |
| ElectionRounds.Won | internal/cluster/raft_node.go:92-152 | a node whose voters are willing and with it a majority wins, whatever the other peers do, and exactly the voters changed |
| Paths.AcyclicWithEdge | internal/server/e2e_binding_manager.go:93-117 | adding an edge to an acyclic graph keeps it acyclic if and only if its source is not reachable from its target |
| ExchangeGraph.Manager.Bind | internal/server/e2e_binding_manager.go:24-42 | the binding is appended unless one to the same destination and key exists |
| ExchangeGraph.Manager.Unbind | internal/server/e2e_binding_manager.go:45-61 | the first such binding is removed, and the result tells whether there was one |
| ExchangeGraph.Manager.UnbindAllForExchange | internal/server/e2e_binding_manager.go:76-90 | exactly the bindings from and to the exchange are gone |
| ExchangeGraph.Manager.Search | internal/server/e2e_binding_manager.go:93-117 | the recursive search with shared marks finds only reachable nodes, and without a find its new marks are closed under successors |
| ExchangeGraph.Manager.HasCycle | internal/server/e2e_binding_manager.go:93-117 | true if and only if the source is reachable from the destination |
| ExchangeGraph.Manager.HandleBind | internal/server/basic_handlers.go:1014-1021 | with no other request in between, the guarded bind is refused exactly when it would close a cycle |
| ExchangeGraph.BoundEdges | internal/server/e2e_binding_manager.go:24-42 | a bind adds its edge and no other |
| ExchangeGraph.WithoutContents | internal/server/e2e_binding_manager.go:51-60 | an unbind removes one matching binding and keeps all others |
| ExchangeGraph.PurgedEdges | internal/server/e2e_binding_manager.go:76-90 | after a purge the exchange has no edge in or out, and all other edges remain |
| ExchangeGraph.GuardIsExact | internal/server/basic_handlers.go:1014-1021 | on an acyclic graph a bind keeps it acyclic if and only if the guard lets it through |
| ExchangeGraph.RunsKeepAcyclic | internal/server/e2e_binding_manager.go:24-117 | every sequential run of guarded binds, unbinds and exchange deletions keeps the graph acyclic |
| ExchangeGraph.InterleavedAcyclicIff | internal/server/basic_handlers.go:1014-1021 | with check and bind as separate steps and handlers interleaved in any way, the graph stays acyclic all along if and only if every request still closes no cycle when it binds |
| ExchangeGraph.HandlersMayClose | internal/server/basic_handlers.go:1014-1021 | two handlers that both check before either binds close a cycle |
| Topic.SplitJoins | internal/server/exchange_topic.go:19-36 | joining the words of a key gives the key back, and no word holds a dot |
| Topic.JoinSplits | internal/server/exchange_topic.go:19-36 | splitting joined dotless words gives them back |
| Topic.MatchesOneWord | internal/server/exchange_topic.go:41-69 | a pattern that starts with a star or a literal takes exactly one word |
| Topic.MatchesHash | internal/server/exchange_topic.go:41-69 | a pattern that starts with a hash matches if and only if the rest matches some suffix |
| Topic.MatchParts | internal/server/exchange_topic.go:41-69 | the loop with backtracking answers true if and only if the words can be cut into consecutive segments, one per pattern word, as section 3.1.3.3 of the AMQP 0-9-1 specification says |
| Topic.MatchTopicPattern | internal/server/exchange_topic.go:32-38 | the same for an unsplit pattern |
| Routing.RouteMeaning | internal/server/exchange_topic.go:12-29 | a route holds exactly the queues of matching bindings, each once, in first-match order, for all four exchange types |
| Routing.RouteQueues | internal/server/exchange_topic.go:12-29 | the loop with its seen map computes that route |
| Routing.Hit | internal/server/exchange_direct.go:8-24 | which bindings each exchange type selects |
| Routing.DeadLetterConfig | internal/server/dead_letter.go:16-37 | a configuration is found if and only if the dead-letter exchange is given as a non-empty string; it is that string, with the routing key if one is given as a string |
| Publisher.SearchIsExact | internal/server/publisher.go:83-153 | a finished search with shared marks visited exactly the declared exchanges reachable through declared exchanges, each once |
| Publisher.Publisher.Publish | internal/server/publisher.go:67-80 | publishing reaches exactly those exchanges, each once despite diamonds and cycles, returns the sum of the route sizes, and takes the queues from their old to their new contents by offering the message to the routed declared queues in order: a queue full at its turn, and no other, first loses its first message to dead-lettering |
| Publisher.Publisher.PublishInternal | internal/server/publisher.go:83-153 | the same from any set of marks, terminating on every graph by a lexicographic measure on the dead-letter flag, the unvisited exchanges and the remaining lists |
| Publisher.Publisher.RouteHere | internal/server/publisher.go:101-136 | one exchange routes with the headers the message has then and offers it to every routed queue |
| Publisher.Publisher.Forward | internal/server/publisher.go:138-150 | the bindings are followed in order, with their own keys and shared marks |
| Publisher.Publisher.OfferAll | internal/server/publisher.go:104-136 | each routed queue that is declared gets one copy, in order, after room was made in it exactly if it was full |
| Publisher.FillsJoin | internal/server/publisher.go:104-150 | offering to one list of queues and then to another is offering to both in turn |
| Publisher.FillsUnchecked | internal/server/publisher.go:187-196 | a dead letter evicts nothing and enters every declared queue of its routes |
| Publisher.Publisher.MakeRoom | internal/server/publisher.go:110-119 | a full queue loses exactly its first message, whose copies then enter the queues its dead-letter exchange leads to; any other queue stays as it is |
| Publisher.Publisher.Put | internal/server/publisher.go:121-128 | a queue with priorities inserts, any other appends |
| Publisher.Publisher.DeadLetter | internal/server/publisher.go:187-196 | the evicted message is stamped and published to the configured exchange without further evictions |
| Publisher.Publisher.RecordStats | internal/server/publisher.go:165-176 | one publication and its route size are added to the exchange's counters |
| Publisher.AfterJoin | internal/server/publisher.go:83-153 | the accounts of two consecutive publications add up |
| Publisher.AddBalanced | internal/server/message_store.go:22-39 | queues hold what entered and has not left, after every insertion |
| Wire.NumberOfBigEndian | pkg/protocol/amqp091/encode.go:46-67 | a number is read back from its big-endian bytes |
| Wire.ReadWrittenBlob | pkg/protocol/amqp091/encode.go:101-117 | a length-prefixed string is read back and the rest is left |
| Wire.Encoder.WriteUint | pkg/protocol/amqp091/encode.go:46-67 | writing appends the big-endian bytes |
| Wire.Decoder.ReadUint | pkg/protocol/amqp091/decode.go:23-48 | reading consumes exactly the number's bytes |
| Wire.Decoder.ReadString | pkg/protocol/amqp091/decode.go:92-100 | reading consumes exactly the length and that many bytes |
| Tables.TableRoundTrip | pkg/protocol/amqp091/encode.go:134-205 | for every nested table, every iteration order at every level and every trailing bytes, reading what was written returns the table up to times truncated to seconds and floats truncated towards zero and leaves the trailing bytes; it returns the same table if and only if nothing is truncated |
| Tables.TruncatedExact | pkg/protocol/amqp091/decode.go:162-201 | truncation changes nothing if and only if all times are whole seconds and all floats whole |
| Tables.ReadWrittenValue | pkg/protocol/amqp091/decode.go:162-201 | the same for one value of any type |
| Tables.WriteTable | pkg/protocol/amqp091/encode.go:134-152 | the loop over the map in any order, with a temporary encoder, writes an encoding of that table, or fails exactly on an unsupported value and writes nothing |
| Tables.WriteValue | pkg/protocol/amqp091/encode.go:155-205 | each type is written with its tag and body |
| Tables.DecodeTable | pkg/protocol/amqp091/decode.go:120-134 | the length, then exactly that many bytes of entries; after an error the reader stands at the end if the table was cut short and after the table otherwise |
| Tables.DecodeBody | pkg/protocol/amqp091/decode.go:137-159 | the loop collects the entries, later keys over earlier ones |
| Tables.DecodeValue | pkg/protocol/amqp091/decode.go:162-201 | a value is read by its tag; after an error the reader stands after an unknown tag or a complete inner table, and at the end if the value was cut short |
| Frames.ReadersAgree | pkg/protocol/amqp091/framer.go:31-82 | on every byte stream the peeking reader returns what the plain one does if the type is valid and the frame fits the buffer, and fails otherwise |
| Frames.ReadFrameAt | pkg/protocol/amqp091/decode.go:218-260 | exactly which bytes are a frame, with header, size limit, payload and end octet as in section 4.2.3 of the AMQP 0-9-1 specification |
| Frames.StreamRoundTrip | pkg/protocol/amqp091/decode.go:218-260 | reading repeatedly returns every encoded list of frames within the limit and leaves the rest |
| Frames.PeekedStream | pkg/protocol/amqp091/framer.go:31-82 | the peeking reader returns the list if and only if every frame fits its buffer |
| Frames.ConnectionReads | internal/server/connection.go:192 | with the default buffer and limit, payloads are read back by both readers if and only if they have at most 4088 bytes |
| Frames.WriteFrame | pkg/protocol/amqp091/encode.go:222-239 | frames of a known type are appended, others refused |
| Frames.DecodeFrame | pkg/protocol/amqp091/decode.go:218-260 | reading step by step yields the frame and leaves the rest |
| Frames.Framer.Next | pkg/protocol/amqp091/framer.go:31-82 | peeking, discarding and copying yields the frame; a failed read consumes bytes only on a wrong end octet |
| Pipeline.CounterIsExact | internal/server/pipeline.go:108-125 | in every interleaving the counter is the number of items counted, not dropped and not finished, and what is finished was published |
| Pipeline.FlushedIsPublished | internal/server/pipeline.go:127-133 | when Flush returns, everything counted when it read zero has been published exactly once, and before cancellation nothing is dropped |
| Pipeline.ZeroMeansPublished | internal/server/pipeline.go:150-214 | a counter at zero means that every counted item not dropped is published exactly once |
| Pipeline.StopDrains | internal/server/pipeline.go:136-190 | when all workers have returned, everything sent before the first Stop began is published exactly once |
| Pipeline.StoppedIff | internal/server/pipeline.go:108-190 | when all workers have returned, for the first and any later Stop, what was sent is published exactly once if and only if it is not in the channel, and what is in the channel was sent after the first Stop began |
| Pipeline.Stranded | internal/server/pipeline.go:108-190 | an item sent after the only worker returned stays in the channel, unpublished, undropped and counted, and stopping again changes nothing |
| Pipeline.OneWorkerKeepsOrder | internal/server/pipeline.go:150-214 | with one worker the items of an exchange are published in the order they were sent |
| Pipeline.GroupingIsStable | internal/server/pipeline.go:195-209 | grouping a batch by exchange keeps the order within each exchange, whatever the order of the groups |
| Pipeline.GroupingIsComplete | internal/server/pipeline.go:195-209 | grouping publishes every item as often as the batch holds it |
| Pipeline.GroupByExchange | internal/server/pipeline.go:196-200 | the loop builds the groups in batch order |
| Pipeline.ProcessBatch | internal/server/pipeline.go:195-214 | the nested loops publish the groups one after the other |
| PriorityQueue.StableSortMeaning | internal/server/priority_queue.go:67-80 | the reference order: descending priority, a permutation, arrivals of one priority in order |
| PriorityQueue.InsertByPriority | internal/server/priority_queue.go:67-80 | the scan inserts before the first message of lower priority |
| PriorityQueue.InsertSorts | internal/server/priority_queue.go:67-80 | inserting into the stable sort of some arrivals gives the stable sort of one more |
| PriorityQueue.FilterSorts | internal/server/message_store.go:71-98 | removing expired messages from the sorted queue is sorting the rest |
| PriorityQueue.FrontIsForemost | internal/server/message_store.go:29-39 | the front is the earliest arrival of the highest priority, and what remains is the sort of the others |
| PriorityQueue.QueueIsStableSort | internal/server/message_store.go:29-118 | over every run of priority enqueues, dequeues and expiry sweeps the queue is the stable sort of the arrivals not yet removed |
| PriorityQueue.Partition | internal/server/message_store.go:83-92 | the loop splits a queue into alive and expired, both in order |
| MessageStore.Store.Enqueue | internal/server/message_store.go:22-26 | the message is appended to its queue only |
| MessageStore.Store.EnqueuePriority | internal/server/message_store.go:112-118 | the message is inserted by priority into its queue only |
| MessageStore.Store.Dequeue | internal/server/message_store.go:29-39 | the first message is removed and returned, if there is one |
| MessageStore.Store.Purge | internal/server/message_store.go:60-64 | the queue is gone and all others stay |
| MessageStore.Store.RemoveExpired | internal/server/message_store.go:71-98 | the expired messages leave in order, the others stay in order, other queues are untouched |
| Delivery.MessagesConserved | internal/server/delivery_tracker.go:26-116 | over every run of enqueues, fetches through one consumer, acks, nacks and recoveries in any map order, each message is queued, in flight, acked, discarded, auto-acked or expired exactly as often as it was enqueued |
| Delivery.GetConservesIff | internal/server/pull_consumer.go:41-68 | from any state a fetch conserves messages if and only if it tracks nothing or its tag is free on the channel |
| Delivery.NewConsumerLoses | internal/server/basic_handlers.go:429 | after two enqueues and one unacknowledged fetch, the first fetch of a consumer made anew on the same channel loses a message |
| Delivery.GetThenNack | internal/server/delivery_tracker.go:58-78 | refusing what was just fetched moves it to the back of the queue it came from and leaves every channel as it was |
| Delivery.Tracker.Record | internal/server/delivery_tracker.go:26-40 | the delivery is recorded under channel and tag, replacing one already there |
| Delivery.Tracker.Ack | internal/server/delivery_tracker.go:43-55 | a tracked delivery is dropped, an unknown one reported |
| Delivery.Tracker.Nack | internal/server/delivery_tracker.go:58-78 | a tracked delivery is dropped and, if asked, appended to its own queue |
| Delivery.Tracker.Reject | internal/server/delivery_tracker.go:81-87 | the same as Nack |
| Delivery.Tracker.RequeueEach | internal/server/delivery_tracker.go:105-109 | every delivery of the channel is requeued once, in the order the map yields them |
| Delivery.Tracker.RecoverAll | internal/server/delivery_tracker.go:92-116 | all deliveries of the channel are requeued or discarded, and counted |
| Delivery.Tracker.NackAll | internal/server/delivery_tracker.go:158-174 | all deliveries of the channel are requeued or discarded |
| Delivery.PullConsumer.NextLive | internal/server/pull_consumer.go:53-60 | the loop drops expired messages from the front up to the first that is not |
| Delivery.PullConsumer.Get | internal/server/pull_consumer.go:41-68 | that message is returned and, without auto-ack, tracked under the next tag |
| PageFormat.PageRoundTrip | internal/server/message_paging.go:108-163 | reading a page back yields payload, content type, tag and time of every message written, in order |
| PageFormat.KeptIff | internal/server/message_paging.go:108-163 | a message survives a page unchanged if and only if its time fits 64-bit nanoseconds and it has no other metadata |
| PageFormat.CutPage | internal/server/message_paging.go:85-103 | a page cut anywhere in its last message is reported broken if and only if the cut is inside a field; otherwise the complete messages are returned |
| PageFormat.WriteMessage | internal/server/message_paging.go:108-131 | the fields are written in order with their lengths |
| PageFormat.WriteAll | internal/server/message_paging.go:60-68 | the loop writes the messages one after the other |
| PageFormat.Reader.Next | internal/server/message_paging.go:134-163 | one message is read, with end of file told from a cut field by whether a byte was left |
| PageFormat.LoadAll | internal/server/message_paging.go:85-96 | the loop reads messages up to the first end of file |
| Paging.ArrivalsKeptInOrder | internal/server/message_store_ext.go:45-118 | in enqueue-only runs memory ends within its limit, and the pages in the order written followed by memory hold the arrivals of a queue in order if and only if no page of that queue failed to be written |
| Paging.PagingConserves | internal/server/message_store_ext.go:45-136 | over every run of enqueues, dequeues and loads of any page into any queue, what came to a queue was handed out or is in memory, in a page, in a page that failed or loaded elsewhere, as often as it came |
| Paging.LoadingRestores | internal/server/message_store_ext.go:121-136 | once every page of a queue is loaded and none failed, memory holds what came to the queue and was neither handed out nor loaded elsewhere, as a multiset |
| Paging.OwnLoadsMoveNothing | internal/server/message_store_ext.go:121-136 | pages loaded into their own queues move nothing between queues |
| Paging.RunSound | internal/server/message_store_ext.go:45-136 | along every run whose arrivals fit the page format, all of memory and pages does |
| Paging.PageManager.Flush | internal/server/message_paging.go:42-75 | a new page number is taken each time, and a written page holds the messages |
| Paging.PageManager.Load | internal/server/message_paging.go:78-104 | a readable page is returned and removed, a broken or missing one reported and kept |
| Paging.ExtendedStore.PageOldest | internal/server/message_store_ext.go:98-118 | above the limit the older half moves to a page |
| Paging.ExtendedStore.EnqueueExt | internal/server/message_store_ext.go:45-73 | the message is appended and the limit restored; an error tells that a page failed |
| Paging.ExtendedStore.LoadPage | internal/server/message_store_ext.go:121-136 | the messages of the page are appended to the queue one by one |
| Consumers.IndexesAgree | internal/server/consumer_manager.go:53-163 | over every run the tag index, the queue lists and the groups are views of one list of consumers in subscription order, with distinct tags and at most one exclusive consumer per queue |
| Consumers.IndexMeaning | internal/server/consumer_group_manager.go:91-131 | no group is empty, and a consumer is under its tag if and only if it is in its queue's list, and in exactly its own group |
| Consumers.ApplyViews | internal/server/consumer_manager.go:53-163 | each operation on the indexes does to the one list what the operation means |
| Consumers.CancelAll | internal/server/consumer_manager.go:130-163 | cancelling by channel in any map order leaves exactly the consumers of other channels and those that opted out |
| Consumers.RemovedViews | internal/server/consumer_manager.go:101-125 | splicing a consumer out of all indexes keeps them views of the shorter list |
| Consumers.RemoveTag | internal/server/consumer_group.go:87-97 | the loop splices out the first consumer of the tag |
| Consumers.GroupManager.Join | internal/server/consumer_group_manager.go:91-107 | the consumer is appended to its group, which is created and listed if new |
| Consumers.GroupManager.Leave | internal/server/consumer_group_manager.go:111-131 | the tag leaves the group that has it, and an emptied group is deleted from both indexes |
| Consumers.ConsumerManager.Subscribe | internal/server/consumer_manager.go:53-97 | refused for a tag in use or a second exclusive consumer, else added everywhere |
| Consumers.ConsumerManager.Unsubscribe | internal/server/consumer_manager.go:101-125 | removed everywhere, or reported as unknown |
| Consumers.ConsumerManager.CancelByChannel | internal/server/consumer_manager.go:130-163 | removes and counts exactly the consumers that do not survive |
| RoundRobin.RoundRobinFairIff | internal/server/consumer_group.go:22-31 | over n consecutive selections from k distinct members, for every n and every counter value, each is picked n/k times, rounded down or up, if and only if the counter does not wrap or its jumps to zero do no harm, a condition on where the run starts and ends |
| RoundRobin.WrapPicksTwice | internal/server/consumer_group.go:22-31 | with three members two selections across the wrap both pick the first |
| RoundRobin.Strategy.Select | internal/server/consumer_group.go:22-31 | the member at the counter modulo the group size is picked and the 64-bit counter advances; an empty group yields none |
| RateLimiter.GrantedIff | internal/server/rate_limiter.go:32-44 | a call is granted if and only if granting it keeps every window that ends with it within burst plus rate times elapsed time |
| RateLimiter.WindowBound | internal/server/rate_limiter.go:32-44 | between any two calls of a run, both included, at most burst plus rate times elapsed time are granted |
| RateLimiter.TokensAreLeastSlack | internal/server/rate_limiter.go:75-86 | the tokens at a call are the least slack over all windows that end with it |
| RateLimiter.GrantedWithoutRefill | internal/server/rate_limiter.go:32-44 | without a refill a call is granted if and only if there is no capacity at all or it is one of the first burst calls, whatever the clock does |
| RateLimiter.ZeroRateUnlimitedIff | internal/server/rate_limiter.go:20-44 | a rate of 0 limits nothing if and only if there is no capacity or the run is no longer than the burst |
| RateLimiter.ZeroRateRefuses | internal/server/rate_limiter.go:20-44 | with rate 0 and a positive burst, the call after the first burst calls is refused |
| RateLimiter.Limiter.RefillTokens | internal/server/rate_limiter.go:75-86 | elapsed time times rate is added, up to the capacity |
| RateLimiter.Limiter.Allow | internal/server/rate_limiter.go:32-44 | after the refill a whole token is taken if there is one |

## Left out

- How a commit index should be chosen: the code counts no acknowledgements (internal/cluster/raft_node.go:177, 236); what that leaves open is in `CommitGap`.
- Raft snapshots, the election timers, and the forced promotion in internal/queue/quorum_manager.go.
- 64-bit overflow of Raft terms and indexes, delivery tags and page numbers, which are unbounded here.
- QuorumQueue: its message list bears no fixed relation to the committed log after an Ack.
- The binding manager's index by queue; routing takes the bindings of an exchange as a list.
- The coercions of headers matching (internal/server/exchange_headers.go:30-174): how headers match is a parameter of routing.
- Tables.TableRoundTrip: does not cover floats of -1 and below, not finite or too large for their integer width, whose conversion by value Go leaves to the implementation, nor lengths of 2^32 bytes and more.
- PageFormat.PageRoundTrip: does not cover payloads or content types of 2^32 bytes and more, whose length is truncated.
- Paging.PageManager.Flush: a failed write leaves no page here; the source may leave part of a file that it does not register.
- Changing store options at run time, which restarts the page numbers, and compression.
- Publisher: one publication at a time, while concurrent publications interleave in the source; the push to consumers that follows each enqueue is not modelled.
- Publisher.Publisher.Publish: gives no bound on queue lengths, because dead-lettered and requeued messages bypass the limit.
- Pipeline liveness: the broadcast is made without the condition's lock, so only what holds when Flush or Stop returns is stated.
- Conservation at the level of the basic.get handler and of push delivery, which do not use one pull consumer or distinct tags.
- Message payloads and headers in the store and delivery models, where a message is an identity with a priority and a routing key; whether it is expired is an input.
- Consumers.GroupManager.Leave: groups are listed by identifier; that both indexes share one group object is not modelled.
- The hash strategy of consumer groups.
- RateLimiter.WindowBound: is over real numbers, without floating-point rounding; Wait and changes of the rate are not modelled.
- Access control, vhosts, registries of exchanges and queues, audit and trace buffers.
- Network, TLS, authentication, etcd, HTTP, metrics, configuration, plugins, federation and shovel.
