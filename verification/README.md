# Verified model of the ride-sharing backend

A Dafny model of the shared messaging layer of the ride-sharing backend and of the state that the trip, driver, payment and gateway services change through it, with proofs of what those parts keep over whole runs. `dafny verify dfyconfig.toml` checks everything.

The parts that change state in place (the socket registries, the Redis-backed connection manager, the broker loops, the trip service and its accept consumer, the limiters, the fare and payment services, the cancel consumer) are classes whose methods follow the source branch by branch. Each method is proved against a function of the old state, and the properties below are proved of state machines for every run. For the broker, the rooms, the Redis keys, the limiter, the gate, the fares and the payments the machine's steps are made of that function itself. Where a step is smaller or larger than a method, a lemma or a method relates the two: `NodeLocks.AddIsTwoPhases` and `NodeLocks.RemoveIsThreePhases`, `Cluster.SendOnNode`, `Cluster.BroadcastOnNode` and `Cluster.DeliverOnNode`, `Replay.ReplayIsItsSteps` with `Replay.ReplayReceipts`, `Offline.SendHere`, `Offline.DeliverHere` and `Offline.SendIsThreeSteps`, `Trips.CancelIsReadThenWrite` and `Trips.CompleteIsReadThenWrite`, `Gate.AttemptHere` and `Gate.ReleaseHere`.

| module | source | about |
|---|---|---|
| `Retry` | `shared/retry/retry.go` | capped doubling in int64 arithmetic |
| `Routing`, `DeadLetter`, `DeadLetterBound` | `shared/messaging/rabbitmq.go` | topic routing, retries, dead letters, a termination measure over the copies in flight |
| `Registry`, `Rooms`, `Gateway` | `connection_manager.go`, `rcm.go` in `shared/messaging` | one gateway node: sockets, users, rooms, subscriptions |
| `NodeLocks` | the same | `Add` and `Remove` interleaved over their two locks |
| `Cluster` | `shared/messaging/rcm.go` | several nodes over Redis Pub/Sub |
| `Replay` | `shared/messaging/rcm.go` | the offline stream of a user |
| `Offline` | `shared/messaging/rcm.go` | every message of a user, from its send over sockets, packets and the stream to its replay, all interleaved |
| `Trips`, `Accept` | `services/trip-service` | the trip record under interleaved commands; one accept under faults and retries |
| `ChatKeys`, `Cancel` | `shared/messaging/rcm.go`, `services/driver-service`, `services/ws-gateway` | the rider/driver keys and the teardown of a cancelled trip |
| `RateLimit`, `Gate` | `ratelimit.go` of both gateways | fixed windows and connection gates |
| `Fares`, `Payments`, `QuoteToCharge` | trip and payment services | from the quote to the charge |
| `Options`, `Failing`, `Numbers`, `Sums` | | shared helpers |

Where a failing call may or may not have taken effect, it is given a `Fault`: it works, fails before taking effect, or fails after taking effect. Reads, and the publishes of `DeadLetter` and `Gateway`, have a flag instead: a failing one has no effect. Socket writes fail on the sockets of a given set.

## What the code does not guarantee

Each of these is proved here as a concrete run or as an exact condition.

- The sleeps of the retry loop leave their closed form when a doubling wraps around or, in general, when the cap is negative; `Retry.ClosedFormIff` gives the exact condition for every int64 configuration.
- A failed publish to the dead letter exchange falls back to a reject, which loses a message on its first generation (`DeadLetter.RejectLosesFirstGeneration`; `DeadLetter.DiscardedIffNeverPublished` is the exact condition).
- A failed socket write drops the owner from the registry, so the later `Remove` may leave the subscription open (`NodeLocks.FailedWriteLeaks`; `NodeLocks.SubscribedIff` is the exact condition), and messages behind it are not kept (`Cluster.KeptIffNoLeak`). A partial write failure makes the other local sockets receive the message twice (`Cluster.PartialFailureDuplicates`).
- A socket may receive an entry of the offline stream twice: from two replays open at once (`Replay.ConcurrentReplaysDuplicate`), after a failed deletion (`Replay.FailedDeletionDuplicates`), or after a write to another socket of the user failed and paused the replay (`Replay.PartialFailureDuplicates`). It receives and will receive an entry at most once if and only if no replay begins while the entry is in the stream and the socket has received it or an open replay has it ahead (`Replay.ReceivedOnceIff`).
- A message is silently lost exactly when it was published to subscribers and all its packets arrived where no socket could be written (`Offline.LostIff`). A message that is appended after the user's replay has begun waits in the stream although he is connected, until the next replay (`Offline.AppendAfterReplayWaits`; `Offline.KeptUntilNextReplay` is the exact condition).
- No trip status is terminal (`Trips.NoStatusIsTerminal`), and a cancel overrides whatever happens between its read and its write (`Trips.CancelOverridesAccept`).
- A store update that changes nothing reports "not found" (`Trips.UpdateFailsIff`). An attempt at an accept succeeds if and only if it would change the record it finds and has no fault (`Accept.SucceedsAmongIff`); so once an attempt has written and a later step of it failed, a retry succeeds only if somebody else changed the trip in between (`Accept.SucceedsIffFirstWriteIsClean` is the case in which nobody does), and then announces the driver again and can accept a cancelled trip (`Accept.CancelLetsRetryAccept`).
- Clearing a trip ends a driver's relay only if the trip's chat keys still name him (`ChatKeys.ClearEndsRelayIff`, `ChatKeys.TakeoverLeavesPointer`).
- The ws gateway never takes a rejected attempt back (`Gate.RejectionsShutOut`), and it keeps its maximum if and only if the key is neither deleted by a release nor expires while a counted connection is open (`Gate.GateSafeIff`); a release in two steps breaks it (`Gate.DividedReleaseExceeds`), and so do refreshes that fail for as long as the key lives (`Gate.ExpiryExceeds`).

Where documentation and code differ the model follows the code: `docs/architecture/messaging-architecture.md` (line 1048) says that `BroadcastToRoom` also fans out to the local sockets; the code (`shared/messaging/rcm.go`, lines 351-357) only publishes, and the sending node hears its own message through its subscription.

## Model

| member | source | states |
|---|---|---|
| `Retry.WithBackoff` | shared/retry/retry.go:31-60 | at most maxRetries + 1 calls; without cancellation nil is returned exactly when some attempt in the budget succeeds; otherwise the last error; each sleep is the capped doubling in int64 arithmetic; a negative retry count makes no call and returns nil |
| `Retry.ClosedFormIff` | shared/retry/retry.go:33-50 | for every int64 configuration: the sleeps of the loop, wrap-around included, are initial * 2^(j-1) capped at the maximum at every retry if and only if a condition on the configuration holds, spelled out for every sign of the two bounds |
| `Retry.NonNegativeIff` | shared/retry/retry.go:33-50 | for bounds that are not negative: if and only if no wait that is doubled reaches 2^62 |
| `Retry.CappedDoubling` | shared/retry/retry.go:45-49 | over unbounded integers, with a non-negative cap, the recurrence is min(initial * 2^(j-1), cap) from the second retry on |
| `Retry.NoOverflow` | shared/retry/retry.go:46-49 | below 2^62 no doubling wraps, and the machine schedule is the ideal one and the closed form |
| `Retry.OverflowAtBound` | shared/retry/retry.go:46 | at 2^62 the first doubling wraps to the most negative duration, so the bound is sharp |
| `Retry.TotalWaitBound` | shared/retry/retry.go:35-50 | n retries sleep at most the initial wait plus n - 1 caps, also when doublings wrap |
| `Retry.DefaultSchedule` | shared/retry/retry.go:22-28 | four attempts in all, with one, two and four seconds between them |
| `Routing.LiteralMatch` | shared/messaging/rabbitmq.go:443-453 | a topic pattern without wildcards matches its own key and no other |
| `Routing.TopicIsEquality` | shared/messaging/rabbitmq.go:425-456 | topic matching over literal bindings makes as many copies as rows list the key |
| `Routing.SharedKeys` | shared/messaging/rabbitmq.go:292-420 | only trip.event.created and trip.event.driver_assigned are bound to two queues, and which |
| `Routing.FanOutOf` | shared/messaging/rabbitmq.go:292-420 | every publish makes two copies for those two keys, one for any other declared key, none for an undeclared one |
| `Routing.RoutedToDeclared` | shared/messaging/rabbitmq.go:443-453 | a message published under a key reaches every queue declared with that key exactly once, and no other queue |
| `Routing.CreatedKey` | shared/messaging/rabbitmq.go:292-420 | the two queues of trip.event.created |
| `Routing.DriverAssignedKey` | shared/messaging/rabbitmq.go:292-420 | the two queues of trip.event.driver_assigned |
| `Routing.TripKeys` | shared/messaging/rabbitmq.go:292-420 | the queue of each other trip key |
| `Routing.DriverKeys` | shared/messaging/rabbitmq.go:292-420 | the queue of each driver key |
| `Routing.PaymentAndChatKeys` | shared/messaging/rabbitmq.go:292-420 | the queue of each payment and chat key |
| `Routing.HashTakesAny` | shared/messaging/rabbitmq.go:259-265 | a leading `#` of a pattern stands for any number of words |
| `Routing.StarTakesOne` | shared/messaging/rabbitmq.go:443-453 | a leading `*` of a pattern stands for exactly one word |
| `Routing.DeadLetterCatchesAll` | shared/messaging/rabbitmq.go:230-271 | whatever its key, a message sent to the dead letter exchange reaches the dead letter queue exactly once |
| `DeadLetter.Broker.PublishMessage` | shared/messaging/rabbitmq.go:153-169 | a publish adds exactly one copy, with that body and key and no headers, to every queue declared with the key, and no other copy |
| `DeadLetter.Broker.ConsumeOne` | shared/messaging/rabbitmq.go:82-148 | one turn of the consumer, retries included: handled, or dead-lettered with the failure headers and the error of the last attempt, or rejected; it reports success exactly when one of the four attempts succeeds |
| `DeadLetter.Broker.DrainOne` | shared/messaging/rabbitmq.go:477-529 | one turn of the dead letter worker: discard without an origin, drop after five republishes, else republish with the counter increased in int32, or put back |
| `DeadLetter.NextRetryReads` | shared/messaging/rabbitmq.go:494-506 | the next retry counter is one more than the header, whichever integer type or float it comes back as, in int32; one without a readable header |
| `DeadLetter.RunConsistent` | shared/messaging/rabbitmq.go:84-144 | in every reachable state headers agree with what really happened to each copy, including copies that have ended, and handler calls stay within four per delivery |
| `DeadLetter.ContentNeverChanges` | shared/messaging/rabbitmq.go:110-119 | over all generations body, routing key and exchange are those published, and the retry counter is the number of republishes |
| `DeadLetter.LeavingIsHandledOrDead` | shared/messaging/rabbitmq.go:89-143 | a copy leaves its work queue only by a successful handler or with the same body and key into the dead letter queue: with its origin, the reason and the retry count in the headers when published there, with the headers it had when rejected |
| `DeadLetter.LeavingTheDeadLetters` | shared/messaging/rabbitmq.go:483-528 | in every reachable state a dead letter is discarded if no consumer ever published it, dropped after five republishes, and otherwise replaced by exactly one copy with its body and key in every queue declared with that key, or put back |
| `DeadLetter.DiscardedIffNeverPublished` | shared/messaging/rabbitmq.go:483-513 | a dead letter is discarded if and only if no consumer ever managed to publish it to the dead letter exchange, and dropped if and only if it was republished five times |
| `DeadLetter.RejectLosesFirstGeneration` | shared/messaging/rabbitmq.go:125-128 | one failed dead-letter publish loses a first-generation message |
| `DeadLetter.NothingVanishes` | shared/messaging/rabbitmq.go:84-144 | in every run every copy is accounted for: for a publication bound to k queues, the copies queued, dead-lettered and ended, each weighing k^(5 - republishes), weigh exactly k^6 |
| `DeadLetter.RoutedIsPresent` | shared/messaging/rabbitmq.go:477-547 | so a routed publication is queued, dead-lettered or ended, and once none of it is queued the copies that ended make up the whole of it |
| `DeadLetterBound.StepSpends` | shared/messaging/rabbitmq.go:477-547 | no step adds to deliveries made plus deliveries still possible beyond what a publication brings; with every handler failing and every publish working it is conserved exactly |
| `DeadLetterBound.RunSpends` | shared/messaging/rabbitmq.go:477-547 | the same potential over every run, with equality for runs in which nothing succeeds |
| `DeadLetterBound.WeightOfPublication` | shared/messaging/rabbitmq.go:509-513 | a publication bound to k queues costs k + k^2 + ... + k^6 deliveries: at most 126 |
| `DeadLetterBound.DeliveriesBounded` | shared/messaging/rabbitmq.go:477-529 | every run of publish, consume, fail, dead-letter and republish stays within that budget of deliveries, and within four times as many handler calls |
| `DeadLetterBound.RelentlessRunIsExact` | shared/messaging/rabbitmq.go:477-529 | a drained run in which nothing succeeds meets the bound exactly |
| `DeadLetterBound.StepsBounded` | shared/messaging/rabbitmq.go:477-529 | every run makes at most twice the budget of effective steps other than publications, so it terminates |
| `Registry.ConnectionManager.constructor` | shared/messaging/connection_manager.go:41-46 | a new registry is empty |
| `Registry.ConnectionManager.Add` | shared/messaging/connection_manager.go:54-63 | updates both indexes |
| `Registry.ConnectionManager.Remove` | shared/messaging/connection_manager.go:66-82 | takes the socket out of both indexes, drops an emptied user, returns the owner or "" |
| `Registry.ConnectionManager.SendToSocket` | shared/messaging/connection_manager.go:92-108 | not found; or a failed write that removes the socket; or one frame on that socket |
| `Registry.ConnectionManager.SendOne` | shared/messaging/connection_manager.go:125-130 | one turn of the send loop: the socket either received the message or was dropped, nobody else is touched |
| `Registry.ConnectionManager.SendAll` | shared/messaging/connection_manager.go:124-131 | after the loop each socket of the snapshot got exactly one copy or is no longer registered, the indexes stay inverse, others received nothing |
| `Registry.ConnectionManager.SendMessage` | shared/messaging/connection_manager.go:112-132 | the same for all sockets of the user; nil if and only if there was a socket and every write succeeded |
| `Registry.AddedInverseIff` | shared/messaging/connection_manager.go:54-63 | registering keeps the two indexes mutually inverse if and only if the socket id is fresh or already this user's |
| `Registry.RemovedInverse` | shared/messaging/connection_manager.go:66-82 | removing keeps the indexes inverse with no empty user, and takes exactly that socket |
| `Registry.PrunedInverse` | shared/messaging/connection_manager.go:102-106 | so does dropping any set of sockets |
| `Registry.SameIndexes` | shared/messaging/connection_manager.go:24-46 | inverse indexes are determined by the index by socket |
| `Registry.OwnerIff` | shared/messaging/connection_manager.go:66-82 | the owner of a socket is the user it is listed under |
| `Gateway.RedisConnectionManager.Add` | shared/messaging/rcm.go:78-95 | registers the socket and subscribes its user once |
| `Gateway.RedisConnectionManager.Remove` | shared/messaging/rcm.go:238-268 | leaves all rooms and unsubscribes the user with his last local socket, unless the owner is unknown |
| `Gateway.RemoveLeavesRooms` | shared/messaging/rcm.go:238-268 | exactly that socket leaves every room, and each user stays subscribed exactly if he was and it was not his last socket here |
| `Gateway.RedisConnectionManager.LeaveAllRooms` | shared/messaging/rcm.go:244-257 | the loop over rooms removes the socket from exactly its rooms, unsubscribing the emptied ones |
| `Gateway.RedisConnectionManager.EvictFrom` | shared/messaging/rcm.go:246-255 | one turn of that loop |
| `Gateway.RedisConnectionManager.JoinRoom` | shared/messaging/rcm.go:272-293 | both room indexes and the subscription |
| `Gateway.RedisConnectionManager.LeaveRoom` | shared/messaging/rcm.go:297-316 | the inverse on both indexes, unsubscribing an emptied room |
| `Gateway.RedisConnectionManager.LeaveUserFromRoom` | shared/messaging/rcm.go:486-501 | every local socket of the user leaves the room, nothing for empty ids |
| `Gateway.RedisConnectionManager.BroadcastToRoom` | shared/messaging/rcm.go:351-357 | only publishes; no local socket is written to |
| `Gateway.RedisConnectionManager.DeliverToRoomLocally` | shared/messaging/rcm.go:329-342 | exactly one copy to every connected member whose write works; the others are dropped; nobody else receives anything |
| `Gateway.RedisConnectionManager.DeliverOne` | shared/messaging/rcm.go:337-341 | one turn of that loop, also for a member that is no longer registered |
| `Gateway.RedisConnectionManager.SendMessage` | shared/messaging/rcm.go:363-385 | exactly one route: local if and only if there is a local socket and every write works; else published once to that user; persisted once if and only if nobody received the publish and the append works |
| `Rooms.JoinedConsistent` | shared/messaging/rcm.go:272-293 | a join keeps the indexes inverse, rooms non-empty and subscriptions equal to rooms, and adds exactly one membership |
| `Rooms.LeftConsistent` | shared/messaging/rcm.go:297-316 | a leave keeps the same and removes exactly one membership |
| `Rooms.TornConsistent` | shared/messaging/rcm.go:244-257 | a disconnect keeps the same and removes exactly the memberships of that socket |
| `Rooms.LeftByAllConsistent` | shared/messaging/rcm.go:486-501 | so does removing a user from a room |
| `Rooms.RunConsistent` | shared/messaging/rcm.go:270-316 | over every run of joins, leaves, disconnects and evictions all of this holds, and membership is "joined, and not evicted since" |
| `Rooms.RoomsFollowHistory` | shared/messaging/rcm.go:270-316 | seen from the room: its members are those the history says, and it is subscribed if and only if it has one |
| `NodeLocks.FinishedAddsAreSubscribed` | shared/messaging/rcm.go:78-95 | under every interleaving of two-phase adds and removes over the two locks, failed writes included, each socket whose Add has finished has its user subscribed |
| `NodeLocks.SubscribedIff` | shared/messaging/rcm.go:238-268 | under every interleaving with any failed writes, at quiescence: a user is subscribed if and only if he has a socket here or his subscription is orphaned, and never both; it is orphaned by a failed write that takes his last socket, or an Add that subscribes after its socket was dropped, with no Remove of his left to look at it, and until he connects again |
| `NodeLocks.SubscribedIffConnected` | shared/messaging/rcm.go:238-268 | so for a user none of whose writes failed, subscribed if and only if he has a socket: nothing leaks |
| `NodeLocks.FailedWriteLeaks` | shared/messaging/connection_manager.go:102-106 | one failed write leaves a subscription open for a user with no socket |
| `NodeLocks.AddIsTwoPhases` | shared/messaging/rcm.go:78-95 | uninterrupted, the phases do what the method does |
| `NodeLocks.RemoveIsThreePhases` | shared/messaging/rcm.go:238-268 | the same for Remove |
| `Cluster.DeliverDue` | shared/messaging/rcm.go:223-234 | delivering a packet keeps, for every socket and message, delivered plus promised copies |
| `Cluster.RunDue` | shared/messaging/rcm.go:363-385 | over any mix of sends, broadcasts and deliveries, delivered plus promised grows by exactly one per message meant for that socket |
| `Cluster.DrainedRunDelivers` | shared/messaging/rcm.go:318-385 | once drained, a socket has exactly one more copy for each send and broadcast meant for it, in any order of deliveries |
| `Cluster.StreamsHoldMissed` | shared/messaging/rcm.go:378-383 | a user's stream grows by exactly the messages sent while he had no socket on any node, in order |
| `Cluster.ReachableIsSettled` | shared/messaging/rcm.go:78-95 | nodes reached by any interleaving and any failed writes, at quiescence and unless the user's subscription is orphaned, meet the assumptions of the above |
| `Cluster.SettledIffNotOrphaned` | shared/messaging/rcm.go:260-265 | and an orphaned subscription is exactly what keeps them from it |
| `Cluster.SendOnNode` | shared/messaging/rcm.go:363-385 | SendMessage on a node, when Redis answers with the number of subscribed nodes, leaves the node, writes the copies and takes the route of the cluster's send step; the packets this step puts in flight are exactly one for each subscribed node and newly published message, and the stream entries it adds are exactly those newly persisted |
| `Cluster.SendFromRoute` | shared/messaging/rcm.go:374-383 | the branch of that step for each route: nothing more; one packet to every subscribed node; one stream entry |
| `Cluster.BroadcastOnNode` | shared/messaging/rcm.go:351-357 | BroadcastToRoom on a node puts in flight exactly one packet for each subscribed node and newly published room message |
| `Cluster.DeliverOnNode` | shared/messaging/rcm.go:223-234 | what a node writes for a packet on its user or room subscription is the cluster's delivery step |
| `Cluster.ExactlyOneOutcome` | shared/messaging/rcm.go:363-385 | across any number of reachable nodes, the user's subscription not orphaned, a message to him has one outcome: one copy to each socket on the sending node; or, with none there, one to each socket elsewhere; or, with none anywhere, one stream entry; never two copies |
| `Cluster.BroadcastReachesEachMemberOnce` | shared/messaging/rcm.go:318-357 | a drained broadcast reaches each connected member socket on every node exactly once |
| `Cluster.PartialFailureDuplicates` | shared/messaging/connection_manager.go:124-131 | a working local socket gets one copy if no write to the user's local sockets failed, and two if one did |
| `Cluster.KeptIffNoLeak` | shared/messaging/rcm.go:374-383 | a message to a user connected nowhere is kept if and only if no node still subscribes to him |
| `Replay.ReplayOne` | shared/messaging/rcm.go:169-198 | one entry: malformed ones pass, a well-formed one passes if and only if every socket of the user gets it; if it does not, who got it and which sockets were dropped |
| `Replay.ReplayUserStream` | shared/messaging/rcm.go:141-221 | every socket receives the well-formed entries in order up to the first delivery failure, exactly the suffix from that entry is left, and the sockets that failed there are dropped; nothing happens when the stream cannot be read |
| `Replay.WithoutPrefix` | shared/messaging/rcm.go:200-207 | deleting the ids of a prefix leaves exactly the suffix |
| `Replay.ReplayLosesNothing` | shared/messaging/rcm.go:141-221 | under any interleaving of replays, appends and trimming, an entry that is gone was trimmed, malformed, or delivered in full at least once, to at least one socket |
| `Replay.ReplayIsItsSteps` | shared/messaging/rcm.go:141-221 | uninterrupted, a begin, the turns and a finish leave the stream that the method leaves, and send the entries before the failure in full and the failing one to the working sockets |
| `Replay.ReplayReceipts` | shared/messaging/rcm.go:188-198 | counted per socket: each socket of the user receives every well-formed entry before the failure once, the failing one if its write works, and nobody else receives anything |
| `Replay.ChancesAreExact` | shared/messaging/rcm.go:166-198 | from any state, until another replay begins, a socket receives an entry at most as often as it received it plus the open replays that have it ahead, and some continuation attains that |
| `Replay.ReceivedOnceIff` | shared/messaging/rcm.go:141-221 | over every run with any failed writes: a socket receives and will receive an entry at most once if and only if no replay begins while the entry is in the stream and the socket has received it, also from a send that failed elsewhere, or an open replay has it ahead |
| `Replay.BeginRepeats` | shared/messaging/rcm.go:86-92 | and if one does, some continuation sends the entry to the socket a second time |
| `Replay.SerialReceivesOnce` | shared/messaging/rcm.go:200-207 | so if replays run one at a time, every deletion works and no send that fails elsewhere reaches the socket, it receives no entry twice |
| `Replay.ConcurrentReplaysDuplicate` | shared/messaging/rcm.go:151-198 | a second replay begun while the first is open |
| `Replay.FailedDeletionDuplicates` | shared/messaging/rcm.go:200-207 | a second replay begun after the deletion of the first failed |
| `Replay.PartialFailureDuplicates` | shared/messaging/connection_manager.go:124-131 | a second replay begun after a write to another socket paused the first |
| `Offline.NothingVanishes` | shared/messaging/rcm.go:363-385 | over every run of sends, publishes, appends, deliveries, registry changes and replays, interleaved with any failures: a message is on its way, refused with an error, received by some socket, arrived in vain, or kept; and what was kept is in the stream, trimmed, or replayed in full |
| `Offline.LostIff` | shared/messaging/rcm.go:223-234 | at rest, a message was silently lost if and only if it was published to subscribers and none of its packets reached a socket |
| `Offline.LeftIffNoneBegan` | shared/messaging/rcm.go:141-221 | when all replays have finished undisturbed, an entry that was not trimmed is in the stream if and only if no replay began after it was appended |
| `Offline.KeptUntilNextReplay` | shared/messaging/rcm.go:378-383 | the same for a kept message over every run of the whole, whoever is connected |
| `Offline.SendIsThreeSteps` | shared/messaging/rcm.go:363-385 | uninterrupted, the local send, the publish and the append take the route of SendMessage, Redis errors included |
| `Offline.SendHere` | shared/messaging/connection_manager.go:112-132 | the local part of a send on the real registry: the message counts as reached if and only if some socket got it, and is tried further if and only if an error was reported |
| `Offline.DeliverHere` | shared/messaging/rcm.go:223-234 | the arrival of a packet on the real registry: reached if and only if some socket got it, in vain otherwise |
| `Offline.AppendAfterReplayWaits` | shared/messaging/rcm.go:374-383 | a connect with its replay between the publish and the append leaves the message in the stream while the user is connected |
| `Trips.TripService.CreateTrip` | services/trip-service/internal/service/service.go:28-38 | a pending trip without a driver, owned by the fare's user; reported only if the insert works, stored unless it fails before taking effect |
| `Trips.TripService.UpdateTrip` | services/trip-service/internal/infrastructure/repository/mongodb.go:71-99 | sets the status, and the driver when given; succeeds if and only if the store works and the record changed |
| `Trips.TripService.CompleteTrip` | services/trip-service/internal/service/service.go:162-177 | completes whatever the status; succeeds if and only if the trip can be read and is completed already or the write works |
| `Trips.TripService.CancelTrip` | services/trip-service/internal/service/service.go:183-210 | succeeds if and only if the trip can be read, the requester is its rider or its accepted driver, and it is cancelled already or the write works; a refused cancel changes nothing |
| `Trips.UpdateFailsIff` | services/trip-service/internal/infrastructure/repository/mongodb.go:93-95 | "not found" is reported if and only if the trip is missing or already has the values |
| `Trips.DriverFollowsAccepts` | services/trip-service/internal/service/service.go:28-38 | over every interleaved and redelivered run: the driver on record is the one of the last applied accept, nil exactly before the first; accepted implies a driver; owner and fare are those of the creation |
| `Trips.OnlyAcceptersCancel` | services/trip-service/internal/service/service.go:189-207 | a successful cancel by anybody but the rider is preceded by an applied accept of that trip by the same person |
| `Trips.WhoCancels` | services/trip-service/internal/service/service.go:189-207 | in every reachable state, when the store works, a cancel succeeds if and only if the requester is the rider, or the trip is accepted and he is, with a non-empty id, the driver of the last applied accept; never when the trip cannot be read |
| `Trips.WhatCancelLeaves` | services/trip-service/internal/service/service.go:183-210 | one that succeeds leaves the trip cancelled and nothing else changed; a refused one changes nothing |
| `Trips.TripsOnlyMoveOn` | services/trip-service/internal/service/service.go:162-210 | from any state, owner and fare never change, a driver is never unset, pending is never re-entered |
| `Trips.NoStatusIsTerminal` | services/trip-service/internal/service/service.go:162-210 | from any status a trip can be accepted, cancelled and completed |
| `Trips.CancelOverridesAccept` | services/trip-service/internal/service/service.go:183-210 | whatever happens between the read and the write of a cancel is overridden, and the driver assigned last stays on record |
| `Trips.CancelIsReadThenWrite` | services/trip-service/internal/service/service.go:183-210 | uninterrupted, the two steps of a cancel leave the records and report what the method does, under any fault of the write |
| `Trips.CompleteIsReadThenWrite` | services/trip-service/internal/service/service.go:162-177 | the same for a completion |
| `Trips.CreateIsTheMethod` | services/trip-service/internal/service/service.go:28-38 | a creation adds a pending trip of the fare's user without a driver |
| `Trips.AcceptIsTheUpdate` | services/trip-service/internal/infrastructure/repository/mongodb.go:82-95 | an accept that changes the record sets both status and driver |
| `Accept.DriverConsumer.Publish` | services/trip-service/internal/infrastructure/events/driver_consumer.go:117-122 | a publish that may fail before or after it took effect |
| `Accept.DriverConsumer.HandleTripAccepted` | services/trip-service/internal/infrastructure/events/driver_consumer.go:86-144 | one attempt under any faults is exactly the specified step |
| `Accept.DriverConsumer.ConsumeAccept` | shared/messaging/rabbitmq.go:87-89 | the attempts at one delivery; success exactly when one of them succeeds |
| `Accept.FirstWriteLeaves` | services/trip-service/internal/infrastructure/events/driver_consumer.go:103-143 | the attempt that changes the record leaves a prefix of write, driver_assigned, payment command, as long as its faults allow; it succeeds if and only if it has no fault |
| `Accept.WrittenStays` | services/trip-service/internal/infrastructure/repository/mongodb.go:93-95 | every later attempt fails and does nothing |
| `Accept.TracesAreOnePrefix` | services/trip-service/internal/infrastructure/events/driver_consumer.go:86-144 | with no other write to the trip between the attempts: under any faults and any number of attempts each message goes out at most once, payment only after driver_assigned, both only after a write that changed the record |
| `Accept.SucceedsIffFirstWriteIsClean` | services/trip-service/internal/infrastructure/events/driver_consumer.go:103-143 | with no other write to the trip between the attempts: a delivery succeeds if and only if the record can change and the first attempt that gets as far as writing has no fault |
| `Accept.LogAmongIs` | services/trip-service/internal/infrastructure/events/driver_consumer.go:86-144 | with any other writes to the trip between the attempts, any faults and any number of attempts: the log is, attempt by attempt, a prefix of write, driver_assigned and payment command for the record that attempt found and changed |
| `Accept.SucceedsAmongIff` | services/trip-service/internal/infrastructure/events/driver_consumer.go:103-143 | then an attempt succeeds if and only if it would change the record it finds and has no fault |
| `Accept.MessagesPerWrite` | services/trip-service/internal/infrastructure/events/driver_consumer.go:86-144 | and payment commands are at most as many as driver_assigned messages, those at most as many as the writes that changed the record, and those at most one an attempt |
| `Accept.MessagesSay` | services/trip-service/internal/infrastructure/events/driver_consumer.go:112-143 | every driver_assigned goes to the owner of a record that an attempt found and carries it as accepted by this driver; every payment command names the trip, its owner, the driver and the quoted amount |
| `Accept.AloneIsAmong` | shared/messaging/rabbitmq.go:87-89 | when nobody else writes, the records are those the attempts leave, and the log is that of the attempts alone |
| `Accept.CancelLetsRetryAccept` | services/trip-service/internal/infrastructure/events/driver_consumer.go:103-143 | a rider's cancel between two attempts lets the second accept the cancelled trip and announce the driver again |
| `ChatKeys.EncodeInjective` | services/driver-service/service.go:77-91 | no two keys, of the same or of different families, become the same string, whatever the ids |
| `ChatKeys.PutRefines` | shared/messaging/rcm.go:394-410 | a SET on the string store is an update of one typed map |
| `ChatKeys.DelRefines` | shared/messaging/rcm.go:456-464 | a DEL likewise |
| `ChatKeys.PairStore.SetTripChatPair` | shared/messaging/rcm.go:401-410 | the gateway's pair, refused for empty ids; under any fault of the transaction |
| `ChatKeys.PairStore.ServiceSetTripChatPair` | services/driver-service/service.go:104-115 | the driver service's pair with both pointers; under any fault of the transaction |
| `ChatKeys.PairStore.ResolveTripChatPeer` | shared/messaging/rcm.go:415-436 | the peer, or which of the four errors |
| `ChatKeys.PairStore.ClearTripChatPair` | shared/messaging/rcm.go:441-466 | the chat keys and the pointers they name; nothing when the read fails; under any fault of the transaction |
| `ChatKeys.PairStore.GetActiveDriver` | shared/messaging/rcm.go:470-482 | "" for no mapping, an error for an empty id or a failing read |
| `ChatKeys.PairStore.GetActiveRider` | services/driver-service/service.go:99-101 | the rider, or none for no mapping or a failing read |
| `ChatKeys.ResolveIsInvolution` | shared/messaging/rcm.go:428-435 | resolving the peer leads back to the sender |
| `ChatKeys.ClearCloses` | shared/messaging/rcm.go:441-466 | after a clear, resolving the trip fails for everybody until its pair is set again, over any run of other sets, clears and expiries |
| `ChatKeys.ClearedUntilSet` | shared/messaging/rcm.go:415-436 | the same from any state that lacks one of the two keys |
| `ChatKeys.OtherTripsUntouched` | shared/messaging/rcm.go:401-466 | setting or clearing one trip leaves the resolution of every other trip unchanged |
| `ChatKeys.PointersAgree` | services/driver-service/service.go:104-115 | if each rider and driver has at most one live trip, no trip changes hands, ids are not empty and nothing expires, then over any run of sets and clears the chat keys and pointers are exactly those of the live and confirmed trips |
| `ChatKeys.RelayFollowsTrips` | services/driver-service/location_consumer.go:44-49 | under the same conditions, from an empty store, a driver's location goes to a rider if and only if a confirmed and uncleared trip pairs them |
| `ChatKeys.RelayFollowsHistory` | services/driver-service/location_consumer.go:44-49 | under no conditions, over every run: it goes to a rider if and only if the driver service paired the driver with him last and since then no trip whose chat keys named the driver was cleared and the pointer did not expire |
| `ChatKeys.ChatKeysFollowHistory` | shared/messaging/rcm.go:401-466 | over every run both chat keys of a trip hold the rider and the driver of its last set, unless cleared or expired since |
| `ChatKeys.ResolveFollowsHistory` | shared/messaging/rcm.go:415-436 | so over every run the rider resolves to the driver and the driver to the rider, everybody else is refused, nobody resolves while one of the two is missing, and no sender resolves to himself unless one person is both |
| `ChatKeys.SetOpensChat` | shared/messaging/rcm.go:401-436 | from any state, after either service has set a pair and until that trip is set, cleared or expires again, the two find each other and nobody else finds anybody |
| `ChatKeys.NoRiderUntilSet` | services/driver-service/location_consumer.go:44-49 | a driver without a rider stays so until the driver service pairs him |
| `ChatKeys.ClearEndsRelayIff` | shared/messaging/rcm.go:458-463 | in any state, clearing a trip ends a driver's relay if and only if the trip's chat keys name him or it was off |
| `ChatKeys.TakeoverLeavesPointer` | services/ws-gateway/handler.go:271-300 | after another driver's accept overwrites the chat keys, clearing leaves the first driver's relay on |
| `Cancel.CancelConsumer.LeaveTrip` | services/ws-gateway/cancel_consumer.go:71-78 | exactly the user's local sockets leave exactly the two rooms of the trip |
| `Cancel.CancelConsumer.TearDown` | services/ws-gateway/cancel_consumer.go:64-78 | the keys are cleared and both participants leave both rooms, nobody else does |
| `Cancel.CancelConsumer.ResolveDriver` | services/ws-gateway/cancel_consumer.go:42-50 | the driver of the event, else the rider's pointer, else none |
| `Cancel.TeardownDecision` | services/ws-gateway/cancel_consumer.go:42-64 | the event's driver goes before the pointer; without either the keys go only if the event says that a driver accepted |
| `Cancel.CancelConsumer.Notify` | services/ws-gateway/cancel_consumer.go:84-93 | every working local socket of that user receives the notice once, the others are dropped, and it is published and persisted as its route says |
| `Cancel.CancelConsumer.NotifyBoth` | services/ws-gateway/cancel_consumer.go:84-93 | the rider, then the driver if there is one: who receives the notice, on which routes, what is published and persisted |
| `Cancel.CancelConsumer.HandleCancelled` | services/ws-gateway/cancel_consumer.go:37-96 | for every event and any Redis errors: when it tears down, what keys, rooms and sockets are left, who is told, and what is published and persisted; subscriptions of users do not change |
| `Cancel.ConfirmedTripIsTornDown` | services/ws-gateway/cancel_consumer.go:42-78 | for a confirmed trip the consumer finds the driver, leaves exactly the other trips' keys, and his location finds no rider until the next set |
| `Cancel.RelayEndsWithCancel` | services/ws-gateway/cancel_consumer.go:60-67 | the same in any state whose chat keys name the driver |
| `RateLimit.RateLimiter.RunScript` | services/api-gateway/ratelimit.go:18-24 | increments, and sets the expiry with the first increment of a window |
| `RateLimit.RateLimiter.Limit` | services/api-gateway/ratelimit.go:37-61 | admits without a key, during Redis errors, and up to the limit |
| `RateLimit.PassesIff` | services/api-gateway/ratelimit.go:37-61 | a request without a key passes and is not counted, one whose count fails passes, and any other passes if and only if its count is within the limit |
| `RateLimit.SlidingBound` | services/api-gateway/ratelimit.go:37-61 | for every timed trace any half-open interval as long as the window holds at most 2 * limit - 1 admissions of a key, plus its Redis errors in that interval |
| `RateLimit.WindowBound` | services/api-gateway/ratelimit.go:18-24 | each counter window has admitted exactly min(count, limit) without Redis errors in it, and at most that plus the errors otherwise |
| `RateLimit.BoundIsSharp` | services/api-gateway/ratelimit.go:18-24 | for every limit and window of at least two seconds some trace admits 2 * limit - 1 within one window length |
| `Gate.WsGate.WsConnectionGate` | services/ws-gateway/ratelimit.go:61-70 | counts the attempt whether admitted or not; lets it in uncounted when Redis fails |
| `Gate.WsGate.Release` | services/ws-gateway/ratelimit.go:71-80 | decrements, then deletes at zero or below, under any Redis errors |
| `Gate.AttemptDecides` | services/ws-gateway/ratelimit.go:61-70 | of the machine: who gets in, counted or not, and what an attempt leaves behind, in terms of the counter and the fault |
| `Gate.AttemptHere` | services/ws-gateway/ratelimit.go:61-70 | the method makes the machine's attempt step |
| `Gate.ReleaseHere` | services/ws-gateway/ratelimit.go:71-80 | an undivided release makes its one or two steps |
| `Gate.GateHolds` | services/ws-gateway/ratelimit.go:61-82 | from any good state, over every run with any Redis errors in which neither a delete nor an expiry forgets an open connection, the counter is exactly the open counted connections plus what is counted without one |
| `Gate.GateSafeIff` | services/ws-gateway/ratelimit.go:71-91 | over every run: the counter covers the open connections throughout, and the maximum holds throughout and whatever attempts follow, if and only if the key is neither deleted nor expires while a counted connection is open |
| `Gate.NeverMoreThanMax` | services/ws-gateway/ratelimit.go:61-82 | under that condition counted connections never exceed the maximum, and one more is admitted if and only if open and stale ones leave room |
| `Gate.UndividedHolds` | services/ws-gateway/ratelimit.go:71-80 | so the gate holds in every run whose releases are not divided by an attempt and whose refreshes keep the key alive |
| `Gate.NobodyUnchecked` | services/ws-gateway/ratelimit.go:64-67 | only a Redis error on its own attempt lets a connection in uncounted |
| `Gate.RejectionsShutOut` | services/ws-gateway/ratelimit.go:68-70 | enough rejections shut a user out until the key expires |
| `Gate.ReleaseFrees` | services/ws-gateway/ratelimit.go:71-80 | a release that works gives its place back, and without stale counts the next attempt takes it |
| `Gate.DividedReleaseExceeds` | services/ws-gateway/ratelimit.go:71-80 | for every maximum an attempt between decrement and delete lets in one connection too many |
| `Gate.ExpiryExceeds` | services/ws-gateway/ratelimit.go:85-91 | and so does the key's expiry under an open connection |
| `Gate.ApiGateRecovers` | services/api-gateway/ratelimit.go:92-109 | the other gate takes rejections back: under any Redis errors at most the limit is open, an attempt is admitted if and only if fewer are counted, and without errors nothing stays counted but open connections and rejections being undone |
| `Gate.ApiAttemptDecides` | services/api-gateway/ratelimit.go:92-104 | who gets in at the other gate, in terms of the counter and the fault |
| `Gate.ApiReleaseFrees` | services/api-gateway/ratelimit.go:101-109 | a full gate rejects, and admits again after one release |
| `Fares.FareService.EstimatePackagePriceWithRoute` | services/trip-service/internal/service/service.go:84-112 | for a non-empty route each package costs base + 1.5 * distance + 0.25 * duration |
| `Fares.OfferedPrices` | services/trip-service/internal/service/service.go:84-156 | the four offers of a preview, with their ids, packages and prices; none without a route |
| `Fares.FareService.GenerateTripFares` | services/trip-service/internal/service/service.go:114-135 | fresh ids, and one write that replaces the user's previous preview |
| `Fares.FareService.PreviewTrip` | services/trip-service/internal/infrastructure/grpc/grpc_handler.go:85-91 | the two together; without a route an empty preview is stored |
| `Fares.FareService.GetRideFareByID` | services/trip-service/internal/infrastructure/repository/redis.go:49-87 | the scan returns the first fare with that id of an unexpired preview |
| `Fares.FareService.GetAndValidateFare` | services/trip-service/internal/service/service.go:66-82 | and it belongs to the user |
| `Fares.ValidIffOfferedLatest` | services/trip-service/internal/service/service.go:66-82 | after any previews by any users a fare validates if and only if the user's latest saved preview offered it less than twenty minutes ago, and then carries that route, that user and the quoted price |
| `Fares.IdsAreUnique` | services/trip-service/internal/service/service.go:114-122 | no id is offered by two previews |
| `Fares.StaleFareRejected` | services/trip-service/internal/infrastructure/repository/redis.go:32-45 | a fare of an overwritten preview, or of another user's, never validates |
| `Payments.ChargeWithinACentIff` | services/payment-service/internal/events/trip_consumer.go:57-64 | the charge is below the quote by less than a cent if and only if the quote is not negative or has no fraction; it is always within a cent |
| `Payments.PaymentConsumer.CreatePaymentSession` | services/payment-service/internal/service/service.go:30-80 | the stored session if there is one, else a new one whose id is stored if the write takes effect |
| `Payments.PaymentConsumer.HandleTripAccepted` | services/payment-service/internal/events/trip_consumer.go:54-100 | the session event names the stored or newly made session and its amount in whole cents |
| `Payments.CommandMakes` | services/payment-service/internal/service/service.go:39-79 | one command makes nothing when the store cannot be read, a session is stored or the processor fails, and otherwise one session, stored unless the write fails before it took effect |
| `Payments.EventNames` | services/payment-service/internal/events/trip_consumer.go:73-93 | one command tells the rider his trip, the session he pays in and the amount, and nothing when it has no session |
| `Payments.AnnouncedWasMade` | services/payment-service/internal/events/trip_consumer.go:73-78 | over every run each session announced was made for that trip |
| `Payments.SessionsPerFailedWrite` | services/payment-service/internal/service/service.go:30-80 | over any serial run the sessions made for a trip are exactly those whose write was lost, plus one once an id is stored |
| `Payments.StoredIdStays` | services/payment-service/internal/service/service.go:39-52 | after the first successful write no further session is made and every call that gets an id gets that one |
| `Payments.AnnouncedIsStored` | services/payment-service/internal/events/trip_consumer.go:73-78 | and every later event of that trip carries it |
| `QuoteToCharge.ChargeFollowsQuote` | services/payment-service/internal/events/trip_consumer.go:54-100 | from any previews over trip creation and any events before each of any number of attempts at an accept, under any faults, to the payment event: it names the trip, its rider and a session made for that trip, and its amount falls short of base + 1.5 * distance + 0.25 * duration by less than a cent |

## Left out

- Fares.FareService.EstimatePackagePriceWithRoute: prices are reals; the rounding of float64 is not modelled.
- Payments.ChargeWithinACentIff: the conversion to int64 is truncation of a real; values outside int64 are not modelled.
- Registry.ConnectionManager.SendMessage: runs without other registry operations in the middle of its loop, other than the sockets it drops itself.
- Gateway.RedisConnectionManager.Add: the replay of the user's stream that it starts runs on its own and is `Replay.ReplayUserStream`.
- Cluster.SendOnNode: the publish and the append to the stream work; their errors are in `Gateway.RedisConnectionManager.SendMessage` and in `Offline`.
- Cluster.DeliverOnNode: every write works; deliveries with failing writes are in `Gateway.RedisConnectionManager.DeliverToRoomLocally` and in `Offline`.
- Cluster.StreamsHoldMissed: a send is one step; its three steps, interleaved with everything else, are in `Offline`.
- Cluster.ExactlyOneOutcome: nodes do not change between the send and the last delivery, and streams are neither trimmed nor expired; both are in `Offline`.
- ChatKeys.PointersAgree: trips that change hands and expiring keys are excluded; `RelayFollowsHistory` has neither exclusion. A Redis transaction is one step.
- ChatKeys.RelayFollowsTrips: the same.
- DeadLetterBound.DeliveriesBounded: copies in the chat command queue, which its own consumer requeues for ever on error, take no part; a failed republish puts a dead letter back and is not counted as a step; failing publishes have no effect.
- DeadLetter.Broker.ConsumeOne: a failing dead-letter publish has no effect; one that reported an error and still took effect would leave a second dead letter. Acknowledgements take effect, and the context of a delivery is never cancelled; the order of messages within a queue and the prefetch limit are not modelled, copies are taken in any order.
- DeadLetter.NothingVanishes: failing publishes and republishes have no effect, as above.
- Accept.LogAmongIs: an attempt is one step; writes by others between its update and its second read are not modelled.
- Payments.StoredIdStays: within the lifetime of the stored session id.
- JSON encoding, the broker's own x-death header, tracing headers, message ids, content types and timestamps.
- Routing keys are held as their words; the binding table has no wildcard other than the one `#`.
- The delays of the dead letter worker, the lifetime of its process, RabbitMQ reconnection, ping loops and heartbeats.
- The search for another driver after a decline: a decline publishes and changes no record, and re-dispatch drops the pickup and excludes nobody, so the loop has no measure.
- The topic and payload tables of `shared/messaging/queue_consumer.go`.
- `SetActiveRider` and `ClearActiveRider` of the driver service.
- Driver positions in Redis GEO, authentication, IP allow-lists, HTTP and gRPC plumbing; Stripe is an oracle that returns an id or an error, and the routing service one that returns a route.
