# Realtime chat platform: verified model

A Dafny model of the stateful cores of a realtime chat platform, each proved against a
simple specification over every run:

1. **Presence** (`Redis`, `Presence`, `PresenceAgreement`, `PresenceTheorems`, `PresenceRepository`):
   sorted sets with expiry scores, lazy pruning, key-level EXPIRE and a secondary room index. The
   specification is a plain map from (room, user, instance) to its last write.
2. **Rooms, hub, chat dispatcher** (`RoomModel`, `RoomProofs`, `RoomTurns`, `RoomLoop`, `Fleet`, `WorkQueue`,
   `ChatDispatch`): the room's event loop, sticky rooms across instances, bounded queues and workers.
3. **Webhooks** (`Delivery`, `Fanout`, `WebhookPipeline`, `WebhookProofs`, `WebhookShutdown`, `WebhookClose`,
   `WebhookReplays`, `WebhookProcesses`, `WebhookRecords`): fan-out, rows under a unique key, a worker pool and the retry loop, all interleaved.
4. **Edge cache** (`EdgeCache`, `SingleFlight`, `EdgeAnswers`, `OriginFetches`): a byte-bounded LRU and the coalescing fetch layer.
   Conditional requests (section 13.1.2 of RFC 9110) are answered by equality with a single tag, as the
   code does; cacheable replies carry `immutable` (section 2 of RFC 8246).
5. **Load balancer** (`Mix64`, `Ring`, `RoundRobin`): the 64-bit finalizer, the consistent-hash ring and
   the round-robin counter.
6. **Rooms in presence** (`RoomPresence`): what presence shows of a room's sockets.
7. **WebSocket tickets** (`Tickets`): single-use tickets with a TTL and a reaper.

`Sorting` and `Decimal` hold what the Go standard library supplies. Code that updates state in place is
a class whose methods are tied to the specification; protocols between goroutines are state machines
whose steps are the lock-protected sections and channel operations, in every interleaving. What a step
does is also said outright, in terms of the states before and after it (`RoomTurns`, `EdgeAnswers`,
`WebhookRecords`).

## What was found

- **A TTL below half a second loses live users.** The offline script is given twice the TTL in whole
  seconds; below 500 ms, and for the TTL of zero that the configuration accepts, that is `EXPIRE 0`, which
  deletes the room with everybody in it. `TtlThreshold`: nothing live is ever lost if and only if the TTL is
  at least 500 ms (or negative, when nothing is ever live).
- **The room index can lag its rooms.** The expiry is stamped before the transaction commits and ZADD
  overwrites, so a late commit of an older stamp shortens the index entry of a live room.
  `IndexCompleteIffCovered`: the index is complete if and only if no room's last committed write
  carries an older stamp than one of its live members. Stamps in commit order are enough
  (`OrderedIsCovered`); `StampOrderMatters` gives the failing family.
- **A shutdown can strand a queued webhook**, although the comment on `Close`
  (notification-service/internal/dispatch/dispatcher.go:93-99) says queued deliveries are attempted: a
  delivery worker may find its queue empty and leave while the fan-out is still at work.
  `AttemptsAllIffNothingLeft`: at any point of any run, everything queued will be attempted whatever happens
  next (without another event) if and only if the fan-out holds no job and has no event, at hand or queued,
  for which some user has no row yet. Subscriptions and webhooks are arbitrary, so in practice any event still
  waiting counts. `QuietClose` is the easy case, `StrandedDelivery` the failing family.
- **A recipient skipped as a duplicate may never have had its call**, although the comment at
  notification-service/internal/service/fanout_service.go:111-112 says it had or is having it.
  `NeverCalledIff`: whatever happens next, there is never a Deliver call for a row if and only if nobody has a
  job for it (it is of an earlier process or a failed fan-out, its insert's answer was lost, or its job was
  dropped) or all delivery workers left before it was called. `FailedFanoutLosesRow` is such a run.
- **The origin can see many fetches of one hash at a time**, although the comment at
  gateway/internal/edgecache/handler.go:31-34 promises one: when a flight brings back a 200 of which fetch keeps
  no entry, everybody who waited for it fetches again on their own. `OneFetchIffKeepable`: two fetches of a hash
  never run at once if and only if the origin's reply is not such a 200.
- **Closing one of two sockets hides a user who is still there.** A room reports every socket, presence keeps one
  slot per user and instance, so the last report wins. `ListedIffLastJoin`: a user is listed if and only if the
  last report was a join at most a TTL ago; `OpenSocketNotListed` is the run. Nobody is listed without a socket
  (`NoGhosts`), and after a heartbeat presence lists exactly the users with one (`HeartbeatExact`).
- **Round-robin is not quite fair at the counter's wrap-around**: `FairIffDividesWordSize`, every round from
  every counter value is fair if and only if the number of healthy instances divides 2^64.
- The comment at chat-service/internal/ws/room.go:78-82 fears that a join frame evicts the joining client.
  It cannot: the buffer is new and has 16 slots (`RoomProofs.RunInv`, every connection starts with its own
  join frame).
- The comment at presence-service/internal/service/presence_service.go:122-124 says a colon in an instance
  id makes a member ambiguous. The code cuts at the first colon, which no number contains, so the member
  still round-trips (`MemberRoundTrip`).

## Assumptions

- **Presence.** One non-decreasing clock of commits, in milliseconds. A call reads its own time (`stamp`,
  `now`) before it commits, so never later than `clock`; every call is one transaction, ListRooms two. EXPIRE is
  given whole seconds, as go-redis and the script both do. A key
  is gone once its expiry instant is reached. Reads are exact when `now` equals the commit's clock and
  bounded from both sides otherwise, because a key may expire in between. Guarantees about what is live are for
  TTLs of at least 500 ms, which `TtlThreshold` shows to be exactly the TTLs that have them.
- **Ring.** Distinct virtual nodes have distinct base hashes where an owner must be unique, because sorting
  is unstable on ties. FNV-1a and URL parsing are parameters.
- **Rooms.** A client registers once, frames can be encoded, and a write pump's take is ordered before or
  after a whole fan-out (it touches only its own buffer). A shut-down room may still have clients.
- **Single-flight.** Coalescing is of *concurrent* misses: a request that missed may come back after the leader
  has finished and lead a fetch again. Replies are arbitrary and may
  change; only transparency is for an origin whose good replies always carry the object the hash names.
- **Webhooks.** The database may refuse an insert, or perform it and lose the answer; a row update may fail.
  Fan-outs may be handed any list of webhooks, and a process may start on any table its predecessors left. Outcomes, back-offs and cancellations are arbitrary.
- **Rooms in presence.** One instance serves the room, and its reports arrive in order and are not dropped.
- **Tickets.** A redemption's time is not before that of a sweep already done; a sweep's own time may be older
  than anything done since it read the clock. The random ticket id is an input.
- **Chat dispatcher.** Every send of a room's turn is a step of its own, and a room begins its next turn when
  they are all made.

## Model

| member | source | states |
|---|---|---|
| Decimal.FormatParse | presence-service/internal/repository/presence_repository.go:230 | a 64-bit user id printed in decimal is parsed back to itself, and contains no colon |
| PresenceAgreement.MemberRoundTrip | presence-service/internal/repository/presence_repository.go:222-253 | user and instance are both recovered from a member, whatever the instance id contains, so members never collide |
| PresenceAgreement.RoomKeysDistinct | presence-service/internal/repository/presence_repository.go:255-259 | room keys are injective and none is the index key |
| PresenceAgreement.KeysOutliveTtl | presence-service/internal/repository/presence_repository.go:71 | a key lives twice the TTL cut to whole seconds, for a write at least one second; it outlives the TTL from 500 ms on, and the script's is zero below |
| PresenceAgreement.ApplyAgrees | presence-service/internal/repository/presence_repository.go:45-131 | every transaction keeps the sorted sets in agreement with the last writes, whatever it prunes or expires |
| PresenceAgreement.ApplyIndexed | presence-service/internal/repository/presence_repository.go:60-112 | every transaction keeps each index score at the room's last write, and the entry while it and a member are live |
| PresenceAgreement.RunAgrees | presence-service/internal/repository/presence_repository.go:45-204 | over every run: each stored member is the encoding of a slot with its last stamp, each live slot is stored, and no key expires under a live member |
| PresenceAgreement.RunIndexed | presence-service/internal/repository/presence_repository.go:45-112 | over every run, the index is in step with the last write of each room |
| PresenceTheorems.ReadRefinesLastWrites | presence-service/internal/repository/presence_repository.go:114-131 | over every run, a read of a room misses nobody live at its commit and lists only users some instance's last write keeps live at its `now`; every member parses |
| PresenceTheorems.IndexReadComplete | presence-service/internal/repository/presence_repository.go:137-150 | the first transaction of ListRooms names every room live at its commit, if no room's last write is older than a live member's |
| PresenceTheorems.IndexCompleteIffCovered | presence-service/internal/repository/presence_repository.go:45-112 | for every history, the index names every live room from now on if and only if no room's last write is older than a live member's |
| PresenceTheorems.OrderedIsCovered | presence-service/internal/repository/presence_repository.go:48-55 | stamps taken in commit order meet that condition for every slot |
| PresenceTheorems.StampOrderMatters | presence-service/internal/repository/presence_repository.go:48-55 | two writes hide a live room if and only if the second stamp is older and the first write was still live |
| PresenceTheorems.ListRoomsInterleaved | presence-service/internal/repository/presence_repository.go:137-193 | with any transactions between the two snapshots and a covered index in the first, a room live in both is reported and a reported room has somebody live at `now` in the second |
| PresenceTheorems.TtlThreshold | presence-service/internal/repository/presence_repository.go:60-85 | for every TTL: no run ever loses a live member if and only if the TTL is at least 500 ms or negative |
| PresenceTheorems.ShortTtlLosesUser | presence-service/internal/repository/presence_repository.go:60-85 | from zero up to that, the user who stays is lost when another one leaves |
| PresenceTheorems.IdleRoomsReclaimed | presence-service/internal/repository/presence_repository.go:20-24 | over every run, a room's key is gone, read or not, once a key's life has passed since its last write or leave |
| PresenceTheorems.HeldIffWritten | presence-service/internal/repository/presence_repository.go:45-112 | a live score is stored if and only if it comes from the slot's last write |
| PresenceTheorems.InstancesDoNotInterfere | presence-service/internal/repository/presence_repository.go:60-112 | an instance's live entries after any run equal those of the run with every other instance's writes deleted |
| PresenceRepository.CollapseUsers | presence-service/internal/repository/presence_repository.go:222-245 | strictly ascending list of exactly the users named by the members, or an error exactly when some member does not start with a number |
| PresenceRepository.BuildMembers | presence-service/internal/repository/presence_repository.go:99-102 | the members of a heartbeat in the order of its users |
| PresenceRepository.CountUsers | presence-service/internal/repository/presence_repository.go:173-187 | the number of distinct users behind the members, zero when one is malformed |
| PresenceRepository.CountEach | presence-service/internal/repository/presence_repository.go:158-190 | sorted by name, exactly the named rooms with somebody in them, each with its own user count; pruning one room changes no other count |
| PresenceRepository.CountsBounded | presence-service/internal/repository/presence_repository.go:158-188 | over every run, a count lies between the users live at the commit and those live at `now`, and is zero for no live room |
| PresenceRepository.PresenceRepository.constructor | presence-service/internal/repository/presence_repository.go:38-43 | an empty store that agrees with an empty history |
| PresenceRepository.PresenceRepository.SetOnline | presence-service/internal/repository/presence_repository.go:45-58 | sets the last write of exactly its slot |
| PresenceRepository.PresenceRepository.SetOffline | presence-service/internal/repository/presence_repository.go:60-85 | removes exactly its slot's last write |
| PresenceRepository.PresenceRepository.Refresh | presence-service/internal/repository/presence_repository.go:90-112 | re-stamps exactly the given users of one instance in one room; no users, no change |
| PresenceRepository.PresenceRepository.ListOnline | presence-service/internal/repository/presence_repository.go:114-131 | ascending; from 500 ms of TTL on never an error, nobody live at the commit missing, nobody dead at `now` listed, and when the two instants coincide the one ascending list of the live users; last writes unchanged |
| PresenceRepository.PresenceRepository.ReadIndex | presence-service/internal/repository/presence_repository.go:141-150 | the indexed rooms not expired at `now`, each once; last writes unchanged |
| PresenceRepository.PresenceRepository.CountRooms | presence-service/internal/repository/presence_repository.go:158-192 | sorted by name, exactly the listed rooms with users in the second snapshot, each with that distinct-user count |
| PresenceRepository.PresenceRepository.ListRooms | presence-service/internal/repository/presence_repository.go:137-193 | uninterrupted, from 500 ms of TTL on: every live room (if the index is covered), no empty one, each count between the users live at the commit and at `now` |
| RoomProofs.FanOutSegments | chat-service/internal/ws/room.go:154-167 | a fan-out extends the frames of every member with room by exactly the new frame, leaves everybody else's alone, and keeps all of them gap-free |
| RoomProofs.FanOutNotified | chat-service/internal/ws/room.go:174-177 | a fan-out adds one offline for each member it drops and nothing for anybody else |
| RoomProofs.FanOutConserves | chat-service/internal/ws/room.go:154-177 | a fan-out lowers a user's net notifications by exactly the user's evicted sockets |
| RoomProofs.StepInv | chat-service/internal/ws/room.go:67-133 | each turn of the loop keeps all room invariants |
| RoomProofs.RunInv | chat-service/internal/ws/room.go:67-180 | over every run: frames of a connection are one contiguous segment from its own join frame, up to the latest while it is a member; online once, then at most one offline; net notifications equal open sockets; each channel closed at most once; archive calls are exactly the chat frames in order |
| RoomProofs.RunClosedIsFinal | chat-service/internal/ws/room.go:86-98 | from the moment a channel is closed to the end of any run, its contents are fixed |
| RoomTurns.RegisterDoes | chat-service/internal/ws/room.go:73-84 | in every run, a register sends online, then the join frame to exactly the members with a free slot and to the newcomer; only members with 16 frames waiting are dropped and reported |
| RoomTurns.UnregisterDoes | chat-service/internal/ws/room.go:86-98 | a member's channel is closed, the leave frame goes to the others with a free slot, offline comes last; an absent client changes nothing |
| RoomTurns.MessageDoes | chat-service/internal/ws/room.go:100-130 | frames and archive grow by exactly the chat frame with the content as sent; typing is not archived; malformed and empty change nothing |
| RoomTurns.TakeDoes | chat-service/internal/ws/client.go:79-100 | a pump frees one slot of its own buffer and nothing else |
| RoomLoop.ChatRoom.constructor | chat-service/internal/ws/room.go:44-59 | an empty room |
| RoomLoop.ChatRoom.BroadcastEvent | chat-service/internal/ws/room.go:137-180 | whatever the map order: a member with fewer than 16 frames waiting gets exactly the new frame and stays, one with 16 is closed and dropped, other channels are untouched, and those dropped are reported |
| RoomLoop.ChatRoom.NotifyOffline | chat-service/internal/ws/room.go:174-177 | one offline per evicted client, in eviction order |
| RoomLoop.ChatRoom.OnRegister | chat-service/internal/ws/room.go:73-84 | is the register step of the model: online first, then exactly the join frame |
| RoomLoop.ChatRoom.OnUnregister | chat-service/internal/ws/room.go:86-98 | is the unregister step: closed, the leave frame, offline last; nothing happens for a client already gone |
| RoomLoop.ChatRoom.OnMessage | chat-service/internal/ws/room.go:100-130 | is the message step: a chat frame with the sender's id and the content as sent goes out and is archived, typing only goes out, malformed and empty change nothing |
| RoomLoop.ChatRoom.UserIDs | chat-service/internal/ws/room.go:185-200 | each user with an open socket exactly once |
| RoomPresence.ListedIffLastJoin | chat-service/internal/ws/room.go:83-97 | presence, fed a room's reports, lists a user if and only if the last report about the user was a join at most a TTL ago |
| RoomPresence.NoGhosts | chat-service/internal/ws/room.go:73-98 | in every run, a user whose last report was a join has an open socket |
| RoomPresence.OpenSocketNotListed | chat-service/internal/ws/room.go:86-98 | a user with two sockets closes one and is not listed, though the other is open |
| RoomPresence.HeartbeatExact | chat-service/internal/ws/hub.go:80-98 | once the users with a socket are re-asserted, and for a TTL, presence lists exactly the users with an open socket |
| Fleet.RunInv | chat-service/internal/ws/hub.go:42-78 | over every run of flips, connects, leaves and reaps: mapped rooms are open and on their owner, open rooms are mapped or about to be shut down |
| Fleet.SameDefault | chat-service/internal/ws/handler.go:60-63 | both sides take a room as named and an omitted one as general |
| Fleet.SameKeyIffSameRequest | gateway/internal/loadbalancer/consistent_hash.go:120-129 | two requests have one key exactly when they name the same room, an omitted one being general |
| Fleet.OpenRoomUnique | chat-service/internal/ws/hub.go:67-78 | two open rooms of one name are the same object |
| Fleet.NoSplitRooms | gateway/internal/loadbalancer/consistent_hash.go:71-92 | over every run, connections asking for the same room, omitted meaning general, with rooms still open, hold the same room object of that name, on the instance the ring's lookup answers |
| Fleet.ConnectsToHealthyOwner | gateway/internal/loadbalancer/consistent_hash.go:71-80 | in every run a connection opens only on the healthy owner of its room, in the room mapped there, a new one only when there is none |
| Fleet.ReapsOnlyEmpty | chat-service/internal/ws/hub.go:56-61 | in every run a room leaves its hub's map only after the reaper saw it without clients |
| Fleet.ClientsMove | chat-service/internal/ws/room.go:73-92 | a client is in its room from registration to leave and in no other |
| Fleet.MappedIffOpen | chat-service/internal/ws/hub.go:51-62 | whenever the hub's lock is free, its map holds exactly its open rooms |
| Fleet.ShutDownOnce | chat-service/internal/ws/room.go:61-65 | no room is shut down twice |
| Fleet.RoomHub.constructor | chat-service/internal/ws/hub.go:21-32 | an empty hub |
| Fleet.RoomHub.GetOrCreateRoom | chat-service/internal/ws/hub.go:67-78 | the room under the name, a new one only when there is none, others untouched |
| Fleet.RoomHub.ReapEmptyRooms | chat-service/internal/ws/hub.go:55-62 | exactly the rooms that showed no clients leave the map, each shut down once |
| WorkQueue.ApplyInv | chat-service/internal/dispatch/dispatcher.go:175-198 | each send, take, finish, stop or last look keeps the queue's conservation law |
| WorkQueue.RunInv | chat-service/internal/dispatch/dispatcher.go:175-280 | over every run, accepted is taken followed by queued, and taken is handled plus in hand |
| WorkQueue.OffersSplit | chat-service/internal/dispatch/dispatcher.go:104-153 | every offer was accepted or dropped, and nothing else was |
| WorkQueue.Conservation | chat-service/internal/dispatch/dispatcher.go:175-280 | offers equal handled plus in hand plus queued plus dropped as multisets, and in order with a single worker |
| WorkQueue.DrainedBeforeExit | chat-service/internal/dispatch/dispatcher.go:236-247 | what was accepted before a worker's last empty look has been taken |
| WorkQueue.StrandedItems | notification-service/internal/dispatch/dispatcher.go:181-204 | once all workers are gone, the queue holds exactly what was accepted after the step at which the last one left |
| WorkQueue.Drain | chat-service/internal/dispatch/dispatcher.go:189-198 | an uninterrupted drain handles everything queued, in order, and leaves |
| ChatDispatch.RunInv | chat-service/internal/ws/room.go:67-133 | over every run of many rooms and workers, with every send a step of its own, each room's sends made and still due are exactly its notices and its chat frames, in order |
| ChatDispatch.RunKeepsQueues | chat-service/internal/dispatch/dispatcher.go:104-280 | the three queues keep their conservation laws in every run |
| ChatDispatch.ArchiveFidelity | chat-service/internal/dispatch/dispatcher.go:222-255 | per room, the chat frames are those offered and those the current turn has still to send; the accepted ones are, in order and field by field, the Create calls made, the one in hand and those queued; the rest were dropped on a full queue |
| ChatDispatch.PresenceFidelity | chat-service/internal/dispatch/dispatcher.go:175-217 | presence events are sent in the order the room made them, less those dropped |
| ChatDispatch.NotifyFidelity | chat-service/internal/dispatch/dispatcher.go:140-152 | with a notification client every chat frame is also offered, in order, as a message event, and the pool accounts for the accepted ones |
| ChatDispatch.ChatDispatcher.constructor | chat-service/internal/dispatch/dispatcher.go:80-99 | empty queues of the given sizes and pools |
| ChatDispatch.ChatDispatcher.Notify | chat-service/internal/dispatch/dispatcher.go:104-113 | never blocks; queued when there is room, dropped otherwise; recorded as an offer of its room either way |
| ChatDispatch.ChatDispatcher.SendToArchive | chat-service/internal/dispatch/dispatcher.go:133-138 | never blocks: queued at the end when there is room, the queue as it was otherwise |
| ChatDispatch.ChatDispatcher.SendToNotify | chat-service/internal/dispatch/dispatcher.go:144-152 | the same for the notify queue |
| ChatDispatch.CallsCarryId | chat-service/internal/dispatch/dispatcher.go:124-131 | the archive call and the message event of one chat message carry the one id made for it |
| ChatDispatch.ChatDispatcher.Archive | chat-service/internal/dispatch/dispatcher.go:124-153 | two independent offers of one event with the given id and the frame's own fields, the second only with a notification client |
| Delivery.Deliver | notification-service/internal/service/deliverer.go:57-115 | for all outcomes and cancellations: one to four posts, only retryable ones retried, stop at the first status below 500; pending records with counted attempts, then one terminal record, delivered if and only if the last post was a 2xx, its attempts and status those of the posts made |
| Delivery.ErrorColumnKeeps | notification-service/internal/service/deliverer.go:141-148 | no error is null; otherwise the text, or its first 512 characters |
| Fanout.CreateKeeps | db/notification_schema.sql:40-54 | an insert, failed or not, keeps (event, user) unique and every other row as it was |
| Fanout.DeliveryRepository.constructor | notification-service/internal/repository/delivery_repository.go:23-25 | an empty table |
| Fanout.DeliveryRepository.Create | notification-service/internal/repository/delivery_repository.go:27-47 | a new row under a new id, or duplicate exactly when the key is taken, or an error with or without the row |
| Fanout.DeliveryRepository.RecordAttempt | notification-service/internal/repository/delivery_repository.go:49-55 | changes only the last record of the one row, if it exists |
| Fanout.ListByUserIDs | notification-service/internal/repository/webhook_repository.go:57-84 | exactly the given users that have a webhook, each once |
| Fanout.Candidates | notification-service/internal/service/fanout_service.go:82-93 | exactly the subscribers who are neither the sender nor online |
| Fanout.FanoutService.constructor | notification-service/internal/service/fanout_service.go:36-48 | works on the given table |
| Fanout.FanoutService.CreateRows | notification-service/internal/service/fanout_service.go:100-125 | a recipient with a fresh pending row for each user without one, none for replays; old rows untouched even when it fails |
| Fanout.FanoutService.Recipients | notification-service/internal/service/fanout_service.go:66-126 | a wanted user is a recipient, with the webhook's url, if and only if (event, user) had no row before; a presence outage counts nobody as online; with both listings answered and no database fault it succeeds |
| WebhookProofs.ApplyInv | notification-service/internal/dispatch/dispatcher.go:126-204 | every step of fan-out, pool, database or shutdown keeps the pipeline's invariant |
| WebhookProofs.RunInv | notification-service/internal/dispatch/dispatcher.go:126-210 | the same over every run |
| WebhookProofs.AtMostOneDelivery | notification-service/internal/service/fanout_service.go:100-123 | from any table, in every run no two Deliver calls are for the same event and user, under replays, outages and database errors |
| WebhookProofs.RunOffers | notification-service/internal/dispatch/dispatcher.go:159-179 | over every run, the jobs put to the delivery channel have pairwise distinct rows, and each is queued, dropped, in hand or done |
| WebhookProofs.AtMostOneJob | notification-service/internal/dispatch/dispatcher.go:159-179 | in every run no two jobs put to the delivery channel, taken or dropped, are for the same event and user |
| WebhookProofs.RowStepMonotone | notification-service/internal/repository/delivery_repository.go:49-55 | a step never changes a final row and never lowers attempts |
| WebhookProofs.RowsMonotone | notification-service/internal/repository/delivery_repository.go:27-55 | from any point of any run to any later one, a row stays, keeps its key, counts up and never leaves delivered or failed |
| WebhookRecords.RowIsLastWritten | notification-service/internal/repository/delivery_repository.go:49-55 | in every run a row's status, attempts, last status and error are those of the latest record that reached the database for it, or as inserted |
| WebhookRecords.DeliveredIffWritten | notification-service/internal/service/deliverer.go:92-96 | a row inserted in the run is delivered exactly when the latest record that got through says so |
| WebhookRecords.TrailGoesOn | notification-service/internal/service/deliverer.go:75-105 | a worker writes the records of its own job one after the other, whatever the others do; while all get through the row is at the last one |
| WebhookRecords.FinishedRowHoldsVerdict | notification-service/internal/service/deliverer.go:107-115 | when a delivery finishes with all its writes through, its row holds the last record of its trail |
| WebhookProofs.DeliveriesAccounted | notification-service/internal/dispatch/dispatcher.go:159-204 | every resolved delivery is delivered, in one worker's hand, queued, dropped on a full queue, still with the fan-out, or of a failed fan-out and never put to the channel |
| WebhookPipeline.WebhookDispatcher.constructor | notification-service/internal/dispatch/dispatcher.go:58-78 | empty channels and the pool |
| WebhookPipeline.WebhookDispatcher.Enqueue | notification-service/internal/dispatch/dispatcher.go:82-91 | accepts exactly when there is room |
| WebhookPipeline.WebhookDispatcher.PushAll | notification-service/internal/dispatch/dispatcher.go:169-178 | with the workers doing anything in between: every job is offered once, in order, and the channel keeps its laws; undisturbed, the longest prefix that fits is queued and the rest dropped |
| WebhookShutdown.ChannelsAreQueues | notification-service/internal/dispatch/dispatcher.go:126-210 | in every run both channels have gone through runs of the work queue, so its laws hold of them |
| WebhookShutdown.ChannelsConserve | notification-service/internal/dispatch/dispatcher.go:82-204 | accepted events are fanned out in order, in hand or queued; jobs are delivered, in hand, queued or dropped |
| WebhookClose.QuietClose | notification-service/internal/dispatch/dispatcher.go:93-124 | if the fan-out rests, no event waits and some delivery worker is still there, then without another event the workers are gone only when nothing is queued |
| WebhookClose.NothingLeftStays | notification-service/internal/dispatch/dispatcher.go:126-204 | with nothing left to resolve, no continuation without another event resolves or strands anything |
| WebhookClose.StrandsFrom | notification-service/internal/dispatch/dispatcher.go:126-204 | from any state with something left, some continuation without another event ends with both pools gone and a job queued |
| WebhookClose.AttemptsAllIffNothingLeft | notification-service/internal/dispatch/dispatcher.go:93-124 | for every reachable state and any number of workers: every continuation without another event attempts all it queues if and only if the fan-out has nothing left to resolve and nothing is stranded already |
| WebhookClose.StrandedDelivery | notification-service/internal/dispatch/dispatcher.go:93-124 | with one accepted event that has a user without a row, from any table: a run in which everybody has left and a job is queued, its row as inserted |
| WebhookReplays.LostNeverDelivered | notification-service/internal/service/fanout_service.go:110-121 | once nobody has a job for a row, no continuation makes a Deliver call for its event and user |
| WebhookReplays.NobodyTakesAfter | notification-service/internal/dispatch/dispatcher.go:181-204 | once all delivery workers have left, no continuation makes a Deliver call |
| WebhookReplays.CallPossible | notification-service/internal/dispatch/dispatcher.go:126-204 | a row somebody has a job for gets its call in some continuation while a delivery worker is left |
| WebhookReplays.NeverCalledIff | notification-service/internal/service/fanout_service.go:110-121 | for every row of every reachable state: no continuation ever calls it if and only if nobody has a job for it, or all workers have left before it was called |
| WebhookReplays.FailedFanoutLosesRow | notification-service/internal/service/fanout_service.go:117-121 | a run whose fan-out fails after its first insert, and whose first recipient is never called in any continuation |
| WebhookReplays.PersistedNeverDelivered | notification-service/internal/repository/delivery_repository.go:27-47 | a process never delivers to anybody who already had a row when it started |
| WebhookProcesses.StartDoes | notification-service/internal/dispatch/dispatcher.go:58-78 | in any run a new process has its own empty queues and idle workers, and disturbs nobody |
| WebhookProcesses.StepDoes | notification-service/internal/repository/delivery_repository.go:27-55 | a process's step is the pipeline's on the common table and moves no other process |
| WebhookProcesses.RunInv | db/notification_schema.sql:40-54 | any number of processes starting, overlapping and crashing on one table: each keeps its invariant, and no two resolve the same row |
| WebhookProcesses.AtMostOneJobAcrossProcesses | db/notification_schema.sql:53 | of all jobs put to any process's channel, no two are for the same event and user |
| WebhookProcesses.AtMostOnceAcrossProcesses | notification-service/internal/repository/delivery_repository.go:27-47 | the same of all Deliver calls ever made, across overlap, crashes and restarts |
| EdgeCache.FitLongest | gateway/internal/edgecache/cache.go:85-91 | what survives an eviction is the longest most-recent prefix within the budget |
| EdgeCache.FitDropLast | gateway/internal/edgecache/cache.go:85-91 | evicting from the cold end while over budget does not change what will fit |
| EdgeCache.WithoutIsOthers | gateway/internal/edgecache/cache.go:78-83 | removing a key leaves the others in their order |
| EdgeCache.PutDoes | gateway/internal/edgecache/cache.go:69-98 | nothing over either cap; otherwise the item first and the longest prefix of the others within maxBytes |
| EdgeCache.CacheIsRecencyPrefix | gateway/internal/edgecache/cache.go:51-98 | after every run with content-addressed keys, the cache is the longest fitting prefix of the unbounded recency stack |
| EdgeCache.Cache.constructor | gateway/internal/edgecache/cache.go:42-49 | an empty cache |
| EdgeCache.Cache.Get | gateway/internal/edgecache/cache.go:51-65 | the stored entry moved to the front on a hit, nothing moved on a miss; one counter bumped; list, map and byte count agree |
| EdgeCache.Cache.Put | gateway/internal/edgecache/cache.go:69-98 | stored exactly when within both caps; the entry first and the longest fitting most-recent prefix of the others after it, within maxBytes |
| EdgeCache.Cache.MakeRoom | gateway/internal/edgecache/cache.go:85-91 | the eviction loop leaves that prefix; the empty-list break is never reached |
| EdgeCache.Cache.Detach | gateway/internal/edgecache/cache.go:78-83 | removes the key from list, map and byte count |
| EdgeCache.Cache.Evict | gateway/internal/edgecache/cache.go:100-105 | removes exactly the least recently used item |
| SingleFlight.FetchGivesObject | gateway/internal/edgecache/handler.go:136-171 | what a fetch keeps of an immutable origin's reply is its object, tagged and within the cap |
| EdgeAnswers.ContainsIsSubstring | gateway/internal/edgecache/handler.go:150 | the immutable test finds exactly a substring |
| EdgeAnswers.FetchKeepsIff | gateway/internal/edgecache/handler.go:136-171 | an entry is kept of exactly the 200s that are tagged, marked immutable, announced and found within the cap and read to the end, with their body, type and tag |
| EdgeAnswers.FetchFailsIff | gateway/internal/edgecache/handler.go:137-160 | it fails exactly on a transport error or an unreadable body of a reply to keep; otherwise the status is the reply's |
| EdgeAnswers.FlightAnswers | gateway/internal/edgecache/handler.go:73-103 | in every run, leader and waiters get 502, the status, a stream or the flight's entry, as a 304 exactly when the client's non-empty tag is the entry's |
| EdgeAnswers.LookUpDoes | gateway/internal/edgecache/handler.go:61-65 | a hit is answered from the cached entry, 304 or full as its tag decides, and becomes the most recent; a miss changes nothing cached |
| EdgeAnswers.JoinDoes | gateway/internal/edgecache/handler.go:107-116 | a miss waits exactly when a fetch of its hash is unreleased, on that one, and leads a new one otherwise |
| EdgeAnswers.FetchDoes | gateway/internal/edgecache/handler.go:120 | the flight's result is what fetch makes of the reply |
| EdgeAnswers.StoreDoes | gateway/internal/edgecache/handler.go:121-123 | an entry within the caps is the cache's most recent before any waiter is released |
| EdgeAnswers.CloseDoes | gateway/internal/edgecache/handler.go:125-128 | a flight is closed after it has left the in-flight table |
| EdgeAnswers.PassDoes | gateway/internal/edgecache/handler.go:176-192 | a request that bypasses the cache fetches on its own and is streamed that reply, or told 502; nothing is cached |
| SingleFlight.ApplyInv | gateway/internal/edgecache/handler.go:56-131 | every step of every request keeps the protocol's invariant, whatever the origin replies |
| SingleFlight.RunInv | gateway/internal/edgecache/handler.go:56-131 | the same over every interleaving |
| SingleFlight.FlightStable | gateway/internal/edgecache/handler.go:118-128 | a flight's result never changes once set, and closing is final |
| SingleFlight.OneCoalescedFetch | gateway/internal/edgecache/handler.go:105-131 | at every point at most one unreleased coalesced fetch per hash, and the in-flight table names exactly those |
| OriginFetches.OwnFetchIffUncached | gateway/internal/edgecache/handler.go:73-91 | over every run, a request fetches on its own only if its flight's result is an uncached 200, and by the time it is answered if and only if |
| OriginFetches.OneFetchIfKeepable | gateway/internal/edgecache/handler.go:105-171 | while no reply for a hash is a 200 of which fetch keeps no entry, at most one origin fetch of it is running, coalesced or not |
| OriginFetches.TwoFetchesAtOnce | gateway/internal/edgecache/handler.go:78-85 | two clients of an object of which fetch keeps no entry end up fetching it at the same time |
| OriginFetches.OneFetchIffKeepable | gateway/internal/edgecache/handler.go:31-36 | for an origin with one reply per hash: never two fetches of it at once, in any run, if and only if that reply is not a 200 of which fetch keeps no entry |
| SingleFlight.WaitersShareResult | gateway/internal/edgecache/handler.go:107-113 | everybody who joined a flight ends as its one result says |
| SingleFlight.RunTransparent | gateway/internal/edgecache/handler.go:93-171 | over every run with an immutable origin's replies: cache, flights and answers hold the origin's objects only |
| SingleFlight.CacheTransparent | gateway/internal/edgecache/handler.go:93-103 | for an immutable origin, every answer served from an entry is a 304 if and only if the client's non-empty tag is the object's, and the origin's object otherwise |
| Mix64.ShiftAndXor | gateway/internal/loadbalancer/consistent_hash.go:112 | xor with the word divided by 2^33 is the bitwise xor-shift |
| Mix64.Mix64 | gateway/internal/loadbalancer/consistent_hash.go:111-118 | the step-by-step finalizer has an inverse that gives its input back |
| Mix64.XorShiftInvolution | gateway/internal/loadbalancer/consistent_hash.go:112 | xor-shift by 33 is self-inverse |
| Mix64.MultipliersInvertible | gateway/internal/loadbalancer/consistent_hash.go:113-115 | both multipliers are invertible modulo 2^64, on either side |
| Mix64.MixBijective | gateway/internal/loadbalancer/consistent_hash.go:111-118 | the finalizer is a bijection on 64-bit words |
| Ring.LabelsDistinct | gateway/internal/loadbalancer/consistent_hash.go:55-58 | no two virtual nodes share a label, whatever the hosts are called |
| Ring.MixAddsNoCollision | gateway/internal/loadbalancer/consistent_hash.go:105-109 | a key's hash is the finalizer of its base hash, and two keys collide after it if and only if they did before |
| Ring.OwnerUnique | gateway/internal/loadbalancer/consistent_hash.go:83-92 | every hash has at most one owner |
| Ring.MinimalMovement | gateway/internal/loadbalancer/consistent_hash.go:51-92 | adding backends moves a key only to an added one; removing moves only the removed one's keys |
| Ring.BuildRing | gateway/internal/loadbalancer/consistent_hash.go:51-67 | exactly the virtual nodes of the backends, 150 each, in hash order |
| Ring.Search | gateway/internal/loadbalancer/consistent_hash.go:86 | the first index at or after the hash |
| Ring.SuccessorNearest | gateway/internal/loadbalancer/consistent_hash.go:82-92 | the successor in hash order, with wrap-around, is at the least clockwise distance of all points |
| Ring.Lookup | gateway/internal/loadbalancer/consistent_hash.go:83-92 | binary search with wrap-around answers what the linear clockwise walk does |
| Ring.LookupOwns | gateway/internal/loadbalancer/consistent_hash.go:83-92 | the answer is the backend owning the clockwise-nearest point |
| Ring.Pick | gateway/internal/loadbalancer/consistent_hash.go:71-80 | the lookup's backend if healthy, otherwise an error naming it and the key; nobody takes its place |
| Ring.LookupIgnoresOrder | gateway/internal/loadbalancer/consistent_hash.go:51-92 | two rings over the same backends, configured in any order, answer every key alike |
| Ring.LookupMovesMinimally | gateway/internal/loadbalancer/consistent_hash.go:51-92 | after backends are added, a key's lookup answers as before or an added backend |
| RoundRobin.FairRounds | gateway/internal/loadbalancer/round_robin.go:22-34 | over a constant healthy list of n, k * n consecutive picks land on each instance exactly k times, unless the counter wraps on the way and n does not divide 2^64 |
| RoundRobin.FairIffDividesWordSize | gateway/internal/loadbalancer/round_robin.go:22-34 | every round from every counter value is fair if and only if n divides 2^64 |
| RoundRobin.FilterConcat | gateway/internal/loadbalancer/pool.go:67-76 | filtering keeps the configuration order |
| RoundRobin.Healthy | gateway/internal/loadbalancer/pool.go:67-76 | exactly the healthy backends, in configuration order |
| RoundRobin.Balancer.constructor | gateway/internal/loadbalancer/round_robin.go:16-18 | the counter starts at zero |
| RoundRobin.Balancer.Pick | gateway/internal/loadbalancer/round_robin.go:22-34 | the healthy instance whose turn it is, one counter value used; an error and no turn used when nobody is healthy |
| Ring.NewPool | gateway/internal/loadbalancer/pool.go:31-59 | accepted exactly when non-empty, every URL has a host and no host repeats; keeps configuration order |
| Tickets.RedeemAnswersExpected | gateway/internal/service/ticket_service.go:77-93 | over every run, a redemption answers the last issue's identity if not redeemed since and within its TTL, whatever was reaped, however late a sweep got the lock |
| Tickets.ReaperUnobservable | gateway/internal/service/ticket_service.go:111-120 | deleting every sweep from a run changes no answer |
| Tickets.SuccessPerIssue | gateway/internal/service/ticket_service.go:75-93 | a ticket succeeds at most once per issue |
| Tickets.SuccessHasIssue | gateway/internal/service/ticket_service.go:55-93 | a success has an issue of that ticket, with that identity, at most a TTL old and not redeemed since |
| Tickets.TicketService.constructor | gateway/internal/service/ticket_service.go:40-49 | no tickets |
| Tickets.TicketService.Issue | gateway/internal/service/ticket_service.go:55-73 | records one issue, or nothing when there is no randomness |
| Tickets.TicketService.Redeem | gateway/internal/service/ticket_service.go:77-93 | answers as the run so far requires, and the ticket is gone |
| Tickets.TicketService.ReapOnce | gateway/internal/service/ticket_service.go:111-120 | removes exactly the tickets past their TTL |

## Left out

- HTTP handlers, proxies, request ids, loggers, configuration and wiring: I/O plumbing.
- JWT, bcrypt, HMAC signing, SHA-256 and FNV-1a: library calls; the base hash is a parameter.
- WebSocket pumps, ping timers and origin checks: socket timing; a pump is only the take of a frame.
- Outbound destination filtering, URL validation and DNS: network-library behaviour.
- The media store on disk: filesystem semantics.
- Room-name, instance-id and event validators, message pages, ListByUserID: easy members.
- Health probing: health is an arbitrary flip.
- Hub.Snapshot, Hub.ListRooms, Cache.Stats and the ticker loops: easy members over the same state.
- The presence client's retries, and the timing of the heartbeat.
- Network and Redis errors of the presence repository: a failed transaction is no transaction.
- The order in which Redis and MySQL yield members and webhooks: arbitrary, callers sort or do not depend on it.
- Scores as floats: milliseconds are exact below 2^53; a TTL's fraction of a millisecond is dropped.
- MySQL's collation and CHAR padding of event ids: keys are equal when their strings are.
- Sorting in place: a function on sequences, insertion sort instead of the library's algorithm.
- Int64 overflow of used+size in the cache: integers are unbounded.
- X-Cache headers, log lines and the headers copied by passthrough.
- The order in which the notify worker pool finishes events: the pool's laws are on multisets.
- The single-flight handler as a class with a mutex: its steps are modelled on values, as an interleaved state machine.
- Waiting for drains with a timeout in Close: shutdown is the stop signal, a cancelled context an outcome.
- AttemptsAllIffNothingLeft: for a pool of at least one delivery worker; with none, none is ever gone.
- CacheIsRecencyPrefix: for keys whose stored size never changes, as content addressing gives; Put and Get are stated without that.
