# Brenox engine: a verified model

This project models the concurrent and arithmetic core of the Brenox chat engine in Dafny and proves
what that core keeps over whole runs. `dafny verify dfyconfig.toml` checks all of it. One module per
component:

- **Presence.** `Presence` is the meaning: a multiset of `(user, workspace, channel)` connections and a
  status per user. `MemoryStore` (nested maps) and `RedisStore` (counters, sets and hashes under printed
  string keys) are two classes proved to represent that machine operation by operation;
  `StoreAgreement` drives both through one run. `PresenceKeys`, `Topics`, `Decimal` and `Fields` are
  the printers and parsers. That every Redis write touches one entity only is a consequence of their
  injectivity, not an assumption.
- **Nodes.** `Hub` is one node: its maps, counters, send buffers and reference-counted subscriptions
  (`Broker`). `Cluster` is any number of hubs sharing one presence store, with each registration split
  into its map update and its script call. `Publishing` adds the publish that follows a script as a step
  of its own, and `ClusterNotices` carries that to the nodes. `Delivery` follows sequence numbers, copies
  in transit, deliveries and closes of send channels; `Sends` splits a delivery into the copy of its
  targets and the sends. `Admission` covers the gap between the connection limit check and the
  registration.
- **Calls.** `CallRows` and `Calls`: the call lifecycle over participant rows, recordings, and video
  minutes posted to the owner's pool, one method at a time. `CallRaces`: initiating, joining and leaving
  as the separate queries they are, run by requests that overlap freely.
- **Rate limiting.** `Limiter`: the in-memory sliding window on reused backing arrays, and the fixed
  window of the Redis variant.
- **Check-then-act protocols.** `Gate` (limits on call participants and sandbox rows),
  `Quota` (message quota), `Provisioning` (user provisioning), `Tokens` (rotation and suspension; claims
  as in sections 4.1.4, 4.1.6 and 4.1.7 of RFC 7519).
- **Text and caches.** `Origins` (the cached origin check), `Slug` (the slug pipeline and its pattern),
  `Text` (trimming). `Base`, `Clients` and `Sums` are shared.

Where the code works by changing state, the model is a class whose methods are proved against a
specification function; interleaving protocols are step functions over runs (`Exec`), and their main
results hold for every run, or for every run that meets the condition they name.

## What the proofs brought out

- The two presence stores show the same statuses on a matched run if and only if no user connects
  afresh with a stored `away` (`Presence.StoresAgreeIff`): memory keeps that status, Redis overwrites it.
- An unmatched disconnect of a connected user leaves either store in a state that stands for no set of
  connections at all; any other disconnect is absorbed exactly.
- The shared presence store is exact throughout a run if and only if no shutdown of the run catches a
  client between the map update and the presence script of its registration
  (`Cluster.ExactIffClean`). Such a shutdown runs the disconnect before the connect, and can leave a
  user online with no client anywhere.
- A presence script answers in one step and its notice is published in a later one, so notices of two
  nodes can cross: online, online, offline for a connected user (`ClusterNotices.NoticesCross`). What is
  published about each user alternates at every moment, whichever waiting notice comes next, if and only
  if no two notices of one user ever wait together; on a single node before its shutdown they never do.
- When no two notices about anyone ever wait together, then whenever no notice about a user waits, what
  was published to a channel tells whether the user is online, in turn, if and only if every notice
  published about the user went to that channel (`Publishing.InformedIffPublishedThere`): a notice goes
  only to the channel of the first connection or of the last disconnect. Without the condition, a
  channel that gets every notice can be told out of turn (`Publishing.CrossedThere`).
- A delivery sends on a closed channel if and only if a client is copied by it before the client's close
  and served by it after (`Sends.PanicIffLate`).
- Calls are not database transactions, no index keeps a channel to one live call, and no status update
  looks at the status it replaces. With initiations of a channel overlapping `n` deep past their check,
  it has at most `n` live calls plus one for every update that found its call ended already
  (`CallRaces.LiveCallsBounded`). Such updates happen: two overlapping initiations at a time, by one user,
  are enough for any number of live calls (`CallRaces.TwoAreEnough`), and a join that is late to set its
  call to active revives it with nobody in it (`CallRaces.RevivedEmpty`).
- Run without overlap, the queries of these operations do what the methods of `Calls` promise
  (`CallRaces.LeaveAlone`, `JoinAlone`, `InitiateAlone`, `InitiateOverAlone`).
- A call is metered once for every update to `ended`, so it is charged twice when the last two
  participants leave at once (`CallRaces.ChargedTwice`); `CallRaces.ChargedMoreThanOnce` says exactly
  when a call is charged more than once.
- With `n` overlapping joins a call holds up to `limit + n - 1` participants, and the sandbox's cap on
  users overshoots alike. Its caps on channels and messages are checked by the developer API only: every
  channel or message that the channel and chat services insert into the sandbox workspace can come on
  top (`Gate.Overshoot`, `Gate.OvershootReached`).
- Choosing a status and writing it are two Redis commands. The write stores a connected user as offline
  exactly when offline was asked for while disconnected and a connection came in between
  (`Presence.LateStatus`).
- The fixed window admits at most `2 * limit - 1` requests in any interval of the window's length that
  excludes its left end, and a run reaches that number. The sliding window keeps its bound when times
  never go back. The clock is read before the lock, so times can go back; the bound survives every
  order of the times if and only if the limit is one (`Limiter.AnyOrderIffLimitOne`).
- The charged minutes are one short of the ceiling exactly when a call of at least a minute runs less
  than one second into its last minute (`CallRows.MinutesAgainstCeiling`). docs/WEBRTC_CLIENT.md:186
  says "ceil minutes"; the model follows the code.
- An external id is linked only to a user with the email it was provisioned with or, case aside, the
  username (`Provisioning.LinkedUserIsNamed`). Provisioning a second external id that names a user who is
  linked already in the same app and environment fails (`Provisioning.FoundAlone`).
- Refreshing is not one transaction. A refresh family has one live token plus one for each refresh that
  wrote although its token had been rotated away since it was checked, so it is a chain with one
  live token when refreshes of one token do not overlap.
- After a suspension is lifted, a token issued after it, but within the same second, is still refused,
  because `iat` is cut to whole seconds. No token issued before it is ever accepted again, or passes
  the checks of a refresh. A whole refresh family ends with a suspension if and only if none of its
  refreshes has passed its checks and not written yet, and no live token of it was issued on the very
  tick of the suspension (`Tokens.FamilyOutlivesIff`): a refresh in flight writes a successor that is
  accepted once the suspension is lifted.
- The bounds `limit + n - 1` for `n` overlapping senders and `max + n - 1` for `n` overlapping upgrades
  are reached for every limit and `n`.

## Model

| member | source | states |
|---|---|---|
| Decimal.ParseFormat | internal/presence/keys.go:25-67 | Every int64, negative ones included, is read back from its decimal print |
| PresenceKeys.ReadPrinted | internal/presence/keys.go:25-47 | A printed key of any of the six families names exactly one entity |
| PresenceKeys.PrintInjective | internal/presence/keys.go:25-47 | The six key families are injective and pairwise disjoint |
| PresenceKeys.RefRoundTrip | internal/presence/keys.go:49-67 | Parsing a printed channel reference returns the original pair |
| Topics.UserTopicRoundTrip | internal/realtime/user_topics.go:8-18 | Parsing a user topic returns its user |
| Topics.ChannelTopicIsNotUserTopic | internal/realtime/user_topics.go:8-18 | No channel topic is ever read as a user topic |
| Topics.ChannelTopicInjective | internal/realtime/topics.go:6-9 | Different channels have different topics |
| Topics.TopicsDisjoint | internal/realtime/topics.go:6-13 | No channel shares a topic with a user |
| Topics.UserTopicInjective | internal/realtime/topics.go:11-13 | Different users have different topics |
| Presence.StepWellFormed | internal/presence/memory_store.go:34-129 | Matched operations never leave a connected user stored as offline |
| Presence.LateStatus | internal/presence/redis_store.go:172-183 | A status written later than it was chosen stores a connected user as offline exactly when offline was asked for while disconnected and a connection came in between |
| Presence.SetStatusShows | internal/presence/redis_store.go:168-189 | Either store: after a set, a user without a connection shows offline and is stored as asked; a connected one shows what was asked, or away for offline; nobody else and no connection changes |
| Presence.ConnectShows | internal/presence/redis_store.go:11-50 | Either store: a first connection shows the user online, but for an away kept in memory, a further one changes nothing shown; the answer is the new count and whether it is the first |
| Presence.DisconnectShows | internal/presence/redis_store.go:52-92 | Either store: the last disconnect leaves the user offline, shown and stored, an earlier one changes nothing shown; the answer is the count left and whether it is zero |
| Presence.CountedConnections | internal/presence/keys.go:25-47 | A user's counts are positive exactly when a connection of that user, or of that user in that workspace, exists, and a channel's count is the number of its connections |
| Presence.RunWellFormed | internal/presence/memory_store.go:34-129 | The same over every matched run, for either store |
| Presence.NoticeStep | internal/presence/service.go:36-56 | A matched step calls for a notice about a user exactly when the user's count leaves or reaches zero, with the new flag |
| Presence.NoticeOfStep | internal/presence/service.go:36-56 | A notice names the user and goes to the channel of the connection that is the user's first, or was the last |
| Presence.NoticesAlternate | internal/presence/redis_store.go:41-49 | On every matched run the answers about each user, in the order of the scripts, strictly alternate, starting with online, the last one telling whether the user is connected |
| Presence.StoresAgreeIff | internal/presence/memory_store.go:34-62 | The stores show the same statuses at every moment of a matched run if and only if no user connects afresh with a stored away status |
| Presence.StoresAgreeWhenSetWhileConnected | internal/presence/redis_store.go:168-189 | They do when statuses are only set while connected |
| Presence.AwayBeforeConnectDisagrees | internal/presence/redis_store.go:41-46 | A concrete run on which they do not |
| MemoryStore.HoldsLess | internal/presence/memory_store.go:228-232 | Taking one connection out of the nested maps keeps them exact and without empty entries |
| MemoryStore.FitsAgain | internal/presence/memory_store.go:34-104 | If one user's record and memberships are right after a change, the whole store is |
| MemoryStore.Store.Connect | internal/presence/memory_store.go:34-63 | Represents one connection more, with the right count and became-online flag |
| MemoryStore.Store.Disconnect | internal/presence/memory_store.go:65-104 | Represents one connection less exactly when the disconnect can be absorbed, otherwise represents nothing; right answer for a live connection |
| MemoryStore.Store.SetStatus | internal/presence/memory_store.go:118-129 | Stores the status, and answers what was asked, with away for offline, while connected, offline otherwise |
| MemoryStore.Store.GetShows | internal/presence/memory_store.go:131-145 | Get answers what the represented connections and statuses say |
| MemoryStore.Store.ListOnline | internal/presence/memory_store.go:147-160 | Lists each user with a connection once, with what Get answers, and nobody else |
| MemoryStore.Store.ListWorkspaceOnlineUserIDs | internal/presence/memory_store.go:162-172 | Lists each user with a connection in the workspace once, and nobody else |
| MemoryStore.Store.ActiveChannels | internal/presence/memory_store.go:174-192 | Lists each channel the user has a connection on once |
| RedisStore.WriteFrame | internal/presence/keys.go:25-47 | Writing one printed key changes no other entity |
| RedisStore.OtherKey | internal/presence/redis_store.go:11-92 | Keys a script is not given keep holding what they must |
| RedisStore.OnlineAfterLeave | internal/presence/redis_store.go:52-92 | Who is online, globally and in the workspace, once a connection has gone |
| RedisStore.Misfit | internal/presence/redis_store.go:52-92 | Counters whose global count differs from the channel counts stand for no set of connections |
| RedisStore.Store.Connect | internal/presence/redis_store.go:11-50 | The connect script represents one connection more and answers as the map store does |
| RedisStore.Store.Disconnect | internal/presence/redis_store.go:52-92 | The disconnect script represents one connection less exactly when it can be absorbed, otherwise represents nothing |
| RedisStore.Store.ChooseStatus | internal/presence/redis_store.go:172-178 | Chooses away when offline is asked for a connected user, and what is asked otherwise |
| RedisStore.Store.WriteStatus | internal/presence/redis_store.go:180-186 | Writes a status into whatever state the store then represents, and changes nothing else |
| RedisStore.Store.SetStatus | internal/presence/redis_store.go:168-189 | Both commands and the read with nothing in between: the status step; answers what was asked, with away for offline, while connected, offline otherwise |
| RedisStore.Store.GetShows | internal/presence/redis_store.go:191-221 | Get answers what the represented connections and statuses say |
| RedisStore.Store.ListOnline | internal/presence/redis_store.go:223-244 | Lists each user with a connection once, and nobody else, after printing and parsing the ids |
| RedisStore.Store.ListWorkspaceOnlineUserIDs | internal/presence/redis_store.go:246-261 | The same for a workspace |
| RedisStore.Store.ActiveChannels | internal/presence/redis_store.go:263-277 | Lists each channel the user has a connection on once, after printing and parsing the references |
| StoreAgreement.StepBoth | internal/presence/redis_store.go:103-189 | One matched operation gets the same answer from both stores |
| StoreAgreement.Lockstep | internal/presence/memory_store.go:34-129 | On every matched run all answers agree, and the observed statuses agree if and only if nobody connects afresh with a stored away status |
| Cluster.Reachable | internal/realtime/hub.go:130-208 | On every run of any number of hubs in which no shutdown catches a registering client (a clean run): for every scope the shared count is the number of live clients of all nodes, and no disconnect script runs without its connection |
| Cluster.ShutDownStep | internal/realtime/hub.go:259-283 | Shutting a client down keeps that, unless its connect script has not run yet |
| Cluster.CountIsSum | internal/realtime/hub.go:130-208 | On every clean run a user's shared connection count is the sum over all hubs, up to clients between map update and script call |
| Cluster.OnlineIffLiveClient | internal/presence/redis_store.go:11-92 | On every clean run a user is online, globally or in a workspace, exactly while some node holds a live client in that scope |
| Cluster.ConnectionIffClient | internal/realtime/hub.go:130-208 | On every clean run the store holds a connection of a user to a channel of a workspace exactly while some node has such a client whose connect script has run and whose disconnect script has not |
| Cluster.NoticesAlternateOnEveryRun | internal/presence/redis_store.go:11-92 | On every clean run the scripts' answers about each user, in the order the scripts run, strictly alternate, starting with online |
| Cluster.UncleanBreaks | internal/realtime/hub.go:259-283 | A shutdown that catches a client between the halves of its registration breaks exactness at once, whatever else is connected |
| Cluster.ExactIffClean | internal/realtime/hub.go:130-283 | The store is exact at every moment of a run if and only if no shutdown of the run catches a client so |
| Cluster.ShutdownCatchesRegistration | internal/realtime/hub.go:259-283 | A run of that kind that ends with a user online and no client anywhere |
| Publishing.InTurnIffNeverTogether | internal/presence/service.go:36-56 | On every matched run of scripts and publishes: at every moment, whichever waiting notice is published next, what is published about each user alternates, starting with online, if and only if no two notices of one user ever wait together |
| Publishing.StaysInOrder | internal/presence/service.go:36-56 | As long as none do, what is published and then what waits is the sequence of the scripts' answers, user by user |
| Publishing.TogetherOutOfTurn | internal/presence/service.go:36-56 | A script that brings two notices of a user together makes publishing its own first out of turn |
| Publishing.Crossed | internal/presence/service.go:36-56 | A run that publishes online, online, offline about a user who is connected |
| Publishing.InformedIffPublishedThere | internal/presence/service.go:36-56 | On every matched run in which no two notices of one user ever wait together: at every moment at which no notice about the user waits, what has been published to one channel tells whether the user is online, in turn, if and only if every notice about the user published so far went to that channel |
| Publishing.CrossedThere | internal/presence/service.go:36-56 | Without that condition: a matched run whose notices all go to one channel, which is told online, online, offline about a connected user once nothing waits |
| ClusterNotices.NoticesInTurnIff | internal/realtime/hub.go:151-201 | The same if-and-only-if over every clean run of hubs, handlers, shutdowns and publishes |
| ClusterNotices.OneNodeInTurn | internal/realtime/hub.go:112-128 | On a single node that is not shut down everything is published in turn |
| ClusterNotices.NoticesCross | internal/presence/service.go:36-56 | A clean run of two nodes, without a shutdown, that publishes online, online, offline about a connected user |
| Broker.Broker.EnsureSubscribed | internal/realtime/redis_broker.go:120-136 | One reference more to the channel's topic and no other, unless a first subscription fails, which is counted back; the connection listens to exactly the counted topics |
| Broker.Broker.MaybeUnsubscribe | internal/realtime/redis_broker.go:138-158 | One reference less, never below zero; an uncounted topic is left alone |
| Broker.Broker.EnsureUserSubscribed | internal/realtime/redis_broker.go:80-96 | The same for a user's topic |
| Broker.Broker.MaybeUnsubscribeUser | internal/realtime/redis_broker.go:98-118 | The same for a user's topic |
| Broker.Broker.Reconnect | internal/realtime/redis_broker.go:196-215 | The new connection listens to exactly the counted topics, whatever the old one did |
| Hub.UsersMore | internal/realtime/hub.go:138-140 | The counter update keeps every user's entry equal to the number of registered clients |
| Hub.UsersLess | internal/realtime/hub.go:176-181 | So does the decrement with its deletion at zero |
| Hub.IPsMore | internal/realtime/hub.go:139-139 | The same for addresses |
| Hub.IPsLess | internal/realtime/hub.go:177-184 | The same for addresses |
| Hub.WantedFor | internal/realtime/hub.go:135-149 | A topic is wanted exactly while a client of its channel, or a connection of its user, is registered |
| Hub.Hub.CanConnect | internal/realtime/hub.go:67-78 | True exactly when the registered clients of the user and of the address are below their positive limits |
| Hub.Hub.HandleRegister | internal/realtime/hub.go:130-149 | Adds the client; counters stay exact, and the node listens to the topics of its clients' channels and users, each counted once, and to no other |
| Hub.Hub.HandleUnregister | internal/realtime/hub.go:165-195 | Removes the client and closes its channel once; a repeated unregister changes nothing; counters and topics stay exact |
| Hub.Hub.SendToClient | internal/realtime/hub.go:244-256 | Buffers the event or, when the buffer is full, marks the client as slow |
| Hub.Hub.Deliver | internal/realtime/hub.go:210-227 | Each client of the channel gets the event once, room permitting, except that an offer, answer or candidate of a call goes to the addressee only, or to everyone but the sender when nobody is addressed; nobody else gets anything |
| Hub.Hub.DeliverCallSignal | internal/realtime/hub.go:229-242 | Of the targets, those that neither test skips get the signal once, room permitting, and nobody else: the addressee only, or everyone but the sender |
| Hub.Hub.NotifyUserLocal | internal/realtime/hub.go:294-319 | Each client of the user gets the event once, room permitting, and nobody else |
| Hub.Hub.Shutdown | internal/realtime/hub.go:259-283 | Closes every registered client exactly once and empties the maps; a second shutdown does nothing |
| Sends.PanicIffLate | internal/realtime/hub.go:210-227 | Some delivery sends on a closed channel if and only if a client is copied by it, then closed, then served by it |
| Sends.SerialNeverPanics | internal/realtime/hub.go:112-128 | When no close falls into a delivery, none does |
| Sends.Panics | internal/realtime/hub.go:259-283 | A run of five steps in which a delivery sends on a closed channel |
| Delivery.Reachable | internal/realtime/hub.go:81-127 | Over every interleaving of publish, drop, deliver, register, unregister, close and shutdown on any number of nodes: the sequences of each channel are 1, 2, 3, ... without gap or repeat, inboxes hold handled events meant for the client, each once, and no channel is closed twice |
| Delivery.EachEventOnce | internal/realtime/hub.go:210-242 | A client gets only events meant for it, with pairwise distinct sequences, each one its channel issued |
| Delivery.IssuedArePublished | internal/realtime/hub.go:81-110 | On every run the events of a channel are what was published on it, numbered from one, with kind, sender and addressee as published |
| Delivery.DeliveryReaches | internal/realtime/hub.go:210-242 | Delivering a copy puts it, once, into the inbox of each client of the channel on the node that has room: of all, or, for an offer, answer or candidate of a call, of the addressee's only, or of everybody's but the sender's when nobody is addressed |
| Delivery.ClosedAtMostOnce | internal/realtime/hub.go:165-283 | No send channel is closed twice, or while its client is registered, however unregisters and shutdowns interleave |
| Delivery.MemorySequencer.Next | internal/realtime/sequence.go:25-30 | Hands out the next number of the channel and disturbs no other channel |
| Admission.UserLimitOvershoot | internal/realtime/handler.go:68-115 | With at most n upgrades of a user between check and registration, the user has at most max + n - 1 connections |
| Admission.IPLimitOvershoot | internal/realtime/handler.go:68-115 | The same for an address |
| Admission.CheckPassesIff | internal/realtime/hub.go:67-78 | An upgrade gets past its check exactly when the user's and the address's registered clients are fewer than the positive limits |
| Admission.OvershootReached | internal/realtime/handler.go:68-115 | For every limit and n some run reaches that number, for a user and for an address |
| Calls.EveryCall | internal/calls/service.go:49-299 | Whatever the methods did so far: ringing means one active row, active at least two, ended none, and conversely; a call was once active exactly when it has two rows, exactly when two different users took part; a positive limit is kept; a channel has at most one live call |
| CallRows.TwoRowsTwoUsers | internal/calls/service.go:296-299 | Despite leave-and-rejoin rows, a call has two rows exactly when two different users took part |
| CallRows.MarkLeftCount | sql/queries/calls.sql:74-80 | Marking a participant as left lowers the active count by one exactly when the participant was active |
| CallRows.MinutesAgainstCeiling | internal/calls/service.go:307-315 | Charged minutes against the true ceiling, with the exact case in which they fall one short |
| Calls.Service.InitiateCall | internal/calls/service.go:49-107 | For a mode of voice, video or none, starts a ringing call exactly when the caller may and every live call of the channel is the caller's own solo call, which it ends; never charges; keeps all invariants |
| Calls.OwnStaleCalls | internal/calls/service.go:241-247 | The live calls that do not stand in the way are those whose one active row is the caller's |
| Calls.Service.ClearStaleSoloCall | internal/calls/service.go:241-268 | Ends the call exactly when the user is its only active participant, and never charges |
| Calls.Service.JoinCall | internal/calls/service.go:109-169 | Adds a newcomer and activates the call; a newcomer nothing else keeps out gets in exactly when the active participants are fewer than the service's limit and the plan's, where set; joining again changes nothing; error cases exactly |
| Calls.Service.LeaveCall | internal/calls/service.go:171-239 | When at most one would remain everybody has left and the call is over and metered; otherwise one row changes; an ended call is untouched |
| Calls.LeaveRemaining | internal/calls/service.go:210-225 | The loop over the remaining participants leaves nobody active |
| Calls.Service.Meter | internal/calls/service.go:292-317 | Adds the minutes of a video call of positive length that two took part in to its app's month, live workspaces only, and nothing else to anything |
| Calls.Service.EndCall | internal/calls/service.go:227-235 | Ending a call keeps all invariants, among them that the counters hold exactly the charges of the calls |
| Calls.Service.ParticipantLimit | internal/calls/service.go:270-280 | The smaller of the limits that are set |
| Calls.Service.StartRecording | internal/calls/service.go:350-379 | Starts exactly for a participant of a live call without an open recording; at most one stays open |
| Calls.Service.StopRecording | internal/calls/service.go:381-398 | Closes exactly the open recording named, which was the call's only one |
| Calls.Service.ValidateSignal | internal/calls/service.go:319-348 | Succeeds exactly for an active participant of a live call |
| Calls.TotalChargeUpdate | internal/calls/service.go:292-317 | Changing one call changes the charges by that call's share only |
| Calls.TotalsAgree | sql/queries/billing.sql:171-176 | Summing charges per app over the owner's apps is summing over the calls charged to the owner |
| Calls.OwnerTotalIsCharges | internal/billing/service.go:443-462 | An owner's monthly video total is the minutes of the once-active video calls of positive length that ended that month in the live workspace of one of the owner's apps, each once |
| Gate.Overshoot | internal/developerapi/service.go:383-409 | With at most n overlapping requests for a key, its rows, such as the channels or messages of a sandbox, never exceed limit + n - 1 plus the inserts that check nothing |
| Gate.Bounded | internal/developerapi/service.go:338-362 | The same with the requests between check and insert counted in |
| Gate.CheckedOnly | internal/calls/service.go:129-147 | For the participants of a call and the users of a sandbox, which are only inserted after a check: rows plus requests between check and insert never exceed limit + n - 1 |
| Gate.CheckPassesIff | internal/developerapi/service.go:369-409 | A check passes exactly when the limit for its kind of rows is none or larger than their number |
| Gate.OvershootReached | internal/chat/service.go:163-170 | For every key, limit, n, and number m of unchecked inserts (where the key has any), some run reaches limit + n - 1 + m |
| CallRaces.LiveCallsBounded | internal/calls/service.go:73-92 | On every interleaving of the queries of initiations, joins and leaves: a channel's live calls, plus initiations about to insert, are at most n plus the updates to ended, and the updates to active, that found their call of the channel ended; n bounds the initiations past their check or past ending the call they found |
| CallRaces.TwoAreEnough | internal/calls/service.go:241-268 | For every k > 0 some run in which at most two initiations of the channel are ever under way, all by one user, ends with k live calls and no request left |
| CallRaces.LiveCallsReached | internal/calls/service.go:73-101 | For every n some run of n overlapping initiations reaches n live calls, with no update that found its call ended |
| CallRaces.LeaveAlone | internal/calls/service.go:171-239 | The queries of a leave, with nothing in between: at most two in the call, and it ends with nobody in it and is metered once; more, and one goes; over, or not in it, and nothing changes |
| CallRaces.JoinAlone | internal/calls/service.go:109-169 | The queries of a join, with nothing in between: a newcomer is seated and the call active; otherwise nothing changes |
| CallRaces.InitiateAlone | internal/calls/service.go:80-107 | The queries of an initiation, with nothing in between and no live call: a new ringing call with the caller in it |
| CallRaces.InitiateOverAlone | internal/calls/service.go:73-92 | ... and with one: the newest is ended and metered first when the caller is alone in it; otherwise nothing changes |
| CallRaces.LawHolds | sql/queries/calls.sql:30-35 | On every interleaving, for every call: meterings that charged, that were spared and that are still to come equal the updates to ended, of which all but the first found the call ended or follow a revival |
| CallRaces.ChargedMoreThanOnce | internal/calls/service.go:227-235 | At every moment a call is charged more than once exactly when it was set to ended more than once, not counting meterings that found fewer than two rows or are still to come |
| CallRaces.ChargedTwice | internal/calls/service.go:187-235 | A run in which the last two leave at once: both end the call and both meter it |
| CallRaces.RevivedEmpty | internal/calls/service.go:152-165 | A run in which a join sets its call to active after a leave has ended it: active, with nobody in it, and no request left |
| Limiter.NeverOverLimit | internal/ratelimit/limiter.go:87-108 | With times that never go back, no half-open interval as long as the window holds more than limit accepted requests |
| Limiter.SliceIsEnough | internal/ratelimit/limiter.go:92-107 | Deciding on the stored slice is deciding on the full accepted history, and the slice never holds more than limit times |
| Limiter.AcceptsByWindow | internal/ratelimit/limiter.go:92-105 | With times that never go back, a request is accepted exactly when fewer than limit accepted requests lie in (now - window, now] |
| Limiter.AnyOrderIffLimitOne | internal/ratelimit/limiter.go:88-107 | The bound survives every order of the times, for every run and interval, if and only if the limit is one |
| Limiter.LateRunExceeds | internal/ratelimit/limiter.go:88-107 | For every limit above one and every window, a run with one late request puts limit + 1 accepted requests into one window |
| Limiter.Limiter.Filter | internal/ratelimit/limiter.go:94-100 | The in-place filter over the reused array keeps exactly the later times, in order |
| Limiter.Limiter.Append | internal/ratelimit/limiter.go:106-107 | Appends in place or in a larger copy |
| Limiter.Limiter.AllowMemory | internal/ratelimit/limiter.go:87-108 | Stores and answers what the slice machine does for the key, and disturbs no other key |
| Limiter.FixedWindowBound | internal/ratelimit/limiter.go:75-85 | At most 2 * limit - 1 accepted requests lie in any interval (a, a + window] |
| Limiter.FixedAcceptsIff | internal/ratelimit/limiter.go:75-85 | A request is accepted exactly when it opens a window, or fewer than limit requests, accepted or not, were made since the one that opened its window |
| Limiter.FixedWindowBoundReached | internal/ratelimit/limiter.go:75-85 | For every limit and window longer than one tick some run reaches that number |
| Quota.RunBounded | internal/billing/service.go:323-342 | The total plus the senders between check and record never exceed limit + n - 1, in any month |
| Quota.QuotaOvershoot | internal/chat/service.go:163-176 | With at most n senders overlapping, no monthly total of an owner over all apps exceeds limit + n - 1 |
| Quota.CheckPassesIff | internal/billing/service.go:323-342 | A check passes exactly when the owner has no positive limit or the month's counters of all the owner's apps add up to less |
| Quota.OvershootReached | internal/developerapi/service.go:338-362 | For every limit and n some run reaches that total |
| Quota.MessagesConserved | internal/billing/service.go:344-361 | Messages saved in an app are those counted, over all months, plus those saved and not yet counted |
| Provisioning.Reachable | internal/developerapi/service.go:113-236 | The invariant of the rows and of every call under way, over every interleaving, with users who sign up elsewhere |
| Provisioning.ProvisioningAgrees | internal/developerapi/service.go:113-198 | All successful calls for one app, environment and external id return the same user |
| Provisioning.LinkedUserIsNamed | internal/developerapi/service.go:200-236 | On every run each link was made for a call with its app, environment and external id, and with the linked user's email or, case aside, username |
| Provisioning.ReturnedUserIsLinked | internal/developerapi/service.go:113-198 | A successful call returns the user its key is linked to |
| Provisioning.BeginsTrimmed | internal/developerapi/service.go:113-117 | A call is for the external id without the white space around it, and a blank one fails at once |
| Provisioning.LinkedAlone | internal/developerapi/service.go:119-130 | With nothing in between, a call whose key is linked returns that user and changes no row |
| Provisioning.FoundAlone | internal/developerapi/service.go:137-193 | With nothing in between, in every reachable state, a call without a link links the user with its email or, with none and its username taken, the user with that username, case aside; unless the app and environment link that user to another external id: then it fails and changes no row |
| Provisioning.CreatedAlone | internal/developerapi/service.go:200-236 | ... and with neither it makes that user, links it and announces it |
| Provisioning.DifferentIDsDifferentUsers | sql/migrations/000018_app_users_env_user_unique.up.sql:4-6 | Successful calls for different external ids of one app and environment return different users |
| Provisioning.ProvisionedOnce | internal/developerapi/service.go:185-198 | Each created user is announced as provisioned at most once |
| Tokens.LaneKept | internal/auth/token.go:45-83 | What a token is accepted for, user, app and lane, is what the first token of its family stood for |
| Tokens.AcceptedIff | pkg/jwt/jwt.go:109-140 | On every run a token is accepted exactly when it is not rotated away, its user has a row and is not suspended, its second of issue does not precede the invalidation of the user's tokens, and its time to live, cut to the second, is not over; refreshing allows the grace period on top; which refusal is given |
| Tokens.IssuedFor | pkg/jwt/jwt.go:60-92 | Every token of a family is accepted, if at all, for the user and app its first token was issued for, in the lane of its key |
| Tokens.LiveTokens | internal/auth/token.go:51-101 | A family's live tokens: one, plus one per refresh that wrote although its token had been rotated away since |
| Tokens.OneLiveToken | internal/auth/token.go:51-101 | When refreshes of a token do not overlap, at most one token of a family is accepted |
| Tokens.OverlapForks | internal/auth/token.go:51-101 | Two overlapping refreshes of one token leave two live tokens |
| Tokens.SuspensionIsFinal | sql/queries/platformadmin.sql:64-76 | No token issued before a suspension is accepted, or passes the checks of a refresh, after it, also once it has been lifted |
| Tokens.SuspendedIsRefused | internal/auth/token.go:34-43 | While a suspension lasts no token of the user, whenever issued, is accepted or passes the checks of a refresh |
| Tokens.FamilyIsOver | internal/auth/token.go:51-101 | When no refresh of a family is in flight at a suspension, and no live token of it was issued on the suspension's tick, no token of the family, old or new, is ever accepted again |
| Tokens.RefreshInFlightOutlives | internal/auth/token.go:76-101 | Every refresh of the user that is in flight at a suspension can write a successor that is accepted once the suspension is lifted |
| Tokens.FamilyOutlivesIff | internal/auth/token.go:51-101 | Exactly which families some later run makes acceptable again: those with a refresh in flight, or with a live token issued on the suspension's tick |
| Tokens.InFlightRun | internal/auth/token.go:51-101 | A run of that kind from the beginning |
| Tokens.AfterUnsuspend | internal/auth/token.go:34-43 | Which otherwise good tokens a lifted suspension lets through: exactly those whose second of issue began no earlier |
| Tokens.Service.GenerateSessionToken | pkg/jwt/jwt.go:60-80 | Issues a token with a new id for any user, in the lane of the key and with its times cut to the second, as the issue step of the machine |
| Tokens.Service.ValidateAccessToken | internal/auth/token.go:12-49 | Answers as the machine reached by the run so far does |
| Tokens.Service.Refresh | internal/auth/token.go:51-101 | Succeeds exactly for a refreshable token, revokes it and issues its successor, for the same user, app and lane, as the two refresh steps of the machine |
| Tokens.Service.SuspendUser | sql/queries/platformadmin.sql:64-70 | Performs the suspension step |
| Tokens.Service.UnsuspendUser | sql/queries/platformadmin.sql:72-76 | Performs the unsuspension step |
| Origins.ByAppMeans | internal/origins/checker.go:202-208 | The by-app index holds an origin exactly when that app's row lists it |
| Origins.ByWorkspaceMeans | internal/origins/checker.go:209-212 | The by-workspace index holds it exactly when the app with that live or sandbox workspace lists it |
| Origins.Build | internal/origins/checker.go:199-216 | The loop builds the three indexes, the union being every listed origin in some order |
| Origins.DecideIsDirect | internal/origins/checker.go:153-173 | Deciding on the indexes is deciding on the rows |
| Origins.DirectMeans | internal/origins/checker.go:153-173 | An origin is let through exactly when it is blank, a platform origin, or listed by a row: the app's when an app is named, else the workspace's when one is named, else any, for a preflight only |
| Origins.NormalizeSplit | internal/origins/checker.go:72-76 | Normalizing takes away the white space around and then the slashes at the end, and nothing else |
| Origins.ReloadIff | internal/origins/checker.go:179-218 | The query runs exactly when nothing is cached, or the cache is invalidated or 60 seconds old; a failed one leaves the cache as it was |
| Origins.DecisionIsRecent | internal/origins/checker.go:179-218 | The rows a decision uses are the table as it stood less than 60 seconds before and not before any earlier invalidation, even if other reloads failed |
| Origins.UpdateIsReflected | internal/apps/service.go:316-329 | After an update and its invalidation every later decision uses the updated table |
| Origins.Checker.TakeSnapshot | internal/origins/checker.go:179-218 | Performs the reload step of the run: exactly when the cache is empty, invalidated or 60 seconds old and the query works |
| Origins.Checker.IsAllowed | internal/origins/checker.go:153-173 | The direct decision on the table less than 60 seconds before, after any earlier invalidation; on the table as it is when its last change has been invalidated for; platform and empty origins need no cache |
| Origins.Checker.InvalidateCache | internal/origins/checker.go:147-151 | Performs the invalidation step of the run and keeps the indexes valid |
| Origins.NormalizeList | internal/origins/checker.go:126-145 | The distinct normalized origins in order of first occurrence, or the first refused one, or too many |
| Origins.DistinctMeans | internal/origins/checker.go:133-143 | Those are all the normalized origins, each once |
| Slug.PatternIsWords | internal/workspaces/service.go:138-138 | The pattern accepts exactly the nonempty words over a-z0-9 joined by single hyphens |
| Slug.DeriveIsWords | internal/workspaces/service.go:140-148 | The derived slug is the words of the name joined by hyphens |
| Slug.NameBranch | internal/workspaces/service.go:140-155 | Without a given slug a name is refused exactly when it has no letter a to z of either case, no digit, and no character that folds to one; the slug is the name's words joined by hyphens |
| Slug.GivenBranch | internal/workspaces/service.go:140-155 | A given slug is taken trimmed and in lower case when it is words joined by hyphens, and refused otherwise, whatever the name |
| Slug.CaseIsIgnored | internal/workspaces/service.go:140-155 | Slugs and names that differ in the case of letters a to z only give the same result |
| Slug.AcceptedIsFixed | internal/workspaces/service.go:140-155 | An accepted slug comes back unchanged, given as the slug or as the name |

## Left out

- Redis expiry, `Touch` and `last_seen`: no key expires in the model, so nothing is said about counters that outlive a crashed node.
- Failed Redis commands and database queries, except a failed reload of the origin cache and a failed subscription in Broker.
- Hub.Hub.HandleRegister: its subscriptions succeed.
- HTTP handlers, websocket pumps, logging, metrics, webhooks, Stripe, S3, password hashing and token signing; a token is an id that was issued or was not.
- Role tables, plan administration, platform settings and pagination, which are one-branch facts.
- The access and plan checks of calls are parameters of the call operations, and so is the validity of an origin as a URL. The outcome of the sandbox cap is a parameter of provisioning; the cap itself is the subject of Gate.
- Each client object registers at most once and a channel belongs to one workspace: callers of the hub must provide both.
- Hub.Hub.Shutdown: leaves the counters as they are, as the code does, so they are exact only until then; the presence calls of a shutdown are in Cluster, not in Hub.
- Hub.Hub.NotifyUserLocal: takes effect at once; the closes that fall between copying its targets and sending to them are the subject of Sends.
- Hub.Hub.Deliver: takes effect at once, likewise.
- Presence status notices to each active channel of a user are left out; online and offline notices are modelled.
- MemoryStore and Hub keep records of users and clients as values in maps, so aliasing of a record or a client object is not captured.
- Provisioning.ProvisioningAgrees: takes the email and username after their defaults have been filled in; adding the user to the workspace may fail, and its rows are not modelled.
- RedisStore.Store.SetStatus: nothing runs between its commands, nor in Cluster and StoreAgreement; what may is the subject of Presence.LateStatus.
- Quota and Provisioning are step functions without a class, since their state is database rows and each step is one query.
- Quota.QuotaOvershoot: takes the owner of an app and its limit as fixed for the run and leaves out the subscription status.
- Calls.Service.Meter: the month of a charge is the month of the end time, where the counter uses the database clock a moment later; times are integer nanoseconds instead of floating-point seconds, and the participant row and the status change of one method are one transaction.
- Calls.EveryCall: methods do not overlap; overlaps are the subject of CallRaces and Gate.
- CallRaces.ChargedMoreThanOnce: leaves out the mode, the minutes and the recordings of a call; a metering charges when it finds two rows, as for a video call of positive length.
- CallRaces.LiveCallsBounded: every query succeeds, so a request stops only where the code returns without a failed query, or before its first call query or a join's insert; the participant limit is an arbitrary outcome there, and its count is the subject of Gate.
- Calls: that ending a call ends its recording is not claimed, because it does not.
- CallRows.MinutesAgainstCeiling: is about durations in whole nanoseconds.
- Admission.OvershootReached: for clients numbered within int64.
- Limiter.FixedWindowBound: takes the expiry as set with the first hit, as when no command fails between the two.
- Tokens.LiveTokens: covers tokens with a `jti`, as every token issued by the code has; a refresh draws its new token and revokes the old one in one step.
- Tokens.SuspensionIsFinal: is about a user with a row in the users table, as a suspension without one does nothing; uses one clock for the application and the database, in whole microseconds.
- Origins.Checker.IsAllowed: the reload query takes no time in the model, so the age of the table counts from the end of a reload.
- Slug.NormalizeSlug: Unicode case folding outside ASCII is an arbitrary function on characters.
- HintsFromRequest, ParseList and the slug rule of internal/apps would only add easy members.
