# Support chat: a verified model of its stateful cores

The program is a customer-support chat that runs on several servers sharing MongoDB and Redis.
This project models the parts whose correctness depends on how operations interleave or follow
one another, and proves what they keep:

- **Routing** (`Desk`, `AssignmentRuns`, `AssignmentCalls`, `AssignmentCapacity`, `AssignmentStories`, `DrainRuns`,
  `Routing`, `Stores`, `AssignmentService`). A chat is given
  to an agent by reserving a slot on the agent's counter and then assigning the thread, in two
  operations with no transaction around them. `AssignmentRuns` is a state machine over any number of
  concurrent `autoAssign`, `claim`, `transfer`, `close` and `requeueAgentChats` calls, one database
  operation per step; its main result is a ledger that says what every counter is worth at any moment.
  `AssignmentCalls` says, field by field, what each of these calls does when nothing comes in between, and
  what it may come to when something does.
  `AssignmentService` proves the loops of one server (drain, requeue, rebalance) on imperative stores, and
  `DrainRuns` says when drains that meet each other and the rest of the program leave a thread waiting.
- **Messages** (`Messages`, `MessagesService`, `Sends`, `History`, `Base64Url`). Forward-only delivery
  status under interleaved bulk updates, read counts, idempotent sends, keyset pages and the cursor text.
- **History cache** (`HistoryCache`, `CacheTtl`). The version-counter cache with slow readers and
  concurrent writers, first while the version key lives, then on a clock with both expiries.
- **Presence** (`PresenceStore`, `PresenceService`). Expiring socket leases, the online set,
  heartbeats, sweeps, and per-server grace timers.
- **Limiters and reports** (`RateLimits`, `FixedWindow`, `Csv`, `Analytics`, `AnalyticsReport`). The sliding window per
  socket, the shared fixed window with its separate EXPIRE, the CSV export with an independent reader
  for section 2 of RFC 4180, and day counts by 15-minute slots.

Every conditional update, Lua script, `MULTI` or pipeline entry is one atomic step; every `await`
between two of them is a point where other calls may act. Objects that the program mutates are classes
here; the functions that specify their methods are the ones the state machines are made of.

## Where the code does less than its comments or its reader may expect

Each of these is proved, mostly by a concrete run next to the exact condition for the good case.

- `close` releases the assignee it read first, not the one the atomic update replaced. If the thread
  changed hands in between, the ledger breaks, and in no other case (`StepKeepsLedger`).
  `StaleCloseDrift` ends with nothing in flight and a counter of one for an agent without chats.
  The other direction is worse: `ShortCloseOverfills` ends with an agent over their maximum, although
  every slot was taken by auto-assignment. It needs a close that gives back a slot its agent does not
  have to spare, and exactly such closes let a counter fall below its ledger (`SolventThroughoutIff`).
- A thread can be left waiting beside an available agent with nobody about to look. A drain asked for
  while the server is draining is dropped, although the running one works from an older listing
  (`DroppedRequestLeavesWaiting`); a transfer to another agent frees the first one and asks for no drain
  (`TransferLeavesWaiting`); and a listing stops at 50 threads. `StepKeepsCovered` shows that these are the
  only ways, `NobodyLeftWaiting` what holds without them. The periodic rebalance ends such a state.
- Bumping the version after every change does not exclude a stale page while one read call has changed
  messages and not yet invalidated: another read call that stamped them first finds nothing left to mark
  and returns without invalidating (`StaleAfterEmptyRead`). `MissedIffOldPage` says exactly when a reader
  can miss a change while the version key lives.
- The version key expires after a day and counts again from zero, so a page can miss a change whose
  invalidation was done (`StaleAfterVersionExpiry`). `MissedIffOldPageAround` says exactly when, on the
  clock, with both expiries; `FreshWhileVersionLives` and `BoundedStaleness` are what a caller can rely on.
- A read message can lack `deliveredAt`: a message that enters the range between the two updates of
  `markRead` (`ReadWithoutDelivered`, and `ReadUpdateKeepsDelivered` for the exact condition).
- `markDeliveredTo` finds "exactly the messages this call changed" by its time stamp. It also returns
  messages delivered by others in the same millisecond (`TwinIsReturned`) and misses those read before
  its lookup (`ReadRowIsLost`); `ReturnsItsOwnIff` says exactly when its result is right.
- The report's labels go back whole days from now. Where the clock is shifted between two of them, a day
  can be labelled twice or not at all (`ShiftRepeatsDay`, `ShiftSkipsDay`); `LabelFollowsIff` says when, and
  `TotalIffDistinct` when the total counts each message once.
- A server that dies between INCR and EXPIRE leaves a counter without an expiry (`CrashLeavesBareKey`);
  the next request repairs it (`NextRequestRepairs`).
- The formula guard is not injective: `GuardCollisions` says exactly which texts it confuses.

## Model

| member | source | states |
|---|---|---|
| AssignmentRuns.StepKeepsLedger | src/modules/agents/services/assignment.service.ts:87-167 | From a state where every agent's counter equals open assigned chats + runs between reserve and assign + runs owing a release, one step of any run keeps that equation for every agent if and only if the step is not a close of a thread whose assignee changed after the close read it |
| AssignmentRuns.LedgerHolds | src/modules/agents/services/assignment.service.ts:87-218 | The same equation after every interleaving of any number of runs that has no stale close |
| AssignmentRuns.LedgerThroughoutIff | src/modules/agents/services/assignment.service.ts:87-218 | Along a whole interleaving the equation holds after every step if and only if the interleaving has no stale close |
| AssignmentRuns.ReleaseNeverSwallowed | src/modules/agents/services/agents.service.ts:129-131 | Whenever a run owes a release the counter is positive, so the `activeChats > 0` guard never drops one |
| AssignmentRuns.CountersExactWhenQuiet | src/modules/agents/services/assignment.service.ts:87-167 | When no run is in flight any more, each counter is the real number of open chats |
| AssignmentRuns.CountersNeverNegative | src/modules/agents/services/agents.service.ts:116-131 | In every interleaving, stale closes included, no counter goes below zero |
| AssignmentRuns.StepKeepsSolvent | src/modules/agents/services/assignment.service.ts:156-165 | One step keeps every counter at or above open chats + reserving + owing if and only if it is not a close, of a thread that changed hands, releasing an agent whose counter has nothing to spare |
| AssignmentRuns.SolventThroughoutIff | src/modules/agents/services/assignment.service.ts:87-218 | Along a whole interleaving no counter falls below that sum if and only if no close is of that kind |
| AssignmentStories.StaleCloseDrift | src/modules/agents/services/assignment.service.ts:137-165 | A concrete interleaving of one close and one transfer that ends quiet with a counter of 1 and no open chat |
| AssignmentCapacity.MaximumHolds | src/modules/agents/services/agents.service.ts:120-131 | With slots taken by auto-assignment only and fixed maxima, counter <= maximum for every agent in every interleaving, stale closes included, although the maximum is read one step before the increment |
| AssignmentCapacity.CapacityHolds | src/modules/agents/services/agents.service.ts:120-131 | In every such interleaving without a close that releases a slot its agent does not have to spare, open chats <= counter <= maximum |
| AssignmentStories.ShortCloseOverfills | src/modules/agents/services/assignment.service.ts:87-165 | A concrete interleaving of a close, a transfer to the queue and two auto-assignments, from a consistent state, that leaves an agent with a maximum of 1 holding 2 open chats |
| AssignmentRuns.AdvanceGap | src/modules/agents/services/assignment.service.ts:87-167 | How far one step moves one agent's counter from the ledger: not at all, except by what a close misattributes |
| AssignmentRuns.SlackAccount | src/modules/agents/services/assignment.service.ts:87-218 | After every interleaving, stale closes included, the distance between counter and ledger is the initial one plus what closes misattributed plus the releases that found zero |
| AssignmentRuns.DriftWhenQuiet | src/modules/agents/services/assignment.service.ts:87-218 | Hence exactly how wrong a counter is once nothing is in flight any more |
| AssignmentCalls.ClosesOnlyOwn | src/modules/agents/services/assignment.service.ts:156-164 | In every interleaving a close asked for by someone who is not an admin goes on only to close a thread that it read as theirs, and releases nobody else |
| AssignmentCalls.CloseAlone | src/modules/agents/services/assignment.service.ts:156-165 | Uninterrupted, a close by the holder or an admin closes the thread, takes it from its holder and gives that one slot back; any other leaves the records as they were |
| AssignmentCalls.ClaimsForAgentsOnly | src/modules/agents/services/assignment.service.ts:120-130 | In every interleaving a claim concerns its thread and claimant only, and comes to nothing for anyone but an agent |
| AssignmentCalls.ClaimAlone | src/modules/agents/services/assignment.service.ts:120-133 | Uninterrupted, an agent's claim of a waiting thread gives it to them and counts it whatever their maximum; any other changes nothing |
| AssignmentCalls.TransfersToAnother | src/modules/agents/services/assignment.service.ts:137-149 | In every interleaving a transfer concerns its thread and target only and never moves the thread to the agent it read as holder |
| AssignmentCalls.TransferRefused | src/modules/agents/services/assignment.service.ts:138-141 | A transfer to the holder, or to someone who is not an agent, changes nothing |
| AssignmentCalls.TransferToAgentAlone | src/modules/agents/services/assignment.service.ts:143-149 | Uninterrupted, a transfer counts the chat on its target whatever their maximum, moves the thread and gives the former holder's slot back |
| AssignmentCalls.TransferToQueueAlone | src/modules/agents/services/assignment.service.ts:144-149 | A transfer to nobody frees the thread and the holder's slot |
| AssignmentCalls.AutoAlone | src/modules/agents/services/assignment.service.ts:87-102 | Uninterrupted, an `autoAssign` gives a waiting thread to the first candidate with room and counts it, and changes nothing if there is none or the thread does not wait |
| AssignmentCalls.RequeueStartAlone | src/modules/agents/services/assignment.service.ts:210-218 | A requeue as a run does to the threads it listed what the loop of the service does |
| AssignmentCalls.EveryCallEnds | src/modules/agents/services/assignment.service.ts:87-218 | In every interleaving, a call that is given as many steps as it has operations is done: at most 4 and 3 more for each candidate for an `autoAssign`, 5 for a claim or a transfer, 3 for a close, 2 and 2 for each listed thread for a requeue |
| AssignmentCalls.OtherWrites | src/modules/chat/services/conversations.service.ts:85-137 | A settings change, a new thread, a message and a reopening write what they are for and no counter and no assignment |
| DrainRuns.StepKeepsCovered | src/modules/agents/services/assignment.service.ts:105-207 | If nobody is available, or a drain is still to begin, or every waiting thread is listed by a running drain or about to be attempted, one step of any call keeps it so if and only if it is not a dropped or cut-off drain or a transfer that frees an agent, with a thread left out |
| DrainRuns.CoveredThroughoutIff | src/modules/agents/services/assignment.service.ts:105-207 | The same along whole interleavings of drains on any number of servers with messages, status changes, closes, claims, transfers and requeues |
| DrainRuns.RequestsMeans | src/modules/agents/services/assignment.service.ts:105-218 | A drain is still to begin for each step that asked for one, until it begins or is dropped |
| DrainRuns.DrainsMeans | src/modules/agents/services/assignment.service.ts:105-117 | A drain goes on with the rest of its listing unless the thread at its front waits and nobody is available |
| DrainRuns.SameWrites | src/modules/chat/services/conversations.service.ts:85-137 | Settings and messages are written as in the runs of single operations |
| DrainRuns.WholeClaim | src/modules/agents/services/assignment.service.ts:120-133 | A claim does to the records of these runs what its operations do one after the other |
| DrainRuns.WholeClose | src/modules/agents/services/assignment.service.ts:156-165 | So does a close |
| DrainRuns.WholeTransfer | src/modules/agents/services/assignment.service.ts:137-150 | So does a transfer to an agent |
| DrainRuns.WholeTransferToQueue | src/modules/agents/services/assignment.service.ts:137-151 | So does a transfer to the queue |
| DrainRuns.WholeAttempt | src/modules/agents/services/assignment.service.ts:87-102 | So does an `autoAssign` whose candidates begin with the best available agent |
| DrainRuns.WholeRequeue | src/modules/agents/services/assignment.service.ts:210-218 | So does a requeue |
| DrainRuns.NobodyLeftWaiting | src/modules/agents/services/assignment.service.ts:104-117 | Without such a step, an interleaving that has come to rest leaves nobody waiting or nobody available |
| DrainRuns.DroppedRequestLeavesWaiting | src/modules/agents/services/assignment.service.ts:106-116 | A concrete interleaving with one dropped drain that comes to rest with a waiting thread and an available agent |
| DrainRuns.TransferLeavesWaiting | src/modules/agents/services/assignment.service.ts:143-152 | A state at rest in which one transfer does the same |
| Routing.AheadOrder | src/modules/agents/services/assignment.service.ts:64-71 | The candidate comparator, with ties kept in the order of the agent list, is a total preorder, so the stable sort is well defined |
| Routing.ChosenIsUnique | src/modules/agents/services/assignment.service.ts:57-72 | At most one agent comes first: the records determine who is tried first |
| Routing.ChosenOfEquals | src/modules/agents/services/assignment.service.ts:64-71 | For any topic, among available agents with the same skill match the chosen one has the fewest active chats, then the earliest last assignment (none counting as 0), then the first place in the list |
| Routing.AvailableMeans | src/modules/agents/services/assignment.service.ts:56-63 | Available is: listed, connected, online by choice, and below the maximum |
| Routing.MustRequeueMeans | src/modules/agents/services/assignment.service.ts:247-250 | Chats are taken from exactly those who chose offline, or are not connected and were not seen in the last 60 s |
| Routing.InQueueMeans | src/modules/chat/services/conversations.service.ts:139-145 | What waits is exactly the open threads without an agent in which somebody has written |
| Routing.ListingMeans | src/modules/chat/services/conversations.service.ts:139-145 | A listing is exactly a sequence of waiting threads without repetition in the order of their last messages, from which a waiting thread is missing only when it is full and everybody on it has waited as long |
| Routing.SkillFirst | src/modules/agents/services/assignment.service.ts:64-71 | An agent without the topic's skill is chosen only when no available agent has it |
| Routing.RouteFills | src/modules/agents/services/assignment.service.ts:87-102 | One successful assignment touches only a waiting thread, gives it to an eligible agent within capacity, counts it, and changes no setting |
| Routing.LoadStaysBalanced | src/modules/agents/services/assignment.service.ts:57-101 | Over any sequence of general-topic assignments, no eligible agent gets more than one chat ahead of an eligible agent with room |
| Routing.DecisionsCounted | src/modules/agents/services/assignment.service.ts:57-101 | Over such a sequence each assignment counts once for its agent and its thread stays with them |
| Routing.NothingHandedBack | src/modules/agents/services/assignment.service.ts:57-72 | An agent who may not receive chats and holds none still holds none after any mix of requeueing and draining |
| Routing.RequeueFrees | src/modules/agents/services/assignment.service.ts:210-218 | Requeueing frees every listed thread of the agent and no thread of anyone else |
| Routing.RequeueKeepsDrift | src/modules/agents/services/assignment.service.ts:210-218 | Requeueing keeps the distance between counter and real count, for the agent when the counter is not below the count and for others always |
| Routing.OrphansEffect | src/modules/agents/services/assignment.service.ts:253-256 | The orphan loop frees exactly threads of non-agents and moves no current agent's counter away from its count, although it releases no slot |
| Routing.RecountRepairs | src/modules/agents/services/agents.service.ts:134-139 | Overwriting counters with the real counts makes all of them exact and changes no setting |
| Stores.AgentsService.EnsureProfiles | src/modules/agents/services/agents.service.ts:159-178 | Missing profiles appear with the defaults; existing ones are untouched |
| Stores.AgentsService.ReserveSlot | src/modules/agents/services/agents.service.ts:120-127 | Takes one slot exactly when below the maximum or forced, sets the time of the last assignment, and reports which |
| Stores.AgentsService.ReleaseSlot | src/modules/agents/services/agents.service.ts:129-131 | Gives one slot back unless the counter is zero |
| Stores.AgentsService.SyncActiveChats | src/modules/agents/services/agents.service.ts:134-139 | Exactly the profiles with a count are overwritten |
| Stores.ConversationsService.AssignIfUnassigned | src/modules/chat/services/conversations.service.ts:108-114 | Assigns exactly when the thread is open and free, and reports which |
| Stores.ConversationsService.Reassign | src/modules/chat/services/conversations.service.ts:117-123 | Moves the thread exactly when it is open and held by the expected agent |
| Stores.ConversationsService.Close | src/modules/chat/services/conversations.service.ts:125-131 | Closes exactly an open thread, takes it from its agent, and returns it as it was before |
| Stores.ConversationsService.ReopenIfClosed | src/modules/chat/services/conversations.service.ts:134-137 | Opens exactly a closed thread, which then waits |
| Stores.ConversationsService.ListQueue | src/modules/chat/services/conversations.service.ts:140-145 | The waiting threads without repetition, longest waiting first, and nobody left out waited longer than anyone listed |
| Stores.ConversationsService.ListOpenAssignedTo | src/modules/chat/services/conversations.service.ts:147-149 | Exactly the open threads of the agent, each once |
| Stores.ConversationsService.ListOpenAssignedOutside | src/modules/chat/services/conversations.service.ts:152-154 | Exactly the open threads whose holder is not in the list |
| Stores.ConversationsService.CountOpenByAgent | src/modules/chat/services/conversations.service.ts:157-166 | For each given agent, zero included, the real number of open threads |
| AssignmentService.Ranked | src/modules/agents/services/assignment.service.ts:57-72 | The available agents, each once, in the order of the stable sort |
| AssignmentService.AssignmentService.CandidatesFor | src/modules/agents/services/assignment.service.ts:57-72 | Profiles are made sure of and the available agents returned best first |
| AssignmentService.AssignmentService.TryCandidates | src/modules/agents/services/assignment.service.ts:91-101 | The first candidate with room gets the thread; if the thread is taken the reservation is undone; only when nobody has room is the answer `no_agent`, with nothing changed |
| AssignmentService.AssignmentService.AutoAssign | src/modules/agents/services/assignment.service.ts:87-102 | Skipped exactly for threads that are not waiting; `no_agent` only when nobody is available; otherwise the one agent the ranking puts first has it |
| AssignmentService.AssignmentService.DrainQueue | src/modules/agents/services/assignment.service.ts:105-117 | Exactly a prefix of the listed queue is assigned, oldest first, and it ends with all of it assigned or no agent available, whatever the topics; nothing happens while another drain runs |
| AssignmentService.AssignmentService.RequeueListed | src/modules/agents/services/assignment.service.ts:211-218 | The loop over the listed threads frees each one still held and releases one slot for it, and counts them |
| AssignmentService.AssignmentService.RequeueAgentChats | src/modules/agents/services/assignment.service.ts:210-224 | Reports the agent's open chats; an agent who may not receive chats ends with none; only their threads and waiting ones move; if any were moved and no drain was running, the drain that follows stops only with nobody waiting, nobody available or a full listing assigned, and if none were, nothing changes |
| AssignmentService.AssignmentService.RequeueOrphans | src/modules/agents/services/assignment.service.ts:253-256 | Frees the listed threads still with their listed holder and touches no counter |
| AssignmentService.AssignmentService.Recount | src/modules/agents/services/assignment.service.ts:241-243 | All current agents' counters become exact |
| AssignmentService.AssignmentService.Rebalance | src/modules/agents/services/assignment.service.ts:234-262 | From any state with arbitrary counters: every current agent's counter ends exact, every open assigned chat is with a current agent who is neither offline by choice nor gone for more than 60 s, chats left only agents who had to lose them, so every thread of a current agent who is connected or was seen in the last 60 s and did not choose offline stays as it was, and unless another drain was running the closing drain stopped only with nobody waiting, nobody available or a full listing assigned; without the lock nothing changes |
| Messages.SentByIsSideOf | src/modules/chat/chat-side.ts:16-25 | The sender filter of a side matches exactly the users on that side, and the filter of the other side exactly the rest |
| Messages.StatusOnlyMovesForward | src/modules/chat/services/messages.service.ts:95-154 | In every interleaving of inserts, deliveries, stamps and read updates: status moves forward only, delivered implies a delivery time, it is frozen once the status left `sent`, and the read time is there exactly for read messages and written once |
| Messages.CountsAddUp | src/modules/chat/services/messages.service.ts:150-153 | In every interleaving the sum of all `updatedCount` values is the number of messages that became read |
| Messages.ReadUpdateKeepsDelivered | src/modules/chat/services/messages.service.ts:147-150 | The read update keeps "read implies delivery time" if and only if no message in its range is still `sent` without one |
| Messages.UninterruptedReadKeepsDelivered | src/modules/chat/services/messages.service.ts:147-150 | The two updates of one call with nothing between them always keep it |
| Messages.ReadWithoutDelivered | src/modules/chat/services/messages.service.ts:147-150 | A concrete interleaving that ends with a read message without a delivery time |
| MessagesService.MessagesService.Create | src/modules/chat/services/messages.service.ts:77-92 | Stores the message as `sent` exactly when the pair of thread and client message id is new; the answer always names a stored message with that pair |
| MessagesService.MessagesService.MarkDelivered | src/modules/chat/services/messages.service.ts:95-103 | Changes and returns the message exactly when it is still `sent` |
| MessagesService.MessagesService.MarkDeliveredTo | src/modules/chat/services/messages.service.ts:111-126 | Uninterrupted: delivers exactly the other side's `sent` messages, and returns them together with those of the thread delivered earlier under the same time stamp |
| MessagesService.ReturnsItsOwnIff | src/modules/chat/services/messages.service.ts:117-125 | With any writes between update and lookup, the call returns exactly the messages it changed if and only if it changed none, or none of them was read meanwhile and everything others delivered under the same stamp was |
| MessagesService.TwinIsReturned | src/modules/chat/services/messages.service.ts:117-125 | A store in which a message delivered by another call in the same millisecond is returned |
| MessagesService.ReadRowIsLost | src/modules/chat/services/messages.service.ts:117-125 | A read call between update and lookup that takes a delivered message out of the result |
| MessagesService.MessagesService.MarkRead | src/modules/chat/services/messages.service.ts:134-154 | Null and no change for a message outside the thread; otherwise the read state of the range, with the number of messages that became read |
| MessagesService.MessagesService.GetUnreadCounts | src/modules/chat/services/messages.service.ts:157-174 | For each thread id given, zero included, the number of its messages not read that some reference selects, for any list of references |
| MessagesService.UnreadCountMeans | src/modules/chat/services/messages.service.ts:157-174 | The unread count of a side is the number of the thread's messages not read whose sender is the customer exactly if the side is staff |
| MessagesService.SelectedIsUnread | src/modules/chat/services/messages.service.ts:157-174 | When the references agree on the thread's customer, that is the number of messages from the other side not read |
| MessagesService.ReadMarksPrefix | src/modules/chat/services/messages.service.ts:134-150 | A read call marks every message of the other side up to the through point, timestamp ties included, hence a down-closed prefix, and changes nothing else |
| MessagesService.ReadThroughMeans | src/modules/chat/services/messages.service.ts:140-150 | Field by field, a read call changes exactly the other side's unread messages of the thread up to the through time: status, read time, and the delivery time of those still `sent` |
| MessagesService.ReadConservesUnread | src/modules/chat/services/messages.service.ts:134-174 | After a read call the unread count is the old one less `updatedCount`, which is the other side's strictly newer messages not yet read |
| MessagesService.ReadLeavesOtherSide | src/modules/chat/services/messages.service.ts:141-150 | The other side's unread count does not move |
| Sends.SendsAreIdempotent | src/modules/chat/services/messages.service.ts:77-92 | In every interleaving of sends, retries and status updates: one stored message per thread and client message id, all replies for the pair carry its id, at most one says created, and the lookup after a duplicate never fails |
| Sends.OneSaysCreated | src/modules/chat/services/messages.service.ts:77-92 | Once every call has replied, exactly one reply says of each stored message that it created it, so it is broadcast once |
| Sends.FirstSend | src/modules/chat/services/messages.service.ts:77-82 | Uninterrupted, a message under a new key is stored as sent, shown by its thread and by no other, and said to be new |
| Sends.Retry | src/modules/chat/services/messages.service.ts:83-91 | A retry changes nothing and is answered with the message its key already has |
| Sends.NoMatchFails | src/modules/chat/services/messages.service.ts:84-90 | A refused call that finds no message of its key fails |
| Sends.StatusWrites | src/modules/chat/services/messages.service.ts:95-150 | Deliveries and reads beside the sends change statuses, but no summary and no reply |
| Sends.SummaryIsLatest | src/modules/chat/services/conversations.service.ts:85-90 | In every interleaving of sends, once no call has a touch left to make, a thread's time is that of its newest stored message and its preview the start of a message sent at that time |
| Sends.LastTouchIsLatest | src/modules/chat/services/conversations.service.ts:85-90 | After touches in any order the time is the latest touched and the preview the start of a message sent at that time |
| Sends.PreviewMeans | src/modules/chat/services/conversations.service.ts:88 | A preview is the first 200 characters of the text, or all of it |
| Sends.TouchMeans | src/modules/chat/services/conversations.service.ts:85-90 | A touch shows its own time and preview unless the thread already shows a strictly later message; of equal times the last to touch wins |
| Base64Url.DecodeEncode | src/common/utils/pagination.ts:14-19 | Decoding undoes base64url encoding for every byte string (RFC 4648, section 5) |
| Base64Url.EncodeVectors | src/common/utils/pagination.ts:14-15 | The encodings of one, two and three bytes given in section 10 of RFC 4648, unpadded, and the two characters of the URL alphabet |
| History.CursorRoundTrip | src/common/utils/pagination.ts:14-28 | Decoding an encoded cursor gives back its date and 24-digit id |
| History.RefusedCursors | src/common/utils/pagination.ts:17-28 | A cursor is refused exactly when it holds no payload, or one whose id is not 24 hexadecimal digits |
| History.HistoryAnswers | src/modules/chat/services/messages.service.ts:40-56 | A cursor that cannot be decoded, and no other, is answered with an error; no cursor or an empty one asks for the first page |
| History.OrderedMeans | src/modules/chat/services/messages.service.ts:46-62 | The order of a thread is by time, and at the same time by the first hexadecimal digit in which the ids differ |
| History.PageOf | src/modules/chat/services/messages.service.ts:61-70 | The page read newest first with one row too many is the last `limit` matching messages, oldest first, with a cursor at the oldest of them exactly when some are left out |
| History.NextPage | src/modules/chat/services/messages.service.ts:43-58 | The cursor of any message of an ordered thread leads to the page just before it |
| History.WalkVisitsAll | src/modules/chat/services/messages.service.ts:40-70 | For any limit of at least 1, following cursors ends and visits every message present at the start exactly once, in (createdAt, _id) order, while newer messages may arrive between pages; put together it is the order of `streamAll` |
| HistoryCache.AlwaysConsistent | src/modules/chat/services/message-cache.service.ts:44-81 | In every interleaving of readers, delayed stores and writers, a page under version n is the store at a moment no earlier than the bump to n |
| HistoryCache.ReadsAlone | src/modules/chat/services/message-cache.service.ts:44-65 | Uninterrupted, a reader is served the page under the current version, or else the present messages, which it stores there |
| HistoryCache.EvictedIsLoaded | src/modules/chat/services/message-cache.service.ts:52-62 | After an eviction, which touches one page, the next reader of it is served the present messages |
| HistoryCache.WritesAlone | src/modules/chat/services/messages.service.ts:77-123 | Uninterrupted, a write that changes something bumps the version to one that stands for the change; any other does nothing |
| HistoryCache.FlipsAlone | src/modules/chat/services/messages.service.ts:150-152 | The second update of a read call leads to a bump exactly if it marks something |
| HistoryCache.ServedPageIsFresh | src/modules/chat/services/message-cache.service.ts:44-81 | A served page includes every change whose call returned before the reader fetched the version, and that of a read call whose second update found nothing unless another read call is yet to invalidate |
| HistoryCache.MissedIffOldPage | src/modules/chat/services/message-cache.service.ts:44-81 | A reader that starts now can be served a page without a change already made if and only if such a page is cached, or being stored, under the current version |
| HistoryCache.StaleAfterEmptyRead | src/modules/chat/services/messages.service.ts:149-152 | A concrete run in which a read call has returned, did not invalidate, and a later reader is served a page without its change |
| CacheTtl.MessageCacheService.GetFirstPage | src/modules/chat/services/message-cache.service.ts:44-71 | The page live when looked up under the version live when asked, or the key to store under, or neither when Redis is not ready; what other calls do in between is in the runs below |
| CacheTtl.MessageCacheService.Store | src/modules/chat/services/message-cache.service.ts:59-65 | The page is found under its key for exactly five minutes, and no other key and no version changes |
| CacheTtl.MessageCacheService.FirstPage | src/modules/chat/services/messages.service.ts:51-55 | After a miss the loaded page answers the same request from the cache until its lifetime is over or the version changes |
| CacheTtl.MessageCacheService.Invalidate | src/modules/chat/services/message-cache.service.ts:74-81 | The thread's version goes up by one and lives a day more; no other thread's lookup changes |
| CacheTtl.BoundedStaleness | src/modules/chat/services/message-cache.service.ts:10-77 | With readers interrupted anywhere, expiring version keys, lost invalidations and failing stores, a page live under any key misses only changes made less than the page lifetime plus the load-to-store delay ago |
| CacheTtl.FailureIsAMiss | src/modules/chat/services/message-cache.service.ts:51-70 | A reader whose version or page cannot be fetched is served the present messages, and nothing is stored |
| CacheTtl.FailedStoreIsSkipped | src/modules/chat/services/message-cache.service.ts:60-65 | A reader whose store fails is served the page it loaded all the same |
| CacheTtl.ServedInTime | src/modules/chat/services/message-cache.service.ts:44-71 | So does every page a reader is served, however long ago it fetched the version |
| CacheTtl.MissedIffOldPageAround | src/modules/chat/services/message-cache.service.ts:10-81 | A reader that starts now can be served a page without a change already made if and only if a reader is about to store such a page, or one is live whose version the current one has not passed or that outlives the version key |
| CacheTtl.FreshWhileVersionLives | src/modules/chat/services/message-cache.service.ts:44-81 | As long as the version key does not lapse, a reader that fetches the version after a change was made and invalidated is served a page with it |
| CacheTtl.StaleAfterVersionExpiry | src/modules/chat/services/message-cache.service.ts:11-77 | A concrete run in which the version restarts and a reader that begins after a change was invalidated is served a page without it |
| PresenceStore.AlwaysSafe | src/modules/presence/presence.store.ts:28-95 | In every run of adds, removes, refreshes and settles by any servers, the key outlives its leases by a lease and whoever has a lease is in the online set |
| PresenceStore.LiveLeaseKept | src/modules/presence/presence.store.ts:39-49 | The double key lifetime never drops an unexpired lease, at any later moment, and its user is online |
| PresenceStore.RefreshedStaysOnline | src/modules/presence/presence.store.ts:69-78 | A socket renewed at gaps shorter than the lease keeps its user online whatever else runs, and its lease ends one lease after the last renewal |
| PresenceStore.SettleDecides | src/modules/presence/presence.store.ts:44-49 | A settle leaves the user online if and only if some lease is still running; otherwise the last-seen time is recorded |
| PresenceStore.RemoveDropsOne | src/modules/presence/presence.store.ts:60-62 | A removed socket has no lease any more, every other lease stays, and so does the online set |
| PresenceStore.RemoveThenSettle | src/modules/presence/presence.store.ts:60-67 | A removal followed by a settle leaves the user online if and only if another socket's lease is still running, and the settle answers true otherwise |
| PresenceStore.LeaseOfAnAdd | src/modules/presence/presence.store.ts:28-58 | An added socket keeps its user online for 90 s after the add was issued, and not by itself any longer |
| PresenceStore.RefreshRenewsOnly | src/modules/presence/presence.store.ts:69-78 | A refresh moves the end of a lease that is there, brings none back, and touches no other |
| PresenceStore.RefreshesMeans | src/modules/presence/presence.store.ts:69-78 | The pipeline holds for each user exactly one renewal per entry of theirs |
| PresenceStore.LastSeenMeans | src/modules/presence/presence.store.ts:44-49 | The last-seen time is written exactly by the settle that takes a user offline |
| PresenceStore.AnnouncementsAlternate | src/modules/presence/presence.store.ts:39-67 | In any run of commands the true results of ADD_SOCKET and SETTLE for a user strictly alternate, starting from the user's state, and the last one is their state |
| PresenceStore.WhoAnnounces | src/modules/presence/presence.store.ts:39-49 | A script answers true exactly when it moved the user into or out of the online set: SADD of an absent user, or SREM of a present one with no running lease |
| PresenceStore.RedisPresenceStore.AddSocket | src/modules/presence/presence.store.ts:54-58 | The script's effect on this user, its answer returned, and no effect on others |
| PresenceStore.RedisPresenceStore.RemoveSocket | src/modules/presence/presence.store.ts:60-62 | Drops one lease and does not touch the online set |
| PresenceStore.RedisPresenceStore.Settle | src/modules/presence/presence.store.ts:64-67 | The script's effect on this user, its answer returned, and no effect on others |
| PresenceStore.RedisPresenceStore.Refresh | src/modules/presence/presence.store.ts:69-78 | For each user the refreshes of that user in order, none of which registers a removed socket |
| PresenceStore.RedisPresenceStore.Sweep | src/modules/presence/presence.store.ts:80-95 | Every user who was online is settled once and exactly those who went offline are returned, each once; nothing while another server holds the lock |
| PresenceService.NoLostOffline | src/modules/presence/presence.service.ts:51-91 | In every interleaving on any number of servers, a user shown online with no registered socket, or with no connected one, has a grace timer, a settle, a connect or a disconnect pending |
| PresenceService.StepWatched | src/modules/presence/presence.gateway.ts:33-44 | Every step kept in the connect-before-disconnect order preserves this |
| PresenceService.TimersMean | src/modules/presence/presence.service.ts:51-72 | A timer is pending on a server from a disconnect until it fires or a connect there cancels it, and each timer settles once |
| PresenceService.Leaves | src/modules/presence/presence.service.ts:61-91 | In the runs of all servers, when the only socket closes its user is offline once the timer has fired and its check is done, with nothing left pending |
| PresenceService.ClosesEarly | src/modules/presence/presence.gateway.ts:33-44 | A socket that closes while it connects is registered first and then due for removal |
| PresenceService.SweepTakesOffline | src/modules/presence/presence.store.ts:80-95 | In those runs a sweep leaves the user online exactly if some lease has not run out, and forgets the others |
| PresenceService.PresenceService.SocketConnected | src/modules/presence/presence.service.ts:51-59 | Cancels this server's timer, registers the socket, announces exactly when the user was offline, and touches no other user |
| PresenceService.PresenceService.SocketDisconnected | src/modules/presence/presence.service.ts:61-72 | Removes the socket, leaves one timer that ends the grace period counted from now, and touches no other user |
| PresenceService.PresenceService.TimerFired | src/modules/presence/presence.service.ts:67-91 | Removes the timer, settles, announces exactly when the user went offline, and touches no other user |
| PresenceService.ClosedForGood | src/modules/presence/presence.service.ts:61-91 | A socket closes and its timer fires five seconds later: the user goes offline, and is announced, exactly if no other socket holds a lease by then |
| PresenceService.PresenceService.Stop | src/modules/presence/presence.service.ts:43-49 | Clears all timers and settles exactly the users who had one |
| RateLimits.SocketLimiter.OnEvent | src/realtime/socket-handler.ts:38-46 | The queue in place: what left the window goes, and the event is accepted and recorded exactly when fewer than `max` remain |
| RateLimits.SlidingWindowBound | src/realtime/socket-handler.ts:38-46 | With a clock that never goes back, `max + 1` accepted events span at least the window, and an event is refused exactly when `max` were accepted in the window before it |
| RateLimits.AcceptedIff | src/realtime/socket-handler.ts:38-46 | In any run of events in clock order, one more is accepted exactly when fewer than `max` were accepted in the window before it |
| FixedWindow.SharedCounter.IncrTtl | src/common/middleware/rate-limit.ts:29 | Increments a live counter or starts one at 1 without expiry, and tells whether it has one |
| FixedWindow.SharedCounter.Expire | src/common/middleware/rate-limit.ts:30 | Sets the expiry of a live counter and does not create one |
| FixedWindow.RateLimiter.Handle | src/common/middleware/rate-limit.ts:28-38 | Accepts exactly when the count is within the maximum; only a counter without expiry is given one |
| FixedWindow.FixedWindowBound | src/common/middleware/rate-limit.ts:28-38 | With any number of servers and EXPIREs arriving as late as they like, accepted requests less than a window apart number at most `max` within one lifetime of the key and at most `2 * max - 1` in all |
| FixedWindow.BoundIsReached | src/common/middleware/rate-limit.ts:28-38 | A run that reaches that bound |
| FixedWindow.RefusedOnlyWhenFull | src/common/middleware/rate-limit.ts:35-38 | A refused request comes after `max` accepted ones in the same lifetime of the key |
| FixedWindow.NeverStuck | src/common/middleware/rate-limit.ts:29-30 | Unless a server dies between its two commands, a counter without expiry always has an EXPIRE on its way |
| FixedWindow.OwedMeans | src/common/middleware/rate-limit.ts:29-30 | A request owes an EXPIRE exactly when it finds no live counter with an expiry |
| FixedWindow.CrashLeavesBareKey | src/common/middleware/rate-limit.ts:29-30 | A server that does die leaves a counter nobody is about to expire |
| FixedWindow.NextRequestRepairs | src/common/middleware/rate-limit.ts:29-30 | Whatever was lost, the next request on such a counter owes an EXPIRE, and sending it gives the counter its expiry |
| Csv.ChatExportService.WriteCsv | src/modules/chat/services/chat-export.service.ts:23-31 | Appends the byte order mark, the header line and one line per message in order |
| Csv.FieldRoundTrip | src/modules/chat/services/chat-export.service.ts:10 | Any text, quotes, commas, CR and LF included, is read back as one field by the RFC 4180 reader |
| Csv.CsvRoundTrip | src/modules/chat/services/chat-export.service.ts:7-30 | The export after the mark reads back as the header and exactly eight fields per message, each the guarded value, none starting with a formula character |
| Csv.GuardCollisions | src/modules/chat/services/chat-export.service.ts:9 | Two texts become the same cell if and only if they are equal or one is an apostrophe before the other, which starts a formula |
| Csv.GuardMeans | src/modules/chat/services/chat-export.service.ts:8-9 | An empty cell for null, an apostrophe before exactly the texts that start with one of the six characters, and nothing else changed |
| Csv.ColumnsNameFields | src/modules/chat/services/chat-export.service.ts:4-28 | Each of the eight columns shows the field it is named after |
| Analytics.CountMessagesPerDay | src/modules/metrics/analytics.service.ts:52-66 | The two passes over slots give each day the messages whose slot starts on it |
| Analytics.SlotsRefineDays | src/modules/metrics/analytics.service.ts:45-66 | From any start on, counting by slots equals counting each message's day, for all histories, if and only if no later instant lies on another day than the start of its slot |
| AnalyticsReport.QuarterHourClocks | src/modules/metrics/analytics.service.ts:48-53 | With or without daylight saving, no slot straddles two days from a time on, if from then on offsets are multiples of 15 minutes that change between slots only |
| AnalyticsReport.QuarterHourZones | src/modules/metrics/analytics.service.ts:48-53 | In a zone that keeps one offset, no slot straddles two days from any time on if and only if it is a multiple of 15 minutes |
| AnalyticsReport.LabelFollowsIff | src/modules/metrics/analytics.service.ts:72 | In any zone, a label is the day after the one before if and only if the shift of the clock between their two instants does not carry the time of day over midnight |
| AnalyticsReport.LabelsAreConsecutive | src/modules/metrics/analytics.service.ts:72 | Where the clock is never shifted the labels are consecutive days |
| AnalyticsReport.ShiftRepeatsDay | src/modules/metrics/analytics.service.ts:72 | Half an hour after a clock went back over midnight two labels are the same day |
| AnalyticsReport.ShiftSkipsDay | src/modules/metrics/analytics.service.ts:72 | With a clock gone forward a day has no label |
| AnalyticsReport.WindowCoversLabels | src/modules/metrics/analytics.service.ts:73-74 | In any zone that shifts by no more than a day, no message of a labelled day is older than `since` |
| AnalyticsReport.SinceMeans | src/modules/metrics/analytics.service.ts:72-74 | The query starts two days before the instant of the oldest label, and the last label is that of now |
| AnalyticsReport.CountByWeekday | src/modules/metrics/analytics.service.ts:87-88 | The counters updated in place end as the weekday counts of the points |
| AnalyticsReport.WeekdaysAddUp | src/modules/metrics/analytics.service.ts:87-93 | In any zone the weekday counts add up to the total |
| AnalyticsReport.WeekdaysAreDirect | src/modules/metrics/analytics.service.ts:87-88 | Over consecutive days those counts are the messages on each weekday, Sunday first |
| AnalyticsReport.WeekdaysFollow | src/modules/metrics/analytics.service.ts:87-88 | Weekdays follow one another from a known Sunday |
| AnalyticsReport.Compute | src/modules/metrics/analytics.service.ts:68-101 | For any zone and any period: the counts of the slots under the labels, the same one period earlier, their sums, and weekday counts that add up to the total |
| AnalyticsReport.PointsCountDays | src/modules/metrics/analytics.service.ts:77-95 | In any zone that is on whole quarter hours within the queried window and shifts by no more than a day, each point is a direct count of all messages of its day, and the totals add these up |
| AnalyticsReport.TotalIffDistinct | src/modules/metrics/analytics.service.ts:92-95 | Such a sum counts every message of the labelled days exactly once, for all histories, if and only if no label repeats |
| AnalyticsReport.DistinctLabelsIff | src/modules/metrics/analytics.service.ts:72-84 | From any label on, of both periods or of the current one, no label repeats if and only if the clock is never put back over midnight between two of them |
| AnalyticsReport.ReportIsDirect | src/modules/metrics/analytics.service.ts:68-101 | When the labels are consecutive, per-day counts, both totals and weekday counts are direct counts over all messages of the two periods |

## Left out

- AssignmentService.AssignmentService.AutoAssign: the per-conversation promise chain in `assigning` is not modelled; it only orders calls on one server, and the interleaved model allows every order.
- DrainRuns.StepKeepsCovered: every call but a drain is uninterrupted there, so a candidate that is full only for the moment of another call's lost reservation is not covered; the rebalance is the repair and not a step.
- AssignmentService.AssignmentService.Rebalance: uninterrupted; its recount ignores reservations in flight, so it is kept out of the interleaved ledger, as is the orphan loop.
- AssignmentService.AssignmentService.RequeueAgentChats: its first reads and its drain see the same presence snapshot throughout the call.
- AssignmentRuns.LedgerHolds: a step whose server crashes or whose database call throws between reserve and assign simply takes no further step and stays in the ledger as in flight; the rebalance theorem is what repairs it.
- HistoryCache.ServedPageIsFresh: Redis failures and version expiry are in `CacheTtl` instead, and the cached page stands for the whole thread's rows.
- CacheTtl.BoundedStaleness: the followed thread is one; other threads appear only through their invalidations, which `Invalidate` shows to have no effect on it. Redis evicting keys before they expire is left out.
- CacheTtl.MessageCacheService.GetFirstPage: as a method it meets no other call between its two reads; `FetchVersion` and `LookUp` of the runs are those reads with anything in between.
- MessagesService.MessagesService.MarkDeliveredTo: as a method it meets no other call; `ReturnsItsOwnIff` is about the interrupted one.
- PresenceStore.AlwaysSafe: a ZADD and the PEXPIRE after it are one step, and all servers read one clock.
- PresenceService.NoLostOffline: before `stop()`, without a crash or a failing store; the sweep covers those.
- History.CursorRoundTrip: JSON and ISO date text are a parameter that is assumed to parse what it printed and to print no empty text; the decoder's handling of padding and trailing garbage is not modelled beyond skipping unknown characters.
- History.WalkVisitsAll: pages come from the database, not from the cache, and no message is deleted.
- Csv.CsvRoundTrip: texts are sequences of characters; the UTF-8 encoding of the stream and the conversion of dates to text are not modelled.
- AnalyticsReport.Compute: calendar dates are day numbers, and the zone is a function from instants to days.
- FixedWindow.FixedWindowBound: the fail-open path when Redis is down lets requests through uncounted.
- The `assignedAt` field, normalisation of missing profile fields, and the announcements to clients.
- The JSON branch of the export, `listForRequester`, `getOrCreateForCustomer` and message mappers: they would add only easy members.
- `MemoryPresenceStore`: it is used without Redis only, and does not follow the model: a user whose last socket was removed is announced again on the next connect even if no settle took them offline.
- The 60-second result cache of the analytics and the counts of closed conversations.
- Socket.IO, HTTP routes, sessions, permissions beyond those inside `claim` and `close`, push notifications, queues and metrics.
- Generation of object ids, which are distinct numbers here.
