# Todo-1M: a verified model

Todo-1M is an event-sourced todo service. The command API accepts commands, the domain engine turns each command into an
event, the data-sink projects events into tables, and the SSE streamer fans events out live. This project models the
parts that keep invariants over unbounded runs, and proves those invariants for every run, every interleaving of the
steps the code takes between locks or statements, and every input.

Each module follows one part of the program.

| module | what it models |
|---|---|
| `Channels`, `GroupStreams`, `Broadcasts` | a subscriber's bounded channel, and one fan-out stream: its guarded fields every region its mutex guards, and every interleaving of broadcasts with joins, leaves and reads |
| `FanOut` | every interleaving of adds, removes, event callbacks and timer callbacks on one fan-out stream |
| `Registry` | the registry of fan-out streams, and every interleaving of Subscribe and unsubscribe on it |
| `Streaming` | registry and fan-out streams together: every interleaving of subscribers of every group |
| `Leases` | the one-stream-per-user registry, and every interleaving of `/events` handlers with disconnect requests |
| `Projection`, `Replay` | the data-sink's transaction on three tables, the queries that read them, and what at-least-once delivery can change |
| `Polling`, `Snapshots` | the two polling loops, and why a snapshot read after waiting covers what it was scheduled for |
| `CommandAPI`, `Commands`, `Subjects` | the path of one request: the endpoint's checks, Accept, the domain engine's Handle, and the message subjects |
| `Pipeline` | API, domain engine and data-sink as one transition system, with redelivery on both streams |
| `RateLimiter` | the fixed-window limiter with eviction |
| `Membership`, `RefreshTokens` | groups and roles, and refresh-token rotation |
| `Metrics`, `Text` | counters and their text form, and the string functions the services call |

Where an object updates its fields under a lock, the module holds a class whose methods are tied to a function on values,
and the properties are proved about that function over whole runs. A run is a sequence of states, each one step further
than the one before.

Results the code meets only under a condition, or does not meet:

- A failed `js.Subscribe` can leave a NATS subscription active that nobody listens to: `FanOut.FailedAddCanLeak` is such
  a run, and `FanOut.OrphanedExactlyByFailedAdd` gives the one transition that causes it.
- Emptying a stream and dropping it from the registry are two lock regions, so one group can have two streams in use:
  `Registry.TwoStreamsOfOneGroup` is such a run, and `Registry.OneInUseExactly` says exactly when it happens.
  `Registry.LostExactlyByOverlap` does so for a used stream that the registry has lost. A failed add can also leave an
  unused stream registered: `Registry.FailedAddLeavesIdle` is such a run, `Registry.IdleExactlyByFailedAdd` the exact
  condition. What both mean for subscriptions is `Streaming.SoundExactly` and `Streaming.SettledRunsServeExactly`.
- Stream ids come from the clock. Two handlers of one user with the same id can leave a stream nobody cancels, and then
  break the one-stream rule: `Leases.SameIDBreaksTheLaw`. `Leases.StrandedExactlyBySameID` is the exact condition of the
  first, `Leases.OneStreamExactly` of the second.
- An admin can replace the owner's own entry by adding the owner as a member: `Membership.AdminCanReplaceOwner`.
  `Membership.OwnerHoldsExactly` says exactly when a group loses its owner.
- An update redelivered alone after a newer one overwrites it: `Replay.StaleUpdateOverwrites`. Which redeliveries are
  harmless is `Replay.RedeliveryIsHarmlessExactly`, for one event `Replay.OneRedeliveryIsHarmlessExactly`; a suffix
  always is: `Replay.RedeliveryIsIdempotent`.
- The projection offset can pass an event that waits for redelivery: `Snapshots.OffsetRunsAhead`. It covers every event
  if and only if a group's events commit in stream order: `Snapshots.CoversExactlyInStreamOrder`.
- A rate-limited call whose time is more than one window behind another's can be admitted because its client was
  evicted: `RateLimiter.LateCallAfterCrowd`; `RateLimiter.AnswersAreOwnExactly` is the exact condition. Within one
  window no answer changes: `RateLimiter.AnswersDependOnOwnCalls`.
- A subscription subject is exact when and only when the group id has no wildcard token: `Subjects.SubscriptionIsExact`.
- Two label tuples can share a counter when a value holds the byte 0xFF: `Metrics.UncleanTuplesShare`;
  `Metrics.AloneExactlyWhenClean` says exactly which tuples share, and `Metrics.OwnLineDecodesExactly` which lines
  decode to their own tuple.

## Model

| member | source | states |
|---|---|---|
| Channels.Channel.TrySend | cmd/sse-streamer/main.go:637-642 | a send never blocks: with 64 messages waiting the new one is dropped, else it joins the end of the buffer |
| Channels.Channel.Read | cmd/sse-streamer/main.go:538-539 | a receive takes the oldest waiting message |
| Channels.BroadcastConserves | cmd/sse-streamer/main.go:539-643 | after any sends and receives, what was offered is an order-keeping merge of what was received and waits with what was dropped, nothing lost or duplicated, and at most 64 wait |
| Channels.DropsExactlyWhenFull | cmd/sse-streamer/main.go:637-642 | the messages offered are the sends in order, and what is dropped is, send by send and in order, exactly what met 64 waiting messages: nothing is dropped while fewer wait |
| Channels.FullIsSixtyFour | cmd/sse-streamer/main.go:539-539 | the buffer a send finds full holds 64 messages |
| Channels.ReadTakesOldest | cmd/sse-streamer/main.go:637-642 | a receive takes the message that has waited longest, and none when none waits |
| GroupStreams.NextKeyIsNew | cmd/sse-streamer/main.go:541-545 | the key a new subscriber gets is nobody else's |
| GroupStreams.GroupStream.RegisterSubscriber | cmd/sse-streamer/main.go:538-545 | a subscriber gets a fresh empty channel under a new key, and every other entry stays |
| GroupStreams.GroupStream.ForgetSubscriber | cmd/sse-streamer/main.go:547-551 | a failed add deletes its own entry and changes nothing else: not the subscription, not the timer |
| GroupStreams.GroupStream.InstallSubscription | cmd/sse-streamer/main.go:618-626 | the first subscription created is installed; a later one is refused, to be unsubscribed by its creator |
| GroupStreams.GroupStream.RemoveSubscriber | cmd/sse-streamer/main.go:557-586 | the last subscriber out, and only the last, takes the subscription and the timer and resets the pending sequence |
| GroupStreams.GroupStream.ScheduleSnapshot | cmd/sse-streamer/main.go:645-659 | the pending sequence never falls, and afterwards a timer is set: the old one, if there was one |
| GroupStreams.GroupStream.TakeSnapshotTarget | cmd/sse-streamer/main.go:661-667 | a refresh takes the pending sequence and clears the timer, and says whether anybody listens |
| GroupStreams.GroupStream.SnapshotSubscribers | cmd/sse-streamer/main.go:630-635 | broadcast's region collects each registered channel exactly once, whatever order the map is walked in |
| GroupStreams.SendAll | cmd/sse-streamer/main.go:637-642 | after the region, each channel of the snapshot is offered the message exactly once |
| GroupStreams.GroupStream.Broadcast | cmd/sse-streamer/main.go:629-643 | with nothing in between, every registered channel is offered the message exactly once |
| Broadcasts.OnceKept | cmd/sse-streamer/main.go:629-643 | every join, leave, snapshot, send and read keeps: a channel was offered a broadcast's message once if that broadcast has sent to it, else never |
| Broadcasts.RegisteredAfter | cmd/sse-streamer/main.go:538-586 | in every run a join registers its channel under a new key, a failed add or a removal takes exactly its own key away, and nothing else changes who is registered |
| Broadcasts.StepsCanBeTaken | cmd/sse-streamer/main.go:629-643 | in every run exactly these steps are open: any new join and broadcast, any removal, any read of a channel made, and the sends still left |
| Broadcasts.SnapshotHoldsRegistered | cmd/sse-streamer/main.go:630-635 | in every run a snapshot holds exactly the channels registered in the state before it |
| Broadcasts.SnapshotStays | cmd/sse-streamer/main.go:637-642 | whom a broadcast is for never changes after its snapshot |
| Broadcasts.SendShortens | cmd/sse-streamer/main.go:637-642 | a send offers the message on its one channel and takes that channel off the list |
| Broadcasts.ReadReceives | cmd/sse-streamer/main.go:637-642 | a read is a receive on its one channel and changes nothing else |
| Broadcasts.OfferedExactlyOnce | cmd/sse-streamer/main.go:629-643 | in every interleaving a message is offered at most once, only on channels registered just before the snapshot, and on exactly these when nobody is left; there it was received, waits or was dropped, once |
| Broadcasts.NotOfferedBefore | cmd/sse-streamer/main.go:629-643 | a broadcast that has not begun was offered to nobody |
| Broadcasts.FinishedFirstIsOfferedFirst | cmd/sse-streamer/main.go:629-643 | a broadcast finished before another's snapshot is offered before it on every channel |
| FanOut.EntryLawKept | cmd/sse-streamer/main.go:538-586 | every step keeps: the entries are exactly those of the calls that have one, each under its own key |
| FanOut.AccountedKept | cmd/sse-streamer/main.go:588-627 | every step keeps: a NATS subscription is active exactly when it is installed or some call still holds it |
| FanOut.SubscriptionLawKept | cmd/sse-streamer/main.go:538-627 | every step keeps: no subscription is in two places and none is forgotten |
| FanOut.SubscriptionsAccountedFor | cmd/sse-streamer/main.go:538-627 | in every interleaving the active subscriptions are the installed one, those created but not installed and those detached but not unsubscribed, each in one place; every subscriber added and not removed is served |
| FanOut.OrphanedExactlyByFailedAdd | cmd/sse-streamer/main.go:547-552 | a run shows a subscription without subscribers if and only if a failed add deletes the last entry while one is installed |
| FanOut.QuiescentSubscriptions | cmd/sse-streamer/main.go:538-627 | once all calls have settled there is at most one active subscription; without such a failed add, exactly one if and only if somebody is subscribed |
| FanOut.FailedAddCanLeak | cmd/sse-streamer/main.go:547-552 | a run of two overlapping adds that ends with nobody subscribed and a subscription active |
| FanOut.DebounceLawKept | cmd/sse-streamer/main.go:557-573 | every step keeps: pending sequences lie at or below the pending maximum, behind a timer that will fire or has fired |
| FanOut.DebounceLosesNothing | cmd/sse-streamer/main.go:645-667 | in every interleaving, Reset of a fired timer included, each scheduled sequence waits behind a live timer, was covered by a refresh of at least that target, or was dropped |
| FanOut.FateOfScheduled | cmd/sse-streamer/main.go:661-671 | a sequence becomes covered only by a refresh that takes the pending maximum while somebody listens, and is dropped only where nobody does |
| FanOut.FatesAreFinal | cmd/sse-streamer/main.go:645-671 | the log of scheduled sequences only grows, and a covered or dropped one stays so |
| FanOut.RefreshTargetIsMaximum | cmd/sse-streamer/main.go:661-667 | a refresh's target is the maximum of the sequences scheduled since the last take or reset, and the take settles every one of them |
| FanOut.TimerSteps | cmd/sse-streamer/main.go:645-667 | scheduling arms the current timer, firing turns it into one more waiting callback, and a callback takes the pending sequence and leaves subscribers and subscription alone |
| FanOut.StoppedIsNeverArmed | cmd/sse-streamer/main.go:574-583 | in every interleaving a timer the last subscriber took along is stopped by its next step and never armed again |
| FanOut.CallCanStep | cmd/sse-streamer/main.go:538-627 | no add or remove is ever stuck: each has a step of its own open that leaves all others where they are, and settles after at most five |
| FanOut.AddMoves | cmd/sse-streamer/main.go:547-627 | where each step of an add leads: one that finds a subscription installed has joined and makes none, else exactly one is made, and is installed or given up |
| FanOut.RemoveMoves | cmd/sse-streamer/main.go:557-586 | where each step of a removal leads: the last one out takes subscription and timer along, stops the timer, then unsubscribes; any other takes only its own entry |
| FanOut.OthersCanStep | cmd/sse-streamer/main.go:538-667 | which of the other steps are open: new adds, removals of joined subscribers, both outcomes of js.Subscribe, events, armed timers, fired callbacks |
| Registry.GroupStreamRegistry.FindStream | cmd/sse-streamer/main.go:480-494 | a group's registered stream is handed out again; only an unknown group gets a new, empty one |
| Registry.GroupStreamRegistry.DropStream | cmd/sse-streamer/main.go:506-511 | this stream is registered no more, and no other stream's entry goes |
| Registry.GroupStreamRegistry.Unsubscribe | cmd/sse-streamer/main.go:501-512 | without overlap, a stream leaves the registry exactly when its last subscriber goes |
| Registry.CallsCanStep | cmd/sse-streamer/main.go:480-513 | a new call gets its group's registered stream, or a new one, and any other call can take its next step |
| Registry.LostExactlyByOverlap | cmd/sse-streamer/main.go:480-515 | every stream in use stays registered throughout a run if and only if no unsubscribe drops the entry of a stream found again since it was emptied |
| Registry.OneStreamPerGroup | cmd/sse-streamer/main.go:480-515 | without such an overlap all of a group's calls use one stream, the registered one |
| Registry.OneInUseExactly | cmd/sse-streamer/main.go:480-494 | no two streams of one group are ever in use at once in a run if and only if no Subscribe finds its group without a registered stream while one of the group's streams is in use |
| Registry.FailedAddLeavesIdle | cmd/sse-streamer/main.go:496-499 | a run that ends with a registered stream nobody has |
| Registry.IdleExactlyByFailedAdd | cmd/sse-streamer/main.go:496-499 | the registry never holds a stream nobody has if and only if no failed add was the last call on its stream; then, once every call has ended, the registry is empty |
| Registry.TwoStreamsOfOneGroup | cmd/sse-streamer/main.go:501-512 | a run that ends with two streams of one group in use |
| Streaming.LastExactlyWhenAlone | cmd/sse-streamer/main.go:557-567 | removeSubscriber finds a stream empty exactly when no other call of the registry has an entry in it |
| Streaming.RegistryFollows | cmd/sse-streamer/main.go:480-515 | every step of registry and streams together is, seen from the registry, one of its own steps or none |
| Streaming.LawKept | cmd/sse-streamer/main.go:480-627 | every step of any subscriber of any group keeps each stream's laws, the registry's, and their agreement on who has an entry where |
| Streaming.DropsOnlyWhenGone | cmd/sse-streamer/main.go:501-511 | the registry is told of an emptied stream only by a call that holds no subscription any more |
| Streaming.SoundExactly | cmd/sse-streamer/main.go:480-627 | a run never shows a used stream lost by the registry or a subscription without subscribers if and only if no unsubscribe drops a stream found again and no failed add cleans up last under a subscription |
| Streaming.OneSubscriptionPerGroup | cmd/sse-streamer/main.go:480-627 | in every such run, once all calls have settled, each group has at most one active NATS subscription over all its streams, and exactly one if and only if it has subscribers |
| Streaming.OneSubscriptionWithoutFailures | cmd/sse-streamer/main.go:480-627 | so in every run in which no add fails and no stream is dropped after it was found again |
| Streaming.SettledRunsServeExactly | cmd/sse-streamer/main.go:480-627 | in every settled state of every run, each group has at most one active NATS subscription and exactly one when it has subscribers, if and only if no stream is orphaned and no two streams of one group have subscribers |
| Streaming.SubscriberComesAndGoes | cmd/sse-streamer/main.go:480-627 | from nothing, a subscriber is served by the group's one subscription, and once it has gone no subscription and no registered stream are left |
| Leases.UserStreamRegistry.Replace | cmd/sse-streamer/main.go:401-411 | the new lease takes the user's place and the previous one is handed back, to be cancelled |
| Leases.UserStreamRegistry.Release | cmd/sse-streamer/main.go:413-425 | only a lease with this id goes; other users' leases and a newer id stay |
| Leases.UserStreamRegistry.Cancel | cmd/sse-streamer/main.go:427-438 | the user's lease is taken out and handed back, to be cancelled |
| Leases.NoLeaseOutlivesItsHandler | cmd/sse-streamer/main.go:246-252 | in every run the registry keeps no lease of a handler that has ended, so once all have ended it is empty |
| Leases.HandlersCanStep | cmd/sse-streamer/main.go:244-252 | a handler can always take its next step; a disconnect request takes the lease out and gets its cancellation on the way |
| Leases.UncancelledIsCurrentOrPending | cmd/sse-streamer/main.go:246-438 | in every interleaving with distinct ids, an opened stream not cancelled is its user's lease or has a cancellation on its way |
| Leases.OneStreamPerUser | cmd/sse-streamer/main.go:401-438 | so with no cancellation on its way each user has at most one uncancelled stream |
| Leases.OneStreamExactly | cmd/sse-streamer/main.go:245-252 | in a run, distinct ids or not, no user ever has two uncancelled streams without a cancellation on its way if and only if no stream opens for a user one of whose streams is neither the user's lease nor about to be cancelled |
| Leases.StrandedExactlyBySameID | cmd/sse-streamer/main.go:246-438 | a run never shows an uncancelled stream that is neither its user's lease nor about to be cancelled if and only if no release takes another handler's live lease of the same user and id |
| Leases.StaleReleaseIsHarmless | cmd/sse-streamer/main.go:413-425 | in every run with distinct ids a release, however late, leaves every other handler's lease |
| Leases.ReleaseRemovesExactlySameID | cmd/sse-streamer/main.go:413-425 | in every run a release removes a current lease if and only if the lease is of the same user and has the same id |
| Leases.SameIDBreaksTheLaw | cmd/sse-streamer/main.go:245-252 | a run with one id used twice that ends with two uncancelled streams of one user |
| Projection.EventRepository.InsertEvent | internal/app/datasink/repository.go:163-225 | all three tables change as the three statements say, or none does; it fails exactly for an unsupported type or a database failure; the event is then logged once, other rows and log entries stay, and the group's offset has reached its sequence |
| Projection.UnsupportedChangesNothing | internal/app/datasink/repository.go:187-218 | an event of a type the sink does not know changes nothing, and any other is committed |
| Projection.EventRepository.ListGroupTodos | internal/app/query/repository.go:37-80 | lists exactly the group's undeleted rows, each once, newest first; one is missing only when the limit is reached by rows no older; a limit outside 1 to 200 means 50 |
| Projection.RowDependsOnOwnEvents | internal/app/datasink/repository.go:84-111 | a todo's row after any deliveries is decided by that todo's own supported deliveries, in their order |
| Projection.LogAfter | internal/app/datasink/repository.go:75-82 | the event log keeps what it had, gains exactly the ids of committed events, and each new entry is a committed event |
| Projection.OffsetIsMaximum | internal/app/datasink/repository.go:113-119 | a group's offset is the maximum of its committed sequences and its old offset, and exists exactly when there is one |
| Projection.ToInt64 | internal/app/datasink/repository.go:220-220 | the stored sequence is the 64-bit two's-complement reading of the stream's |
| Replay.OrderAcrossTodosIsFree | internal/app/datasink/repository.go:75-119 | two delivery sequences with the same deliveries in the same order per todo end in the same todos, log and offsets |
| Replay.DeletedRowIsFrozen | internal/app/datasink/repository.go:94-111 | no delivery changes a deleted row |
| Replay.RowClosedForm | internal/app/datasink/repository.go:84-111 | a row exists iff a create was delivered; creator and group come from the first create, the title from the last update before the first later delete, deletion from that delete |
| Replay.TodoRowClosedForm | internal/app/datasink/repository.go:84-111 | the closed form holds for each todo whatever is delivered for others in between |
| Replay.TodoRowFields | internal/app/datasink/repository.go:84-111 | column by column: group, creator, creator's name and creation time are the first create's; the title is the last update's before the first later delete, else the create's; who last touched the row and when is that delete's, else that update's, else the create's; the deletion time is that delete's |
| Replay.DeletedStaysInvisible | internal/app/query/repository.go:41-50 | once a row is deleted, no later delivery changes it, makes it found or puts it in a listing |
| Replay.LookupFindsLiveTodo | internal/app/query/repository.go:82-114 | a lookup by id after any deliveries finds the closed form of the todo's own deliveries, and nothing when they made no row or deleted it |
| Replay.ListingShowsLiveTodos | internal/app/query/repository.go:37-50 | a listing of a group is chosen from exactly the todos whose own deliveries left them undeleted in that group |
| Replay.RowAgain | internal/app/datasink/repository.go:84-111 | redelivered events leave a row if and only if it is not live, or no delete is among them and the last update among them is stamped on it already |
| Replay.RedeliveryIsHarmlessExactly | internal/app/datasink/repository.go:75-119 | redelivering any past deliveries, in any order and number, leaves todos, log and offsets unchanged if and only if that holds for every row |
| Replay.OneRedeliveryIsHarmlessExactly | internal/app/datasink/repository.go:94-102 | with each todo's create first, redelivering one event changes something if and only if it is an update of a todo not deleted and differs from the todo's last update in what it writes |
| Replay.RedeliveryIsIdempotent | internal/app/datasink/repository.go:75-119 | with each todo's create first, redelivering any suffix of a delivery sequence leaves todos, log and offsets unchanged |
| Replay.StaleUpdateOverwrites | internal/app/datasink/repository.go:94-102 | an older update redelivered alone after a newer one brings the old title back |
| Polling.DelaysGrowToCap | cmd/sse-streamer/main.go:761-766 | delays never shrink and never exceed the cap |
| Polling.OffsetWaits | cmd/sse-streamer/main.go:749-766 | n polls wait at least 320n - 1088.75 ms |
| Polling.CommandWaits | internal/app/query/repository.go:149-180 | n polls wait at least 250n - 1106.5625 ms |
| Polling.WaitForProjectionOffset | cmd/sse-streamer/main.go:743-768 | ends after at most ceil((T + 1088.75) / 320) polls, with the reason it ended for; no poll but the last saw the target |
| Polling.PollForCommand | internal/app/query/repository.go:148-181 | ends after at most ceil((T + 1106.5625) / 250) polls; every poll but the last found no row or no table |
| Polling.WaitForCommandApplied | internal/app/query/repository.go:138-182 | blank ids need no poll, a timeout that is not positive means two seconds, and the bound on polls holds |
| Snapshots.OffsetNeverFalls | internal/app/datasink/repository.go:113-119 | a group's offset never falls, and is the largest sequence of its committed events |
| Snapshots.OffsetCovers | internal/app/datasink/repository.go:220-224 | when a group's events commit in stream order, seeing offset >= target means every supported event of the group up to the target is committed |
| Snapshots.CoversExactlyInStreamOrder | internal/app/datasink/repository.go:113-119 | a group's offset never passes one of its events not yet committed if and only if its events commit in stream order |
| Snapshots.ReadCovers | cmd/sse-streamer/main.go:676-682 | rows read after such an offset was seen hold all those events |
| Snapshots.RefreshSnapshot | cmd/sse-streamer/main.go:661-683 | every todo listed is live, and a live one is missing only when 50 are listed; when events commit in stream order and the wait ended at the offset, the tables listed hold every event the refresh was scheduled for |
| Snapshots.InLogExactlyWhenCommitted | internal/app/query/repository.go:150-156 | the query for a command finds a row exactly when an event of that command and group is committed |
| Snapshots.AnswerExactly | internal/app/query/repository.go:150-166 | the query answers found, no rows or an error, each exactly when it should |
| Snapshots.CommittedIsReflected | internal/app/datasink/repository.go:163-225 | with each todo's create first, a committed event's todo has a row: deleted if the event deletes, and after an update deleted or stamped by the todo's last update |
| Snapshots.WaitUntilApplied | internal/app/query/repository.go:138-182 | a wait that ends because the command was found ends with its event committed and its todo's row reflecting it |
| Snapshots.OffsetRunsAhead | internal/app/datasink/repository.go:113-119 | without stream order a group's offset can pass an event not yet committed |
| Commands.ActionsRead | internal/app/domainengine/service.go:68-79 | for every text: it is read as created, updated or deleted exactly when, lower-cased and trimmed, it is create-todo, update-todo or delete-todo, and is refused otherwise |
| Commands.RefusedExactly | internal/app/commandapi/service.go:61-88 | for every request: which of the four errors it gets, if any, from its trimmed texts alone |
| Commands.BlankMeansCreate | internal/app/commandapi/service.go:53-59 | the action is the lower-cased, trimmed text, and a blank one is create-todo |
| Commands.CheckAction | internal/app/commandapi/service.go:70-88 | which rule of its action a request breaks first, if any, by the action's text |
| Commands.Accept | internal/app/commandapi/service.go:61-128 | refuses exactly the requests whose trimmed texts break a rule, with that rule's error, and publishes nothing then; else publishes one command with trimmed ids, its defaults and the group's subject |
| Commands.Defaults | internal/app/commandapi/service.go:90-101 | what is published for a blank actor, a blank name, and a create without a todo id |
| Commands.EngineReadsNormalisedAction | internal/app/domainengine/service.go:68-79 | the engine reads the action Accept normalised exactly as Accept did |
| Commands.UnrefusedActionIsKnown | internal/app/commandapi/service.go:70-88 | a request that breaks no rule names an action the engine knows, with the todo id and title it needs |
| Commands.AcceptedCommandsAreHandled | internal/app/domainengine/service.go:36-66 | no accepted command is discarded: it becomes the event its action's text names, of the request's todo, group and actor on the group's own shard |
| CommandAPI.CheckRequest | internal/app/commandapi/http.go:318-356 | the first check of the endpoint a request fails: blank group, no member, and for an update or delete no visible todo, another group's todo, or neither moderator nor creator |
| CommandAPI.HandleCreateCommand | internal/app/commandapi/http.go:311-368 | answers with the first check failed, then with Accept's refusal; a command is published only when all pass, and is the one Accept makes |
| CommandAPI.VerdictExactly | internal/app/commandapi/http.go:318-356 | which error each failed check gives, in order, from the membership table and the row alone |
| CommandAPI.ChangesExactly | internal/app/commandapi/http.go:335-336 | exactly the actions that read as update-todo or delete-todo have their todo checked |
| CommandAPI.HandledRequestsTakeTheSteps | internal/app/commandapi/http.go:318-358 | a request that passes takes the steps of the whole system: its membership is read, its todo check passes, and the same command is published |
| Subjects.GetShardID | internal/sharding/sharding.go:13-16 | the shard is the checksum modulo 1024 |
| Subjects.CommandSubjectText | internal/sharding/sharding.go:20-23 | the command subject as text |
| Subjects.EventSubjectText | internal/app/domainengine/service.go:81-83 | the event subject as text |
| Subjects.GroupEventSubjectText | cmd/sse-streamer/main.go:770-772 | the subscription subject as text |
| Subjects.ShardFallback | internal/app/domainengine/service.go:85-93 | a subject without a number in its third token gives the group's own shard |
| Subjects.MatchesExactly | cmd/sse-streamer/main.go:770-772 | which subjects a pattern takes: as many tokens, each taken one by one, or after a last > at least one more |
| Subjects.ShardRoundTrip | internal/app/domainengine/service.go:85-93 | the shard printed into a command subject is the one parsed out of it, for every entity id, dots included |
| Subjects.SubscriptionTokens | cmd/sse-streamer/main.go:770-772 | a group's subscription takes an event exactly when the tokens of the two group ids match, whatever the shard |
| Subjects.SubscriptionIsExact | cmd/sse-streamer/main.go:770-772 | a group's subscription takes exactly the group's own events if and only if its id has no wildcard token |
| Subjects.CommandReachesItsGroup | internal/app/domainengine/service.go:81-93 | the event of a group's command carries the group's shard and reaches that group's subscription and no other group's |
| Subjects.ServiceSubscriptionsTakeAll | cmd/data-sink/main.go:51-51 | the services' own subscriptions take every command subject and every event subject |
| Pipeline.AuthorisedKept | internal/app/commandapi/http.go:335-357 | what the handler's checks found stays so under every step: roles in past tables, a row's group and creator |
| Pipeline.CheckAuthorises | internal/app/commandapi/http.go:341-356 | the row looked up with the raw todo id is the row of the id Accept publishes |
| Pipeline.FoundIDsAreRead | internal/app/commandapi/http.go:318-331 | the membership looked up with the raw group id and actor is that of the group and actor Accept publishes |
| Pipeline.RowKept | internal/app/datasink/repository.go:84-92 | every step keeps: each row came from a create in the event stream, with that event's group and actor |
| Pipeline.HandleKeepsStreamLaw | internal/app/domainengine/service.go:36-66 | handling a command, again or for the first time, keeps: ids differ, and each todo's events come after its create |
| Pipeline.CommitKeepsCreateFirst | internal/app/datasink/repository.go:163-225 | committing keeps: what was first committed for a todo is its create |
| Pipeline.StepKeepsLaw | cmd/domain-engine/main.go:38-55 | every step of the three services keeps all of these at once |
| Pipeline.HistoryWasCurrent | internal/app/commandapi/http.go:318-319 | a membership table a command was checked against was the current one in an earlier state of the run |
| Pipeline.RowsComeFromAcceptedCreates | internal/app/commandapi/http.go:318-358 | in every run each row comes from an accepted create of that todo, group and creator, sent by somebody who was then a member |
| Pipeline.FirstPublishedIsCreate | internal/app/commandapi/http.go:336-349 | in every run the first event published for any todo is its create |
| Pipeline.ChangesAreAuthorised | internal/app/commandapi/http.go:350-357 | in every run each published update or delete carries its todo's own group, and its actor was then owner or admin of that group or is the row's creator |
| Pipeline.RedeliveryChangesNothing | cmd/data-sink/main.go:51-76 | in every run, committing again any suffix of what the data-sink committed changes nothing |
| Pipeline.AnyRedelivery | cmd/data-sink/main.go:51-76 | in every run, committing again any committed deliveries changes nothing if and only if for each live row no delete is among them and the last update among them is stamped on it already |
| Pipeline.FoundCommandIsReflected | internal/app/query/repository.go:150-156 | in every run an event of a command is found only when that command was published and its todo's row reflects the event |
| Pipeline.InterleavingIsFree | cmd/data-sink/main.go:51-76 | in every run, interleaving the todos' commits in any other way leaves the same tables |
| Pipeline.TodoCheckExactly | internal/app/commandapi/http.go:341-356 | an update or delete passes exactly on an undeleted row of the group, from its owner, an admin or the row's creator |
| Pipeline.RequestGoesThrough | internal/app/commandapi/http.go:311-358 | from any state a member's request that passes its checks can go through all services: its event is the stream's next and is committed |
| Pipeline.RequestsTakeEffect | internal/app/commandapi/http.go:311-358 | so any member's create makes its row, an update by an owner, admin or the creator retitles it, a delete marks it deleted, and no other row changes |
| Pipeline.MembersMayChange | internal/app/identity/repository.go:183-256 | memberships may change at any time to any table of clean ids, and nothing else changes with them |
| Pipeline.RedeliveryIsTaken | cmd/domain-engine/main.go:38-55 | a command may be handled and an event committed any number of times |
| Pipeline.MatchesAcceptAndHandle | internal/app/commandapi/service.go:61-128 | the system's commands and events are those Accept publishes and Handle makes of them |
| RateLimiter.IPRateLimiter.Allow | internal/app/commandapi/http.go:91-118 | the answer, and the table after the call: the caller's window, and with over 100000 clients only windows opened within the last two |
| RateLimiter.AdmitsExactly | internal/app/commandapi/http.go:99-117 | a call is admitted exactly when its key has no window, an expired one, or one with room |
| RateLimiter.StepExactly | internal/app/commandapi/http.go:99-117 | what becomes of every entry: the caller's window opens, counts on or stays, and others go only when over 100000 are held and theirs opened more than two windows ago |
| RateLimiter.SameDecision | internal/app/commandapi/http.go:99-111 | a window that was forgotten would have expired anyway, when no time falls more than one window behind |
| RateLimiter.AnswersAreOwnExactly | internal/app/commandapi/http.go:99-111 | the limiter answers and records any number of calls as one that never evicts if and only if no call finds its key's still open window evicted |
| RateLimiter.AnswersDependOnOwnCalls | internal/app/commandapi/http.go:91-118 | when no call's time falls more than one window behind an earlier one, every answer is that of a limiter that never evicts and sees only that key's calls, and so is every entry the table holds |
| RateLimiter.LateCallAfterCrowd | internal/app/commandapi/http.go:102-109 | a call whose time lies more than one window back is admitted after eviction where a limiter that never evicts refuses it |
| RateLimiter.AdmittedIsOwn | internal/app/commandapi/http.go:91-118 | then a key's admitted calls in a run of all clients' calls are those a limiter for that key alone admits, evictions included |
| RateLimiter.CountIsAdmittedSince | internal/app/commandapi/http.go:112-116 | in a run of all clients' calls, an entry's count is the number of its key's calls admitted since its window opened |
| RateLimiter.AdmissionBound | internal/app/commandapi/http.go:99-117 | with non-decreasing times and limit >= 1, at most (k + 1) * limit of one key's calls are admitted in any half-open k windows, whatever other clients call and whatever is evicted |
| RateLimiter.RefusedOnlyAtLimit | internal/app/commandapi/http.go:112-114 | in such a run a refusal means exactly limit of that key's calls were admitted since some time within the last window |
| Membership.ParseGrant | internal/app/identity/service.go:202-217 | a request is refused for a blank group, a blank name, or a role that is neither admin nor member, in this order; else it asks for exactly the group, name and role its texts name |
| Membership.CreationExactly | internal/app/identity/repository.go:183-206 | which creations are stored, and exactly what they write |
| Membership.DeletionExactly | internal/app/identity/service.go:188-199 | which error each refused deletion gives; a deletion takes exactly the group and its memberships |
| Membership.AdditionExactly | internal/app/identity/service.go:219-233 | which error each refused add gives, and exactly what an add writes |
| Membership.ChangeExactly | internal/app/identity/service.go:250-260 | which error each refused role change gives, and exactly what a change writes |
| Membership.Service.CreateGroup | internal/app/identity/service.go:170-180 | a blank name, an id in use and a creator who is no user are refused; else the group and its creator's owner entry are stored together |
| Membership.Service.DeleteGroup | internal/app/identity/service.go:182-200 | only the owner deletes; the group's memberships go with it, and on a refusal nothing changes |
| Membership.Service.AddMember | internal/app/identity/service.go:219-233 | on success exactly that user's entry in exactly that group has the role asked for, and no other entry changed |
| Membership.Service.AddMemberByUsername | internal/app/identity/service.go:202-234 | which texts are refused and with which error; on success the user of the trimmed, lower-cased name has in the trimmed group the role the text names, member if it is blank; on a refusal nothing changes |
| Membership.Service.UpdateMemberRole | internal/app/identity/service.go:250-260 | on success exactly that member's entry has the role asked for, and no other entry changed |
| Membership.Service.UpdateMemberRoleByUsername | internal/app/identity/service.go:236-261 | which texts are refused and with which error; on success the user of the trimmed, lower-cased name has in the trimmed group the role the text names; on a refusal nothing changes |
| Membership.AtMostOneOwnerTheCreator | internal/app/identity/repository.go:89-96 | in every run, with writes apart from their checks, a group has at most one owner, its creator, and no membership refers to a missing group |
| Membership.EntriesAreGrantedByManagers | internal/app/identity/service.go:219-261 | in every run each entry but the owner's was granted by an actor who was owner or admin in the state that was checked, and each admin entry by the group's creator as its owner |
| Membership.GroupsAreDeletedByTheirOwner | internal/app/identity/service.go:182-200 | in every run a group goes away only after its creator was found to own it, and all its memberships go with it |
| Membership.HistoryIsTheRun | internal/app/identity/service.go:219-226 | the past membership tables a state records are those of the run's earlier states |
| Membership.LostOwnerNeverReturns | internal/app/identity/service.go:236-261 | once a group has lost its owner nobody ever is its owner again |
| Membership.OwnerHoldsExactly | internal/app/identity/service.go:202-261 | in a run a group's creator owns it as long as it exists if and only if no finished add or update writes the creator's entry |
| Membership.AdminCanReplaceOwner | internal/app/identity/service.go:226-233 | a run in which an admin adds the owner's user name as a member, after which the group has no owner |
| Membership.SerialAddIsTheService | internal/app/identity/service.go:219-233 | a check and its write with nothing in between are the service's own add |
| Membership.SerialUpdateIsTheService | internal/app/identity/service.go:250-260 | the same for a role change |
| Membership.SerialDeleteIsTheService | internal/app/identity/service.go:188-199 | the same for a deletion |
| RefreshTokens.TokenService.IssueFor | internal/app/identity/service.go:285-309 | a session is stored under a new hash and id for its user, usable at every time before its expiry and at no other, or nothing is stored |
| RefreshTokens.TokenService.Redeem | internal/app/identity/repository.go:318-341 | succeeds exactly on a stored token that is neither revoked nor expired, and revokes it |
| RefreshTokens.TokenService.RefreshHash | internal/app/identity/service.go:137-152 | an unknown, revoked or expired token is refused; a redeemed one stays revoked whatever fails after that |
| RefreshTokens.TokenService.Refresh | internal/app/identity/service.go:131-153 | succeeds only on a usable token, which is then not usable, and hands its user a new one usable until its expiry; blank text is refused and changes nothing |
| RefreshTokens.TokenService.LogoutHash | internal/app/identity/service.go:160-167 | succeeds exactly when no call fails, a token that is not usable needing no revocation; afterwards the token is not usable |
| RefreshTokens.TokenService.Logout | internal/app/identity/service.go:155-168 | afterwards the token is not usable; an unknown, used or expired one is no error |
| RefreshTokens.ChainLawKept | internal/app/identity/service.go:131-153 | every call keeps: of the tokens one login leads to, at most one is unrevoked |
| RefreshTokens.RedeemedAtMostOnce | internal/app/identity/service.go:131-168 | in every run of serial calls no token is redeemed twice, and each login or registration leads to at most one usable token |
| RefreshTokens.UnusableStaysUnusable | internal/app/identity/repository.go:318-341 | an issued token once revoked or expired is never usable again |
| RefreshTokens.RedeemedOnlyWhileUsable | internal/app/identity/service.go:136-145 | no token is redeemed after it was revoked or had expired |
| RefreshTokens.LoginGivesUsable | internal/app/identity/service.go:112-129 | a login hands out a token usable until its expiry, and fails exactly when signing or storing does or an id or hash is taken |
| RefreshTokens.RefreshGivesUsable | internal/app/identity/service.go:131-153 | a refresh of a usable token that nothing fails takes it and gives its user a new usable one |
| RefreshTokens.FailedRefresh | internal/app/identity/service.go:131-153 | a token that cannot be found or revoked leaves everything; one that is revoked stays so and none is handed out when anything fails after that |
| RefreshTokens.PresentedTrimmed | internal/app/identity/service.go:132-135 | white space around a presented text does not matter |
| RefreshTokens.TimePasses | internal/app/identity/repository.go:318-324 | time only moves forward, and alone changes no token |
| RefreshTokens.LogoutTakes | internal/app/identity/service.go:155-168 | a logout takes the token presented and hands out none |
| RefreshTokens.UsableUntilPresented | internal/app/identity/repository.go:335-341 | in every run a usable token stays usable until it is itself presented or expires, whoever else logs in, refreshes or logs out |
| Metrics.PassesActAtOnce | internal/platform/metrics/metrics.go:238-243 | the three passes of the escaper equal one simultaneous substitution |
| Metrics.EscapesExactly | internal/platform/metrics/metrics.go:238-243 | which three bytes are escaped and as what; every other byte stays |
| Metrics.ReadEscaped | internal/platform/metrics/metrics.go:238-243 | a reader finds the value back and stops at its closing quote, in the middle of any line |
| Metrics.KeyRoundTrip | internal/platform/metrics/metrics.go:167-167 | splitting a counter's key gives its label values back if and only if there is one and none holds 0xFF |
| Metrics.PiecesExactlyWhenClean | internal/platform/metrics/metrics.go:192-192 | a key splits into as many pieces as its tuple had values if and only if none holds 0xFF |
| Metrics.AloneExactlyWhenClean | internal/platform/metrics/metrics.go:163-171 | no other tuple of the same length shares a tuple's counter if and only if it has at most one value or none of them holds 0xFF |
| Metrics.UncleanTuplesShare | internal/platform/metrics/metrics.go:163-171 | two different tuples with 0xFF share a counter |
| Metrics.CountersAreSeparate | internal/platform/metrics/metrics.go:163-225 | the counter of a tuple free of 0xFF holds exactly what was added for that tuple, whatever else is added, and exists exactly when something was; negative amounts and wrong arities count nowhere |
| Metrics.KeysAreTuples | internal/platform/metrics/metrics.go:163-192 | after additions free of 0xFF each key splits into the one tuple it was made from, and its value is what was added for that tuple |
| Metrics.LabelsDecode | internal/platform/metrics/metrics.go:197-207 | printed label pairs decode to their values, whatever follows |
| Metrics.LineExactly | internal/platform/metrics/metrics.go:194-211 | a line of two labels byte by byte |
| Metrics.LineDecodes | internal/platform/metrics/metrics.go:193-212 | every line decodes to the label values and number it was printed for, whatever follows it: no value can end a line or a label early |
| Metrics.OwnLineDecodesExactly | internal/platform/metrics/metrics.go:191-212 | the line printed for a tuple's counter decodes to that tuple if and only if none of its values holds 0xFF |
| Metrics.TextDecodes | internal/platform/metrics/metrics.go:191-212 | the whole text decodes, in order, to each key's pieces and each counter's value |
| Metrics.PrintedCountersDecode | internal/platform/metrics/metrics.go:163-213 | after additions free of 0xFF the printed text decodes to one sample for each key: its own tuple with the amount added for it; every tuple added to is among them |
| Metrics.CounterVec.Add | internal/platform/metrics/metrics.go:163-171 | the counter of the tuple grows by exactly the amount and no other changes; negative amounts and wrong arities change nothing |
| Metrics.CounterVec.WriteLine | internal/platform/metrics/metrics.go:193-212 | one counter's line, built label by label, is the line form that decodes |
| Metrics.BelowExactly | internal/platform/metrics/metrics.go:190-190 | two keys compare at their first different byte, and a key comes before any it starts |
| Metrics.AscendingIsUnique | internal/platform/metrics/metrics.go:189-191 | a set of keys has one ascending order, so the text does not depend on how the map was walked |
| Metrics.SortKeys | internal/platform/metrics/metrics.go:189-191 | the keys, each once, in ascending byte order |
| Metrics.CounterVec.WritePrometheus | internal/platform/metrics/metrics.go:173-213 | the text is the head and one line for each counter, in ascending order of the keys, and what follows the head decodes to each counter's pieces and value |
| Text.TrimRemovesOnlySpace | internal/app/commandapi/service.go:54-54 | trimming removes white space at the two ends and nothing else |
| Text.TrimIsUnique | internal/app/commandapi/service.go:54-54 | and all of it: whatever lies between white space, and has none at its own ends, is the trimmed text |
| Text.SpaceCodes | internal/app/commandapi/service.go:54-54 | the code points of white space |
| Text.NormaliseByIdempotent | internal/app/commandapi/service.go:53-59 | lower-casing and trimming an already normalised text changes nothing, for every case table in which lower-case characters stay as they are |
| Text.SplitJoin | internal/platform/metrics/metrics.go:192-192 | splitting what was joined gives the parts back when none holds the separator |
| Text.JoinSplit | internal/app/domainengine/service.go:86-86 | joining what was split gives the text back |
| Text.AtoiExactly | internal/app/domainengine/service.go:88-88 | a text is a number exactly when, after at most one sign, it is digits whose value fits in 64 bits |
| Text.DigitsAreRead | internal/app/domainengine/service.go:88-88 | digits are read exactly from non-empty texts of digits |
| Text.DigitIsWorth | internal/app/domainengine/service.go:88-88 | one more digit is worth ten times what was read before it, and itself |
| Text.AtoiItoa | internal/app/domainengine/service.go:81-89 | reading a printed number gives it back, for every 64-bit number |

## Left out

- HTTP routing, JSON, CORS, cookies, templates, HTML, health checks, the load generator, environment parsing, schema migration: input, output and easy members.
- NATS, Postgres, Go timers, channels and contexts as libraries: modelled are token matching, at-least-once delivery, atomic transactions, unique keys, a timer that can be Reset after it fired, a bounded channel with a send that never blocks.
- CRC-32, SHA-256 and id generation are parameters of the members that use them; bcrypt and JWT signing appear only as a step that can fail.
- Clocks and failures of calls are parameters: `now`, `clock(i)`, `failure`, `fault`, `publishFails`.
- Messages that are not valid JSON, which both consumers discard without an effect.
- Database-clock columns of the event log and offset tables, and the event log's own copy of the shard in queries.
- Text.Lower: lower-cases the ASCII letters only, because the Unicode case tables are not part of this model; it is used for actions. User names are lower-cased with any case table, and what is proved of normalising holds for every one: `Text.NormaliseByIdempotent`.
- Text.AtoiItoa: covers the 64-bit range of int; the reasons a text is no number are one case.
- GroupStreams.GroupStream.RegisterSubscriber: `nextID` is unbounded, so the wrap of a 64-bit counter is not modelled.
- FanOut.DebounceLosesNothing: says nothing of what a refresh does after it took its target; `Snapshots.RefreshSnapshot` does. Snapshots of two refreshes that overlap may be broadcast out of order, and nothing is claimed about that.
- Leases.OneStreamPerUser: needs distinct stream ids, which the clock does not promise.
- Projection.EventRepository.InsertEvent: a database failure at any of its statements is one parameter, because nothing is stored either way; which of two errors wins when both apply is not stated.
- Projection.EventRepository.ListGroupTodos: rows with equal creation times come in some order, as the query leaves it.
- Snapshots.OffsetCovers: needs commits in stream order, which redelivery does not promise.
- Polling.WaitForProjectionOffset: each wait is taken to last at least its delay, and `float64(delay) * 1.5` is exact on the delays that occur.
- Pipeline.MatchesAcceptAndHandle: the transition system lets through requests Accept would refuse for a blank title, so its runs include all those of the code and more; the membership table changes in any way that keeps ids clean.
- Pipeline.RowsComeFromAcceptedCreates: group and user ids are taken to be non-blank and trimmed, as the id generator makes them.
- RateLimiter.IPRateLimiter.Allow: times are integers of nanoseconds without the range of time.Duration; a nil limiter, which admits everything, is not modelled.
- Membership.Service.AddMemberByUsername: looking the user up and inserting the membership are one step, because users are never removed; ListGroups and registration are left out.
- RefreshTokens.RedeemedAtMostOnce: is about serial calls; between two overlapping calls the lookup and the revocation are separate statements and nothing is claimed.
- RefreshTokens.TokenService.IssueFor: registration and password checks before it are left out.
- Metrics.CounterVec.WritePrometheus: the printed form of a number is a parameter; amounts are real numbers, so floating-point rounding is not modelled; gauges are left out.
- Metrics.CounterVec.Add: nil counters, which ignore every call, are not modelled.
