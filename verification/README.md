# Verification of the staff BFF's stateful core

This project models, in Dafny, the parts of the staff backend-for-frontend that carry state or an
algorithm of their own, and proves what they promise. To check it, run
`dafny verify dfyconfig.toml`.

- **Push relay fleet.** `AdvisoryLocks` cuts the lock service at its awaits and interleaves any number
  of workers with one Postgres lock table. `Coverage` does the same for reconciling, one menu at a time.
  `RelayLifecycle` follows one relay object through connects, joins, failures, timers and teardowns.
  `PushEvents`, `RateWindow` and `PushFanout` cover an event's id, the per-menu limit and the fan-out.
- **Request-scoped GET cache.** `RequestCache` runs the promise continuations of one request as steps,
  with callers arriving between any two of them.
- **Paged scans and list assembly.** `UpstreamPaging` says what an honest paged upstream is.
  `HistoryScan`, `UnifiedArchive` and the badge count in `Attention` are each proved against the plain
  filter over the whole list. `EntryLists` deduplicates, sorts and slices.
- **Order lifecycle.** `OrderStatus`, `ActionDetails`, `TerminalAt`, `OrderActions` and `Presenter`
  cover status resolution, stage actors, close times, offered actions and their routing, and hydration.
- `Sequences`, `Numbers` and `Wrappers` hold what the others share.

Code that works by changing fields or maps is a class whose methods are tied to a specification
function; the results about whole runs are lemmas about those functions. A run is a sequence of steps,
each enabled in the state it is taken in, and a result about runs is about every sequence.

Assumptions are written into the steps. A database session ends only while its client is neither held
nor freshly granted a lock; a query may fail before or after it has taken effect. Promise continuations
run one at a time. The device table's token column is unique.

Where the documentation and the code differ, the model follows the code: there is no self-accept, and
activity logs are the main source of table lists.

Nine properties one might expect do not hold. For each the model says exactly when it does:

- A released menu may stay locked, when a query fails on the wrong side of taking effect, and from then
  on whenever the same connection takes the menu again (`AdvisoryLocks.LocksAreGivenBack`,
  `AdvisoryLocks.ReleaseFreesExactly`, `AdvisoryLocks.StrandedAtRest`).
- A worker may be unable to finish its reconcile, when its pool runs out before it has gone through its
  menus in the order they come (`Coverage.CompletesInAnyOrder`, `Coverage.FullPoolStops`).
- A joined relay that is no longer in the supervisor's map may have lost its lock, when a teardown lands
  inside its connect call or misses it in the map (`RelayLifecycle.JoinedMeansLocked`,
  `RelayLifecycle.UnbackedRelayCanJoin`, `RelayLifecycle.JoinedWithoutLock`); one in the map has it
  (`RelayLifecycle.MappedRelayHasLock`).
- Such a relay's socket may have no handlers either, when the teardown overtakes a reconnect
  (`RelayLifecycle.JoinedMeansListening`, `RelayLifecycle.UnlisteningRelayCanJoin`,
  `RelayLifecycle.JoinedButDeaf`).
- An order may be confirmed by staff who may not confirm, on the way to a delivery's prepare
  (`OrderActions.EachWritePermittedExactly`, `OrderActions.PrepareConfirmsUnpermitted`).
- A call without a time gets a new event id each time it is handled (`PushEvents.ReplayKeepsEventId`).
- The attention sort may put a row that needs no attention above rows that do, when hydration has left a
  flag on a closed service row (`Attention.AttentionRowsComeFirst`, `Attention.SafeRowsExactly`,
  `Attention.HydratedRowDisplaces`).
- A history page may come out short, when ids repeat among the rows scanned
  (`HistoryScan.PageIsWholeExactly`, `HistoryScan.RepeatedIdShortensPage`).
- An order confirmed by its own field reads as pending when its history has only pending entries
  (`OrderStatus.ResolvingSetsBackOnlyConfirmed`).

## Model

| member | source | states |
|---|---|---|
| AdvisoryLocks.LockKeyEqual | src/modules/fcm/menu-socket.lock.ts:26-31 | Two menus have the same lock key exactly when their ids agree modulo 2^32 |
| AdvisoryLocks.LockKeyInjectiveOnIds | src/modules/fcm/menu-socket.lock.ts:26-31 | On 32-bit ids the lock key is injective |
| AdvisoryLocks.LockKeysFit | src/modules/fcm/menu-socket.lock.ts:30 | Keys are signed 32-bit numbers |
| AdvisoryLocks.FirstKeys | src/modules/fcm/menu-socket.lock.ts:29-30 | The keys of the first 256 menus follow the namespace 0x46334d00 |
| AdvisoryLocks.MenuSocketLockService.TryAcquireFinish | src/modules/fcm/menu-socket.lock.ts:39-58 | A granted client is kept under its menu; a refused or failed one goes back to the pool, once, on both paths |
| AdvisoryLocks.MenuSocketLockService.ReleaseStart | src/modules/fcm/menu-socket.lock.ts:61-64 | Releasing takes the menu out of `held` and names its client; a menu not held is left alone |
| AdvisoryLocks.MenuSocketLockService.ReleaseAll | src/modules/fcm/menu-socket.lock.ts:77-82 | Run on its own: `held` ends empty and exactly the held clients went back |
| AdvisoryLocks.HeldMeansOwned | src/modules/fcm/menu-socket.lock.ts:33-75 | For any workers and interleaving at the awaits, with queries that may fail before or after taking effect: a held menu's lock is owned by the session of the client it is held through |
| AdvisoryLocks.HeldByOneWorker | src/modules/fcm/menu-socket.lock.ts:33-75 | At most one worker holds a menu |
| AdvisoryLocks.HeldNeverOverwritten | src/modules/fcm/menu-socket.lock.ts:51 | `held.set` only ever fills an empty slot, even with several acquires of one menu under way |
| AdvisoryLocks.AnswersAreTrue | src/modules/fcm/menu-socket.lock.ts:33-59 | A call answers true with the menu held and its lock owned, and false with the worker's held menus unchanged and the client back in the pool |
| AdvisoryLocks.MenusNeverContend | src/modules/fcm/menu-socket.lock.ts:26-31 | A query for one menu leaves every other menu's lock as it was |
| AdvisoryLocks.CheckedOutClientHasOnePlace | src/modules/fcm/menu-socket.lock.ts:33-75 | A client is checked out of a worker's pool exactly when it is in one `held` slot or one unfinished call of that worker, and it is in no second place |
| AdvisoryLocks.ReturnedOnlyOnce | src/modules/fcm/menu-socket.lock.ts:47-58 | A call that returns its client still has it checked out: no client is returned twice |
| AdvisoryLocks.QuietPoolLosesNothing | src/modules/fcm/menu-socket.lock.ts:61-75 | With no call unfinished, exactly the held clients are checked out: none leaks on any path |
| AdvisoryLocks.HeldFitsInPool | src/modules/fcm/menu-socket.lock.ts:17-24 | A worker never holds more menus than its pool of 10 has connections |
| AdvisoryLocks.LocksAreGivenBack | src/modules/fcm/menu-socket.lock.ts:33-75 | Over every run: each lock in the table is taken once, by a client that will give it back, exactly when no lock query fails after taking a lock and no unlock query before giving one up; with nothing under way the locks are then those of the menus held |
| AdvisoryLocks.ReleaseFreesExactly | src/modules/fcm/menu-socket.lock.ts:61-75 | A release gives its lock up exactly when the unlock query takes effect on a lock taken once; otherwise the client is idle, still has the lock, and every other session is refused |
| AdvisoryLocks.StrandedAtRest | src/modules/fcm/menu-socket.lock.ts:61-75 | Both are reached from the start: a failed unlock leaves a menu locked by an idle client, and so does the next unlock, which works, once that client has taken the menu again |
| AdvisoryLocks.SessionEndFrees | src/modules/fcm/menu-socket.lock.ts:5-8 | A session that ends frees exactly its own locks |
| Coverage.MenuSocketSupervisor.Acquire | src/modules/fcm/menu-socket.supervisor.ts:204-231 | A relay up or coming up is left, with everything else; any other is there afterwards, as connecting left it, exactly when the lock is had |
| Coverage.MenuSocketSupervisor.Teardown | src/modules/fcm/menu-socket.supervisor.ts:382-400 | Afterwards the worker does not have the menu; no other menu changes hands and no other worker notices |
| Coverage.MenuSocketSupervisor.ReconcileMenu | src/modules/fcm/menu-socket.supervisor.ts:174-182 | Afterwards the worker has the menu exactly when it has a device and no other worker has it; no other menu changes hands |
| Coverage.MenuSocketSupervisor.ReconcileAll | src/modules/fcm/menu-socket.supervisor.ts:153-172 | On its own, a worker ends up holding exactly the menus with a device that no other worker holds, and disturbs no other worker |
| Coverage.CoverageConverges | src/modules/fcm/menu-socket.supervisor.ts:153-231 | However the workers' steps interleave with notifications, timers and socket events: once each worker has completed one reconcile, every menu with a device is held by exactly one worker and every other menu by none |
| Coverage.HeldMatchesRelays | src/modules/fcm/menu-socket.supervisor.ts:184-231 | Between whole acquires and teardowns a worker's relays are exactly the menus it holds, and no two workers hold the same menu |
| Coverage.CompletesInAnyOrder | src/modules/fcm/menu-socket.supervisor.ts:153-231 | From wherever a run has come to, a worker's own reconcile cannot get stuck in any order of its menus, and whichever comes next can be covered, exactly when the pool has a connection for each menu left that nobody holds and one to spare while another worker's is left to ask for |
| Coverage.OwnStepProgress | src/modules/fcm/menu-socket.supervisor.ts:153-172 | Each step of a reconcile brings its end nearer |
| Coverage.CompletesExactly | src/modules/fcm/menu-socket.supervisor.ts:153-231 | From wherever a run has come to, some order of its menus brings a worker's own reconcile to its end exactly when its pool has a connection for each menu left that nobody holds, and one to ask with unless all are held |
| Coverage.FullPoolStops | src/modules/fcm/menu-socket.supervisor.ts:153-231 | With every connection holding a menu, none of those left to cover, no step of the reconcile can be taken |
| RelayLifecycle.MenuRelay.ScheduleReconnect | src/modules/fcm/menu-socket.supervisor.ts:370-380 | Under the backoff law, a wait is added exactly when no timer is armed, and it lies in its capped exponential band |
| RelayLifecycle.MenuRelay.Perform | src/modules/fcm/menu-socket.supervisor.ts:204-400 | Whatever stretch of code runs next, the object keeps single flight, one socket not disposed of, handlers at most once, one timer and the backoff law, and does the protocol's step |
| RelayLifecycle.AcquiredExactly | src/modules/fcm/menu-socket.supervisor.ts:204-219 | A call is started exactly when the relay is neither up nor coming up and none is under way; otherwise nothing happens |
| RelayLifecycle.AnswersTell | src/modules/fcm/menu-socket.supervisor.ts:224-315 | What each answer of the lock, the identity lookup and the join leaves: in the map or out of it, connecting on a new socket, joined with no waits, or uncovered |
| RelayLifecycle.EndedCallComesBack | src/modules/fcm/menu-socket.supervisor.ts:215-351 | A call refused, rejected, without identity or token, joined, denied or failed comes back, and its `finally` frees the relay for the next |
| RelayLifecycle.FailureArmsTimer | src/modules/fcm/menu-socket.supervisor.ts:316-380 | After a failed connect or a lost connection a timer is armed: the one there was, or a new one with its wait recorded; the relay is backing off or reconnecting |
| RelayLifecycle.FailedRelayRetries | src/modules/fcm/menu-socket.supervisor.ts:316-380 | Over every run: a relay backing off or reconnecting has a timer armed, unless it fired or the menu was torn down since the last failure |
| RelayLifecycle.TeardownLeavesNothing | src/modules/fcm/menu-socket.supervisor.ts:382-400 | A teardown that finds the relay in the map leaves no timer, no live socket, no place in the map and no lock |
| RelayLifecycle.OneConnectInProgress | src/modules/fcm/menu-socket.supervisor.ts:204-219 | Over every run, never two connect calls of one relay in progress |
| RelayLifecycle.OneLiveSocket | src/modules/fcm/menu-socket.supervisor.ts:251-282 | A relay never owns two sockets it did not dispose of, and no socket gets its handlers twice |
| RelayLifecycle.OneReconnectTimer | src/modules/fcm/menu-socket.supervisor.ts:370-380 | At most one reconnect timer is armed |
| RelayLifecycle.BackoffIsCappedExponential | src/modules/fcm/menu-socket.supervisor.ts:370-380 | The n-th reconnect in a row since creation or the last join waits min(1000 * 2^n, 60000) ms plus 0 to 249 |
| RelayLifecycle.MappedRelayHasLock | src/modules/fcm/menu-socket.supervisor.ts:204-400 | Over every run, without any guard: a relay in the supervisor's map that is joined, has a socket or is about to open one has its menu's lock |
| RelayLifecycle.StepKeepsLock | src/modules/fcm/menu-socket.supervisor.ts:204-400 | Step by step: a relay that counts only on a lock the worker has goes on doing so exactly when the step keeps to the guard |
| RelayLifecycle.JoinedMeansLocked | src/modules/fcm/menu-socket.supervisor.ts:221-231 | Over every run from a new relay: it counts only on a lock it has exactly when each step keeps to a guard on teardowns and late join answers; a joined relay is then locked |
| RelayLifecycle.UnbackedRelayCanJoin | src/modules/fcm/menu-socket.supervisor.ts:233-299 | From every state after a step that broke the guard, the relay can go on to be joined without a lock |
| RelayLifecycle.JoinedWithoutLock | src/modules/fcm/menu-socket.supervisor.ts:224-299 | Such a relay is reached from a new one |
| RelayLifecycle.JoinedMeansListening | src/modules/fcm/menu-socket.supervisor.ts:354-400 | Over every run from a new relay: the handler mark agrees with the socket exactly when no teardown of a relay with handlers overtakes a call that awaits its identity; a joined relay's socket then has its handlers, once |
| RelayLifecycle.UnlisteningRelayCanJoin | src/modules/fcm/menu-socket.supervisor.ts:251-299 | From every state after a teardown that broke that guard, the relay can go on to be joined on a socket without handlers |
| RelayLifecycle.JoinedButDeaf | src/modules/fcm/menu-socket.supervisor.ts:354-400 | A joined relay whose socket has no handlers is reached from a new one; it is out of the map and without the lock |
| RelayLifecycle.DeafRelayIsUnmapped | src/modules/fcm/menu-socket.supervisor.ts:354-400 | A relay marked as having handlers whose socket has none is out of the map |
| RelayLifecycle.DeafRelayHasNoLock | src/modules/fcm/menu-socket.supervisor.ts:354-400 | And its lock is gone, unless another object of the menu has taken it since |
| RequestCache.RequestUpstreamStore.Enter | src/common/utils/request-upstream-cache.util.ts:95-126 | The factory is started exactly when the key is in neither map; a settled value comes first, then the call in flight; the next caller joins the same call or gets the same value; a disabled cache is untouched |
| RequestCache.Request.GetStore | src/common/utils/request-upstream-cache.util.ts:17-32 | One store per request, empty at first and the same one ever after |
| RequestCache.KeysIsolateCallers | src/common/utils/request-upstream-cache.util.ts:68-80 | Keys built with different fingerprints differ; when path and query have no bar, the key determines all four parts |
| RequestCache.OneFactoryInFlight | src/common/utils/request-upstream-cache.util.ts:105-126 | At most one factory call per key is in flight, wherever callers arrive between the promise continuations |
| RequestCache.OneSuccessPerKey | src/common/utils/request-upstream-cache.util.ts:99-126 | At most one factory call per key ever returns 2xx |
| RequestCache.SettledForGood | src/common/utils/request-upstream-cache.util.ts:111-120 | A settled entry is never changed or dropped |
| RequestCache.NoGapAfterSuccess | src/common/utils/request-upstream-cache.util.ts:111-123 | After a success its key is always in one of the two maps, so no caller starts a second fetch |
| RequestCache.OnlySuccessesSettle | src/common/utils/request-upstream-cache.util.ts:112-120 | What is settled is 2xx and came from a factory call for that key |
| RequestCache.RepliesAreProduced | src/common/utils/request-upstream-cache.util.ts:89-127 | Every answer a caller gets was produced by a factory call for its key |
| RequestCache.CallersAreAnsweredForTheirKey | src/common/utils/request-upstream-cache.util.ts:99-109 | A caller is answered at once with the settled value of its key, and else waits for a call for that key |
| RequestCache.ResumedWithOwnAnswer | src/common/utils/request-upstream-cache.util.ts:105-126 | A caller that waited gets that call's outcome, for the key it asked for |
| RequestCache.ReadsRepeatable | src/common/utils/request-upstream-cache.util.ts:89-127 | Two successful reads of one key give the same result |
| RequestCache.WaitersGetAnswers | src/common/utils/request-upstream-cache.util.ts:105-109 | A waiting caller waits for a call that is unfinished or can answer it now |
| PushEvents.EventIdInjective | src/modules/fcm/fcm-event.mapper.ts:80 | Event ids agree exactly when menu, call, kind and time do, whatever text the time is |
| PushEvents.NewCallNeverMasksAttention | src/modules/fcm/fcm-event.mapper.ts:64-138 | A new call and an attention change never share an event id |
| PushEvents.MappedEventsTellApart | src/modules/fcm/fcm-event.mapper.ts:64-138 | Events as the mappers make them have one id exactly when they have one menu, call, kind and time |
| PushEvents.MappedEventsTell | src/modules/fcm/fcm-event.mapper.ts:38-138 | An event has its payload's menu, call and channel, and its time, else the clock's; an addition goes before a bill, a bill before a waiter |
| PushEvents.ReplayKeepsEventId | src/modules/fcm/fcm-event.mapper.ts:38-42 | A call handled twice keeps its event id exactly when it carries its own time or the clock did not move |
| RateWindow.MenuRateLimiter.AllowMenuRate | src/modules/fcm/fcm-sender.service.ts:94-108 | With a clock that has never gone back, a call is admitted exactly when the last 60 seconds of the whole history hold fewer than `limit` admissions of its menu; the stored list stays within the limit |
| RateWindow.AtMostLimitPerWindow | src/modules/fcm/fcm-sender.service.ts:94-108 | With a clock that never goes back, every 60-second window of the whole history has at most `limit` admissions of a menu |
| RateWindow.RefusedOnlyWhenFull | src/modules/fcm/fcm-sender.service.ts:98-107 | A call is refused exactly when the last 60 seconds are full, and then they hold `limit` admissions, no more |
| RateWindow.StoredWithinLimit | src/modules/fcm/fcm-sender.service.ts:98-106 | The stored stamp list never exceeds the limit |
| PushFanout.ChunksPartition | src/modules/fcm/fcm-sender.service.ts:212-214 | Chunks of at most 500 lose and reorder nothing |
| PushFanout.PlanReachesEachRecipientOnce | src/modules/fcm/fcm-sender.service.ts:141-186 | With unique device tokens, the plan's chunks hold each recipient's token exactly once and nobody else's |
| PushFanout.RecipientsExactly | src/modules/fcm/fcm-recipient.util.ts:21-44 | A new delivery is sent to exactly the devices that see deliveries, a new table order to exactly those that see orders and confirm or prepare them, anything else to exactly those that confirm |
| PushFanout.FcmSender.SendToTokens | src/modules/fcm/fcm-sender.service.ts:189-274 | Each chunk is multicast once, and once more when the first throws |
| PushFanout.SendAllExactly | src/modules/fcm/fcm-sender.service.ts:189-274 | The multicasts made are the plan's chunks, each of them, nothing else, and again whatever threw |
| PushFanout.FcmSender.GroupByLocale | src/modules/fcm/fcm-sender.service.ts:160-168 | The groups are the recipients' tokens by locale, in order of first appearance |
| PushFanout.FcmSender.ProcessMappedEvent | src/modules/fcm/fcm-sender.service.ts:110-187 | On its own: a logged event is counted as a duplicate, an event over the limit is logged and dropped, any other is multicast by its plan |
| PushFanout.AtMostOnceFanout | src/modules/fcm/fcm-sender.service.ts:110-274 | For any handlers of any workers: an event id passes the insert at most once, and a token is in at most one multicast of it, or two when the first threw |
| PushFanout.LoggedBeforeNeverSent | src/modules/fcm/fcm-sender.service.ts:114-132 | An id already in the log, or left there by an insert that failed after taking effect, is never sent |
| PushFanout.OnlyRepetitionsRefused | src/modules/fcm/fcm-sender.service.ts:114-127 | An insert is refused only for an id logged before the run, or when an event of the very same menu, call, kind and time was inserted |
| PushFanout.InsertedEventIsSent | src/modules/fcm/fcm-sender.service.ts:114-186 | A handler whose insert succeeds and that the limiter lets through is next to send its plan; one that it does not lets the event go, logged |
| PushFanout.RefusedEventIsDropped | src/modules/fcm/fcm-sender.service.ts:120-132 | A duplicate, or an insert that failed, sends nothing |
| PushFanout.EveryRecipientReached | src/modules/fcm/fcm-sender.service.ts:141-274 | Once a handler that got its devices has sent all it planned, whatever ran beside it, every device with the permissions the event asks for was sent it by one multicast that went through, or by one that threw and its retry |
| OrderStatus.ResolveLatestOrderStatus | src/modules/staff/staff-order-status.util.ts:33-51 | The backward loop computes the resolved status |
| OrderStatus.LatestIsLastBeyondPending | src/modules/staff/staff-order-status.util.ts:45-50 | A history's status is that of its last entry beyond pending, and pending only when there is none |
| OrderStatus.PreferIsMaximum | src/modules/staff/staff-order-status.util.ts:109-117 | `prefer` is an associative left-biased maximum of the lifecycle rank |
| OrderStatus.RankIsLifecycle | src/modules/staff/staff-order-status.util.ts:91-107 | The rank tells how far an order has come; the two closed statuses rank alike, above all others |
| OrderStatus.ResolvingSetsBackOnlyConfirmed | src/modules/staff/staff-order-status.util.ts:33-51 | Resolving sets an order back exactly when its field says confirmed and its history, not empty, only pending |
| ActionDetails.ActionDetailScore | src/modules/staff/staff-order-action-details.util.ts:94-102 | The loop computes the score |
| ActionDetails.ScoreCounts | src/modules/staff/staff-order-action-details.util.ts:94-102 | The score is one for each detail, two more for each with a name, one more for each with an action |
| ActionDetails.PickRicherIsMaximum | src/modules/staff/staff-order-action-details.util.ts:104-113 | The richer history is an idempotent, associative, left-biased maximum on (score, length) |
| ActionDetails.PickRichestIsLeftmost | src/modules/staff/staff-order-action-details.util.ts:104-113 | Folded along a list it finds the leftmost of the richest histories |
| ActionDetails.StageEnteredExactly | src/modules/staff/staff-order-action-details.util.ts:31-65 | The stage a detail enters: that of its action, else that of its status; edits and creations enter none |
| ActionDetails.ResolveStatusStageActorName | src/modules/staff/staff-order-action-details.util.ts:115-144 | The loop names the last named entrant of the stage |
| ActionDetails.ActorEnteredStage | src/modules/staff/staff-order-action-details.util.ts:115-144 | The name is on the last named detail that comes to the stage from another one or from none; there is none exactly when no detail does |
| ActionDetails.EditsNeverChangeActor | src/modules/staff/staff-order-action-details.util.ts:41-65 | Item edits and other non-stage details, put in or taken out anywhere, change the actor of no stage |
| TerminalAt.TerminalAtFromActionDetails | src/modules/staff/staff-order-terminal-at.util.ts:33-62 | The backward loop computes the close time |
| TerminalAt.ClosedAtLastTimedClose | src/modules/staff/staff-order-terminal-at.util.ts:33-62 | The close time is that of the last closing detail with a time, and there is none exactly when no detail closes with a time |
| TerminalAt.CloseTimeDecidedBy | src/modules/staff/staff-order-terminal-at.util.ts:70-83 | The last closing detail with a time decides, failing that the last edit, and failing that the creation |
| TerminalAt.ArchivedExactly | src/modules/staff/staff-order-terminal-at.util.ts:84-117 | Archived are exactly the closed orders whose close time is unknown or 24 hours ago |
| TerminalAt.OnExactlyOneList | src/modules/staff/staff-order-terminal-at.util.ts:84-117 | At any instant an order is on exactly one of the active and archive lists |
| TerminalAt.ArchivedForGood | src/modules/staff/staff-order-terminal-at.util.ts:102-117 | An archived order stays archived, and every closed order gets there |
| OrderActions.OfferedExactly | src/modules/staff/staff-order-actions.util.ts:67-181 | Action by action: it is offered exactly when it is possible in that state and permitted |
| OrderActions.PermissionsExactly | src/modules/staff/staff-order-actions.util.ts:215-244 | Which permission each action takes |
| OrderActions.CaptionsTellActions | src/modules/staff/staff-order-actions.util.ts:25-56 | The captions of an order's offers tell its actions apart |
| OrderActions.OffersPermittedAndForward | src/modules/staff/staff-order-actions.util.ts:67-181 | Every offer is permitted and, additions apart, strictly raises the lifecycle rank |
| OrderActions.RunsAreShort | src/modules/staff/staff-order-status.util.ts:63-103 | Runs of offered actions, additions apart, are at most three minus the starting rank long |
| OrderActions.OrderRouter.AutoConfirmPendingDeliveryOrder | src/modules/staff/staff-orders-flow.service.ts:932-963 | A pending delivery is confirmed first; only a failure of that stops the caller |
| OrderActions.OrderRouter.PostOrderAction | src/modules/staff/staff-orders-flow.service.ts:459-684 | Nothing is written exactly when the call is invalid or denied; otherwise the caller had the permission, and the verdict is whether the last of at most two writes was accepted, which then moved the order to the action's status |
| OrderActions.OfferedActionIsRouted | src/modules/staff/staff-orders-flow.service.ts:502-648 | An offered action reaches the upstream as exactly one write to the status it stands for, after one confirm where a delivery is prepared; a delivery without a log id is the one exception |
| OrderActions.EndpointsExactly | src/modules/staff/staff-orders-flow.service.ts:502-648 | Which endpoint a permitted action reaches, by kind of order, also when its call was not read; a table confirm or cancel goes to the log when there is a log id, else to the status |
| OrderActions.TableNeverPreparedOrDelivered | src/modules/staff/staff-orders-flow.service.ts:544-593 | Whatever is posted, a table order gets no prepare or deliver write |
| OrderActions.WritesArePermitted | src/modules/staff/staff-orders-flow.service.ts:482-648 | No write unless the posted action is permitted; the verdict is the last write's, which may differ from the response to a Finish |
| OrderActions.EachWritePermittedExactly | src/modules/staff/staff-orders-flow.service.ts:482-648 | Each write is permitted in its own right, except exactly the confirm made on the way to preparing a pending delivery by staff who may prepare and not confirm |
| OrderActions.PrepareConfirmsUnpermitted | src/modules/staff/staff-orders-flow.service.ts:932-963 | Staff with only the prepare and delivery permissions confirm a pending delivery by posting prepare |
| Presenter.BuiltIsConsistent | src/modules/staff/staff-order-presenter.service.ts:369-432 | A built entry's label and actions are those of its status, and a service row carries no flags or items |
| Presenter.PresentedFromRow | src/modules/staff/staff-order-presenter.service.ts:141-172 | What a call row's entry takes from the row: status, history, texts, charges, and of an order items, price and flags, none of them for a service row |
| Presenter.CreatedAtFromRow | src/modules/staff/staff-order-presenter.service.ts:618-627 | An entry's time is that of the first detail of its history with one, else its row's |
| Presenter.EditableExactly | src/modules/staff/staff-order-edit-permissions.util.ts:16-47 | Which entries' items can be edited, and by whom |
| Presenter.LabelTellsStatus | src/modules/staff/staff-order-actions.util.ts:201-213 | A channel's labels tell its statuses apart, but for a delivery's first two |
| Presenter.MergeTakesGreatestRank | src/modules/staff/staff-order-presenter.service.ts:201-289 | A merge's status is the first, of the base's, the chosen history's and the overlay's, of the greatest rank; label and actions are those of the merged status |
| Presenter.MergeIsIdempotent | src/modules/staff/staff-order-presenter.service.ts:201-289 | Merging the same overlay again changes no field |
| Presenter.HydrationNeverRegresses | src/modules/staff/staff-order-presenter.service.ts:173-199 | Any sequence of overlays: rank and richness never fall, deliveries are untouched, label and actions stay those of the status |
| Presenter.HydratedTextsAreLeftmost | src/modules/staff/staff-order-presenter.service.ts:173-298 | Any sequence of overlays: each text of a table entry is the first of the fullest among its own and those of the call rows that overlay it |
| Presenter.HydratedFlags | src/modules/staff/staff-order-presenter.service.ts:221-224 | Any sequence of overlays: a table entry has a guest addition, or a bill, exactly when it had one or some food order that overlays it has |
| Presenter.HydrationFillsGaps | src/modules/staff/staff-order-presenter.service.ts:206-289 | Any sequence of overlays: items, price, time, each charge and the service kind are those of the first, of the entry and the rows that overlay it, to have any |
| Presenter.HydrationKeepsWhatIsThere | src/modules/staff/staff-order-presenter.service.ts:173-289 | Any sequence of overlays: an entry's charges, items, price, time, id and log id, where it has them, are kept |
| Presenter.EnrichEntriesActionDetails | src/modules/staff/staff-order-presenter.service.ts:564-599 | The map-building loop gives each entry its enriched form, in place |
| Presenter.EnrichedTakesLeftmostRichest | src/modules/staff/staff-order-presenter.service.ts:564-599 | An entry gets the leftmost richest of its own history and all its rows', and no other field changes |
| Presenter.EnrichedFromRows | src/modules/staff/staff-order-presenter.service.ts:564-599 | Nothing an order's rows have is richer than what it is enriched with, which is its own history or one of theirs |
| Presenter.ScopesPartition | src/modules/staff/staff-order-presenter.service.ts:438-465 | Active and history split any list into complementary sublists that keep its order |
| Presenter.ScopedExactly | src/modules/staff/staff-order-presenter.service.ts:438-465 | The history has exactly the list's orders closed 24 hours ago or nobody knows when; the rest are active |
| Presenter.ListScopeTakesActions | src/modules/staff/staff-order-presenter.service.ts:467-491 | A list takes actions and editing away in the history and of closed orders, and nothing else |
| Attention.RankAgreesWithAttention | src/modules/staff/staff-order-attention.util.ts:30-71 | Rank below 4 and needing attention agree exactly on all but closed service rows with a flag |
| Attention.RankIsPriority | src/modules/staff/staff-order-attention.util.ts:53-71 | A row ranks before another at the first question only it answers yes: bill, addition, waiter, pending |
| Attention.PushedWhenRankedAbovePending | src/modules/fcm/fcm-event.mapper.ts:94-121 | A changed call is pushed exactly when its row in the list ranks above a plain pending order, and the push says what it ranks for |
| Attention.NeedsAttentionExactly | src/modules/staff/staff-order-attention.util.ts:30-51 | A row needs attention exactly when it is pending, or an order with an addition or a bill |
| Attention.MergeMayFlagServiceRow | src/modules/staff/staff-order-presenter.service.ts:221-229 | A merge of flag-free entries is not flag-free exactly when a service row meets a flagged order |
| Attention.MergeGraceLosesNothing | src/modules/staff/staff-orders-flow.service.ts:2656-2683 | Merging grace rows keeps every distinct row of the page in place, repeats no id, and adds nothing else |
| Attention.GraceIsThereWhileThereIsRoom | src/modules/staff/staff-orders-flow.service.ts:2656-2683 | Each grace order is there while page and grace orders together fit |
| Attention.GraceFillsThePage | src/modules/staff/staff-orders-flow.service.ts:2656-2683 | And the page is filled up with them as far as they go |
| Attention.AttentionRowsComeFirst | src/modules/staff/staff-order-attention.util.ts:73-94 | The sort is a permutation ordered by rank and newest first, whose first rows, as many as need attention, are those that do exactly when each of these sorts before every closed service row with a flag |
| Attention.SortedByRankThenNewest | src/modules/staff/staff-order-attention.util.ts:73-83 | The sort goes by rank, then newest first, then as the rows came |
| Attention.SafeRowsExactly | src/modules/staff/staff-order-attention.util.ts:30-94 | A row is safe beside every list of rows without stray flags exactly when it is not a closed service row with a flag |
| Attention.HydratedRowDisplaces | src/modules/staff/staff-orders-flow.service.ts:1365-1371 | An order under way with a flag, hydrated with a call row that reads as a service request, is sorted before a plain pending order and takes its place in the count |
| Attention.FetchAllTableActivityLogRowsForAttention | src/modules/staff/staff-orders-flow.service.ts:1538-1605 | Against an honest upstream: the table rows of its first 500, in at most five fetches |
| Attention.CountTableAttentionAcrossSources | src/modules/staff/staff-order-attention.util.ts:160-189 | Each order is counted once, whatever the order or repetition of rows |
| Attention.LogFlagsDecidedBy | src/modules/staff/staff-order-attention.util.ts:121-154 | Of a log row its own status decides, else the richer of its two histories; flags and kind are its own |
| Attention.CountedRequestsExactly | src/modules/staff/staff-order-attention.util.ts:97-107 | The badge counts waiter and bill requests that are pending or say nothing of their status |
| Attention.CountedCallsExactly | src/modules/staff/staff-orders-flow.service.ts:1491-1536 | For a closed menu it counts the calls that read pending, and orders with an addition or a bill |
| Attention.ResolveTableAttentionPendingCount | src/modules/staff/staff-orders-flow.service.ts:1491-1536 | The badge is the number of orders and service requests that need attention in the rows scanned; for a closed menu, of pending calls that do |
| EntryLists.DedupeEntriesByStaffCallId | src/modules/staff/staff-table-history-filters.util.ts:253-264 | The loop keeps the first entry of each id |
| EntryLists.DedupeIdentified | src/modules/staff/staff-orders-flow.service.ts:2656-2667 | The flow service's loop does the same on entries that have an id |
| EntryLists.DedupeKeepsIds | src/modules/staff/staff-table-history-filters.util.ts:253-264 | Deduplication keeps every id, once |
| EntryLists.DedupeKeepsFirsts | src/modules/staff/staff-table-history-filters.util.ts:253-264 | What it keeps came first |
| EntryLists.SortIsStableSort | src/modules/staff/staff-order-attention.util.ts:73-83 | The sort is a permutation in key order that keeps the order of equal keys |
| EntryLists.PagesAreTheList | src/modules/staff/staff-table-history-filters.util.ts:224-249 | The pages of a list, one after the other, are the list |
| HistoryScan.BuildTableHistoryListResult | src/modules/staff/staff-table-history-filters.util.ts:266-298 | Each order once, by its first entry; `total` is the number of distinct ids |
| HistoryScan.ShownConcat | src/modules/staff/staff-orders-flow.service.ts:2193-2210 | Presenting and filtering page by page is presenting and filtering the whole |
| HistoryScan.WholeHistoryExactly | src/modules/staff/staff-orders-flow.service.ts:2193-2210 | The history shows exactly the table orders of the first 500 rows that were closed 24 hours ago, on a day asked for |
| HistoryScan.ScanHistory | src/modules/staff/staff-orders-flow.service.ts:2159-2222 | The loop stops only with enough entries, or with all of the first 500 rows seen |
| HistoryScan.ListTableHistory | src/modules/staff/staff-orders-flow.service.ts:2150-2237 | Page k of the scan, which may stop early, is always a prefix of page k of the filtered first 500 rows; for distinct upstream ids it is that page |
| HistoryScan.PageIsWholeExactly | src/modules/staff/staff-orders-flow.service.ts:2150-2237 | The scanned page is the whole page exactly when the rows scanned show enough distinct ids for it, or all there are, or it lies past the end |
| HistoryScan.RepeatedIdShortensPage | src/modules/staff/staff-orders-flow.service.ts:2159-2237 | With 50 rows of one order and one of another, a first page of two has one order where there are two |
| UnifiedArchive.CollectDateScopedHistoryForChannel | src/modules/staff/staff-orders-flow.service.ts:2965-3039 | Truncation is reported exactly when the list takes more than 50 pages or a page is refused; otherwise the rows' delivered and cancelled orders are all there, and nothing else |
| UnifiedArchive.ClosedInRowOrder | src/modules/staff/staff-orders-flow.service.ts:3025-3028 | They come in the order of their rows, one for each |
| UnifiedArchive.ListUnifiedArchiveOrders | src/modules/staff/staff-orders-flow.service.ts:2822-2957 | Refused as too large exactly when a permitted channel cannot be read to its end, for every page alike; otherwise that page of the archive |
| UnifiedArchive.PagesAreTheArchive | src/modules/staff/staff-orders-flow.service.ts:2908-2926 | Pages 1 to totalPages are the archive: every id once, strictly newest first, `total` the number of distinct ids |
| UnifiedArchive.OnlyClosedOrdersAreListed | src/modules/staff/staff-orders-flow.service.ts:2882-2908 | Nothing is in the archive but delivered and cancelled orders with an id, of a channel the caller may see |
| UnifiedArchive.TableRowIsListed | src/modules/staff/staff-orders-flow.service.ts:2882-2908 | An order in both channels is listed as its table row shows it |
| UnifiedArchive.ArchiveIdsExactly | src/modules/staff/staff-orders-flow.service.ts:2882-2908 | The ids in the archive are exactly those of the delivered and cancelled orders of the channels the caller may see |
| UnifiedArchive.EveryClosedOrderIsListed | src/modules/staff/staff-orders-flow.service.ts:2882-2908 | Every presentable closed order of a permitted channel is in the archive |
| UpstreamPaging.HonestPage | src/modules/staff/staff-orders-flow.service.ts:2212-2221 | What a page adds to the rows scanned, and when it is the last |

## Left out

- Socket.IO, Postgres, Prisma, Firebase and axios themselves: they appear as steps whose outcome is open.
- Controllers, guards, DTOs, configuration and module wiring.
- JWT and api-key handling, and the retry after an expired key.
- Field coercion, asset URLs, texts in two languages and error-message matching: rows arrive already read. Ids are natural numbers, 0 for a missing or unusable one, so a fractional JSON id is not represented.
- Date parsing and time zones: a time is an optional integer, an unreadable one is absent, and the calendar is a function from times to days.
- Contents of responses after a write, which the request cache may serve from before it.
- `estimateScopedActivityLogTotal`, an estimate by its own account, and the table-calls fallback list.
- `resolveStaffAuth` and `UpstreamClockService`, smaller repeats of the cache pattern.
- Counters kept for monitoring (`sentTotal`, `invalidTokenTotal`, `reconnectsTotal`) and the removal of invalid tokens.
- Dry runs and a disabled or disconnected sender, which send nothing.
- Shutdown: `draining` and `shuttingDown` only stop steps from being taken.
- Coverage.CoverageConverges: takes acquiring and tearing down one menu as single steps, and no failed queries; what happens between their awaits is in AdvisoryLocks and RelayLifecycle.
- Coverage.HeldMatchesRelays: says nothing of the awaits inside an acquire or a teardown, where relays and locks can differ; RelayLifecycle does.
- Coverage.CompletesInAnyOrder: is about the steps of the reconcile itself; a notification for a menu without a device may free a connection meanwhile.
- RelayLifecycle.OneConnectInProgress: is about one relay object; a teardown and a new acquire of the same menu make a second object, of which this one sees only that the lock is taken or goes, and that its place in the map goes. A worker without a database, which takes no locks, is not represented.
- PushFanout.AtMostOnceFanout: takes the limiter's answer as open; RateWindow is about the limiter alone.
- HistoryScan.ListTableHistory: claims nothing about `total`, which counts only what the scan collected.
- OrderActions.WritesArePermitted: the verdict is the write's. After a refused Finish the order is read again, and found delivered it is answered with 200; after an accepted write its presentation may fail. Neither is modelled.
- UnifiedArchive.CollectDateScopedHistoryForChannel: takes each row as the entry that presenting, hydrating and enriching make of it.
- UnifiedArchive.ListUnifiedArchiveOrders: takes each row as the entry that presenting, hydrating and enriching make of it, and the date-range check as its answer.
- Presenter.MergeIsIdempotent: the address, governorate and tax fields merge like the ones modelled and are represented by `info` and `charges`.
