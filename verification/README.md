# Proofs about the agent's protocols

The agent is a set of coroutines that drive a game console for a backend. This project models its
concurrency protocols, its console navigation and a few of its calculations, and proves what they keep.
`dafny verify dfyconfig.toml` checks everything.

| module | models |
|---|---|
| `WsProtocol`, `WsInvariant`, `WsTheorems`, `WsProgress`, `WsClient`, `WsSchedule` | the WebSocket client: one `listen()`, one background reconnect task, one heartbeat loop, any number of `send()` and `disconnect()` callers. One event is what a coroutine does between two suspension points of the event loop, and any coroutine able to move may move next. `WsTheorems` says what no run does, `WsProgress` what the next steps must do. `WsClient` is the object whose methods take these steps on its fields. `WsSchedule` adds the lock's queue and gives the runs of the event loop itself |
| `ReconnectBudget`, `WsCosts`, `ConfigCell` | one `reconnect()` call from beginning to end on the process-wide configuration cell that tenant discovery rewrites, and the same loop inside the protocol |
| `TaskDispatch` | the in-flight table of the central manager and its background coroutines |
| `LoginLimiter` | the semaphore, its separately locked counter, and the context manager |
| `FcKeyboard` | the on-screen keyboard typist, and the keyboard as a device with a grid cursor and a symbol layer |
| `ProfileList` | the scan of the profile list, on a list whose focus stops at both ends |
| `SceneDetection` | plain and strict choice of the current scene |
| `SceneTransitions`, `SceneRunner`, `SceneConsole` | the transition table, the trimmed chains, the runner that walks them on any console, and one console that does what the table says |
| `ProgressThrottle` | the keyed rate limiter in front of progress reports |
| `CryptoUtil` | password encryption over an abstract block cipher |
| `SceneSchemas` | overrides and merge of the scene schema tables |
| `KeyboardMapping` | the key-binding validator of the web console |
| `FitDisplay` | fitting the video into a window |

The connection protocol allows more than the event loop does. A cancellation may be delivered at any
suspension point or be overtaken by the coroutine's own progress, any waiter may get a free lock, and the
network may answer anything, so what is proved for all runs covers the runs of the program. That something
*goes wrong* is shown in `WsSchedule` only, where a coroutine that finds the lock free and unqueued goes on without
suspending and the others are served in order; the runs of `WsProgress` in which the client recovers or a
`disconnect()` returns are runs of the protocol. The retry of `connect()` without extra headers is part of the one
pending open.

## Where the code falls short of what it says

Each of these is a theorem with the exact condition.

- A socket is never closed when the reconnect task is cancelled after it opened the socket and while it stands in
  the queue for the lock to install it. A socket just opened can be lost this way exactly when the lock is taken or
  queued for at that moment (`OpenedSocketCanBeLostExactly`); it takes senders that queued before the dial and
  outlast it (`ASocketCanBeLost`). In every other case each opened socket is installed, in hand, or closed.
- `reconnect()` compares its attempt number with the latest before it installs a socket; the comparison never decides
  anything, only `_running` does (`NeverOvertaken`).
- `send()` keeps the number of its connection and never compares it: a failure on a socket replaced long ago closes
  the healthy one (`AnyFailureRetires`, `AHealthySocketIsRetired`).
- `listen()` promises to block until `_running` is false. It ends earlier in the cases of `ListenerQuitsExactly`,
  and when a failed send reconnects while a message is being handled, the client is connected again with nobody
  to receive (`ADeafClient`).
- `get_aes_key` promises 16 bytes; secrets of 24 and 32 bytes give keys of that length (`NormalizedKeyFits`).
- The profile scan reports a wrong index exactly when it starts below row 10 (`IndexIsFocusedRowIff`), and focuses
  a wrong row exactly when its slot-0 fallback answers (`FocusedRowMatchesIff`, `FallbackFocusesAWrongRow`).
- The typist goes along the row first; on a keyboard that ignores presses off its keys it arrives exactly when that
  way stays on keys (`MoveOnEdgedKeyboard`), which from q to the plus sign it does not (`PlusIsOutOfReachFromQ`).
- A navigator arrives, on every console that does what the table says, from exactly those scenes at which the chain
  it trims starts (`EveryConsoleArrivesExactly`). Of the scenes the two navigators look for, those are all but 127
  and 175 (`SqbStartsAtCurrent`), and all but 150, 151, 153 and 154 (`AuctionStartsAtCurrent`).
- The merge is documented to take only scenes from 205 on out of the ttt table; it takes every scene the streaming
  table and the overrides lack (`AnyMissingSceneIsMerged`, `ALowTttSceneIsMerged`). The check for an empty streaming table comes after the
  overrides have filled it (`OverridesHideAnEmptyTable`).
- The key-binding check throws instead of answering for an action named like a property every JavaScript object
  inherits, and a binding for the key `__proto__` disappears (`PassesExactly`, `BindingPerRow`).
- Strict detection may name a scene of confidence 0 when the detector's default threshold is not positive; plain
  detection then names none (`StrictAgreesWithPlain`, `StrictNamesAnEmptyMatch`).

## Model

| member | source | states |
|---|---|---|
| WsInvariant.InitInv | bend-agent/src/agent/api/websocket.py:97-122 | a fresh client satisfies the invariant of the connection protocol |
| WsInvariant.StepKeepsInv | bend-agent/src/agent/api/websocket.py:147-414 | every step of every coroutine keeps the invariant: lock ownership, one task of each kind, increasing attempt numbers, every socket accounted for, what each suspended coroutine may rely on |
| WsInvariant.RunKeepsInv | bend-agent/src/agent/api/websocket.py:147-591 | the invariant holds along every legal interleaving |
| WsInvariant.ListenerKeepsInv | bend-agent/src/agent/api/websocket.py:519-563 | the listener part of that, connect() included |
| WsInvariant.ReconnectKeepsInv | bend-agent/src/agent/api/websocket.py:248-337 | the reconnect-task part, from taking the lock to installing, failing or being cancelled |
| WsInvariant.HeartbeatKeepsInv | bend-agent/src/agent/api/websocket.py:565-591 | the heartbeat part |
| WsInvariant.CloserKeepsInv | bend-agent/src/agent/api/websocket.py:205-246 | the disconnect() part, any number of concurrent calls |
| WsInvariant.SendKeepsInv | bend-agent/src/agent/api/websocket.py:351-357 | a send picks the installed socket and disturbs nothing |
| WsInvariant.SendDoneKeepsInv | bend-agent/src/agent/api/websocket.py:374-381 | a failed send may spawn the one reconnect task and nothing else |
| WsTheorems.GenerationSafety | bend-agent/src/agent/api/websocket.py:162-203 | in every reachable state a connected client holds a live socket opened by the attempt numbered `_ws_id`; every socket of an older attempt is closed or dropped |
| WsTheorems.OnlyLatestInstalled | bend-agent/src/agent/api/websocket.py:278-316 | any step that puts a socket into the client puts in that of the latest attempt, which nobody has asked to close |
| WsTheorems.SocketConservation | bend-agent/src/agent/api/websocket.py:183-313 | every live socket is installed or in the hands of the reconnect task, and there is never more than one live socket |
| WsTheorems.SocketsLostExactly | bend-agent/src/agent/api/websocket.py:213-219 | in every run the sockets that are open, not asked to close, not installed and in nobody's hands are as many as the cancellations that hit the reconnect task between opening a socket and installing it |
| WsTheorems.LeakStep | bend-agent/src/agent/api/websocket.py:304-313 | a step adds to those sockets exactly the one in the hands of a task so cancelled, and takes none away |
| WsSchedule.OccursIsReachable | bend-agent/src/agent/api/websocket.py:113 | every run of the event loop, with its lock that is taken at once when free and unqueued and is served in order of arrival otherwise, is a run of the protocol |
| WsSchedule.OpenedSocketCanBeLostExactly | bend-agent/src/agent/api/websocket.py:302-313 | in such runs a socket the reconnect task has just opened can be lost exactly when at that moment the lock is taken or somebody else waits for it |
| WsSchedule.FreeOpeningIsSafe | bend-agent/src/agent/api/websocket.py:304-313 | if the task need not wait, the socket is never lost, whatever happens afterwards |
| WsSchedule.WaitingSocketIsLost | bend-agent/src/agent/api/websocket.py:214-219 | if it has to wait, a disconnect() and the cancellation it asks for lose the socket |
| WsSchedule.ASocketCanBeLost | bend-agent/src/agent/api/websocket.py:205-246 | for any number of turns at the lock that go by while a dial is pending there is such a run in which the socket then opens behind one more sender, and disconnect() returns with the socket open and nobody left to close it |
| WsTheorems.SingleTasks | bend-agent/src/agent/api/websocket.py:383-414 | at most one reconnect task and one heartbeat loop are alive, whatever triggered recovery |
| WsTheorems.AttemptsAreBounded | bend-agent/src/agent/api/websocket.py:273-294 | in every run a reconnect task numbers its attempts one by one up to the configured maximum and dials at most once per number |
| WsTheorems.NothingRestarts | bend-agent/src/agent/api/websocket.py:205-246 | once a disconnect() has cleared `_running`, no step of anybody connects or spawns a reconnect task |
| WsTheorems.DisconnectReturns | bend-agent/src/agent/api/websocket.py:214-245 | when a disconnect() of a started client returns, the client is disconnected, has no socket and no task, and no live socket is left |
| WsTheorems.ShutdownIsFinal | bend-agent/src/agent/api/websocket.py:193-311 | and whatever happens afterwards, it stays so |
| WsTheorems.ListenerQuitsExactly | bend-agent/src/agent/api/websocket.py:519-563 | when exactly a step ends the listener of a client that goes on running; the docstring says the listener blocks until `_running` is false |
| WsSchedule.ADeafClient | bend-agent/src/agent/api/websocket.py:541-549 | a run of the event loop against that docstring: running and connected again, no reconnect pending, and the listener gone |
| WsTheorems.RecoveryStartsExactly | bend-agent/src/agent/api/websocket.py:374-388 | a step spawns a reconnect task exactly when an operation fails on a running client without a live one, whichever socket the operation was on |
| WsSchedule.AnyFailureRetires | bend-agent/src/agent/api/websocket.py:356-381 | so on any connected client a failed send, on whatever socket, leads to the installed socket being closed; the captured `ws_id` is never compared |
| WsSchedule.AHealthySocketIsRetired | bend-agent/src/agent/api/websocket.py:356-381 | a run in which the late failure of a send on a socket closed long ago retires the healthy one the listener receives on |
| WsCosts.TaskWithinBudget | bend-agent/src/agent/api/websocket.py:248-337 | in every run of the protocol what any reconnect task has done is what the loop of ReconnectBudget does under a plan giving its attempts the fates they had, so its dials, sleeps and discoveries are within the budget and every dial is to the latest address |
| WsCosts.RunTracks | bend-agent/src/agent/api/websocket.py:273-337 | along every run the task and the loop stay in step: attempt numbers, acts, address in force |
| WsCosts.OwnStepFollows | bend-agent/src/agent/api/websocket.py:294-332 | each way an attempt can end in the protocol is one turn of the loop |
| WsCosts.GivesUpExactlyAtTheMaximum | bend-agent/src/agent/api/websocket.py:273-337 | in every run a reconnect task of a client still running is about to give up only when exactly max(0, `_max_attempts`) of its attempts have failed or been overtaken |
| WsTheorems.EndedForever | bend-agent/src/agent/api/websocket.py:540-549 | a listener that has ended never receives again |
| WsProgress.ReachableProgress | bend-agent/src/agent/api/websocket.py:205-591 | a second invariant of every run: task fields name tasks of their own kind, whoever waits for a task has asked it to end, a running connected client has a heartbeat loop nobody has asked to end or is replacing its old one, only a stopped client closes a late socket |
| WsProgress.TriesAgainExactly | bend-agent/src/agent/api/websocket.py:274-312 | after a sleep or an overtaken attempt a, a reconnect task goes on to attempt a + 1 exactly when the client is running and a is below the maximum, else it gives up; a close that raised counts as a failed attempt |
| WsProgress.FirstTry | bend-agent/src/agent/api/websocket.py:260-275 | a task that enters makes attempt 1 unless the client is stopped, already being reconnected, or allowed no attempt |
| WsProgress.TurnDials | bend-agent/src/agent/api/websocket.py:279-294 | a turn at the lock closes the old socket if there is one and dials under the next number, on a running client |
| WsProgress.NeverOvertaken | bend-agent/src/agent/api/websocket.py:304-313 | in every reachable state the turn that follows an opened dial installs its socket exactly when the client is running; a stopped client closes it. The test for a superseded attempt never decides anything |
| WsProgress.StaleMeansStopped | bend-agent/src/agent/api/websocket.py:306-308 | so a reconnect task that closes its own new socket belongs to a stopped client |
| WsProgress.RecoversAfterFailures | bend-agent/src/agent/api/websocket.py:273-316 | from any reachable state with a dial out and the lock free, for every k the maximum leaves room for: k failures and then an opened dial are a run, after which the client is connected over the one new socket |
| WsProgress.TaskEnds | bend-agent/src/agent/api/websocket.py:334-337 | a task that gives up leaves the client disconnected; given up or cancelled it is gone and holds no lock |
| WsProgress.ListenDials | bend-agent/src/agent/api/websocket.py:519-533 | listen() on a fresh client sets it running and dials under number 1, holding the lock |
| WsProgress.FirstSocketIsTaken | bend-agent/src/agent/api/websocket.py:193-201 | if that dial opens while the client is running its socket is installed, the receive loop begins, and one heartbeat loop is the only task |
| WsProgress.FirstDialFails | bend-agent/src/agent/api/websocket.py:200-203 | if it fails the client is disconnected, without socket, task or listener, and the lock is free |
| WsProgress.LateFirstSocketIsClosed | bend-agent/src/agent/api/websocket.py:193-203 | one that opens on a stopped client is asked to close, then the listener ends and the lock is free; closing that raised makes the client disconnected, else its connection state stays |
| WsProgress.ListenerReceives | bend-agent/src/agent/api/websocket.py:535-541 | in every reachable state a look of the receive loop leads to receiving from the installed socket exactly when the client is connected, and otherwise ends the listener |
| WsProgress.ListenerComesBack | bend-agent/src/agent/api/websocket.py:542-561 | after a message, or an error and its pause, the listener of a running client looks again and nothing else has changed |
| WsProgress.ClosureIsAwaited | bend-agent/src/agent/api/websocket.py:547-556 | a running client that hears its socket close waits for the live reconnect task |
| WsProgress.WaitEnds | bend-agent/src/agent/api/websocket.py:547-556 | and looks again after it exactly when it is still running and the task did not raise |
| WsProgress.CancelEndsListen | bend-agent/src/agent/api/websocket.py:519-563 | cancelling listen() ends it and gives back its lock, except while it waits for a live reconnect task, which is asked to end first |
| WsProgress.SendHandsOver | bend-agent/src/agent/api/websocket.py:351-357 | in every reachable state a send takes the installed socket exactly when the client is connected, and otherwise does nothing |
| WsProgress.SendEnds | bend-agent/src/agent/api/websocket.py:372-381 | a send that is over touches no connection; one that failed on a running client leaves a live reconnect task |
| WsProgress.HeartbeatIsSent | bend-agent/src/agent/api/websocket.py:574-591 | in every reachable connected state a heartbeat loop that looks with the lock free goes on, in two turns, to send over the installed socket, and nothing else changes |
| WsProgress.CheckEndsExactly | bend-agent/src/agent/api/websocket.py:576-582 | a look ends the loop exactly when the client is not connected |
| WsProgress.LateSendIsDropped | bend-agent/src/agent/api/websocket.py:583-586 | a heartbeat is sent exactly when the client is still connected at its turn; else the loop sleeps again exactly when the client is running |
| WsProgress.HeartbeatBeatsOn | bend-agent/src/agent/api/websocket.py:574-591 | after its send the loop of a running client sleeps and looks again; a failed send has a reconnect task alive |
| WsProgress.ConnectedMeansBeating | bend-agent/src/agent/api/websocket.py:565-572 | in every reachable state a running, connected client has a heartbeat loop nobody has asked to end, or a task about to start one |
| WsProgress.DisconnectCanAlwaysReturn | bend-agent/src/agent/api/websocket.py:205-246 | from every reachable state, for every pending disconnect() call, some run has it return |
| WsClient.WSClient.ListenStep | bend-agent/src/agent/api/websocket.py:519-563 | what the fields do in one segment of listen() is the protocol step |
| WsClient.WSClient.ConnectSucceeded | bend-agent/src/agent/api/websocket.py:183-199 | the same for connect() when the network has answered |
| WsClient.WSClient.SendStep | bend-agent/src/agent/api/websocket.py:351-357 | the same for the locked part of send() |
| WsClient.WSClient.SendDoneStep | bend-agent/src/agent/api/websocket.py:374-381 | the same for its failure branch |
| WsClient.WSClient.HeartbeatStep | bend-agent/src/agent/api/websocket.py:565-591 | the same for the heartbeat loop |
| WsClient.WSClient.TakeTurn | bend-agent/src/agent/api/websocket.py:278-294 | the same for the head of a reconnect attempt |
| WsClient.WSClient.Install | bend-agent/src/agent/api/websocket.py:306-316 | the same for the second locked part of an attempt |
| WsClient.WSClient.CancelReconnectTask | bend-agent/src/agent/api/websocket.py:390-399 | the same for a cancelled reconnect task |
| WsClient.WSClient.ReconnectStep | bend-agent/src/agent/api/websocket.py:248-399 | the same for the whole reconnect task |
| WsClient.WSClient.RejectSocket | bend-agent/src/agent/api/websocket.py:306-309 | the same for a socket that comes too late |
| WsClient.WSClient.ReplaceHeartbeat | bend-agent/src/agent/api/websocket.py:315-316 | the same for the replacement of the heartbeat loop |
| WsClient.WSClient.BeginDisconnect | bend-agent/src/agent/api/websocket.py:214-218 | the same for disconnect() up to its first suspension |
| WsClient.WSClient.CloseInstalled | bend-agent/src/agent/api/websocket.py:233-245 | the same for disconnect() from the lock on |
| WsClient.WSClient.DisconnectStep | bend-agent/src/agent/api/websocket.py:214-246 | the same for disconnect() |
| WsClient.WSClient.ScheduleReconnectTask | bend-agent/src/agent/api/websocket.py:383-388 | reuses the live reconnect task or spawns one |
| WsClient.WSClient.Drive | bend-agent/src/agent/api/websocket.py:147-591 | any legal schedule drives the object to exactly the state the protocol predicts, keeping the invariant |
| ReconnectBudget.ReconnectLoop | bend-agent/src/agent/api/websocket.py:273-337 | the loop on the real configuration cell does what `Loop` says, and leaves the cell at the address of the last successful discovery |
| ReconnectBudget.OneCallBudget | bend-agent/src/agent/api/websocket.py:273-337 | one call dials at most n = max(0, `_max_attempts`) sockets, sleeps at most delay times the sum of min(i, 5) (5 n - 10 delays for n >= 5), and asks discovery at most n / 3 times, whatever happens to each attempt |
| ReconnectBudget.LoopWithin | bend-agent/src/agent/api/websocket.py:273-337 | the same bounds from any point of the loop on |
| ReconnectBudget.FailingSpendsTheBudget | bend-agent/src/agent/api/websocket.py:318-332 | the bounds are reached when every dial fails |
| ReconnectBudget.EveryDialIsFresh | bend-agent/src/agent/api/websocket.py:296-302 | every attempt dials the address of the latest successful discovery before it, else the address the call began with |
| ReconnectBudget.AnswersYesExactly | bend-agent/src/agent/api/websocket.py:303-337 | the call answers yes exactly when some attempt is installed and no earlier one ended the loop |
| ReconnectBudget.BackoffClosedForm | bend-agent/src/agent/api/websocket.py:332 | the closed forms of the backoff sum |
| ReconnectBudget.CallDoesExactly | bend-agent/src/agent/api/websocket.py:273-337 | for every plan: the call makes every attempt up to the one that ends it and dials once for each; after each that raised it asks discovery if the number is a multiple of 3, then sleeps min(number, 5) delays; it does nothing else |
| ReconnectBudget.AnExampleOfAUrl | bend-agent/src/agent/api/websocket.py:296-302 | the dialled address as it is written |
| ConfigCell.ConfigStore.GetConfig | bend-agent/src/agent/core/config.py:368-378 | returns the configuration object, making the default one when there is none |
| ConfigCell.ConfigStore.SetConfig | bend-agent/src/agent/core/config.py:381-390 | replaces configuration and accessor together |
| ConfigCell.ConfigStore.UpdateTenantUrl | bend-agent/src/agent/core/config.py:423-439 | the three addresses are those of the endpoint, the object is the same one, and the cached accessor is dropped |
| ConfigCell.ConfigStore.GetConfigAccessor | bend-agent/src/agent/core/config.py:447-458 | the accessor wraps the current configuration and reads the current address |
| ConfigCell.ConfigStore.RediscoverTenant | bend-agent/src/agent/core/tenant_discovery.py:104-122 | updates the cell exactly when discovery heard something |
| ConfigCell.ConfigStore.Drive | bend-agent/src/agent/core/config.py:368-458 | any sequence of loads, reads and discoveries keeps the accessor absent or wrapping the current configuration and yields the addresses of `EffectOf` |
| ConfigCell.LatestDiscoveryWins | bend-agent/src/agent/core/tenant_discovery.py:104-122 | whatever came before, the cell holds the addresses of the latest successful discovery until the next load |
| ConfigCell.FirstRead | bend-agent/src/agent/core/config.py:180-190 | a first read makes the default addresses, written out; a load replaces whatever there was |
| ConfigCell.DigitsExactly | bend-agent/src/agent/core/config.py:423-439 | a port number is written in decimal digits that read back as it, without leading zeros |
| ConfigCell.DigitsAreTheOnly | bend-agent/src/agent/core/config.py:423-439 | and no other such text reads back as it |
| ConfigCell.DecimalExactly | bend-agent/src/agent/core/config.py:423-439 | with a minus sign exactly when it is negative |
| ConfigCell.AnExampleOfAddresses | bend-agent/src/agent/core/config.py:423-439 | the three addresses of a tenant as they are written |
| TaskDispatch.StepKeepsInv | bend-agent/src/agent/core/central_manager.py:629-675 | every interleaving step keeps the in-flight table and the notification balance |
| TaskDispatch.RunKeepsInv | bend-agent/src/agent/core/central_manager.py:629-675 | along every run |
| TaskDispatch.NotifiedOncePerAccepted | bend-agent/src/agent/core/central_manager.py:641-675 | for every task id: accepted = notifications attempted + 1 if its live run has yet to notify; at most one live coroutine |
| TaskDispatch.QuietMeansNotified | bend-agent/src/agent/core/central_manager.py:646-661 | when no coroutine is left the table is empty and every accepted run was notified exactly once |
| TaskDispatch.DuplicateDroppedOnlyWhileLive | bend-agent/src/agent/core/central_manager.py:624-644 | a dispatch is dropped exactly when it has no id or a coroutine for it is alive; otherwise it is accepted with a fresh coroutine |
| TaskDispatch.CallsMatchOutcomes | bend-agent/src/agent/core/central_manager.py:646-659 | in every run, for every task id: the complete-calls are exactly its accepted runs that ended in success, and the fail-calls those that ended without success or by raising |
| TaskDispatch.RunsEnd | bend-agent/src/agent/core/central_manager.py:646-661 | a run that ends takes its own coroutine and its own entry out of the table and nothing else, and its task can be accepted again |
| TaskDispatch.CentralManager.HandleTask | bend-agent/src/agent/core/central_manager.py:613-644 | the dictionary code takes the step of the model |
| TaskDispatch.CentralManager.TaskExecuted | bend-agent/src/agent/core/central_manager.py:646-659 | exactly one complete-or-fail call |
| TaskDispatch.CentralManager.NotificationReturned | bend-agent/src/agent/core/central_manager.py:660-661 | the finally clause |
| LoginLimiter.StepKeepsInv | bend-agent/src/agent/auth/browser_login_controller.py:88-108 | every step of every login task, cancellations included, keeps the counting invariant, and none is a step at the lock |
| LoginLimiter.RunKeepsInv | bend-agent/src/agent/auth/browser_login_controller.py:88-108 | along every run |
| LoginLimiter.NobodyWaitsForTheLock | bend-agent/src/agent/auth/browser_login_controller.py:94-106 | in no run does a task find the lock taken, so no cancellation can fall between a permit and its count or between a count and its permit |
| LoginLimiter.PermitsConserved | bend-agent/src/agent/auth/browser_login_controller.py:88-108 | whatever is cancelled: free permits + permits handed to tasks about to resume + tasks inside = `max_concurrent`; the counter is the tasks between increment and decrement and stays within [0, max] |
| LoginLimiter.AvailabilityExact | bend-agent/src/agent/auth/browser_login_controller.py:135-137 | is_available() exactly when a permit is free or handed to a task about to resume |
| LoginLimiter.AllPermitsBack | bend-agent/src/agent/auth/browser_login_controller.py:99-108 | with nobody inside or about to be, all permits are back and the counter is 0 |
| LoginLimiter.GrantedExactly | bend-agent/src/agent/auth/browser_login_controller.py:88-97 | in every run a waiting task can have a permit exactly while fewer than `max_concurrent` are handed out or held |
| LoginLimiter.InAndOutAgain | bend-agent/src/agent/auth/browser_login_controller.py:88-108 | it is then inside and counted after two steps, and its leaving undoes both |
| LoginLimiter.BrowserLoginController.AcquireBegin | bend-agent/src/agent/auth/browser_login_controller.py:94 | a task starts to wait |
| LoginLimiter.BrowserLoginController.SemaphoreGrant | bend-agent/src/agent/auth/browser_login_controller.py:94 | the semaphore lets one waiting task through |
| LoginLimiter.BrowserLoginController.SemaphoreTakeBack | bend-agent/src/agent/auth/browser_login_controller.py:94 | the semaphore takes the permit back from a task cancelled before it resumed |
| LoginLimiter.BrowserLoginController.AcquireEnd | bend-agent/src/agent/auth/browser_login_controller.py:94-97 | a task resumes with its permit and the counter goes up under the lock |
| LoginLimiter.BrowserLoginController.Release | bend-agent/src/agent/auth/browser_login_controller.py:99-108 | the counter goes down under the lock and the permit comes back |
| LoginLimiter.BrowserLoginController.IsFree | bend-agent/src/agent/auth/browser_login_controller.py:135-137 | answers whether a permit is free or about to be counted |
| LoginLimiter.BrowserLoginContext.Enter | bend-agent/src/agent/auth/browser_login_controller.py:157-161 | the flag is up exactly while the task is counted |
| LoginLimiter.BrowserLoginContext.Exit | bend-agent/src/agent/auth/browser_login_controller.py:163-167 | releases once what was acquired; a second exit changes nothing |
| FcKeyboard.FcOnScreenKeyboard.TypeText | bend-agent/src/agent/game/fc_on_screen_keyboard.py:68-86 | the text to type is the argument without the white space around it, each capital replaced by the small letter at its place in the alphabet; replaying the presses on the device types exactly that, or its part before the first character that is not a-z, 0-9, +, @ or .; nothing is pressed for an empty one; the tracked cursor is the device cursor; MENU only when all of it was supported; D-pad presses are the sum of the distances |
| FcKeyboard.NormalizeExactly | bend-agent/src/agent/game/fc_on_screen_keyboard.py:69 | that text: white space outside, none at either end inside, letters by their place in the alphabet |
| FcKeyboard.SupportedExactly | bend-agent/src/agent/game/fc_on_screen_keyboard.py:17-57 | the supported characters are exactly a-z, 0-9, +, @ and . |
| FcKeyboard.FcOnScreenKeyboard.TypeCharacters | bend-agent/src/agent/game/fc_on_screen_keyboard.py:75-84 | the loop: stops exactly before the first unsupported character |
| FcKeyboard.FcOnScreenKeyboard.TypeChar | bend-agent/src/agent/game/fc_on_screen_keyboard.py:76-84 | one character is entered, with the symbol layer up only for the at-sign, and the layer is down again afterwards |
| FcKeyboard.FcOnScreenKeyboard.MoveTo | bend-agent/src/agent/game/fc_on_screen_keyboard.py:101-117 | sends exactly the way that goes along the row first and the column then, of Manhattan length; the device ends on the target and is otherwise unchanged |
| FcKeyboard.RouteIsShortest | bend-agent/src/agent/game/fc_on_screen_keyboard.py:101-117 | that way has Manhattan length and leads to the target |
| FcKeyboard.KeyEntersItsCharacter | bend-agent/src/agent/game/fc_on_screen_keyboard.py:17-57 | on the right layer every supported character is entered by its cell, although the at-sign and 2 share one |
| FcKeyboard.ManhattanIsLeast | bend-agent/src/agent/game/fc_on_screen_keyboard.py:101-117 | no press sequence moves the cursor further than it has D-pad presses, so the ways are shortest |
| FcKeyboard.MoveOnEdgedKeyboard | bend-agent/src/agent/game/fc_on_screen_keyboard.py:101-117 | on a keyboard that ignores presses off its keys the way arrives exactly when every cell along the starting row and then along the target's column is a key |
| FcKeyboard.ShortestRouteOnEdgedKeyboard | bend-agent/src/agent/game/fc_on_screen_keyboard.py:101-117 | the same for every shortest way |
| FcKeyboard.PlusIsOutOfReachFromQ | bend-agent/src/agent/game/fc_on_screen_keyboard.py:18-29 | the way from q to the plus sign does not, on a keyboard with the keys of the table |
| ProfileList.AccountSwitcher.ScrollToTop | bend-agent/src/agent/game/account_switcher.py:1843-1846 | ten presses, clamped at the top |
| ProfileList.AccountSwitcher.SelectAccount | bend-agent/src/agent/game/account_switcher.py:1859-1933 | on a list clamped at both ends, for any start: which slot is returned, where the focus is, exactly max_slots - 1 DOWN presses before giving up, the whole-list fallback at slot 0, the two early errors |
| ProfileList.ScanFindsLeastRow | bend-agent/src/agent/game/account_switcher.py:1884-1933 | from a start within row 10 and without fallback the scan succeeds exactly when a row below max_slots matches, and returns the least one, focused |
| ProfileList.IndexIsFocusedRowIff | bend-agent/src/agent/game/account_switcher.py:1843-1901 | the returned index is the focused row exactly when the start is at most row 10 |
| ProfileList.FocusedRowMatchesIff | bend-agent/src/agent/game/account_switcher.py:1903-1924 | the focused row is the wanted one exactly when the answer did not come from the whole-list reading |
| ProfileList.FallbackFocusesAWrongRow | bend-agent/src/agent/game/account_switcher.py:1903-1924 | a list on which the whole-list answer 0 leaves a row focused that is not the wanted one |
| ProfileList.FallbackAnswersExactly | bend-agent/src/agent/game/account_switcher.py:1903-1924 | with an unreadable top row the answer is 0 exactly when some readable line of the whole list is the wanted one |
| ProfileList.DeepStartMisreportsIndex | bend-agent/src/agent/game/account_switcher.py:1843-1846 | a start at row 12 for which row 2 is reported as index 0 |
| SceneDetection.ScoreScenes | bend-agent/src/agent/game/account_switcher.py:1413-1433 | the scores are exactly the matching scenes with their confidences |
| SceneDetection.DetectPlain | bend-agent/src/agent/game/account_switcher.py:1463-1477 | names the first scene of greatest confidence among those that meet their own thresholds, or none |
| SceneDetection.DetectStrict | bend-agent/src/agent/game/account_switcher.py:1479-1490 | names the first greatest scene if it meets its threshold and no outside rival beats it by more than 0.03; raises exactly on an empty list with something scored |
| SceneDetection.FirstGreatest | bend-agent/src/agent/game/account_switcher.py:1480 | max over the dictionary is the first of the greatest |
| SceneDetection.HasRival | bend-agent/src/agent/game/account_switcher.py:1484-1489 | whether an ambiguous scene outside the list scores more than 0.03 above |
| SceneDetection.PlainAnswerUnique | bend-agent/src/agent/game/account_switcher.py:1463-1477 | the plain answer is determined |
| SceneDetection.StrictAgreesWithPlain | bend-agent/src/agent/game/account_switcher.py:1435-1490 | whenever strict names a scene, plain on the same frame names the same one exactly when its confidence is positive, which every positive threshold guarantees |
| SceneDetection.StrictNamesAnEmptyMatch | bend-agent/src/agent/game/account_switcher.py:1479-1490 | with a default threshold of 0 strict names a scene of confidence 0 and plain names none |
| SceneDetection.AnswersMeetTheTable | bend-agent/src/agent/game/account_switcher.py:1330-1490 | with the thresholds written out scene by scene: what either choice names matched at its threshold with a confidence as high; where plain names none nothing did; where strict names none the first greatest scene did not or is rivalled |
| SceneDetection.StrictNamesOnlyClearScenes | bend-agent/src/agent/game/account_switcher.py:1482-1490 | a scene strict names is beaten by none of the nine ambiguous scenes outside the list by more than 0.03 |
| SceneDetection.OnlyThoseNineCount | bend-agent/src/agent/game/account_switcher.py:1482-1490 | and no other scene holds it back |
| SceneTransitions.LookupFindsTheRow | bend-agent/configs/scene_transitions.py:452-457 | the lookup finds a row with that key and fails exactly when there is none |
| SceneTransitions.EveryRowIsFound | bend-agent/configs/scene_transitions.py:29-343 | no row of the table hides another: each is the one its key finds |
| SceneTransitions.SqbChainIsPath | bend-agent/configs/scene_transitions.py:460-482 | for every scene or none: empty exactly at 189, otherwise a linked path in the table ending at 189 |
| SceneTransitions.AuctionChainIsPath | bend-agent/configs/scene_transitions.py:435-449 | for every scene or none: empty exactly at 152, otherwise a linked path ending at 152 |
| SceneTransitions.TrimmingResumes | bend-agent/configs/scene_transitions.py:435-482 | trimming again after the first step gives the rest of the same chain |
| SceneTransitions.SqbStartsAtCurrent | bend-agent/configs/scene_transitions.py:366-370 | of the scenes the navigator looks for, only 127 and 175 get a chain that starts elsewhere |
| SceneTransitions.AuctionStartsAtCurrent | bend-agent/configs/scene_transitions.py:424-426 | of the scenes the transfer navigator looks for, only the four side tabs do |
| SceneTransitions.OffRouteTakesAll | bend-agent/configs/scene_transitions.py:435-482 | off the two routes, or with nothing recognised, the whole chain is taken |
| SceneRunner.RunSceneTransition | bend-agent/src/agent/game/account_switcher.py:2091-2134 | the nested loops compute `StepOutcome` on any console |
| SceneRunner.RunSceneTransitionChain | bend-agent/src/agent/game/account_switcher.py:2051-2089 | the chain loop computes `ChainOutcome` on any console |
| SceneRunner.WalkTellsItsStory | bend-agent/src/agent/game/account_switcher.py:2101-2113 | on any console a step sends a prefix of its inputs, each with the channel ready, sees no target before its last input, and stops for exactly one of three reasons |
| SceneRunner.BudgetIsLength | bend-agent/src/agent/game/account_switcher.py:2101-2104 | the inputs are as many as the counts allow, 20 for a count of 0 |
| SceneRunner.InputsOfOne | bend-agent/src/agent/game/account_switcher.py:2101-2104 | one option is sent as often as its count says, 20 times for a count of 0 or less |
| SceneRunner.InputsConcat | bend-agent/src/agent/game/account_switcher.py:2101-2104 | options are sent one after the other |
| SceneRunner.AfterOneMore | bend-agent/src/agent/game/account_switcher.py:2104-2109 | each input is pressed after the channel has been brought back |
| SceneRunner.StepTellsItsStory | bend-agent/src/agent/game/account_switcher.py:2091-2134 | on any console, exactly: a prefix of the inputs, ended by the first strict-or-plain sight of a target, by a closed channel, or by the last look, polled for 60, 30 or 20 seconds after scenes 203, 101 and 126; a step without a row does nothing |
| SceneRunner.ChainTellsItsStory | bend-agent/src/agent/game/account_switcher.py:2065-2089 | on any console, exactly: there is a boundary up to which no look showed a completing scene and every step answered yes, and there the chain ends, with a yes and nothing more sent if the look shows one or no step is left, with a no after a step that answered no |
| SceneRunner.CompleteAtTheHead | bend-agent/src/agent/game/account_switcher.py:2065-2070 | a look at the head that shows a completing scene answers yes, leaves the console as it is and sends nothing |
| SceneRunner.StepIsSound | bend-agent/src/agent/game/account_switcher.py:2091-2134 | with exact eyes a step that answers yes has left the console on a target |
| SceneRunner.StepArrives | bend-agent/src/agent/game/account_switcher.py:2091-2134 | on a console that honours the table a step from its own scene answers yes |
| SceneRunner.ChainIsSound | bend-agent/src/agent/game/account_switcher.py:2065-2089 | with exact eyes a chain that answers yes has reached its goal or a completing scene, whatever the console does |
| SceneRunner.ChainArrives | bend-agent/src/agent/game/account_switcher.py:2065-2089 | on a console that honours the table a path from its first scene reaches its goal |
| SceneRunner.StepWithinBudget | bend-agent/src/agent/game/account_switcher.py:2101-2113 | on any console a step sends at most the sum of its counts |
| SceneRunner.ChainWithinBudget | bend-agent/src/agent/game/account_switcher.py:2065-2089 | on any console a chain sends at most the sum of its steps' budgets |
| SceneRunner.SqbNavigation | bend-agent/configs/scene_transitions.py:460-482 | for any detected scene: the Squad Battles chain answers yes only at 189, gets there on a console that honours the table, and sends at most 36 inputs |
| SceneRunner.AuctionNavigation | bend-agent/configs/scene_transitions.py:435-449 | the same for the transfer chain, 152 and 26 inputs |
| SceneConsole.RowActs | bend-agent/configs/scene_transitions.py:29-343 | on the console built from the table, each option of each row does in the row's scene what the row says: the last leads to the target, earlier ones change nothing |
| SceneConsole.TableConsoleHonours | bend-agent/configs/scene_transitions.py:29-343 | a console that honours every row of the table at once exists, so the rows of the table never contradict each other |
| SceneConsole.SqbArrivesExactly | bend-agent/configs/scene_transitions.py:460-482 | on that console, for every scene, the Squad Battles chain trimmed for the scene arrives from it exactly when it is empty or starts there |
| SceneConsole.AuctionArrivesExactly | bend-agent/configs/scene_transitions.py:435-449 | the same for the transfer chain |
| SceneConsole.EveryConsoleArrivesExactly | bend-agent/configs/scene_transitions.py:435-482 | for every scene: every exactly seen console that honours the table arrives exactly when the trimmed chain is empty or starts at the scene |
| ProgressThrottle.PlatformApiClient.ShouldThrottle | bend-agent/src/agent/api/platform_api_client.py:164-200 | the method's answer and table are those of `Decide` |
| ProgressThrottle.PlatformApiClient.ReportProgress | bend-agent/src/agent/api/platform_api_client.py:202-369 | a dropped report costs no POST; any other is posted until accepted, at most three times |
| ProgressThrottle.TableIsLastLetThrough | bend-agent/src/agent/api/platform_api_client.py:195-200 | the table remembers for each key exactly the last report let through |
| ProgressThrottle.LetThroughSpaced | bend-agent/src/agent/api/platform_api_client.py:195-200 | two reports let through for one key are an interval apart, whatever the clock does |
| ProgressThrottle.RateBound | bend-agent/src/agent/api/platform_api_client.py:164-200 | in any window of length T at most floor(T / interval) + 1 non-exempt reports of one key get through |
| ProgressThrottle.ThrottledExactly | bend-agent/src/agent/api/platform_api_client.py:195-200 | a report is dropped exactly when it is not exempt and the last one let through for its key is less than an interval old; for the first of a key, when the clock itself is below the interval |
| ProgressThrottle.ExemptIsInvisible | bend-agent/src/agent/api/platform_api_client.py:172-191 | an exempt report is never dropped and changes no table entry |
| ProgressThrottle.ExemptExactly | bend-agent/src/agent/api/platform_api_client.py:172-191 | exempt are exactly final statuses, the three flags, an interval of 0 or less, and session reports in one of five phases, in any letter case |
| ProgressThrottle.SameKeyExactly | bend-agent/src/agent/api/platform_api_client.py:187-193 | with no colon in task id and step, two reports share a key exactly when task and step agree and both are session reports of one phase or neither is one |
| ProgressThrottle.ColonsCollide | bend-agent/src/agent/api/platform_api_client.py:187-193 | with colons two different tasks can share one |
| CryptoUtil.NormalizedKeyFits | bend-agent/src/agent/core/crypto_util.py:45-57 | every key made from a secret has 16, 24 or 32 bytes; 16 exactly when the secret has neither 24 nor 32 (the docstring says 16) |
| CryptoUtil.NormalizedKeyExactly | bend-agent/src/agent/core/crypto_util.py:51-57 | byte for byte: the first 16, 24 or 32 bytes of the secret, zeros after its end |
| CryptoUtil.ConfiguredKeyExactly | bend-agent/src/agent/core/crypto_util.py:238-245 | encryption without a key argument is encryption under the key made from the secret |
| CryptoUtil.PadThenUnpad | bend-agent/src/agent/core/crypto_util.py:60-92 | padding gives whole blocks with less than one block of zeros, and unpadding gives back the data exactly when it does not end in zero |
| CryptoUtil.UnpadExactly | bend-agent/src/agent/core/crypto_util.py:80-92 | unpadding takes away all trailing zeros and nothing else |
| CryptoUtil.StripExactly | bend-agent/src/agent/core/crypto_util.py:80-92 | the same for the characters of the text |
| CryptoUtil.EveryBlockByItself | bend-agent/src/agent/core/crypto_util.py:243-245 | block i of the ciphertext is the encryption of block i of the data under the one key |
| CryptoUtil.DecryptUndoesEncrypt | bend-agent/src/agent/core/crypto_util.py:123-125 | the block mode decrypts what it encrypted, for any block permutation |
| CryptoUtil.FromHexUndoesHex | bend-agent/src/agent/core/crypto_util.py:121 | reading hexadecimal gives back the bytes written |
| CryptoUtil.HexExactly | bend-agent/src/agent/core/crypto_util.py:247 | byte i is written at places 2i and 2i + 1, high digit first, in small letters |
| CryptoUtil.HexValueExactly | bend-agent/src/agent/core/crypto_util.py:121 | a digit of either case has the value of its place, no other character has one |
| CryptoUtil.FromHexConcat | bend-agent/src/agent/core/crypto_util.py:121 | text in two parts is read part by part |
| CryptoUtil.FromHexExactly | bend-agent/src/agent/core/crypto_util.py:121 | text without blanks is read exactly when it is pairs of digits, as their bytes |
| CryptoUtil.BlanksAreSkipped | bend-agent/src/agent/core/crypto_util.py:121 | blanks stand for no bytes, and a blank inside a pair is refused |
| CryptoUtil.UnpadIsStrip | bend-agent/src/agent/core/crypto_util.py:80-92 | removing zero bytes is removing trailing zero characters |
| CryptoUtil.DecryptUndoesEncryptText | bend-agent/src/agent/core/crypto_util.py:95-133 | decrypting a ciphertext under the same key gives the text without trailing zero characters, so the text itself exactly when it ends in none |
| CryptoUtil.PasswordUndoesEncrypt | bend-agent/src/agent/core/crypto_util.py:169-197 | decrypt_password takes every such ciphertext as hexadecimal, bare or with the prefix, and gives that text |
| CryptoUtil.Base64PasswordUndoesEncrypt | bend-agent/src/agent/core/crypto_util.py:191-195 | decrypt_password takes what is base64 and not hexadecimal as base64, and gives back the text whose ciphertext it writes |
| CryptoUtil.EmptyExactly | bend-agent/src/agent/core/crypto_util.py:179-184 | an empty password is the empty password; empty arguments are refused as empty, and no others |
| CryptoUtil.CiphertextsDiffer | bend-agent/src/agent/core/crypto_util.py:222-251 | different texts not ending in a zero character never share a ciphertext |
| CryptoUtil.EncryptFailsExactly | bend-agent/src/agent/core/crypto_util.py:235-251 | encryption under the configured key fails exactly for an empty or unencodable text or secret |
| CryptoUtil.LastBranchNeedsBlanks | bend-agent/src/agent/core/crypto_util.py:186-208 | the last branch of decrypt_password can only succeed on text of odd length with blanks in it |
| CryptoUtil.AsciiPrimitivesAreValid | bend-agent/src/agent/core/crypto_util.py:243-245 | what is assumed of the cipher and the text encoding can be met |
| SceneSchemas.ApplyFcSchemaOverrides | bend-agent/tools/sync_scene_schemas.py:143-150 | the filter, extend and sort compute `Overridden` |
| SceneSchemas.MergeStreamingAndTttSchemas | bend-agent/tools/sync_scene_schemas.py:153-162 | the merge computes `Merged` |
| SceneSchemas.StableSortIsTheOne | bend-agent/tools/sync_scene_schemas.py:149 | a list is a stable sort of another exactly when it is this one, so any stable sort may stand in for list.sort |
| SceneSchemas.StableSortSorts | bend-agent/tools/sync_scene_schemas.py:149 | sorted, and a permutation |
| SceneSchemas.SortedIsDetermined | bend-agent/tools/sync_scene_schemas.py:161 | two sorted lists with the same rows per key are the same list |
| SceneSchemas.SyncedKeys | bend-agent/tools/sync_scene_schemas.py:143-162 | per key the result has the rows of the scene's one source, in their old order |
| SceneSchemas.EachSceneHasOneSource | bend-agent/tools/sync_scene_schemas.py:143-162 | the result is sorted, and each scene's rows are, sorted, exactly those of one source: the override, else streaming, else ttt |
| SceneSchemas.SyncIsIdempotent | bend-agent/tools/sync_scene_schemas.py:143-162 | syncing the result again with the same ttt table gives the identical list |
| SceneSchemas.OverridesHideAnEmptyTable | bend-agent/tools/sync_scene_schemas.py:352-357 | the branch for an empty streaming table is never taken, since the overrides fill it |
| SceneSchemas.AnyMissingSceneIsMerged | bend-agent/tools/sync_scene_schemas.py:153-162 | a ttt row is merged whenever neither an override nor the streaming table has its scene, whatever its number |
| SceneSchemas.ALowTttSceneIsMerged | bend-agent/tools/sync_scene_schemas.py:153-162 | for instance one of scene 7 |
| SceneSchemas.SyncedExactly | bend-agent/tools/sync_scene_schemas.py:143-162 | with the columns and the fixed rows written out: what is written is ordered by column 0, then 8, then 3, and holds every row exactly as often as its scene is given it by the fixed rows, else the streaming table, else the ttt table |
| SceneSchemas.EqualRowsKeepTheirOrder | bend-agent/tools/sync_scene_schemas.py:149-162 | rows that agree in those three columns keep the order of the table they come from |
| KeyboardMapping.FindDuplicateKeyConflicts | bend-platform-web/src/composables/useKeyboardMappingValidation.js:14-35 | the map loops compute `ConflictsOf` |
| KeyboardMapping.ConflictsExactly | bend-platform-web/src/composables/useKeyboardMappingValidation.js:14-35 | the conflict list names each non-empty key of multiplicity two or more, once, with all its targets, and nothing else |
| KeyboardMapping.NoConflictExactly | bend-platform-web/src/composables/useKeyboardMappingValidation.js:79-85 | with no key missing there is no conflict exactly when keys are pairwise distinct |
| KeyboardMapping.CountActions | bend-platform-web/src/composables/useKeyboardMappingValidation.js:87-108 | the counting loop accepts exactly rows in order, else answers for the first row that is not |
| KeyboardMapping.ValidateKeyboardMappingRows | bend-platform-web/src/composables/useKeyboardMappingValidation.js:64-109 | which check fails first, at which row, with which message data; null and empty pass |
| KeyboardMapping.JudgedOnce | bend-platform-web/src/composables/useKeyboardMappingValidation.js:64-109 | that determines the answer |
| KeyboardMapping.PassesExactly | bend-platform-web/src/composables/useKeyboardMappingValidation.js:64-109 | ok exactly when keys are present and distinct, actions within their limits, and no action has the name of an inherited object property |
| KeyboardMapping.InheritedNameThrows | bend-platform-web/src/composables/useKeyboardMappingValidation.js:92-96 | a row within all documented rules whose action name is inherited makes the check throw |
| KeyboardMapping.AnExampleThrows | bend-platform-web/src/composables/useKeyboardMappingValidation.js:92-96 | for instance an action called constructor |
| KeyboardMapping.BuildBindingsFromRows | bend-platform-web/src/composables/useKeyboardMappingValidation.js:111-121 | bindings exactly for rows that pass; otherwise the reason, or a TypeError for null |
| KeyboardMapping.BindingsExactly | bend-platform-web/src/composables/useKeyboardMappingValidation.js:116-119 | every key but __proto__ is bound to its own row's action, and nothing else |
| KeyboardMapping.BindingPerRow | bend-platform-web/src/composables/useKeyboardMappingValidation.js:116-119 | one binding per row exactly when no row uses the key __proto__ |
| KeyboardMapping.NormalKeyExactly | bend-platform-web/src/composables/useKeyboardMappingValidation.js:18 | a row's key is what was entered without the blanks around it, capitals replaced by the small letters at their places in the alphabet |
| KeyboardMapping.TargetShown | bend-platform-web/src/composables/useKeyboardMappingValidation.js:7-11 | what is shown for a row, with and without group, label and action |
| KeyboardMapping.TargetsExactly | bend-platform-web/src/composables/useKeyboardMappingValidation.js:16-24 | the targets listed for a name are those of its rows, one each, in the order of the rows |
| KeyboardMapping.CountsExactly | bend-platform-web/src/composables/useKeyboardMappingValidation.js:87-98 | they number more than one, or two, exactly when there are two, or three, such rows |
| KeyboardMapping.WithinLimitsExactly | bend-platform-web/src/composables/useKeyboardMappingValidation.js:90-98 | the limits hold exactly when two rows share an action only if it begins with MOVE_ and three never do |
| KeyboardMapping.PassesByTheRows | bend-platform-web/src/composables/useKeyboardMappingValidation.js:64-109 | the acceptance condition again, in terms of the rows alone |
| KeyboardMapping.ConflictsInOrder | bend-platform-web/src/composables/useKeyboardMappingValidation.js:25-34 | conflicts come in the order in which their keys are first used |
| FitDisplay.FitsTheScreen | bend-agent/src/agent/discovery/lan_network_util.py:86-92 | the window lies within [320, available] by [240, available] and does not exceed the larger of the minimum and the video |
| FitDisplay.KeepsAspectAndFills | bend-agent/src/agent/discovery/lan_network_util.py:86-92 | where both scaled sides reach the minima \|w * video_h - h * video_w\| < max(video_w, video_h), and the window touches a limit or has the video's size |
| FitDisplay.RatioKept | bend-agent/src/agent/discovery/lan_network_util.py:91-92 | rounding down keeps the ratio within that error |
| FitDisplay.ScaleFills | bend-agent/src/agent/discovery/lan_network_util.py:91 | the scale makes one side touch its limit or keeps both |
| FitDisplay.WindowBounds | bend-agent/src/agent/discovery/lan_network_util.py:86-92 | written out: a side is at least 320 (240), and beyond that at most the maximum, the screen less its margin, and the video; a video without a size gets the maximum |
| FitDisplay.WindowIsAsLargeAsItMayBe | bend-agent/src/agent/discovery/lan_network_util.py:86-92 | for every video one side is the largest it may be, or the window already shows the whole video |

## Left out

- A second `listen()` call, and direct calls of `connect()` or `reconnect()`: the program makes one `listen()` and reaches the others only through it and through `_schedule_reconnect`.
- The 2-second limit on waiting for a cancelled heartbeat loop: the model waits until the loop has ended, as it does at its next suspension point.
- Message contents, handlers, JSON, logging, HTTP bodies, headers and sessions; a handler is only time the listener spends between two receives.
- WsTheorems.SocketConservation: sockets that `websockets.connect` may have opened inside a call that was cancelled or raised belong to that library and are not counted.
- The first `connect()` uses the address read when the client was built; only reconnecting reads the configuration cell. The fallback of reconnecting to that first address when the configuration module cannot be imported is not modelled.
- ReconnectBudget.ReconnectLoop: the other coroutines appear as a plan that says what happens to each attempt; `WsCosts` shows that every interleaving is such a plan.
- WsCosts.TaskWithinBudget: a dial that is out when its task is cancelled counts up to the cancellation only.
- WsProgress.DisconnectCanAlwaysReturn: a run of the protocol, where any waiter may get a free lock; on the event loop those queued before it are served first, and each must let go of the lock in its turn.
- WsSchedule.OccursIsReachable: which of several coroutines ready to go on moves next is left open; only the order at the lock is that of the event loop.
- WsSchedule.ASocketCanBeLost: a turn of the event loop has no duration, so how many turns a dial takes is left open; the run exists for every number.
- UDP discovery, writing the address back to the configuration file, parsing of configuration files, and dotted lookups through `Config.get`.
- Cancellation of running tasks in the central manager; command, update and control messages.
- The OCR reader, the template matcher, the block cipher, UTF-8 and base64: functions about which only what the members require of them is assumed (the cipher permutes blocks, decoding undoes encoding).
- FcKeyboard.FcOnScreenKeyboard.TypeText: lower-casing is modelled for ASCII letters; the durations of presses, the console's repeat behaviour and a missing input executor are not modelled.
- KeyboardMapping.PassesExactly: lower-casing is modelled for ASCII letters, white space exactly as `trim` takes it; actions that are neither strings nor undefined, the display form of keys and the wording of messages are not modelled.
- ProgressThrottle.PlatformApiClient.ShouldThrottle: upper- and lower-casing for ASCII letters; clock readings are exact reals.
- SceneRunner.RunSceneTransition: the input channel's recovery, the frame source and the polling wait are functions of the console's state; logging and debug frames are left out.
- FitDisplay.FitsTheScreen: exact arithmetic instead of floating point.
- ProgressThrottle.SameKeyExactly: task ids and step names without a colon, as the platform gives them; `ColonsCollide` shows why.
- CryptoUtil.PadThenUnpad: the block size is 16, the only one in use.
- CryptoUtil: `decrypt_json` and `safe_decrypt`, thin wrappers around `decrypt_password`.
- SceneSchemas: reading the schema tables out of source files, scene names, and exporting templates.
- Opening the account switcher's screens, launching the game, match automation, video and input streaming: sequences of the parts modelled here, or foreign calls.
- The Java backend, the Vue components other than the validator, token storage, the daily reset, the updater.
