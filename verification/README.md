# dravr-tronc, modelled

A Dafny model of the parts of dravr-tronc whose guarantees span several functions or several tasks running at once,
with proofs of those guarantees. `dafny verify dfyconfig.toml` checks all of it.

Concurrent parts are modelled twice. A class has the source's own fields, loops and lock sections, and each of its
methods is proved equal to a specification function. A state machine then takes those functions as its steps, one step
for each section under a lock, send, poll or await, in any order and for any number of callers, instances and
connections; invariants are proved step by step and the main results hold after every finite sequence of steps. Time is
an integer. The tasks read the wall clock, which may be set back; all other clocks never run backwards. History that no
step reads is marked as such where it is declared.

- **Tasks** (`TaskStore`, `TaskMachine`, `TaskSafety`, `TaskCalls`, `TaskTheorems`, `TaskOutcomes`, `TaskStrays`,
  `TaskIsolation`, `TaskRuns`, `TaskServer`): the task store, the live-run tables of several managers, the bus between
  them, cancellation, input calls and sweeps.
- **Sessions** (`SessionStore`, `SessionMachine`, `SessionSafety`, `SessionAges`): the bounded session store with
  eviction per caller, idle expiry and busy counts.
- **Requests to the client** (`ClientChannel`, `RequestMachine`, `RequestSafety`, `RequestTheorems`,
  `RequestDeadlines`): server requests awaiting an answer, their cancellation notices, and the table they wait in.
- **Requests in flight** (`InFlight`, `Dispatch`, `DispatchHistory`): the registry `notifications/cancelled` acts on,
  and dispatch over it.
- **Signing keys** (`KeySet`, `KeyAnswers`): the cache with one fetch at a time and a cooldown.
- **Secrets** (`TokenShapes`, `TokenScan`, `RedactedShapes`, `Secrets`, `SecretSurvival`): masking by shape and by
  registered value.
- **Notifications** (`ErrorDispatcher`, `ErrorWindows`, `Notify`, `NotifyOutcomes`): the error digest with its window
  and rate, and the notify layer's batches, dedup and escaping.
- **Lists and wire types** (`Pagination`, `Elicitation`, `ElicitationWire`): cursors over a list, and the elicitation
  schema's shapes.

`Wrappers.dfy` holds the option and result types, the clock, JSON values and bytes; `Utf8.dfy` holds characters and white
space.

Where the code and what is said of it differ, the model follows the code:

- The error layer's documentation says the dispatcher flushes what remains when the channel closes. It does so only when
  it finds the channel closed between two batches; found closed within a window, it returns and the batch is lost
  (`src/notifications/error_layer.rs:197`). `ErrorReceiver.NothingIsLostIffOutsideAWindow` states exactly when.
- The dedup state says a NUL between values keeps two tuples of fields from colliding. It does so unless a value holds a
  NUL itself; `NotifyDedup.EventsCollideIff` states exactly when.
- An error's dedup key is said to be its target and the start of its message. The two are joined by `::`, which both
  may contain, so two targets may share a key; `ErrorDispatcher.KeyIsSharedIff` states exactly when, and
  `ErrorDispatcher.TargetsMayShareAKey` is an instance.
- A registered value is said to be replaced wherever it occurs. The replacement brings a value about again when the
  value overlaps the mask; `Secrets.WordSurvivesIffItSurfaces` states exactly when one can survive its own replacement,
  `SecretSurvival.ValueSurvivesIffItReturns` when it can survive redaction as a whole, and `Secrets.NoSecretSurvives`
  which ones survive in no company.
- A list walk is said to survive items added or removed. It also needs that no two items of one key lie on both sides of
  a page's end; `Pagination.WalkIsCompleteIffNoKeyStraddles` states this exactly.
- The answers an input call returns are those to its own requests as long as its operation waits its calls out. After an
  abandoned one they may not be; `TaskStrays.CallIsMisansweredIff` states exactly which call is misanswered.
- The sweep is said to bound how long an abandoned session is held. It does unless a call that has noted a sweep has not
  made it yet, which holds all others back (`SessionSafety.StalledSweepKeepsIdle`).

The modules of outcomes, ages, deadlines, histories, answers, shapes, windows and wire state what each operation comes to
in numbers and literals, apart from the functions that compute it.

A row below that begins with *step* reads one section back: it supports the results and is none itself.

## Model

| member | source | states |
|---|---|---|
| TaskStore.InMemoryTaskStore.Create | src/mcp/tasks.rs:535-539 | *step*: a stored task is under its id, with its owner |
| TaskStore.InMemoryTaskStore.Get | src/mcp/tasks.rs:541-548 | a lookup shows a task to its owner alone, and not once it has expired |
| TaskStore.InMemoryTaskStore.Update | src/mcp/tasks.rs:550-564 | check and write are one section: the change sees the current state, and a refusal leaves the store alone |
| TaskStore.InMemoryTaskStore.SweepExpired | src/mcp/tasks.rs:566-579 | removes exactly the expired tasks, and returns their ids |
| TaskStore.ValidateKeys | src/mcp/tasks.rs:735-755 | no fault exactly when the answers have the requests' keys; a missing answer is reported before an unknown one, which is reported exactly when it is the only kind |
| TaskStore.TerminalRefusesTransition | src/mcp/tasks.rs:949-968 | *step*: a terminal task refuses every transition and keeps its state |
| TaskRuns.TaskManager.Register | src/mcp/tasks.rs:909-934 | a created run enters the live-run table with a fresh token and an empty queue |
| TaskRuns.TaskManager.Release | src/mcp/tasks.rs:1134-1137 | a dropped run leaves the table, and nothing else does |
| TaskRuns.TaskManager.Deliver | src/mcp/tasks.rs:827-839 | a delivered signal fires the run's token or joins its queue, and says whether a run was there |
| TaskRuns.TaskManager.HasRun | src/mcp/tasks.rs:1032-1036 | the lookup says whether an operation of this process is live |
| TaskRuns.LookUpAsksOneTable | src/mcp/tasks.rs:1029-1036 | in the running system an update's lookup is that one, at its own instance |
| TaskRuns.DeliveryActsOnOneTable | src/mcp/tasks.rs:827-839 | in the running system a delivery is that table operation at its target instance and nothing anywhere else |
| TaskRuns.LifeOfTableEntry | src/mcp/tasks.rs:909-934 | registering and releasing are insertion and removal at the run's own instance |
| TaskSafety.InvStep | src/mcp/tasks.rs:909-1137 | every section of every operation, at any instance, keeps the engine's invariant |
| TaskSafety.HandOverKeeps | src/mcp/tasks.rs:1055-1068 | handing accepted answers to a run, the bus or nobody keeps each accepted update in at most one place |
| TaskSafety.DeliverKeeps | src/mcp/tasks.rs:827-839 | so does a delivery off the bus |
| TaskSafety.PollKeeps | src/mcp/tasks.rs:1211-1229 | so does the operation's taking of queued answers or of its cancellation |
| TaskCalls.CallsStep | src/mcp/tasks.rs:996-1082 | answers queued, carried or taken for a task always fit the input call waiting for them, as long as that task's own calls are waited out |
| TaskTheorems.AnswersMatchTheirCall | src/mcp/tasks.rs:1211-1229 | in every interleaving in which one operation waits its own calls out, whatever the others abandon, the answers a call of it returns have exactly the keys of the requests that call recorded |
| TaskTheorems.UpdatesReturnAtMostOnce | src/mcp/tasks.rs:1211-1229 | in every interleaving, every returned answer is an accepted update by the task's owner, and no update is returned twice |
| TaskTheorems.ForsakenCallIsMisanswered | src/mcp/tasks.rs:1211-1229 | waiting a call out is needed: after an abandoned wait, a call with other keys returns the old call's answers |
| TaskStrays.CallIsMisansweredIff | src/mcp/tasks.rs:1207-1229 | after any history, abandoned waits and all: an input call can return answers to something else if and only if a stray answer heads its queue as it begins, or the queue is empty and one is on its way there |
| TaskStrays.CleanCallIsAnswered | src/mcp/tasks.rs:1207-1229 | a call that begins with no accepted update of its task under way returns answers that fit |
| TaskTheorems.FiredTokenIsFinal | src/mcp/tasks.rs:1093-1131 | a fired token means its task is cancelled or gone, and any later completion or failure is refused and changes nothing |
| TaskTheorems.TerminalStep | src/mcp/tasks.rs:949-968 | a step keeps a terminal task as it is, unless it is the sweep that removes it expired |
| TaskTheorems.TerminalIsFinal | src/mcp/tasks.rs:949-968 | over any continuation a terminal task keeps its owner, status and payload until it is swept |
| TaskTheorems.UpdateStrandsNoTask | src/mcp/tasks.rs:1023-1082 | whatever happens between its sections, a refused update changed nothing or leaves the task ended or invisible to its owner; an acknowledged one has its answers queued or on the bus (what it ends as: `TaskOutcomes.LossFailsTheTask`) |
| TaskTheorems.LocalUpdateArrives | src/mcp/tasks.rs:1023-1082 | an update that answers every request reaches the waiting operation at its own instance |
| TaskTheorems.RemoteUpdateArrives | src/mcp/tasks.rs:827-849 | one accepted at another instance reaches it over the bus |
| TaskTheorems.UpdateIsTakenIffKeysMatch | src/mcp/tasks.rs:1023-1053 | an update of a waiting task is taken if and only if its keys are the requests' keys, and otherwise refused with nothing changed |
| TaskTheorems.DetachedUpdateChangesNothing | src/mcp/tasks.rs:1029-1036 | *step*: with no live run here and no bus, an update is refused as detached and the task still awaits input |
| TaskTheorems.CancelIsRecorded | src/mcp/tasks.rs:1093-1097 | *step*: a cancel records the state first and leaves the signal to be sent |
| TaskTheorems.SignalFiresToken | src/mcp/tasks.rs:1101-1117 | the signal fires the operation's token here, or elsewhere over the bus |
| TaskTheorems.SweepEndsExpired | src/mcp/tasks.rs:1125-1131 | a sweep removes exactly the expired tasks and cancels an operation still running one |
| TaskTheorems.OpenTaskSettles | src/mcp/tasks.rs:974-991 | *step*: an open task settles with what it is given, and no other task changes |
| TaskTheorems.CreatedTaskAsks | src/mcp/tasks.rs:909-934 | a new task is visible to its owner alone and can ask for input through its operation |
| TaskOutcomes.CreateOutcome | src/mcp/tasks.rs:909-934 | a created task is stored under its owner, working, of this instant, with the time-to-live it is given, and its run is live with a fresh token and an empty queue |
| TaskOutcomes.GetOutcome | src/mcp/tasks.rs:522-548 | a lookup shows the stored task to its owner until its time-to-live, cut to 64 bits with a sign, has passed since it was created |
| TaskOutcomes.SettleOutcome | src/mcp/tasks.rs:949-991 | a result completes and an error fails a visible task that has not ended; otherwise the refusal names the status or says not found, and nothing changes |
| TaskOutcomes.RequestInputOutcome | src/mcp/tasks.rs:996-1004 | an input call stores the requests and waits for their answers, unless the task has ended or is not visible |
| TaskOutcomes.UpdateOutcome | src/mcp/tasks.rs:1023-1053 | an update returns its task to `working` if and only if the caller sees it, somebody can carry the answers, it asks for input, and the keys agree; else it is refused for the first of these, with nothing changed |
| TaskOutcomes.HandOverOutcome | src/mcp/tasks.rs:1053-1066 | accepted answers reach the queue of the local run, or every other instance by the bus, or, with neither there, the task is left to be failed |
| TaskOutcomes.LossFailsTheTask | src/mcp/tasks.rs:1066-1080 | answers that reached nobody store `failed` with code -32603 and a message that tells a lost run from a refused bus, and the client hears the task is detached; a task ended or lapsed meanwhile is left |
| TaskOutcomes.RunLostInBetween | src/mcp/tasks.rs:1053-1080 | so it goes, from the request on, when the run is dropped between the lookup and the hand-over |
| TaskOutcomes.DeliverOutcome | src/mcp/tasks.rs:827-839 | a delivered signal fires the token of the live run at its target or joins its queue, once, and is lost where there is none |
| TaskOutcomes.PollOutcome | src/mcp/tasks.rs:1211-1229 | a waiting call ends cancelled once its token has fired, and else takes the first answers queued, if any |
| TaskOutcomes.CancelOutcome | src/mcp/tasks.rs:1093-1097 | a cancel stores `cancelled` for a visible task that has not ended, and else changes nothing and says why |
| TaskOutcomes.SignalOutcome | src/mcp/tasks.rs:1101-1107 | its signal fires the token here, or is left to be published |
| TaskOutcomes.PublishOutcome | src/mcp/tasks.rs:1108-1117 | published, it goes to every other instance if there is a bus and the bus takes it |
| TaskOutcomes.AbandonOutcome | src/mcp/tasks.rs:1023-1082 | *step*: an update dropped between its sections leaves the task as it is |
| TaskOutcomes.RunOutcome | src/mcp/tasks.rs:1134-1137 | *step*: a run leaves its table, and its end of the channel goes |
| TaskOutcomes.SweepOutcome | src/mcp/tasks.rs:566-579 | a sweep removes exactly the tasks older than their time-to-live, and signals exactly those |
| TaskOutcomes.TaskKeepsItsOrigin | src/mcp/tasks.rs:949-968 | over every continuation a task keeps its owner, id, time of creation and time-to-live |
| TaskOutcomes.OriginStep | src/mcp/tasks.rs:949-968 | a step that changes a task stamps it with its instant, on behalf of an owner who sees it; one that removes it is a sweep past its time-to-live |
| TaskIsolation.StepCommutes | src/mcp/tasks.rs:534-579 | each step either concerns an owner, and then its part of the system does the same step alone, or leaves that part alone |
| TaskIsolation.OthersDoNotInterfere | src/mcp/tasks.rs:534-579 | over every run, an owner's part of the system is what it would be if only its own steps had happened |
| TaskIsolation.RepliesDependOnOwnStepsOnly | src/mcp/tasks.rs:534-579 | each reply to an owner is the one its own part of the system gives |
| TaskServer.ForeignTaskReadsAsAbsent | src/mcp/server.rs:574-649 | every `tasks/*` request naming another owner's task gets, in every state and at any instance, with or without a live run or bus, the very response it gets where nothing of that id was ever stored, and changes no task, run or signal |
| TaskServer.GetAnswersOwnerOnly | src/mcp/server.rs:600-625 | *step*: `tasks/get` answers with the task exactly when the caller owns it and it has not expired |
| TaskServer.GetIsServed | src/mcp/server.rs:600-617 | `tasks/get` with a task id answers with the caller's task as stored and changes nothing; with none to see, -32602 and not found |
| TaskServer.CancelIsServed | src/mcp/server.rs:639-643 | `tasks/cancel` stores `cancelled` for the caller's open task and is acknowledged; else it changes nothing and says why |
| TaskServer.UpdateIsServed | src/mcp/server.rs:618-638 | `tasks/update` with an object of answers starts the caller's update with those very answers, on its task alone |
| TaskServer.UpdateIsAnswered | src/mcp/server.rs:574-638 | an update is acknowledged once taken, and a refused one is answered -32602, or -32603 where nobody can take its answers |
| TaskServer.FaultsAreServed | src/mcp/server.rs:588-649 | no task id, no object of answers, or another method start nothing, and are answered -32602, -32602 and -32601, each saying what is missing |
| TaskServer.RefusalTexts | src/mcp/tasks.rs:442-461 | a refusal's text names the task and its status |
| SessionStore.SessionStore.SweepIsDue | src/mcp/session.rs:403-414 | *step*: at most one sweep in half a time-to-live, and the instant is noted exactly when one is due |
| SessionStore.SessionStore.DropExpired | src/mcp/session.rs:418-426 | ends and forgets exactly the sessions idle for the time-to-live, and touches no other |
| SessionStore.SessionStore.Scan | src/mcp/session.rs:325-337 | counts the caller's sessions and finds its least recently used idle one, if it has an idle one |
| SessionStore.SessionStore.Insert | src/mcp/session.rs:317-354 | the store's whole section: eviction, room from expired sessions, refusal or insertion of the session handed in; what leaves is ended, and nothing else is |
| SessionStore.SessionStore.Place | src/mcp/session.rs:346-353 | room in a full table comes from expired sessions only; those kept are not ended |
| SessionStore.SessionStore.Find | src/mcp/session.rs:358-370 | a lookup returns a live session and ends an expired one on the way, and no other |
| SessionStore.SessionStore.End | src/mcp/session.rs:392-398 | a closed session is ended and forgotten, and no other |
| SessionStore.SessionUse.Drop | src/mcp/session.rs:230-237 | a dropped use stamps its session while it still counts as busy, then counts it off |
| SessionSafety.AdmitKeepsLimits | src/mcp/session.rs:317-354 | an insert keeps both limits, ends only expired sessions and one of its own caller's, and when refused has ended expired ones only: a caller that gave one up is never told the server is full |
| SessionSafety.InvStep | src/mcp/session.rs:190-426 | every section and every half of a dropped use keeps the store's invariant |
| SessionSafety.TableStaysWithinLimits | src/mcp/session.rs:317-354 | in every interleaving the table holds at most its total and each caller's share |
| SessionSafety.InsertTakesOnlyItsOwn | src/mcp/session.rs:325-345 | what an insert evicts is expired, or the one of its caller's its scan picked, and that only when it succeeds |
| SessionSafety.PickWasLeastRecent | src/mcp/session.rs:325-337 | that one was, when the insert scanned, the least recently used idle session of its caller; uses that drop in between change nothing of it |
| SessionSafety.LeavingSessionIsIdleAndEnds | src/mcp/session.rs:190-237 | a session leaves only by its client's end or with no request in it that entered through the store, and ends as it leaves; it is idle then, unless a handle entered the scan's pick in between |
| SessionSafety.ServedSessionIsHeld | src/mcp/session.rs:377-390 | a session entered through the store is still held while its use lasts, unless its client closed it |
| SessionSafety.IdleSessionsAreSwept | src/mcp/session.rs:403-415 | with a positive time-to-live, and no sweep under way that noted the last instant, an operation leaves no session held that has been idle for one and a half times as long |
| SessionSafety.StalledSweepKeepsIdle | src/mcp/session.rs:403-415 | while such a sweep stalls, an idle session is held for as long as one likes |
| SessionSafety.EnterIffLiveAndOwn | src/mcp/session.rs:377-390 | *step*: a caller enters exactly a held, unexpired session of its own, and is counted in it |
| SessionSafety.ExpiredSessionIsNotFound | src/mcp/session.rs:358-370 | *step*: a lookup finds exactly a held, unexpired session; an expired one is ended and gone |
| SessionAges.SessionLeavesStale | src/mcp/session.rs:209-211 | in every run a session that leaves by neither its client's end nor an insert's pick served nobody, and was last seen the time-to-live or more before the clock its call read |
| SessionAges.LiveSessionIsFound | src/mcp/session.rs:358-390 | in every run a held session that serves somebody, or was seen less than the time-to-live before a call's clock, is found by that call, and entered by its own caller |
| SessionAges.FindOutcome | src/mcp/session.rs:358-370 | a lookup finds a held session unless it is idle and its time-to-live has passed since it was seen; then it ends and goes, and no other |
| SessionAges.EnterOutcome | src/mcp/session.rs:377-390 | so does an entry, which further asks for the session's own caller and counts it in |
| SessionAges.InsertOutcome | src/mcp/session.rs:317-354 | what an insert comes to, by how many sessions the caller and the table hold: refused where the share is used up and busy, or nothing stale makes room; else placed, for the pick and the stale exactly where it must be |
| SessionAges.ScanOutcome | src/mcp/session.rs:325-337 | the pick is the caller's idle session seen longest ago, and none if all are busy |
| SessionAges.SweepOutcome | src/mcp/session.rs:418-426 | a sweep ends and takes exactly the sessions idle for the time-to-live by the clock its call read |
| SessionAges.CheckSweepOutcome | src/mcp/session.rs:403-414 | a call sweeps if half the time-to-live has passed since the instant last noted, and notes its own |
| SessionAges.EndOutcome | src/mcp/session.rs:392-398 | a client's end takes the session it names and no other, and says whether there was one |
| SessionAges.UseOutcome | src/mcp/session.rs:230-237 | a use leaves its session stamped with the instant it ended and counted once less |
| SessionAges.MintOutcome | src/mcp/session.rs:112-135 | *step*: a new session was seen now and serves nobody |
| SessionAges.BeginOutcome | src/mcp/session.rs:317-320 | *step*: a call reads the clock as it begins |
| SessionAges.HandleOutcome | src/mcp/session.rs:190-196 | *step*: a handle counts a request in its session |
| ClientChannel.Oneshot.Send | src/mcp/client_channel.rs:300-311 | an answer is kept exactly when the receiver is still there |
| ClientChannel.PendingRequests.Register | src/mcp/client_channel.rs:286-290 | a wait is entered under its key while the table is open, and none once it is closed |
| ClientChannel.PendingRequests.Forget | src/mcp/client_channel.rs:292-296 | a forgotten wait leaves the table and can no longer be answered |
| ClientChannel.PendingRequests.Deliver | src/mcp/client_channel.rs:300-311 | an answer is taken to the one wait of the same caller and id, and to no other |
| ClientChannel.PendingRequests.Close | src/mcp/client_channel.rs:314-316 | closing hangs up on every wait and keeps the table closed |
| ClientChannel.Waiting.Drop | src/mcp/client_channel.rs:714-729 | dropping a wait forgets it and sends a notice unless it was settled |
| RequestSafety.InvStep | src/mcp/client_channel.rs:592-729 | every section, send, poll and drop keeps the invariant of requests in flight |
| RequestTheorems.OutboundTrace | src/mcp/client_channel.rs:592-729 | in every run a client hears of a request, on its own connection only, at most the request and then one notice; a notice comes only from a call cancelled, timed out or dropped, and always does while the client is there |
| RequestTheorems.ReasonIsTheResult | src/mcp/client_channel.rs:695-729 | the reason told is how the call ended, and a cancelled call's token was fired |
| RequestDeadlines.TimedOutIsOverdue | src/mcp/client_channel.rs:647-669 | in every run a call that took too long was sent, and was looked at unanswered and uncancelled no earlier than its connection's timeout after that |
| RequestDeadlines.WaitEndsWithItsTimeout | src/mcp/client_channel.rs:647-669 | in every run a wait with nothing in goes on until its connection's timeout has passed since it was sent, and then ends timed out, and its client is told |
| RequestDeadlines.BeginOutcome | src/mcp/client_channel.rs:592-630 | a request is made over a connection of the legacy era whose client declared what it needs and can be reached, and refused for the first of these that fails |
| RequestDeadlines.RegisterOutcome | src/mcp/client_channel.rs:286-290 | it enters the table under its caller and id, and ends disconnected once the table is closed |
| RequestDeadlines.SendOutcome | src/mcp/client_channel.rs:638-645 | its client hears it and has the connection's timeout from then on; a client gone ends it disconnected |
| RequestDeadlines.PollOutcome | src/mcp/client_channel.rs:647-678 | a wait ends cancelled before it looks for an answer, with what the answer says, error before result, before it looks at the clock |
| RequestDeadlines.EndOutcome | src/mcp/client_channel.rs:714-729 | a wait that ended leaves the table and, unless answered, tells its client why |
| RequestDeadlines.DropOutcome | src/mcp/client_channel.rs:696-701 | *step*: a dropped future ends its wait as dropped |
| RequestDeadlines.TakeOutcome | src/mcp/client_channel.rs:300-311 | a response is taken to the wait of its caller and id, and to nobody where there is none |
| RequestDeadlines.HandOverOutcome | src/mcp/client_channel.rs:300-311 | it fills that wait if somebody still waits, and says whether |
| RequestDeadlines.CloseOutcome | src/mcp/client_channel.rs:314-316 | closing hangs up on exactly the waits with no answer yet |
| RequestDeadlines.ConnectionOutcome | src/mcp/client_channel.rs:592-606 | *step*: connections come, declare and go |
| RequestDeadlines.HttpCallersAgreeIff | src/mcp/client_channel.rs:205-245 | two requests over HTTP are of one caller if and only if their identities agree and their sessions or, with none, their credentials; they are told from others' by a session or a principal |
| RequestTheorems.ReturnedAnswerWasDelivered | src/mcp/client_channel.rs:644-677 | a call's answer is what a response under its own id says, handed in by its own caller; otherwise it ended disconnected, with the table or its client gone |
| RequestTheorems.TypedAnswerWasDelivered | src/mcp/client_channel.rs:644-677 | read as the caller's type, a returned value is what such a response's result reads as; it fails to be read only where such a result does not fit |
| RequestTheorems.NoEntryOutlivesItsCall | src/mcp/client_channel.rs:286-316 | every entry is the wait of a call not yet over, under that call's key, and no other call has its id |
| RequestTheorems.ClosedTakesNobody | src/mcp/client_channel.rs:286-290 | a closed table stays closed: nobody registers, nothing is delivered, and a call that tries ends disconnected without a word sent |
| RequestTheorems.CloseFailsEveryWait | src/mcp/client_channel.rs:314-316 | after a close every waiting call has an answer, a hang-up, or an answer on its way |
| RequestTheorems.DeliveryIsItsOwn | src/mcp/client_channel.rs:300-311 | a response leaves every call of another caller or id as it was, and waiting as it was |
| RequestTheorems.AnsweredOnce | src/mcp/client_channel.rs:300-311 | an answered call is no longer in the table nor at the end of a delivery |
| RequestTheorems.AnswerReachesRequest | src/mcp/client_channel.rs:642-677 | an answer handed in while its call waits becomes the call's result, with no notice after |
| RequestTheorems.CancelWinsAndIsTold | src/mcp/client_channel.rs:642-648 | a cancelled call ends cancelled whatever has come in, its entry goes, and its client is told |
| RequestTheorems.CallersAreToldApartIffKeyed | src/mcp/client_channel.rs:236-240 | callers cannot be told apart exactly when they come without a session and without a principal |
| InFlight.InFlightRequests.Register | src/mcp/cancellation.rs:106-123 | a request takes the next serial, and a registered one joins the end of its group |
| InFlight.InFlightRequests.Cancel | src/mcp/cancellation.rs:128-138 | fires the tokens registered under the key and no other, and says whether there was one |
| InFlight.InFlightRequests.Release | src/mcp/cancellation.rs:141-149 | removes the entry of one serial, and the group with the last |
| InFlight.RetainedHas | src/mcp/cancellation.rs:141-149 | what stays in a group is every entry of another serial |
| Dispatch.InvStep | src/mcp/server.rs:715-762 | every counter access, registry section, poll and drop keeps the registry's invariant |
| Dispatch.RegistryIsTheLiveRequests | src/mcp/cancellation.rs:106-176 | in every run the registry is exactly the registered requests still served, each once under its own key, with no empty group |
| Dispatch.CancellationIsExact | src/mcp/server.rs:808-819 | a cancellation fires the tokens of exactly the requests served for the same caller under that id, and none when the caller cannot be told apart or the id is not a string or a number |
| Dispatch.CancelledNeverAnswers | src/mcp/server.rs:748-761 | a request whose token has fired, served already or not yet, never answers, whatever happens next |
| Dispatch.DroppedRequestFires | src/mcp/server.rs:740-761 | a request dropped unanswered fires its token and leaves the registry; an answered one leaves its token alone |
| Dispatch.InitializeIsNeverCancelled | src/mcp/server.rs:731-735 | `initialize` is in no group of the registry and is answered whatever fires |
| Dispatch.CancelReachesItsRequest | src/mcp/server.rs:808-819 | a notification from the request's own caller under its id ends it without a response |
| DispatchHistory.CancellationReachesItsOwn | src/mcp/server.rs:715-819 | in every run a notification fires exactly the requests in progress that were received from its own sender under the id it names, if no other sender looks like that one, and says whether there was one |
| DispatchHistory.RequestIsCancelled | src/mcp/server.rs:715-819 | from the request to its end: received, registered and cancelled by its sender under its id, it is found and sends no response whatever its handler had ready; from a sender like others none is found and it is answered |
| DispatchHistory.OriginHolds | src/mcp/cancellation.rs:67-77 | in every run a request stands under the sender and the id it was received with, exactly if no other sender looks like that one |
| DispatchHistory.ReceiveOutcome | src/mcp/server.rs:715-745 | a request of another protocol version is turned away, one without an id starts nothing, `initialize` starts unregistered, and any other starts as the child of its context's token |
| KeySet.FindKeyIsFirst | src/iam/key_set.rs:221-222 | a key is the first of the set under its id, and none is found exactly when there is none |
| KeySet.GoogleKeySet.Find | src/iam/key_set.rs:221-222 | the search computes that first key |
| KeySet.GoogleKeySet.WithMinRefetchInterval | src/iam/key_set.rs:157-160 | the interval is the one given, cut to the time a set is reused for |
| KeySet.GoogleKeySet.AnswerFromMemory | src/iam/key_set.rs:212-236 | the answer given without a fetch, and when there is none |
| KeySet.GoogleKeySet.Record | src/iam/key_set.rs:239-254 | a finished fetch is noted whether it succeeded or not; only a successful one replaces the set |
| KeyLookups.InvStep | src/iam/key_set.rs:194-254 | every read, turn, fetch, write and drop keeps the cache's invariant |
| KeyLookups.OneFetchInFlight | src/iam/key_set.rs:199-208 | at most one fetch is in flight |
| KeyLookups.NoFetchStartsTooSoon | src/iam/key_set.rs:212-245 | no fetch starts within the interval after the end of any recorded fetch |
| KeyLookups.FetchesAreRateLimited | src/iam/key_set.rs:157-245 | a window of length W holds at most W/interval + 1 starts of recorded fetches |
| KeyLookups.UnavailableMeansLastFetchFailed | src/iam/key_set.rs:226-235 | the memory answers that keys are unavailable only when the last recorded fetch failed within the interval |
| KeyLookups.MemoryAnswersFromLastSet | src/iam/key_set.rs:219-224 | a key is answered from memory exactly when the last set fetched is still current and has it |
| KeyLookups.AnsweredKeyWasFetched | src/iam/key_set.rs:194-254 | a key answered is under the id asked for and came from some recorded fetch |
| KeyLookups.WaiterSharesTheFetch | src/iam/key_set.rs:199-207 | a lookup waiting its turn behind a fetch gets its key from it and starts none |
| KeyLookups.RotationIsPickedUp | src/iam/key_set.rs:194-254 | *step*: a key not held is fetched for once the interval allows, and answered from what comes |
| KeyLookups.DroppedFetchIsRepeated | src/iam/key_set.rs:239-245 | a dropped fetch records nothing, so the next in line may fetch at once |
| KeyAnswers.ReadOutcome | src/iam/key_set.rs:212-236 | in every run a lookup is answered from memory exactly when a set less than an hour old has its key, or the last fetch ended less than the interval ago: then its id is unknown if there is such a set, and else the set unavailable |
| KeyAnswers.ReadAgainOutcome | src/iam/key_set.rs:199-207 | and so again at its turn; only otherwise does it fetch |
| KeyAnswers.FetchOutcome | src/iam/key_set.rs:239-254 | a fetch answers with the first key of the id in the set that comes, or that there is none, and the set takes the last one's place; with no set it fails and the last stays; either way it is noted |
| KeyAnswers.UnknownIdIsFetchedFor | src/iam/key_set.rs:194-254 | an id no current set has, with the interval passed and the turn free, is fetched for and answered from what comes |
| KeyAnswers.CacheHolds | src/iam/key_set.rs:239-254 | in every run the cache holds the last set a fetch brought and the end of the last fetch |
| KeyAnswers.FetchStartsAreRare | src/iam/key_set.rs:157-245 | the bound on fetches, as a count of their starts |
| KeyAnswers.Durations | src/iam/key_set.rs:31-48 | an hour and half a minute, in nanoseconds |
| KeyAnswers.DropOutcome | src/iam/key_set.rs:194-208 | *step*: a lookup dropped where it waits gives up its turn and nothing else changes |
| KeyAnswers.StepOutcomes | src/iam/key_set.rs:194-200 | *step*: lookups ask, and take their turn one at a time |
| TokenShapes.Span | src/secrets.rs:240-242 | the leading bytes of a class, up to the first that is not |
| TokenShapes.HitFacts | src/secrets.rs:166-242 | a masked stretch lies behind its head and ends where its class does |
| TokenShapes.PrefixBack | src/secrets.rs:166-204 | what a masked text starts with before any bracket, the original starts with |
| TokenShapes.FirstStop | src/secrets.rs:224-237 | masking moves neither end of a URL's user name or password |
| TokenShapes.NoneStays | src/secrets.rs:166-204 | where nothing is masked, nothing is in the masked text either |
| TokenShapes.MaskingIsIdempotent | src/secrets.rs:166-204 | masking twice is masking once, for every text |
| TokenScan.NoShapeIsLeft | src/secrets.rs:166-237 | after masking no credential follows `Bearer `, every URL password is the mask, and a JWT that continues no word stands only in a URL's user name |
| TokenScan.ScanTokenShapes | src/secrets.rs:166-204 | the loop over text computes the masked text, and for text of whole characters every slice is on a character boundary |
| Utf8.ValidIsWellFormed | src/secrets.rs:166-204 | valid UTF-8 is such text |
| TokenScan.FindShape | src/secrets.rs:175-188 | one look of the loop finds what is to be masked, in positions of the whole text |
| TokenScan.HitOnBoundaries | src/secrets.rs:175-195 | a masked stretch starts and ends between characters |
| RedactedShapes.HitIsShape | src/secrets.rs:166-237 | what is masked at a place is exactly a credential behind `Bearer `, a JWT of three parts that follows no base64url byte, or a URL's password, each described on its bytes |
| RedactedShapes.MaskedByShape | src/secrets.rs:166-204 | a masked text from its start on: a byte where there is no shape, the mask for the credential where there is one |
| RedactedShapes.Classes | src/secrets.rs:207-242 | the bytes of each class |
| RedactedShapes.Words | src/secrets.rs:45-159 | the words the scan looks for, the mask, and the least length of a secret |
| RedactedShapes.ReplacedByPlace | src/secrets.rs:142-144 | replacing a value goes by its first place: what is before stays, the mask takes it, and the rest follows |
| RedactedShapes.NotReplaced | src/secrets.rs:142-144 | a text without it stays |
| RedactedShapes.RedactedInOrder | src/secrets.rs:138-150 | redaction takes the registered values in their order, and then the shapes |
| RedactedShapes.PlainTextStays | src/secrets.rs:138-150 | a text with no registered value and no shape in it is left as it is |
| Secrets.SecretRegistry.Register | src/secrets.rs:80-91 | a value long enough once trimmed, and new, is pushed and sorted in |
| Secrets.RegistryIsOfTrimmed | src/secrets.rs:80-91 | the registry holds, of the texts registered, those of at least eight bytes once trimmed, as trimmed |
| Utf8.TrimTakesBlanks | src/secrets.rs:81-81 | trimming takes the white space off both ends and nothing else |
| Utf8.WhiteSpace | src/secrets.rs:81-81 | white space is the characters of Unicode's property of that name, by their numbers |
| Secrets.TrimWellFormed | src/secrets.rs:81-81 | what is registered of a text of whole characters is one |
| Secrets.RegisterInserts | src/secrets.rs:80-91 | a new value goes behind those at least as long, and nothing else moves |
| Secrets.RegistryInvariant | src/secrets.rs:80-91 | every reachable registry is free of duplicates, longest first, and holds exactly the values of at least eight bytes |
| Secrets.SecretRegistry.RedactText | src/secrets.rs:138-150 | the loop over the registry, then the scan, compute the redacted text |
| Secrets.FindIsFirst | src/secrets.rs:142-144 | the place found is the first |
| Secrets.WordSurvivesIffItSurfaces | src/secrets.rs:142-144 | some text still holds a word after its copies were replaced if and only if masking can bring the word about over the mask it leaves |
| Secrets.PlainSecretsAreClear | src/secrets.rs:138-150 | no secret without brackets overlaps the mask, except the mask's own word |
| Secrets.NoSecretSurvives | src/secrets.rs:138-150 | no registered secret that overlaps no mask is in a redacted text, whatever else is registered |
| SecretSurvival.ValueSurvivesIffItReturns | src/secrets.rs:138-150 | a registered value can be read in a redacted text, scan included, only if it can come back over a mask; exactly then if it holds no first byte of a shape; and if it has no bracket, exactly when it is the mask's own word |
| SecretSurvival.PlainSecretSurvivesIffMaskWord | src/secrets.rs:138-150 | of any number of registered values without brackets, one can be read in some redacted text if and only if it is the mask's own word |
| SecretSurvival.SecretIsMaskedWhole | src/secrets.rs:76-91 | longest first, a registered value is masked whole whatever other registered values it contains |
| SecretSurvival.ShorterFirstLeavesRemainder | src/secrets.rs:76-91 | shorter first, what is around the contained value stays in the text |
| Secrets.MaskWordSurvives | src/secrets.rs:138-150 | the mask's own word, registered, stays in the text |
| Secrets.RedactingIsIdempotent | src/secrets.rs:138-150 | redacting twice is redacting once, when no secret overlaps the mask |
| Secrets.ReplaceWellFormed | src/secrets.rs:142-144 | replacing a secret keeps text of whole characters so |
| ErrorDispatcher.Dispatcher.Group | src/notifications/error_layer.rs:209-216 | the grouping loop counts the events of each key |
| ErrorDispatcher.GroupsCount | src/notifications/error_layer.rs:209-216 | every key of the batch has one group, with its number of events and the first of them |
| ErrorDispatcher.GroupsAddUp | src/notifications/error_layer.rs:209-216 | the counts of a batch's groups add up to the batch |
| ErrorDispatcher.SameTargetKeys | src/notifications/error_layer.rs:53-58 | errors of one target share a key exactly when they share their first 80 characters |
| ErrorDispatcher.KeyIsSharedIff | src/notifications/error_layer.rs:53-58 | some error of another target shares an error's key if and only if the key has `::`, with at most 80 characters behind it, in a second place |
| ErrorDispatcher.TargetsMayShareAKey | src/notifications/error_layer.rs:53-58 | such a pair of errors |
| ErrorDispatcher.Dispatcher.FilterDue | src/notifications/error_layer.rs:219-228 | keeps exactly the groups not notified within the window |
| ErrorDispatcher.Dispatcher.PruneRecentSends | src/notifications/error_layer.rs:397-401 | forgets the sends a minute old or more |
| ErrorDispatcher.Dispatcher.DispatchBatch | src/notifications/error_layer.rs:207-253 | one batch: what is remembered after it, and the digest sent, if one is |
| ErrorDispatcher.DigestsAreRateLimited | src/notifications/error_layer.rs:236-253 | in every run digests i and i+max are a minute apart, so a minute sees at most max |
| ErrorDispatcher.ErrorIsNotRepeatedSoon | src/notifications/error_layer.rs:219-253 | two digests that show one error are the dedup window apart |
| ErrorDispatcher.DigestIsWhatIsDue | src/notifications/error_layer.rs:207-253 | a digest shows exactly the errors of its batch not shown within the window, each with all its events counted |
| ErrorDispatcher.DigestIsHeldBackIff | src/notifications/error_layer.rs:230-244 | nothing is sent exactly when nothing is due or the last minute's digests fill the rate; cutting the count to 32 bits never matters |
| ErrorWindows.DigestIsSentIff | src/notifications/error_layer.rs:207-253 | in every run a batch's digest is sent if and only if it has an error no digest within the window shows, and the last minute's digests do not fill the rate; and it shows exactly those errors |
| ErrorWindows.DigestHasItsEntries | src/notifications/error_layer.rs:209-216 | each with the first of its events and their number |
| ErrorWindows.MemoryOutcome | src/notifications/error_layer.rs:207-253 | what is remembered after a batch: the sends of the last minute, with this one if it is sent, and of each error it shows, when |
| ErrorWindows.Measures | src/notifications/error_layer.rs:53-58 | a minute in nanoseconds, and a key in its parts |
| ErrorBatches.BatchSpansItsWindow | src/notifications/error_layer.rs:176-204 | in every run a batch about to be dispatched was begun, with its first error, the batch window ago or earlier |
| ErrorBatches.WorkOutcome | src/notifications/error_layer.rs:176-204 | *step*: what one look of the receiving task takes, and when it stops |
| ErrorBatches.QueueOutcome | src/notifications/error_layer.rs:176-204 | *step*: errors queue until the channel closes |
| ErrorReceiver.ErrorsAreConserved | src/notifications/error_layer.rs:176-204 | every error that arrives is dispatched in its turn, held, queued, or in the batch held when the channel was found closed |
| ErrorReceiver.NothingIsLostIffOutsideAWindow | src/notifications/error_layer.rs:176-204 | the task leaves without losing an error exactly when it leaves between two windows |
| ErrorReceiver.CloseInAWindowLosesIt | src/notifications/error_layer.rs:190-200 | a channel closed within a window costs the window's errors and those queued, if they drain before the deadline |
| ErrorReceiver.CloseWhenIdleLosesNothing | src/notifications/error_layer.rs:180-185 | a channel closed while the task waits for a first error costs nothing |
| Mrkdwn.EscapesEachOnItsOwn | src/notify/layer.rs:564-568 | three replacements one after another escape each character on its own |
| Mrkdwn.EscapingIsSafeAndReversible | src/notify/layer.rs:564-568 | an escaped text has no `<` or `>`, every `&` in it starts one of the three escapes, and reading it left to right gives back the text |
| NotifyOutcomes.EscapedCharacters | src/notify/layer.rs:564-568 | `&`, `<` and `>` are escaped as `&amp;`, `&lt;` and `&gt;`, and every other character is left |
| NotifyOutcomes.EscapedInParts | src/notify/layer.rs:564-568 | a text is escaped part by part |
| NotifyOutcomes.KeyOutcome | src/notify/state.rs:72-87 | an event's key is its name and its values in the rule's fields, with a NUL between two and missing ones empty |
| NotifyOutcomes.PassOutcome | src/notify/layer.rs:208-228 | an event passes if its key never did, or did the window ago or earlier |
| NotifyOutcomes.DecideOutcome | src/notify/layer.rs:208-228 | *step*: a call reads the clock, and decides by it at its turn |
| NotifyOutcomes.EnqueueOutcome | src/notify/layer.rs:230-242 | a line joins its event's buffer, which the first of them made with its channel and interval |
| NotifyOutcomes.FlushOutcome | src/notify/layer.rs:719-739 | a flush takes exactly the buffers whose first line has waited its interval by the clock it read, each whole, and leaves the others |
| NotifyOutcomes.PostOutcome | src/notify/layer.rs:719-747 | what it took is posted buffer by buffer, each in its channel, until nothing is left |
| NotifyDedup.BuildDedupKey | src/notify/state.rs:72-87 | the loop joins the key fields' values with a NUL in between, missing ones empty |
| NotifyDedup.KeyTellsValuesApartIff | src/notify/state.rs:72-87 | a joined key stands for its values alone if and only if there is at most one of them or none holds a NUL |
| NotifyDedup.EventsCollideIff | src/notify/state.rs:72-87 | for a rule over distinct fields, another event that differs in them has an event's key if and only if one of several values holds a NUL |
| NotifyDedup.WholeEventsNeverCollide | src/notify/state.rs:72-87 | for any rule, an event whose values hold no NUL is taken for no other |
| NotifyDedup.DedupMap.Passes | src/notify/layer.rs:208-228 | an event passes unless its key passed less than a window before, and a pass is noted |
| NotifyDedup.OnePassInAWindow | src/notify/layer.rs:208-228 | with the clock read before the lock, passes of one key are still a window apart, and what is suppressed has a pass less than a window before it |
| NotifyBatches.BatchBuffers.Enqueue | src/notify/layer.rs:230-242 | a line joins its event's buffer, whose channel and interval the first line fixed |
| NotifyBatches.BatchBuffers.Drain | src/notify/layer.rs:719-739 | the flusher's section takes every ripe buffer whole and leaves the others |
| NotifyBatches.LinesAreConserved | src/notify/layer.rs:719-747 | of every event, lines posted, being posted and held are the lines enqueued, in order |
| NotifyBatches.FlushTakesWhatIsRipe | src/notify/layer.rs:719-739 | after a flush no line held has waited its interval |
| NotifyBatches.RipeBatchIsPosted | src/notify/layer.rs:719-747 | *step*: a ripe buffer is posted in its channel as it was held |
| Base64Url.DecodeInvertsEncode | src/mcp/pagination.rs:62-70 | a text decodes to exactly the bytes it encodes (section 5 of RFC 4648, unpadded, trailing bits zero) |
| Base64Url.EncodedByBits | src/mcp/pagination.rs:62-65 | three bytes are four letters, of their 24 bits six at a time; one or two at the end stand as if followed by zeros |
| Base64Url.Alphabet | src/mcp/pagination.rs:62-65 | the letters are those of the URL-safe alphabet, in its order (section 5 of RFC 4648) |
| Pagination.CursorNamesItsKey | src/mcp/pagination.rs:62-70 | a cursor is taken exactly when it names a key of valid UTF-8, and for that key alone |
| Pagination.ListIsRefusedIff | src/mcp/pagination.rs:48-94 | a list request is refused if and only if it carries a cursor, not null, that names no key |
| Pagination.SortIsStable | src/mcp/pagination.rs:81-87 | the list is sorted by key, keeps its items, and keeps those of one key in order |
| Pagination.ServedSplits | src/mcp/pagination.rs:88-94 | past the place found, every key is after the cursor's |
| Pagination.LeIsByteOrder | src/mcp/pagination.rs:81-87 | keys are ordered by the first byte in which they differ, a shorter one before what goes on from it |
| Pagination.PageOutcome | src/mcp/pagination.rs:81-107 | a page is the sorted list from the first key after the cursor's, up to the page size, with a cursor for its last key if and only if something is left |
| Pagination.Paginate | src/mcp/pagination.rs:81-107 | one page: the items after the cursor, cut to the size, and the cursor for the rest if any are left |
| Pagination.WalkSteps | src/mcp/pagination.rs:81-107 | going through the request's params and the cursor's text changes nothing: the next call starts after the last key served |
| Pagination.WalkOverChangingLists | src/mcp/pagination.rs:81-107 | however the list changes between calls, keys come in order, a finished walk has listed every key there at each call, and with distinct keys none twice |
| Pagination.WalkOfDistinctKeys | src/mcp/pagination.rs:81-107 | a walk of a list with distinct keys gives the sorted list in as many calls as it has pages, and no fewer; one if it is empty |
| Pagination.WalkIsCompleteIffNoKeyStraddles | src/mcp/pagination.rs:81-107 | a walk of any list that does not change gives the whole of it if and only if no key straddles a page's end |
| Pagination.WalkTakesItsPages | src/mcp/pagination.rs:81-107 | so a walk of distinct keys takes its length over the page size, rounded up, and one call if it is empty |
| Pagination.WalkEverCompletesIff | src/mcp/pagination.rs:81-107 | and a walk of any list that does not change ever gives the whole of it if and only if no key stands on both sides of a multiple of the page size |
| Elicitation.PrimitiveRoundTrip | src/mcp/elicitation.rs:117-138 | each of the eight shapes, printed, is read back as it was, and by no shape tried before it |
| Elicitation.PlainShapesTakeTitledOnes | src/mcp/elicitation.rs:117-138 | the order matters: the bare enum would take a titled legacy one and lose its titles |
| Elicitation.TitledSingleSelectBack | src/mcp/elicitation.rs:256-275 | the titled single-select reads back |
| Elicitation.LegacyTitledEnumBack | src/mcp/elicitation.rs:277-299 | the legacy titled enum reads back and is not taken for one with `oneOf` |
| Elicitation.UntitledMultiSelectBack | src/mcp/elicitation.rs:319-343 | the bare multi-select reads back and is not taken for a titled one |
| Elicitation.StringFieldBack | src/mcp/elicitation.rs:140-166 | free text reads back and is not taken for an enum |
| Elicitation.SchemaRoundTrip | src/mcp/elicitation.rs:51-62 | a schema of any properties reads back as it was |
| Elicitation.RequestRoundTrip | src/mcp/elicitation.rs:41-49 | so does the request that carries it |
| ElicitationWire.PrintedInFull | src/mcp/elicitation.rs:117-369 | each of the eight shapes on the wire, with all its members |
| ElicitationWire.PrintedBare | src/mcp/elicitation.rs:117-369 | and with none that may be left off |
| ElicitationWire.PrintedAround | src/mcp/elicitation.rs:41-115 | the formats' names, the schema around the fields, and the request around the schema |
| ElicitationWire.NullIsLeftOff | src/mcp/elicitation.rs:117-369 | a member that may be left off may also be null |
| ElicitationWire.StrangersAreIgnored | src/mcp/elicitation.rs:117-369 | a member no shape has is not looked at |
| ElicitationWire.MalformedIsRefused | src/mcp/elicitation.rs:117-369 | what has none of the five types, or a member of another kind than its type's, fits no shape |
| ElicitationWire.ChoicesComeFirst | src/mcp/elicitation.rs:117-138 | a text field gives way to a choice, and a choice by values alone to one with names |

## Left out

- Ids and cursors of randomness: task, session and request ids are taken as fresh, being random; a step with an id drawn before does nothing.
- Host implementations of the task store, the signal bus, method handlers and dispatchers: the model has the in-memory store and a bus that delivers each message to each instance at most once.
- Transports, HTTP and stdio framing, authentication hooks, environment reads and the clients of Slack, PostHog and e-mail are input and output and are not modelled.
- Tokio's mutexes, oneshots, channels, cancellation tokens and biased selects are small abstract objects: a section is one step, and a poll looks at its branches in order.
- Shared ownership: the classes hold plain references where the source shares them, and the machines keep sessions, calls and runs in maps by id.
- Progress values, sampling of notify events, log levels and the rendering of digests and lines are left out: easy or floating point.
- TaskStore.ValidateKeys: says which kind of mismatch is reported, not the names of the keys in its message.
- TaskServer: the message of a rejected input leaves out which keys were at fault; a store that fails is not modelled, as the in-memory one never does.
- TaskMachine: a transition a host makes to an arbitrary payload, or a token it fires itself, is not among the steps.
- TaskTheorems.AnswersMatchTheirCall: is stated for an operation that waits its own input calls out, as the code needs; `TaskStrays.CallIsMisansweredIff` states what happens to one that does not.
- SessionStore.SessionStore.Insert: takes a session that has an id; one without (a stdio connection) is not stored by the source.
- SessionSafety.IdleSessionsAreSwept: counts idleness from when the session entered the table or its last use ended, and assumes that no call has noted the last sweep and not made it yet; `SessionSafety.StalledSweepKeepsIdle` shows what happens then.
- SessionMachine: an insert's scan and each pass over expired sessions look at all sessions in one step; a request that ends between two looks of one pass is not among the interleavings, one that ends between the scan and the eviction is.
- RequestTheorems.ReturnedAnswerWasDelivered: gives the result as JSON; `RequestTheorems.TypedAnswerWasDelivered` reads it with any reader of the caller's type.
- RequestMachine: an answer handed in late, to a receiver not yet dropped, is taken at any time before its call forgets it; one table with any number of connections; progress and log notifications on the same connection are not among its messages.
- Dispatch: a request's id stands for its JSON text, which tells ids apart as JSON values do; serials do not wrap around at 64 bits; the handlers behind a request are one answer that may become ready.
- KeyLookups.FetchesAreRateLimited: counts recorded fetches; one dropped before it is recorded is not counted, as `KeyLookups.DroppedFetchIsRepeated` shows it cannot be.
- KeySet: token headers, RSA keys and the download itself are inputs.
- SecretSurvival.ValueSurvivesIffItReturns: for a value that holds both a bracket and a byte a shape starts with, gives one direction, as the scan may mask such a value again.
- Secrets.WordSurvivesIffItSurfaces: is about one secret and its own replacement, before the scan for shapes, which may mask a survivor again.
- TokenScan.ScanTokenShapes: asks for text of whole characters, a little more than valid UTF-8; whether the result is borrowed or owned is not modelled.
- Secrets: names of environment variables that hold credentials are not modelled, nor is the writer that redacts a log line.
- ErrorDispatcher.Dispatcher.DispatchBatch: sends a digest as the map of its entries; their order, which the source leaves to a hash map, and the text made of them are not modelled.
- NotifyDedup.EventsCollideIff: is for rules that name no field twice; for the others `NotifyDedup.WholeEventsNeverCollide` gives one direction.
- NotifyDedup.OnePassInAWindow: assumes one window for all decisions; a rule reloaded with another window is not modelled.
- NotifyBatches.LinesAreConserved: a post is handed to the Slack client; whether it arrives is not modelled.
- Pagination.Paginate: orders by keys as bytes, which is the order of Rust strings; the sort and the partition point are specified by what they return.
- Elicitation.PrimitiveRoundTrip: reads objects; the derived readers also take a struct written as an array and a tag written as an object, which nothing prints.
- Elicitation: the answer to an elicitation is not modelled; numbers other than whole ones are kept as their text.
- Other wire types, builders, display and error texts, health checks, configuration, retries and the tool registry would add easy members only.
