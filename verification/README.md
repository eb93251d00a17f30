# Verification of python-onvif-zeep-async's core

The library keeps event subscriptions on ONVIF cameras alive from one asyncio loop. This project
models the parts of it where interleavings, retries, caches and tolerant parsing meet, and proves
what they promise.

- **Subscription managers** (`onvif/managers.py`). `ManagerModel` is the manager as an event-loop
  state machine: a step is the code between two awaits, and anything may come between two steps: the
  timer, a response, an error, a cancellation, a consumer's pause(), resume(), stop() or shutdown(),
  a session closing. `Managers` is the same code as objects whose methods change fields in place;
  each method is proved to be the machine's step, and `BaseManager.Play` carries this to whole runs.
  `ManagerInvariants`, `ManagerRate`, `ManagerHistory`, `ManagerForms`, `ManagerPause` and
  `ManagerEndings` hold what is proved about all runs, `ManagerAnswers` what each answer and each
  error comes to.
- **Retries** (`onvif/wrappers.py`, and the transport of `onvif/client.py`). `Retry` has the attempt
  loop, and two of them stacked as a Renew stacks them.
- **The camera object** (`onvif/client.py`). `Camera` has the service cache, discovery, and the
  clock handshake as a class; `Discovery` what discovery means; `SharedCache` the double-checked
  lock around the shared SQLite cache; `Deadlines` the termination times asked for.
- **Dates and times** (`onvif/types.py`). `DateTimes` has the readers over any pair of parsers,
  `DateTimeMeaning` what they mean, `StrictParsers` a strictest pair of parsers, `Calendar` the
  calendar.
- **URLs** (`onvif/util.py`). `Urls` models urlparse and urlunparse, for whatever authorities a
  version of urlparse accepts, `UrlRewriting` normalising and NAT rewriting, `Credentials` stripping
  and obscuring.

Clocks, network outcomes and the calls of the consumer are parameters or events; floats are reals,
and times of the camera object are whole microseconds.

Where the code does less than its description says, the code is what is modelled and the exact
condition is proved:

- The renewal loop can end with no shutdown and no session closed by the consumer. A restart that is
  granted a new address closes the old subscription service (`onvif/client.py:1044`) before the new
  one is assigned; if building the new one then fails, the finally block finds the session of the
  old one closed and does not re-arm (`onvif/managers.py:239`). `UnattendedLoopEndsExactlyWhen`
  shows it is the only way, `RestartCanEndTheLoop` gives the run, and `NothingRevivesIt` that not
  even resume() brings it back.
- A camera host given with its scheme is accepted for the device management address, but makes the
  NAT rewrite produce something other than host and port (`SchemePrefixedHostIsNotSet`).
- The last of two rewrites does not win when the first host has a delimiter (`LastReplaceWins`).
- Normalising is not idempotent when two ports are extra, and a host with one colon of its own loses
  the port just set when it is normalised again (`NormalizeIdempotentExactlyWhen`,
  `PlainHostKeepsItsPort`). A bracket opened before the at sign and closed in a dropped port makes
  the normalised URL unreadable (`ReplaceAbsorbsNormalize`, `BracketAcrossTheAtSign`).
- A space as separator is repaired at three lengths only, and every other space becomes a T with it
  (`SpaceSpellingAgreesExactlyWhen`); a second dash after the separator stays
  (`NormalIsFixedPointExactlyWhen`).
- pause() and stop() do not reach a renew or restart in flight, which re-arms the timer as it ends
  if the session is then open (`PauseHoldsExactlyWhen`).
- A request under way when another manager of the camera finds relative times broken may be posted
  a second time in the relative form (`AbsoluteTimesAreSticky`).
- A service whose setup raises is left open outside the cache, and one whose close raises is left
  closed inside it (`PlayAnyhow`).
- A password given without a user is not obscured (`PasswordObscuredExactlyWhen`).
- A credential parameter is noticed under its lower-case spelling only; then it is removed in every
  spelling (`KeptExactlyWhen`).
- A Renew answered with one time that has a zone and one that has none raises TypeError, which no
  handler names; the loop survives it (`LoopNeverDiesSilently`) and no loss is reported
  (`MixedZonesEndTheRenew`).

## Model

| member | source | states |
|---|---|---|
| `ManagerInvariants.AtMostOneTimerAndTask` | onvif/managers.py:134-179 | in every state of every run after start(), every armed handle is the remembered one, and at most one renew/restart task is not done, namely the remembered one |
| `ManagerInvariants.LoopNeverDiesSilently` | onvif/managers.py:159-244 | while not shut down, the current session open and nothing paused or stopped since the last arming, a timer is armed or a task is going, whatever the camera answers and whatever exception escapes |
| `ManagerInvariants.RearmsExactlyWhen` | onvif/managers.py:230-244 | a task past its entry guard re-arms the timer as it ends exactly when the manager is not shut down and the session then current is open; the timer is due exactly at the deadline computed from the last answer, or 40 s ahead if none is computed, and never earlier than 40 s ahead; AnswerArmsTimer has the time in seconds |
| `ManagerInvariants.StartEstablishes` | onvif/managers.py:47-81 | the invariant holds however start() comes out |
| `ManagerInvariants.StepKeeps` | onvif/managers.py:83-244 | every step of every interleaving keeps the invariant: one timer, one task, the loop goes on, shutdown leaves no task that could post |
| `ManagerInvariants.RunKeeps` | onvif/managers.py:83-244 | so does every run |
| `ManagerInvariants.DeliverKeeps` | onvif/managers.py:181-244 | so does every segment of the task body, with any delivery it can be handed |
| `ManagerInvariants.FireKeeps` | onvif/managers.py:167-174 | so does the timer firing, also while a task is in progress |
| `ManagerInvariants.ScheduleArms` | onvif/managers.py:159-165 | after scheduling, the new handle is the only one armed and the only one remembered |
| `ManagerInvariants.FinallyArms` | onvif/managers.py:230-244 | the finally block re-arms, 40 s ahead or more, exactly when neither of its guards holds, and otherwise does nothing |
| `ManagerInvariants.CancelledStops` | onvif/managers.py:117-119 | a cancelled task ends at its next step |
| `ManagerInvariants.DeliverResult` | onvif/managers.py:181-244 | a delivery changes no task but the one delivered to, and the log only by what the segment says |
| `ManagerInvariants.OtherStepsAreSilent` | onvif/managers.py:83-174 | timers, consumer calls and closing sessions post nothing and at most create one fresh task |
| `ManagerInvariants.SegmentFrame` | onvif/managers.py:181-379 | what no segment of the task body touches: the remembered task, the flags, and the timer but for cancelling it; a computed deadline is 48 s ahead or more |
| `ManagerRate.TaskRateBound` | onvif/managers.py:140-174 | a stretch of a run of T seconds creates at most floor(T/40)+1 tasks, plus one for each resume() in it |
| `ManagerRate.TasksStartFortySecondsApart` | onvif/managers.py:140-174 | without resume(), two task creations are at least 40 s apart |
| `ManagerRate.TaskRateIsReached` | onvif/managers.py:207-244 | for every k, with a camera that refuses everything, 40k seconds see k+1 tasks: the bound is the best there is |
| `ManagerRate.FailedRoundRuns` | onvif/managers.py:207-244 | a round in which renew and restart both fail ends with the timer due again exactly 40 s later |
| `ManagerRate.StepSpaces` | onvif/managers.py:140-174 | what a step does to the spacing of tasks and timers |
| `ManagerRate.RunSpaces` | onvif/managers.py:140-174 | what a run does to it |
| `ManagerRate.DeliverArms` | onvif/managers.py:230-244 | a task creates no task, and leaves the timer as it was or arms it 40 s ahead |
| `ManagerRate.EightPostsPerTask` | onvif/managers.py:181-244 | no renew/restart task ever posts more than eight requests |
| `ManagerRate.RequestRateBound` | onvif/managers.py:181-244 | over T seconds at most 8*(floor(T/40)+2) requests are posted, plus eight for each resume() |
| `ManagerRate.SegmentWithin` | onvif/managers.py:181-379 | a segment posts no more than it uses up of what its task may still post |
| `ManagerRate.StepBudget` | onvif/managers.py:181-379 | requests posted plus requests still owed grow by at most eight for each task created |
| `ManagerHistory.ShutdownIsFinal` | onvif/managers.py:111-121 | after the synchronous part of shutdown(), whatever the task was doing and whatever follows: nothing is posted, no loss reported, no restart begun, and only resume() arms timers |
| `ManagerHistory.StepAfterShutdown` | onvif/managers.py:207-244 | the step behind it |
| `ManagerHistory.RunAfterShutdown` | onvif/managers.py:207-244 | and its run |
| `ManagerHistory.LossesReportedExactlyOnce` | onvif/managers.py:192-229 | the lost callback is called exactly once for each task whose Renew ended in one of RENEW_ERRORS, right then, and that task begins exactly one restart at once; nothing else calls it |
| `ManagerHistory.DeliverRecords` | onvif/managers.py:192-229 | a segment keeps the log paired and each task to one ended Renew and one restart |
| `ManagerHistory.SegmentSpeaks` | onvif/managers.py:181-379 | everything a segment can do in one go |
| `ManagerHistory.MachineRenewIsStackedRetry` | onvif/managers.py:181-190 | a Renew driven through the machine makes the requests and has the outcome of the two stacked retries |
| `ManagerHistory.SecondAttempt` | onvif/wrappers.py:49-84 | the second attempt of a Renew, in terms of what its one or two requests return |
| `ManagerPause.PauseHoldsExactlyWhen` | onvif/managers.py:83-97 | in any state of any run, pause() and stop() keep the timer disarmed, whatever comes after short of resume(), exactly when the manager is shut down or no task in flight can still end with the current session open |
| `ManagerPause.InFlightRearms` | onvif/managers.py:230-244 | a task in flight that can still end with the current session open, the manager having closed the old one itself included, has a continuation in which the timer is armed |
| `ManagerPause.BarredStaysDisarmed` | onvif/managers.py:230-244 | if none can, no continuation short of resume() arms a timer |
| `ManagerPause.DeadStaysQuiet` | onvif/managers.py:83-97 | with no timer and no task, nothing is posted, armed or begun until resume(), shut down or not |
| `ManagerForms.AbsoluteTimesAreSticky` | onvif/client.py:821-828 | once relative times are known to be broken, whichever manager of the camera found out, it stays known, and every request built from then on is absolute, the extra Renew inside `_start` included; at most the second post of one request built before is not |
| `ManagerForms.RelativeUntilBroken` | onvif/client.py:823-824 | no request of any run is absolute before that is known |
| `ManagerForms.OwnDetectionLeavesNothingStale` | onvif/managers.py:300-309 | when this manager finds out itself, no request built before can still be posted |
| `ManagerForms.OwnDetectionDecides` | onvif/managers.py:300-309 | with no other manager finding out, a request is absolute exactly when this one found broken relative time before it, or started knowing |
| `ManagerForms.SegmentUsesUp` | onvif/managers.py:181-379 | the segment behind it: relative posts made and still possible never grow once it is known |
| `ManagerEndings.UnattendedLoopEndsExactlyWhen` | onvif/managers.py:207-244 | a started manager its consumer does not touch goes on renewing, except that it ends exactly when a restart fails between closing the old subscription service and assigning the new one |
| `ManagerEndings.RestartCanEndTheLoop` | onvif/client.py:1034-1064 | the concrete run in which it does |
| `ManagerEndings.NothingRevivesIt` | onvif/managers.py:207-214 | a loop that ended so is ended for good: no continuation, resume() included, posts, reports or restarts anything |
| `ManagerEndings.EndedForGood` | onvif/managers.py:207-214 | with the current session closed and no task past its entry guard, no continuation does anything |
| `ManagerEndings.UnattendedStep` | onvif/managers.py:207-244 | the step behind it: ends exactly when it had ended or fails replacing the service |
| `ManagerEndings.SegmentStays` | onvif/managers.py:341-379 | outside that window the current subscription stays the cached service, with its session open |
| `ManagerEndings.MachineObtains` | onvif/client.py:1034-1066 | opening the subscription service in the machine, once nothing fails, comes to keeping, building or closing and replacing as the camera object does |
| `ManagerEndings.RenewalBeatsExpiry` | onvif/managers.py:140-157 | the timer is at least 48 s ahead, before the granted window ends exactly when that is longer than 48 s, and from a minute up leaves a fifth of it; with a time missing, see DeadlineOfAnswer |
| `ManagerEndings.MixedZonesEndTheRenew` | onvif/managers.py:140-157 | an answered Renew ends in an exception no handler names, with no loss reported, exactly when both times are there and only one carries a zone |
| `ManagerEndings.SecondAttemptBeatsExpiry` | onvif/wrappers.py:74-84 | from a minute up, if the first attempt fails with a retried error less than 7.5 s after the timer was due, the backoff ends and the second attempt posts before expiry |
| `ManagerAnswers.DeadlineOfAnswer` | onvif/managers.py:140-157 | the deadline of an answer is four fifths of the granted window ahead, or of the interval asked for if a time is missing, and 48 s ahead for a window or interval of a minute or less; there is none exactly when only one of two times carries a zone |
| `ManagerAnswers.AnswerArmsTimer` | onvif/managers.py:230-244 | a task that ends with an answer arms the timer for exactly that time; mixed zones, and a deadline at loop time zero, arm it 40 s ahead |
| `ManagerAnswers.ResumeArmsNow` | onvif/managers.py:87-89 | resume() leaves one timer armed, for the loop's present time |
| `ManagerAnswers.StartArmsDeadline` | onvif/managers.py:77-81 | start() leaves the timer armed for the deadline `_start` returned, and none if it raised |
| `ManagerAnswers.SuspendedTimer` | onvif/managers.py:207-221 | a task that suspends leaves the timer as it was, except that beginning a restart disarms it |
| `ManagerAnswers.BeginsWith` | onvif/managers.py:192-221 | a task ends at once when the manager is shut down or the session closed, restarts without a subscription, and otherwise renews |
| `ManagerAnswers.FailedRenewRequest` | onvif/managers.py:191-229 | for each error of a Renew request by name: posted again, attempted again after 4.5 s, the loss reported and a restart begun, or the task ended |
| `ManagerAnswers.BackoffIsWaitedOut` | onvif/wrappers.py:74-84 | while a task backs off nothing is posted, reported or restarted before the backoff is over, in any run; at most shutdown() ends its Renew |
| `ManagerAnswers.FailedRestartRequest` | onvif/client.py:252-258 | a request of a restart is posted a second time after the two disconnect errors, and every other failure ends the task |
| `ManagerAnswers.OrderOfStart` | onvif/managers.py:262-299 | either manager records the reference address first; a pull point manager then opens its subscription service before the one it pulls from, a notification manager after it |
| `ManagerAnswers.BrokenExactlyWhen` | onvif/client.py:771-819 | broken relative time is found exactly when both times are there, both carry a zone, and the window between them, either way, is less than half of what was asked for |
| `ManagerAnswers.HealthyIsNotBroken` | onvif/client.py:771-819 | a camera that grants what was asked for is never found broken, one that grants nothing always is, and a time missing or without its zone proves nothing |
| `ManagerAnswers.FindsExactlyWhen` | onvif/managers.py:300-309 | a step finds broken relative time exactly when it looks at a subscribe answer, all services being there, and that grants too little |
| `ManagerAnswers.GrantsWereAnswered` | onvif/managers.py:262-299 | an answer a task is to look at was given to its subscribe request in the run |
| `ManagerAnswers.DetectionMeansTooLittle` | onvif/managers.py:300-309 | in any run after start(), broken relative time is found exactly at an answer given in the run that grants too little |
| `Managers.BaseManager.constructor` | onvif/managers.py:47-62 | a constructed manager is the machine's initial state |
| `Managers.BaseManager.Start` | onvif/managers.py:77-81 | start() ends as the machine starts, for each way the `_start` it awaits can come out |
| `Managers.BaseManager.Turn` | onvif/managers.py:83-244 | every event of the loop, run by methods that change the fields in place, is the machine's step |
| `Managers.BaseManager.Play` | onvif/managers.py:83-244 | every run of the objects is a run of the machine, so all results about runs apply to them |
| `Retry.RetryConnectionError` | onvif/wrappers.py:40-84 | the attempt loop returns what the recursive retry does, for any number of attempts, none and negative ones included |
| `Retry.EndsWithRequest` | onvif/wrappers.py:49-84 | which request a retry ends with: the first that returns or raises an error not caught, or else the last there is an attempt for, with one backoff before each but the first; with no attempts nothing is requested |
| `Retry.RetryIsTransparent` | onvif/wrappers.py:49-84 | retrying n times around calls of at most b requests makes between one and n*b requests and ends as the last of them did |
| `Retry.NestedRetryBound` | onvif/wrappers.py:49-84 | n attempts around m attempts make at least one and at most n*m requests, and the caller sees the outcome of the last one |
| `Retry.RetryExhausts` | onvif/wrappers.py:74-84 | a retry that meets only errors it catches uses every attempt and sleeps between them |
| `Retry.NestedRetryExhausts` | onvif/wrappers.py:74-84 | when every request fails with an error both layers catch, exactly n*m are made |
| `Retry.PostExecutesAtMostOnce` | onvif/client.py:209-263 | if the two disconnect errors mean the camera did not act, retrying on them never makes it act twice |
| `Retry.NestedExecutesAtMostPerAttempt` | onvif/client.py:252-263 | around n attempts on other errors it acts at most n times |
| `Retry.RenewTraffic` | onvif/managers.py:181-190 | a Renew posts at most four requests, four exactly when the first three fail as they must, sleeps at most one backoff, reports the last outcome, and the camera acts at most twice |
| `SharedCache.SingleConstruction` | onvif/client.py:100-112 | for any number of coroutines and any interleaving, failing constructions included: one construction in flight, at most one ever succeeds, and every call that returned returned it |
| `SharedCache.WaitersMakeProgress` | onvif/client.py:109-112 | while a call waits, a construction is in flight or the head of the queue can be woken |
| `SharedCache.CallDecides` | onvif/client.py:104-111 | a call returns what is stored; else it makes the lock if there is none, and constructs if it is free or waits at the end of the queue |
| `SharedCache.WakeDecides` | onvif/client.py:109-112 | a call let in by the lock looks again: it returns what is stored by then, or constructs |
| `SharedCache.ConstructionDecides` | onvif/client.py:109-112 | a construction that succeeds stores its instance and its call returns it; one that fails raises and stores nothing; either frees the lock |
| `SharedCache.StepKeeps` | onvif/client.py:104-112 | every step keeps the lock, the queue and the one instance consistent |
| `SharedCache.ClientModule.Turn` | onvif/client.py:104-112 | a call, a wake-up by the lock and the end of a construction, on the module globals, are the machine's steps |
| `SharedCache.ClientModule.Play` | onvif/client.py:100-112 | after any run on the module globals every call that returned returned the one instance built |
| `Camera.ONVIFCamera.Play` | onvif/client.py:597-1066 | over any sequence of service creations, discoveries, capability calls and manager restarts in which nothing fails to construct, set up or close: every service ever built is open and its key's entry, or closed and in no entry; handshakes are at most the update_xaddrs calls and one |
| `Camera.ONVIFCamera.PlayAnyhow` | onvif/client.py:654-1066 | over any sequence of service creations, handshakes and address changes in which anything may fail: the services left open outside the cache are those whose setup raised, at most one each time, and the entries left closed are those whose close raised |
| `Camera.ONVIFCamera.TidySessions` | onvif/client.py:1034-1066 | if there are none of either, every service ever built is open and its key's entry, or closed and in no entry |
| `Camera.ONVIFCamera.ObtainService` | onvif/client.py:1034-1066 | an entry is kept exactly while its address is unchanged, otherwise closed, dropped and replaced; exactly which failures leave a session open or an entry closed; and what a manager sees of it is what the machine does |
| `Camera.ONVIFCamera.ReplaceService` | onvif/client.py:1038-1066 | from an entry out of date or missing: what is closed, built and recorded, and with which failure |
| `Camera.ONVIFCamera.BuildService` | onvif/client.py:1046-1066 | a built service carries the address and the current clock offset and is the entry of its key; a failing setup is what leaves it open outside the cache |
| `Camera.ONVIFCamera.CloseEntry` | onvif/client.py:1044-1045 | an entry is closed and dropped, or closed and left if closing raises |
| `Camera.ONVIFCamera.CreateOnvifService` | onvif/client.py:1009-1066 | the definition decides whether a service is made; no other entry and no other session changes |
| `Camera.ONVIFCamera.CreateDevicemgmtService` | onvif/client.py:1068-1070 | device management needs only its WSDL file |
| `Camera.ONVIFCamera.CreateEventService` | onvif/client.py:1088-1125 | an events service is made exactly when the WSDL file and an address under its port type are there, at that address |
| `Camera.ONVIFCamera.SetOffset` | onvif/client.py:686-688 | the offset is set, and the devicemgmt service closed and forgotten, or left in the cache if closing raises |
| `Camera.ONVIFCamera.AdjustTime` | onvif/client.py:654-689 | with adjust_time the offset is the camera's time less the host's, and device management is rebuilt with it |
| `Camera.ONVIFCamera.DevicemgmtWithTime` | onvif/client.py:637-652 | with adjust_time, the service handed back signs with the current offset; a handshake happens exactly when the offset is unknown |
| `Camera.ONVIFCamera.AssignFromServices` | onvif/client.py:716-732 | the loop is the last-wins fold, up to an address that cannot be parsed; ListedAddress says which addresses that leaves |
| `Camera.ONVIFCamera.AssignFromCapabilities` | onvif/client.py:745-763 | the loop is the last-wins fold over known names; CapableAddress says which addresses that leaves |
| `Camera.ONVIFCamera.UpdateXaddrsFromServices` | onvif/client.py:691-732 | what each kind of GetServices answer does |
| `Camera.ONVIFCamera.UpdateXaddrsFromCapabilities` | onvif/client.py:734-769 | what each kind of GetCapabilities answer does |
| `Camera.ONVIFCamera.Discover` | onvif/client.py:633-635 | GetCapabilities is asked exactly when GetServices found nothing usable |
| `Camera.ONVIFCamera.UpdateXaddrs` | onvif/client.py:617-635 | succeeds exactly when the prologue and the deciding answer do, and then the map is the fold of the deciding answer, whose addresses ListedAddress and CapableAddress give |
| `Camera.ONVIFCamera.GetCapabilities` | onvif/client.py:597-615 | asked once; afterwards the same answer with no call and no handshake |
| `Camera.ONVIFCamera.HasBrokenRelativeTime` | onvif/client.py:771-819 | true exactly when both times are there with a zone and less than half of what was asked for lies between them, and once found broken it stays so |
| `Camera.ONVIFCamera.GetNextTerminationTime` | onvif/client.py:821-828 | is the text whose meaning is proved in Deadlines |
| `Camera.ONVIFCamera.StartManager` | onvif/managers.py:341-368 | succeeds exactly when the events service and a non-empty rewritten address are there, a missing one included; that address is then recorded under the port type of the manager, and the subscription is the open entry for exactly it |
| `Camera.ONVIFCamera.CreateSubscriptionServices` | onvif/managers.py:262-368 | both services of a subscription at the recorded address, built in the order of each manager |
| `Camera.ONVIFCamera.SubscriptionThenPuller` | onvif/managers.py:363-368 | the subscription service first, for the pull point manager |
| `Camera.ONVIFCamera.PullerThenSubscription` | onvif/managers.py:291-299 | the service to pull from first, for the notification manager |
| `Discovery.LastAdvertisedWins` | onvif/client.py:716-732 | each namespace ends up with the rewritten address of the last assignment to it, every other namespace is as it was |
| `Discovery.ListedAddress` | onvif/client.py:716-732 | after a GetServices answer each namespace has the rewritten XAddr of the last element that lists it with one, and a namespace no element lists has none |
| `Discovery.CapableAddress` | onvif/client.py:745-763 | after a GetCapabilities answer each known namespace has the rewritten XAddr of the last capability for it, in any letter case, and a missing one if that carries none |
| `Discovery.DefinedWhereListed` | onvif/client.py:963-1007 | a service listed by GetServices is defined at the rewritten XAddr of the last element that lists it |
| `Discovery.DefinedWhereCapable` | onvif/client.py:963-1007 | when GetServices gives nothing, at the rewritten XAddr of its last capability |
| `Discovery.DefinitionHandedOut` | onvif/client.py:963-1007 | a definition has the table's WSDL file and binding, and the address recorded under namespace and port type, or the fixed one for device management |
| `Discovery.DefinitionRefused` | onvif/client.py:978-1005 | each refusal exactly when: an unknown name, a WSDL file not there, an address missing or empty |
| `Discovery.DevicemgmtAddress` | onvif/client.py:989-999 | the device management address in full: a host with its scheme as given, a name, IPv4 or bracketed host after http://, a bare IPv6 literal in brackets |
| `Discovery.AdvertisedVerbatim` | onvif/client.py:584-595 | without nat_override an address whose port is not duplicated is recorded verbatim |
| `Discovery.AdvertisedDropsExtraPort` | onvif/client.py:584-595 | and one whose port is duplicated loses the last port only |
| `Discovery.AdvertisedBehindNat` | onvif/client.py:584-595 | with nat_override the parsed authority is the host and port given to the camera object, a bare IPv6 literal in brackets, and everything else is kept |
| `Discovery.AdvertisedRaisesExactlyWhen` | onvif/client.py:584-595 | an address that cannot be read raises, and behind NAT also one whose normalised authority is not accepted |
| `Discovery.RaisesExactlyWhen` | onvif/client.py:745-763 | a pass raises exactly when some address to be set cannot be parsed |
| `Discovery.DefinedExactlyWhenListed` | onvif/client.py:963-1007 | after GetServices, an address is found exactly for device management and the services whose namespace was listed; capabilities make no difference |
| `Discovery.DefinedExactlyWhenCapable` | onvif/client.py:734-763 | when GetServices gives nothing, exactly for the services whose capability was last advertised with a non-empty address |
| `Discovery.DefinedExactlyWhenSet` | onvif/client.py:963-1007 | the statement behind both |
| `Discovery.DevicemgmtDefinition` | onvif/client.py:989-999 | device management is defined exactly when its WSDL file is there, at the fixed address |
| `Discovery.EventDefinition` | onvif/client.py:963-1007 | the events family is defined exactly when its WSDL file and an address under the port type are there |
| `Discovery.AdvertisedNonEmpty` | onvif/client.py:584-595 | rewriting neither empties nor fills an address |
| `DateTimes.TryFixTimeOverflow` | onvif/types.py:24-44 | the in-place repair computes the repaired text and the offset |
| `DateTimes.RepairSeparators` | onvif/types.py:54-64 | the in-place repair computes the normal form |
| `DateTimes.FastDateTime` | onvif/types.py:51-81 | reads the normal form, or else its repaired time plus the offset; ReadableIsRead and FastDateTimeIsMidnightPlus say what that means |
| `DateTimes.ForgivingTime` | onvif/types.py:87-109 | reads the time, or else its repaired form on a fixed day |
| `DateTimeMeaning.RepairPreservesSeconds` | onvif/types.py:24-44 | the repaired fields are in range and with the offset make exactly 3600h+60m+s, the trailer kept |
| `DateTimeMeaning.FastDateTimeIsMidnightPlus` | onvif/types.py:66-81 | for every date and all two-digit h, m, s: midnight plus h:m:s with the trailer, whichever path reads it |
| `DateTimeMeaning.ForgivingTimeIsTimeOfDay` | onvif/types.py:88-109 | for all two-digit h, m, s: h:m:s within a day, with the zone, whichever path reads it |
| `DateTimeMeaning.DashSpellingsAgree` | onvif/types.py:54-62 | the dash spellings and a date alone have the T form as normal form |
| `DateTimeMeaning.SpaceSpellingAgreesExactlyWhen` | onvif/types.py:61-64 | the space spelling does exactly at three lengths and without a further space |
| `DateTimeMeaning.SpellingsReadAlike` | onvif/types.py:51-67 | all spellings are read as the same value |
| `DateTimeMeaning.NormalIsFixedPointExactlyWhen` | onvif/types.py:54-64 | the repairs are done in one pass exactly unless a second dash follows the separator |
| `DateTimeMeaning.EitherParserIsEnough` | onvif/types.py:10-21 | two parsers tried one after the other carry all of this, if neither misreads a text of this shape and each text in range is read by one of them |
| `DateTimeMeaning.ReadableIsRead` | onvif/types.py:54-67 | a text to which no separator repair applies and which the parsers read has exactly the value they give it, whatever its shape |
| `DateTimeMeaning.FirstParserDecides` | onvif/types.py:10-21 | that value is the one of ciso8601 if it reads the text, and else the one of isodate |
| `DateTimeMeaning.RepairedSpellingIsRead` | onvif/types.py:54-67 | every other spelling has the value the parsers give its repaired spelling, if they read that |
| `DateTimeMeaning.ReadableTimeIsRead` | onvif/types.py:87-95 | a time the parser reads has exactly the value it gives |
| `DateTimeMeaning.UnreadableIsRefused` | onvif/types.py:24-44 | a text the parsers do not read is refused when its fields are no numbers |
| `DateTimeMeaning.FieldIsNumberExactlyWhen` | onvif/types.py:31-39 | what int() makes of a field of two characters, and which it refuses |
| `StrictParsers.StrictParsersUnderstand` | onvif/types.py:66-81 | with parsers that read exactly the ranges of XML Schema, every overflow is refused directly and read by the repair |
| `Deadlines.AbsoluteFormReadsBack` | onvif/client.py:825-828 | the absolute form is read back to exactly the second it was cut off to |
| `Deadlines.RelativeFormReadsBack` | onvif/client.py:823-824 | the relative form is the duration asked for, negative ones included, cut off towards zero to whole seconds |
| `Deadlines.DeadlineOnDeviceClock` | onvif/client.py:821-828 | with handshake latency L the absolute deadline denotes, on the device clock, a time in (now+d-2s-L, now+d-L] |
| `Deadlines.DeadlineOnHostClock` | onvif/client.py:825-828 | with no offset known the absolute deadline denotes, on the host clock, a time in (now+d-1s, now+d] |
| `Deadlines.NoDeadlineExactlyWhen` | onvif/client.py:821-828 | there is no text exactly when an absolute deadline leaves the years 1 to 9999 |
| `Urls.ParsePrinted` | onvif/util.py:47-48 | printing the components of a URL with a scheme and an authority and reading them back is the identity, and raises exactly when the authority is not accepted, for whatever authorities urlparse accepts |
| `Urls.PrintedIsRead` | onvif/util.py:47-48 | what is read from a printed URL, whatever stands in its authority |
| `Urls.ParsedIsCanonical` | onvif/util.py:35-42 | what is read from such a URL is printable again |
| `Urls.ReadAsWritten` | onvif/util.py:35-48 | a URL written as scheme, authority, path, params, query and fragment is read as just these |
| `Urls.LeadingSpaceIsIgnored` | onvif/util.py:35 | control characters and spaces in front of a URL make no difference to what is read |
| `Urls.RemovedAnywhere` | onvif/util.py:35 | nor do tabs and line ends anywhere in it |
| `UrlRewriting.NormalizeUrl` | onvif/util.py:26-48 | a missing URL stays missing; otherwise splitting, popping and joining is cutting at the last colon, and an unreadable URL raises |
| `UrlRewriting.ReplaceSetsOnlyTheNetloc` | onvif/util.py:66-86 | the authority becomes host:port and nothing else changes, exactly when the host has no delimiter and the new authority is accepted; the next two rows have host:port in full |
| `UrlRewriting.HostIsSetAsItIs` | onvif/util.py:61-86 | a name, an IPv4 address or a bracketed host becomes the authority as it is, followed by the port |
| `UrlRewriting.LiteralIsSetInBrackets` | onvif/util.py:61-86 | a host with two colons or more and no leading bracket is put in brackets |
| `UrlRewriting.SchemePrefixedHostIsNotSet` | onvif/client.py:989-999 | a host with its scheme, accepted for device management, is never what the rewrite sets |
| `UrlRewriting.NormalizeDropsOnlyTheExtraPort` | onvif/util.py:26-48 | only the last port of an authority with more than one goes; every other URL is returned as it is; and exactly when the result can be read |
| `UrlRewriting.ExtraPortIsDropped` | onvif/util.py:39-48 | user@name:port:extra is read as user@name:port after normalising, whatever stands between the colons |
| `UrlRewriting.PlainUrlIsVerbatim` | onvif/util.py:39-48 | at most one colon past the user information, or a bracket there, and the URL is returned verbatim |
| `UrlRewriting.ReplaceAbsorbsNormalize` | onvif/util.py:66-86 | the rewrite absorbs a normalisation before it, exactly when the normalised authority is accepted |
| `UrlRewriting.PlainUserInfoStaysAccepted` | onvif/util.py:39-46 | which it is for an accepted ASCII authority whose user information has no bracket |
| `UrlRewriting.BracketAcrossTheAtSign` | onvif/util.py:42-47 | a URL for which it is not: it can be read and normalised, and what normalising returns cannot be read |
| `UrlRewriting.LastReplaceWins` | onvif/util.py:66-86 | of two rewrites the last wins, for every first host exactly when it has no delimiter and its authority, as it is read, is accepted |
| `UrlRewriting.NormalizeKeepsReplaced` | onvif/util.py:43-48 | normalising after the rewrite changes nothing, for every host exactly when the authority then read is accepted and has no duplicated port |
| `UrlRewriting.PlainHostKeepsItsPort` | onvif/util.py:58-63 | for a host without user information: exactly when the new authority is accepted and the host has a bracket or not exactly one colon |
| `UrlRewriting.NormalizeIdempotentExactlyWhen` | onvif/util.py:43-48 | normalising is idempotent exactly when at most one port is extra and the normalised authority is accepted |
| `UrlRewriting.NonEmptyStaysNonEmpty` | onvif/util.py:81-86 | an address is empty after rewriting exactly when it was before |
| `Credentials.StripUserPass` | onvif/util.py:160-178 | the loop removes every credential key found, in all letter cases |
| `Credentials.ObscureUserPass` | onvif/util.py:181-205 | the loop masks every credential key found, once |
| `Credentials.UserInformation` | onvif/util.py:160-192 | stripping takes user and password if either is given; obscuring masks a password given with a user, or a user given alone; nothing else of the URL changes |
| `Credentials.MaskedOnce` | onvif/util.py:168-205 | a credential key the query has is masked exactly once, and none of its values is left by stripping |
| `Credentials.CredentialKeys` | onvif/util.py:23 | the four credential keys |
| `Credentials.StripIdempotent` | onvif/util.py:160-178 | stripping twice is stripping once |
| `Credentials.ObscureIdempotent` | onvif/util.py:181-205 | obscuring twice is obscuring once |
| `Credentials.StripAbsorbsObscure` | onvif/util.py:160-205 | obscuring first makes no difference to stripping |
| `Credentials.PasswordObscuredExactlyWhen` | onvif/util.py:185-192 | a given password is as it was after obscuring exactly when no user is given with it or it was the mask; given with a user it becomes the mask |
| `Credentials.OtherParametersSurvive` | onvif/util.py:168-178 | every other parameter keeps its values, order and multiplicity through both |
| `Credentials.KeptExactlyWhen` | onvif/util.py:168-178 | a parameter is kept exactly when its key matches, in any letter case, no credential key the query has in lower case |
| `Credentials.StrippedHasNoKeys` | onvif/util.py:171-175 | no credential key is left |
| `Credentials.ObscuredHasSameKeys` | onvif/util.py:197-202 | the same credential keys are found again |

## Left out

- Managers.BaseManager.Start: the requests of the `_start` it awaits are not in the log and not counted, and nothing interleaves with it, as its callers use it; every outcome of it is a starting point of the runs.
- Managers.BaseManager.OpenSubscription: a constructor that raises and a missing WSDL file are not told apart from a failing setup, which has the same effect on the manager; a missing address is the empty one.
- The lost callback is assumed not to raise and not to call the manager; what Unsubscribe does after stop() has cancelled the timer, and its assertion that start() came first, touch no field of the manager.
- `NotificationManager.process`, `set_synchronization_point`, `get_service`, snapshots and the remaining service helpers: single branches.
- Retry.RetryConnectionError: cancellation while it sleeps is not in this member; the manager's machine has it, at every await.
- ManagerEndings.RenewalBeatsExpiry: for two times of which one carries no zone there is no deadline (a TypeError), which the machine treats as an unlisted exception.
- Two managers of one kind on one camera, and concurrent `create_onvif_service` calls for one key, which the code does not guard; a camera's calls are sequential in `Camera`. Of a manager of the other kind the machine has what the two share, finding relative times broken.
- `ONVIFCamera.close`, the WSDL directory cache, `no_cache`, timeouts and user names of services, and which of the two GetSystemDateAndTime attempts answered.
- Camera.ONVIFCamera.ObtainService: a close that raises is taken to have closed the session all the same.
- Camera.ONVIFCamera.Play: nothing fails to construct, set up or close in it; PlayAnyhow has those runs, by the steps calls are made of.
- SharedCache.SingleConstruction: no call is cancelled.
- Urls.ParsePrinted: only URLs with a scheme and an authority. Which authorities urlparse accepts is a parameter, since versions of Python differ in what they check between brackets and in compatibility characters; all that is used of it is that half a bracket pair is refused and plain ASCII is not.
- UrlRewriting.NormalizeUrl: URLs given as bytes.
- UrlRewriting.PlainHostKeepsItsPort: a host with user information or a delimiter, for which NormalizeKeepsReplaced has the condition.
- yarl's parsing and printing: `Credentials` works on user, password and the list of query pairs it yields, and lower case is that of ASCII.
- StrictParsers.StrictParsersUnderstand: a stand-in for the parsers; of ciso8601 and isodate themselves only what EitherParserIsEnough asks for is assumed.
- zeep's whitespace collapsing; int() accepts no underscores and only ASCII digits, and no sum leaves the range of datetime.
- Logging, message formatting, SSL, the digest token, `safe_func`, WSDL and XML handling, and `onvif/zeep_aiohttp.py`.
