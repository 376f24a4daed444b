# GNSS HAL: verified models of its protocols and tables

This project models the stateful parts of the Qualcomm GNSS HAL (`gps/`) of
`android_device_leeco_s2` and proves what holds over whole runs of them. Every component of the
HAL runs as messages on one queue, so each is modelled twice over the same state:

* a **step function** on a plain value (`Step`, `Next`, ...), whose runs are sequences of events,
  and about which the run-level theorems are proved by induction over those sequences;
* a **class** with the source's fields, loops and in-place updates, each method of which is proved
  to take exactly that step and to send exactly the messages of that step.

Beside them stand **references** (`*Reference.dfy`): the same runs told without the source's data
structures, from the history of the events or on plain maps, with the theorem that over every run the
step functions hold exactly that state and send exactly those messages.

The modem, the framework and the clients are the environment: their answers are parameters of the
events (`accepted`, `ok`, `queried`, ...), and a theorem holds whatever they answer, at any time, unless
it says otherwise.

| file | models | main results |
|---|---|---|
| `Basics.dfy`, `OrderedMap.dfy` | `Option`; `std::map` as the ascending sequence its iterator walks | membership after insert and erase |
| `Agps.dfy`, `AgpsRuns.dfy`, `AgpsManager.dfy`, `AgpsReference.dfy`, `AgpsManagerReference.dfy` | the AGPS connection machine and its manager | conservation of connections, notification ledger, list shape, what everybody hears and in which order |
| `Trips.dfy`, `TripRuns.dfy`, `TripDeadlines.dfy`, `TripIntervals.dfy`, `TripReference.dfy`, `TripExamples.dfy` | outdoor trips sharing one modem batch | never early, exact iff lossless joins, on time iff every join, stop and report finds what it needs, smallest interval, the modem runs what the adapter believes |
| `Tracking.dfy`, `TrackingRuns.dfy`, `TrackingReference.dfy` | the time-based tracking multiplexer | the service guarantee and when it holds, minimal requests, sessions and requests by plain maps |
| `GpsLock.dfy`, `Odcpi.dfy`, `Ni.dfy`, each with its `...Reference.dfy` | lock control, coarse-position throttling, network-initiated requests | restart agreement, throttling bound, exactly-once disposal with the last answer |
| `SvBlacklist.dfy` | the satellite blacklist codec | both round trips, with the exact condition |
| `Subscriptions.dfy`, `Geofences.dfy`, each with its `...Reference.dfy` | the two pairs of inverse maps | exact inverses, contents by history, exact notification, restart of keys and pauses, breach routing |
| `AdapterTable.dfy`, `History.dfy` | the compact adapter array, the bounded report history | refinement of a set; tail of the deduplicated stream |

`dafny verify dfyconfig.toml` checks everything.

## Where the code does not keep what one would expect

Each of these is a lemma with a concrete input or an exact condition.

* A trip that joins with a restart throws away the movement since the last report
  (`TripRuns.JoinExactIff`, `TripExamples.LossyJoinDelaysCompletion`). If the modem refuses that
  restart, the movement is counted twice and a trip can complete early
  (`TripRuns.RefusedJoinIff`, `TripExamples.RefusedJoinCompletesEarly`).
* Stopping a trip can leave another one overdue, in two ways: a new batch distance is computed from
  the remaining distances of the last report, and a restart for the interval alone starts the whole
  old batch distance over again (`TripDeadlines.EndDeadlineIff`,
  `TripExamples.StaleStopBreaksDeadline`, `TripExamples.IntervalStopBreaksDeadline`). So can a join
  whose query of the odometer failed (`TripDeadlines.JoinDeadlineIff`,
  `TripExamples.BlindJoinBreaksDeadline`), which also leaves an interval nobody asked for
  (`TripIntervals.NextIntervalIff`, `TripExamples.BlindJoinLeavesInterval`).
* A stop can also leave the batch at a distance nobody needs: the report there completes nothing and
  nothing restarts, so that the trips that are left are never reported in time
  (`TripDeadlines.EndTightIff`, `TripDeadlines.ReportSpendsIff`, `TripExamples.StopRunsBatchDry`).
  A join whose query failed and a refused restart of a report can do the same
  (`TripDeadlines.JoinTightIff`, `TripDeadlines.ReportTightIff`).
* Without distance tracking in the modem, an update that asks for a distance can leave a time-based
  session with the fix stream stopped (`TrackingRuns.UnsupportedSwitchIff`,
  `TrackingRuns.UnsupportedSwitchStarves`).
* A queued NFW message carried out after NFW control was withdrawn, with a control session open,
  makes the restart change the lock (`GpsLock.LateNfwMessageIff`,
  `GpsLock.LateNfwMessageDisagrees`).
* `1 << 31` is computed in a 32-bit int, so the satellite at offset 31 of a constellation blacklists
  all satellites from there up, and larger offsets shift by more than the language defines
  (`SvBlacklist.ListRoundTripIff`, `SvBlacklist.SignBitExample`).
* A restart of the geofences pauses the paused ones again in the modem but clears their flag, so the
  next restart leaves them running (`Geofences.PauseAgreesIff`,
  `Geofences.SecondRestartForgetsPause`); and it brings back fences of clients that have gone
  (`Geofences.RestartKeysIff`, `Geofences.StoppedReturnsIff`, `Geofences.GoneClientReturns`). If the
  modem goes down again while it is being asked for the fences, those it has not answered for are lost
  (`Geofences.SecondRestartKeys`, `Geofences.SecondRestartLosesFence`).
* Once the data of an item has been requested, later plain subscriptions to it are never passed on to
  the framework (`Subscriptions.SubscribedIff`, `Subscriptions.RequestHidesSubscription`).
* A modem restart drops the AGPS subscribers but not the state, so a connection can stay up with
  nobody listed until a new request or the framework takes it on (`AgpsRuns.BusyIff`,
  `AgpsManagement.DroppedStaysIff`, `AgpsRuns.RestartLeavesConnectionUnowned`).

## Model

| member | source | states |
|---|---|---|
| `Agps.AgpsStateMachine.ProcessSubscribe` | gps/gnss/Agps.cpp:73-107 | takes the subscribe step: new list, state, request to the framework and open-success to a late joiner |
| `Agps.AgpsStateMachine.ProcessUnsubscribe` | gps/gnss/Agps.cpp:109-171 | takes the unsubscribe step: mark or notify and delete, then release when nobody, or nobody active, is left |
| `Agps.AgpsStateMachine.ProcessGranted` | gps/gnss/Agps.cpp:173-194 | takes the granted step, notifying the active entries |
| `Agps.AgpsStateMachine.ProcessReleased` | gps/gnss/Agps.cpp:196-241 | takes the released step in each state |
| `Agps.AgpsStateMachine.ProcessDenied` | gps/gnss/Agps.cpp:243-283 | takes the denied step in each state |
| `Agps.AgpsStateMachine.FinishReleasing` | gps/gnss/Agps.cpp:215-231 | closes the inactive entries, then requests again for active ones or ends released |
| `Agps.AgpsStateMachine.NotifyAllSubscribers` | gps/gnss/Agps.cpp:310-343 | notifies exactly the addressed entries in list order and, on request, erases exactly those while walking |
| `Agps.AgpsStateMachine.AddSubscriber` | gps/gnss/Agps.cpp:392-411 | appends a handle only if it is not listed |
| `Agps.AgpsStateMachine.DeleteSubscriber` | gps/gnss/Agps.cpp:413-430 | erases every entry with the handle and keeps the order of the others |
| `Agps.AgpsStateMachine.AnyActiveSubscribers` | gps/gnss/Agps.cpp:432-442 | true exactly when some entry is not inactive |
| `Agps.AgpsStateMachine.GetSubscriber` | gps/gnss/Agps.cpp:465-478 | finds the first entry with the handle, if any |
| `Agps.AgpsStateMachine.DropAllSubscribers` | gps/gnss/Agps.cpp:495-506 | empties the list silently and leaves the state alone |
| `AgpsRuns.ConnectionsConserved` | gps/gnss/Agps.cpp:73-308 | over every event sequence, requests = releases + framework-ended connections + outstanding, and at no moment is one requested twice or released while none is outstanding |
| `AgpsRuns.StepMoves` | gps/gnss/Agps.cpp:289-308 | a step sends the one data-connection message that accounts for its state change, or none |
| `AgpsRuns.OneTerminalOnLeaving` | gps/gnss/Agps.cpp:310-380 | an entry that leaves gets exactly one open-failure or close at that moment, none if a restart drops it; one that stays gets none |
| `AgpsRuns.TerminalLedger` | gps/gnss/Agps.cpp:73-442 | over a whole run, joins and strangers' unsubscribes of a handle equal its terminal callbacks, restart drops and its presence |
| `AgpsRuns.OpenedIffAcquired` | gps/gnss/Agps.cpp:73-107 | an active entry has been sent open-success since it joined if and only if the state is ACQUIRED |
| `AgpsRuns.ListShape` | gps/gnss/Agps.cpp:392-411 | handles are pairwise distinct and RELEASED means an empty list, restarts included |
| `AgpsRuns.BusyIff` | gps/gnss/Agps.cpp:73-283 | over every run, restarts included: PENDING and ACQUIRED have an active entry and RELEASING a non-empty list, exactly unless a restart dropped the list before the connection was released and nothing has picked it up since; then nobody is listed |
| `AgpsRuns.StepBusyIff` | gps/gnss/Agps.cpp:109-171 | a step keeps that unless it is a modem restart outside RELEASED |
| `AgpsRuns.PickUpIff` | gps/gnss/Agps.cpp:73-283 | a dropped connection is owned or released again exactly by a subscribe, an unsubscribe, the framework ending it, or an answer to its release |
| `AgpsRuns.BusyRun` | gps/gnss/Agps.cpp:109-171 | without restarts, PENDING and ACQUIRED have an active entry and RELEASING a non-empty list |
| `AgpsRuns.RestartLeavesConnectionUnowned` | gps/gnss/Agps.cpp:664-675 | a run with a restart in which the connection is up and nobody is listed, until a subscriber takes it over |
| `AgpsReference.RunMirrors` | gps/gnss/Agps.cpp:73-308 | over every run, restarts included, the list holds exactly the members of a plain map, with their flags, and the machine is in that reference's state |
| `AgpsReference.EverybodyHears` | gps/gnss/Agps.cpp:310-380 | over every run, for every event and every handle: open-failure is sent exactly by DENIED in PENDING to a member; close by an unsubscribe that does not wait or comes in RELEASED, by RELEASED in ACQUIRED to a member, and by the end of a release to one that waited for it; open-success by subscribing in ACQUIRED and by GRANTED in PENDING to a member that stays; and the framework is asked exactly what the reference says |
| `AgpsReference.RunOrder` | gps/gnss/Agps.cpp:392-430 | the list is in the order in which its members joined |
| `AgpsReference.RunTranscript` | gps/gnss/Agps.cpp:73-380 | everything an event sends, in order: the handle that asks or all members in turn, the framework last |
| `AgpsManagement.AgpsManager.constructor` | gps/gnss/Agps.cpp:514-535 | creates the machines the configuration provides, both released and empty |
| `AgpsManagement.AgpsManager.RequestATL` | gps/gnss/Agps.cpp:563-597 | subscribes at the machine of the type, never waiting for close, or answers open-failure if there is none |
| `AgpsManagement.AgpsManager.ReleaseATL` | gps/gnss/Agps.cpp:599-625 | unsubscribes the handle's own entry, looked up in AGNSS first, or does nothing |
| `AgpsManagement.AgpsManager.ReportAtlOpenSuccess` | gps/gnss/Agps.cpp:627-644 | delivers GRANTED to the machine of the type and touches no other |
| `AgpsManagement.AgpsManager.ReportAtlOpenFailed` | gps/gnss/Agps.cpp:646-653 | delivers DENIED to the machine of the type |
| `AgpsManagement.AgpsManager.ReportAtlClosed` | gps/gnss/Agps.cpp:655-662 | delivers RELEASED to the machine of the type |
| `AgpsManagement.AgpsManager.HandleModemSSR` | gps/gnss/Agps.cpp:664-675 | drops the subscribers of both machines and sends nothing |
| `AgpsManagement.MachineOfManagerRun` | gps/gnss/Agps.cpp:537-675 | each machine of a manager run is a run of the state machine on the events routed to it |
| `AgpsManagement.ManagerNeverReleasing` | gps/gnss/Agps.cpp:563-625 | driven through the manager no entry is ever inactive and RELEASING is unreachable |
| `AgpsManagement.ManagerLedger` | gps/gnss/Agps.cpp:563-675 | through the manager, restarts included, each join is matched by exactly one terminal callback, one restart drop or its presence; without a restart nobody is dropped |
| `AgpsManagement.DroppedStaysIff` | gps/gnss/Agps.cpp:563-675 | through the manager a dropped connection is picked up only by a request for it or by the framework denying or closing it; no release can end it |
| `AgpsManagerReference.ManagerMirrors` | gps/gnss/Agps.cpp:537-675 | over every run of the manager both machines mirror references that are told of each request by its type, of each release by who has the handle, AGNSS first, and of each report by its type |
| `AgpsManagerReference.ManagerHears` | gps/gnss/Agps.cpp:563-675 | for every request and report, each handle and the framework hear of each machine exactly what its reference says, and nothing of a machine that is not concerned |
| `Trips.BatchingAdapter.StartTripBatchingMultiplex` | gps/batching/BatchingAdapter.cpp:749-855 | takes the join step: first start, or restart when the new distance or interval is shorter, or plain join, with the query and the modem each succeeding or failing |
| `Trips.BatchingAdapter.RestartTripBatching` | gps/batching/BatchingAdapter.cpp:923-1029 | takes the restart decision and, if the modem accepts, carries the batch over into every trip |
| `Trips.BatchingAdapter.ReportCompletedTrips` | gps/batching/BatchingAdapter.cpp:661-700 | takes the report step and hands the clients exactly the completed ids in ascending order |
| `Trips.BatchingAdapter.DropFinished` | gps/batching/BatchingAdapter.cpp:667-692 | updates every trip, erases exactly the finished ones and records whether the ongoing values lost their trip |
| `Trips.BatchingAdapter.StopTripBatchingMultiplex` | gps/batching/BatchingAdapter.cpp:858-908 | takes the stop step for a live trip |
| `Trips.BatchingAdapter.UpdateTrip` | gps/batching/BatchingAdapter.cpp:885-919 | a stop with `restartNeeded` for new trip options is the stop step followed by the join step |
| `Trips.BatchingAdapter.FindMinima` | gps/batching/BatchingAdapter.cpp:945-963 | computes the source's running minima over the live trips |
| `TripRuns.RunGood` | gps/batching/BatchingAdapter.cpp:661-1029 | in every run in which the modem refuses the restart of a join only where that is harmless, for every live trip: last computed distance <= restart distance + odometer since <= true distance, with no underflow |
| `TripRuns.NeverCompletesEarly` | gps/batching/BatchingAdapter.cpp:667-696 | on such runs a trip is reported complete only once its true distance reached what was asked |
| `TripRuns.RefusedJoinIff` | gps/batching/BatchingAdapter.cpp:827-846 | when the modem refuses the restart of a join, exact accumulators still bound the true distances if and only if the odometer holds nothing the rebased trips would count twice, and then they stay exact |
| `TripRuns.JoinExactIff` | gps/batching/BatchingAdapter.cpp:785-846 | a join keeps the accumulators equal to the true distance if and only if it does not restart after unreported movement, and a refusal of its restart is harmless |
| `TripRuns.RunExact` | gps/batching/BatchingAdapter.cpp:661-1029 | on runs without such a join the accumulators reconstruct the true distance across every odometer reset |
| `TripRuns.RunExactIff` | gps/batching/BatchingAdapter.cpp:661-1029 | whatever the modem answers, they do so at every moment of a run exactly if it has no such join |
| `TripRuns.CompletesIffReached` | gps/batching/BatchingAdapter.cpp:661-700 | on such runs a report completes a trip exactly when its true distance is reached |
| `TripReference.ModemRunsBelieved` | gps/batching/BatchingAdapter.cpp:749-1029 | at every moment of every run, folding the calls that were sent, the modem runs exactly the distance and interval the adapter believes, and nothing when no trip is live, unless it refused the restart of a join and was not started again since |
| `TripReference.RunAsks` | gps/batching/BatchingAdapter.cpp:661-1029 | over every run each event asks exactly this of the modem: a first join its start; another one a restart for the shorter of the two distances and intervals, if either is shorter; a report or stop that takes trips out the end of the batch if nobody is left, and otherwise one restart, for the least remaining distance if that is less than what is left of the batch, or the batch is used up or its trip has gone, and for the shortest interval if that is shorter, or longer and its trip has gone; nothing else asks anything |
| `TripReference.EmptyIsReset` | gps/batching/BatchingAdapter.cpp:749-1029 | whenever no trip is live both ongoing values are 0 |
| `TripReference.RunMirrors` | gps/batching/BatchingAdapter.cpp:661-908 | over every run the trips are exactly those of a plain map: saved by a join, taken out by completion or a stop, with the distance and interval they asked for, in ascending order |
| `TripReference.CompletedAscending` | gps/batching/BatchingAdapter.cpp:667-696 | completed trips are reported in ascending order |
| `TripReference.FlagsAre` | gps/batching/BatchingAdapter.cpp:667-908 | over every run the two flags say exactly that a trip with the ongoing interval, or distance, has gone since the start |
| `TripReference.ReportStores` | gps/batching/BatchingAdapter.cpp:661-696 | on exact runs a report leaves every live trip with its true distance stored |
| `TripExamples.LossyJoinDelaysCompletion` | gps/batching/BatchingAdapter.cpp:832-842 | a run in which a trip is at its full true distance and is not completed |
| `TripExamples.RefusedJoinCompletesEarly` | gps/batching/BatchingAdapter.cpp:827-846 | a run with a refused restart in which a trip completes at half its distance |
| `TripDeadlines.JoinDeadlineIff` | gps/batching/BatchingAdapter.cpp:785-846 | a join keeps the batch distance within what each live trip still needs, always if its query succeeds, otherwise exactly if it does not restart or every trip needs the new distance from its last report on |
| `TripDeadlines.ReportAtDistance` | gps/batching/BatchingAdapter.cpp:967-1025 | a report at the batch distance that completes a trip re-establishes that bound, tight for some survivor |
| `TripDeadlines.EndDeadlineIff` | gps/batching/BatchingAdapter.cpp:885-1025 | a stop keeps that bound if and only if nothing restarts, or the stale new distance is no more than any trip left still needs, or, for a restart for the interval alone, every trip left still needs the whole old batch distance |
| `TripDeadlines.RunDeadline` | gps/batching/BatchingAdapter.cpp:661-1029 | on such runs no live trip is ever overdue and the batch never runs out |
| `TripDeadlines.RunDeadlineIff` | gps/batching/BatchingAdapter.cpp:661-1029 | with a modem that reports in time, whatever it answers: no live trip is overdue, the batch has not run out, and the modem was not left with another batch than the adapter believes (`TripReference.ModemRunsBelieved`), at every moment of a run, exactly if all its joins, stops and reports find what they need and no join's restart is refused |
| `TripDeadlines.CompletesOnTheDot` | gps/batching/BatchingAdapter.cpp:661-1029 | on such runs without a lossy join, stops included, no true distance ever exceeds what was asked, and a report completes a trip exactly at equality |
| `TripDeadlines.ReportAtDistanceCompletesIff` | gps/batching/BatchingAdapter.cpp:661-696 | on such runs the report at the batch distance completes some trip if and only if some live trip needs it exactly there |
| `TripDeadlines.ReportSpendsIff` | gps/batching/BatchingAdapter.cpp:661-1029 | a report at the batch distance leaves the batch run out with trips live exactly unless some trip needed it there, and the modem restarts for those left, if there are any |
| `TripDeadlines.JoinTightIff` | gps/batching/BatchingAdapter.cpp:785-846 | after a join some live trip needs the report at the batch distance exactly if: without a restart one did or the new trip does; with one the new trip is that short, or a trip needs just the new distance from its last report on |
| `TripDeadlines.ReportTightIff` | gps/batching/BatchingAdapter.cpp:661-1029 | after a report: exactly if nothing completed and one did, or the modem accepts the restart, or nobody is left |
| `TripDeadlines.EndTightIff` | gps/batching/BatchingAdapter.cpp:885-1025 | after a stop: exactly if nobody is left, or by the guards of its restart some trip left still needs the new distance, the whole old batch distance, or, without an accepted restart, the report where it was |
| `TripDeadlines.RunServedIff` | gps/batching/BatchingAdapter.cpp:661-1029 | at every moment of a run the next report at the batch distance would complete some trip exactly if every event finds what it needs for that |
| `TripDeadlines.SteadyRunsOnTime` | gps/batching/BatchingAdapter.cpp:661-1029 | where nobody stops a trip, the modem answers and no join loses distance, all of them do |
| `TripExamples.StaleStopBreaksDeadline` | gps/batching/BatchingAdapter.cpp:885-994 | a run in which a stop takes the new distance from an old report and a trip is overdue |
| `TripExamples.IntervalStopBreaksDeadline` | gps/batching/BatchingAdapter.cpp:997-1019 | a run, every trip reported, in which a stop restarts for the interval alone and a trip is overdue |
| `TripExamples.BlindJoinBreaksDeadline` | gps/batching/BatchingAdapter.cpp:802-846 | a run in which a join whose query failed leaves the other trip overdue |
| `TripExamples.BlindJoinLeavesInterval` | gps/batching/BatchingAdapter.cpp:785-846 | a run in which such a join, which is not saved, leaves an interval no trip asked for |
| `TripExamples.StopRunsBatchDry` | gps/batching/BatchingAdapter.cpp:885-994 | a run in which a safe stop leaves a batch whose report completes and restarts nothing, and the other trip travels past its distance unnoticed |
| `TripIntervals.RunIntervalIff` | gps/batching/BatchingAdapter.cpp:785-1025 | in every run the ongoing interval is exactly the smallest interval of the live trips at every moment, if and only if no failed query and no refused restart leaves an interval nobody has |
| `TripIntervals.NextIntervalIff` | gps/batching/BatchingAdapter.cpp:785-1025 | the step condition: a failed query must not have asked for a shorter interval, and a trip that goes must leave its interval to another or have its loss recorded and the restart accepted |
| `TripIntervals.RunInterval` | gps/batching/BatchingAdapter.cpp:785-1025 | in particular on every run in which the modem answers, stops included |
| `TripIntervals.RunIntervalBelow` | gps/batching/BatchingAdapter.cpp:785-1025 | whatever the modem answers, the ongoing interval is at most every live trip's |
| `Tracking.GnssTracking.SaveTrackingSession` | gps/gnss/GnssAdapter.cpp:2285-2297 | saves into the map the distance and the modem's support select |
| `Tracking.GnssTracking.EraseTrackingSession` | gps/gnss/GnssAdapter.cpp:2299-2313 | erases from the time-based map, or else from the distance-based one |
| `Tracking.GnssTracking.StartTimeBasedTrackingMultiplex` | gps/gnss/GnssAdapter.cpp:2455-2505 | sends the start request, if any, and says whether it was refused |
| `Tracking.GnssTracking.UpdateTrackingMultiplex` | gps/gnss/GnssAdapter.cpp:2676-2738 | sends the update request, if any, leaving out the session itself when it looks for the minimum |
| `Tracking.GnssTracking.StopTimeBasedTrackingMultiplex` | gps/gnss/GnssAdapter.cpp:2793-2842 | stops the stream with the last session, or asks for the least interval of the others when it was held down |
| `Tracking.GnssTracking.StartTrackingCommand` | gps/gnss/GnssAdapter.cpp:2401-2447 | takes the start command with its floor of 100 ms, power fallback and refusal |
| `Tracking.GnssTracking.UpdateTrackingOptionsCommand` | gps/gnss/GnssAdapter.cpp:2580-2669 | takes the update command, both mode switches included |
| `Tracking.GnssTracking.StopTrackingCommand` | gps/gnss/GnssAdapter.cpp:2759-2785 | takes the stop command |
| `Tracking.GnssTracking.RestartSessions` | gps/gnss/GnssAdapter.cpp:2145-2184 | after a modem restart asks for the least interval of the sessions, with the source's choice of power mode, and starts every distance-based session again |
| `TrackingRuns.ServiceGuarantee` | gps/gnss/GnssAdapter.cpp:2145-2842 | after any run whose unsupported mode switches find what they need, every time-based session is served at least as often as it asked and never faster than every 100 ms, whether the modem accepted or refused |
| `TrackingRuns.ServiceGuaranteeIff` | gps/gnss/GnssAdapter.cpp:2145-2842 | every session is served at every moment of a run exactly if every unsupported switch in it finds what it needs; with distance tracking there is none |
| `TrackingRuns.RequestsAreMinimal` | gps/gnss/GnssAdapter.cpp:2455-2842 | every request carries exactly the minimum over the sessions it results in; a stop leaves none |
| `TrackingRuns.StartRequest` | gps/gnss/GnssAdapter.cpp:2455-2505 | a start either asks for the new minimum or is already served |
| `TrackingRuns.UpdateRequest` | gps/gnss/GnssAdapter.cpp:2676-2738 | an update either asks for the new minimum or is already served |
| `TrackingRuns.StopRequest` | gps/gnss/GnssAdapter.cpp:2793-2842 | whatever the modem answers, the sessions left are still served |
| `TrackingRuns.UnsupportedSwitchIff` | gps/gnss/GnssAdapter.cpp:2607-2622 | without distance tracking a switch to a distance keeps the guarantee exactly if: alone, the modem refuses to stop and the old interval is short enough; with nothing to ask, the old interval is short enough; otherwise, the modem refuses or some other session asks for an interval that is short enough |
| `TrackingRuns.UnsupportedSwitchStarves` | gps/gnss/GnssAdapter.cpp:2607-2622 | a run after which a session is saved and nothing runs |
| `TrackingReference.RunMirrors` | gps/gnss/GnssAdapter.cpp:2145-2842 | over every run with new ids for new sessions, whatever the modem answers: the saved sessions of both kinds are exactly those of two plain maps, to which a start adds, in which an update replaces or changes sides, and from which a stop removes, each with its floor, fallback, guards and refusals |
| `TrackingReference.RunAsks` | gps/gnss/GnssAdapter.cpp:2145-2842 | after any such run each command asks exactly what the plain maps call for, interval and power mode: a session that joins others asks if it wants a shorter interval or a lower power mode than they do, one that leaves does if it was the one to want it; and the fix stream follows every accepted request |
| `TrackingReference.LastStopEnds` | gps/gnss/GnssAdapter.cpp:2759-2842 | stopping the last time-based session sends exactly the stop of the fix stream, and if the modem accepts nothing runs any more |
| `TrackingReference.ScanIs` | gps/gnss/GnssAdapter.cpp:2472-2491 | the scan finds the shortest session, the one with the smallest id of several, and the least power mode of those after the last session that has none |
| `GpsLock.LockControl.EnableCommand` | gps/gnss/GnssAdapter.cpp:2983-3005 | opens the control session and writes the lock of the present mode, or refuses |
| `GpsLock.LockControl.DisableCommand` | gps/gnss/GnssAdapter.cpp:3036-3056 | closes the session and writes the lock, with MO set under NFW control |
| `GpsLock.LockControl.NfwControlCommand` | gps/gnss/GnssAdapter.cpp:4899-4932 | sets or clears NI if NFW control is supported |
| `GpsLock.LockControl.ProcessNfwMessage` | gps/gnss/GnssAdapter.cpp:4911-4925 | sets or clears NI without asking again whether that is supported |
| `GpsLock.LockControl.UpdateConfigCommand` | gps/gnss/GnssAdapter.cpp:1097-1127 | stores the new mask with MO, withdraws NFW control, and writes what each case asks for |
| `GpsLock.LockControl.SetConfig` | gps/gnss/GnssAdapter.cpp:748-752 | re-injects the configured lock or NONE |
| `GpsLock.RestartChangesNothing` | gps/gnss/GnssAdapter.cpp:735-752 | once a lock was written, a re-injection after any interleaving of commands and restarts changes nothing |
| `GpsLock.SessionUnlocksMobileOriginated` | gps/gnss/GnssAdapter.cpp:2983-3056 | an open control session means MO is unlocked in the modem; closing it, or a configuration update with none open, locks it |
| `GpsLock.LateNfwMessageIff` | gps/gnss/GnssAdapter.cpp:4911-4931 | after any run a late NFW message keeps the agreement exactly if NFW control is still supported or no session is open |
| `GpsLock.AgreementIff` | gps/gnss/GnssAdapter.cpp:735-752 | the modem has the lock a restart would inject at every moment of a run exactly if it has no late NFW message |
| `GpsLock.LateNfwMessageDisagrees` | gps/gnss/GnssAdapter.cpp:4911-4931 | a run after which a restart would change the lock |
| `GpsLockReference.RunIs` | gps/gnss/GnssAdapter.cpp:735-4932 | over every run, late messages included, each bit of the stored lock, the open session and what the modem was last told are those of the events' history |
| `GpsLockReference.RunWrites` | gps/gnss/GnssAdapter.cpp:735-4932 | an event writes exactly when, and what, the history says |
| `GpsLockReference.NetworkInitiatedIff` | gps/gnss/GnssAdapter.cpp:4899-4932 | on runs without a late message the modem has NI locked exactly if the last NFW control carried out, or the configuration since, locked it, and no session is open without NFW control; likewise MO |
| `Odcpi.OdcpiControl.RequestOdcpi` | gps/gnss/GnssAdapter.cpp:3969-4012 | takes the start or stop request and calls the framework exactly when the step does, with the new request |
| `Odcpi.OdcpiControl.OdcpiTimerExpire` | gps/gnss/GnssAdapter.cpp:4112-4125 | asks again for a request still wanted, with the stored request, or stops the timer |
| `Odcpi.OdcpiControl.RestartSessions` | gps/gnss/GnssAdapter.cpp:2150-2151 | a modem restart ends the request and leaves the timer |
| `Odcpi.OdcpiTimer.Restart` | gps/gnss/GnssAdapter.h:55-73 | a restarted timer is active |
| `Odcpi.Throttled` | gps/gnss/GnssAdapter.cpp:3969-4012 | over any stretch of any run each callback is paid for by a handled expiry, an emergency upgrade or a newly started timer |
| `Odcpi.AtMostOneFreeCallback` | gps/gnss/GnssAdapter.cpp:3969-4125 | callbacks <= 1 + handled expiries + emergency upgrades, and an active request implies an active timer |
| `Odcpi.WantedRequestRepeats` | gps/gnss/GnssAdapter.cpp:4112-4125 | without a stop or modem restart a wanted request is asked for exactly once for each handled expiry and each emergency upgrade |
| `Odcpi.StopAndStartIsFree` | gps/gnss/GnssAdapter.cpp:3969-4012 | stopping and restarting a request before the expiry calls nobody and changes nothing |
| `OdcpiReference.RunIs` | gps/gnss/GnssAdapter.cpp:3969-4125 | over every run a request is wanted, the timer runs and the emergency flag is stored exactly as the history of starts, stops, expiries and restarts says |
| `OdcpiReference.RunCalls` | gps/gnss/GnssAdapter.cpp:3969-4125 | an event calls the framework exactly if it is an expiry that finds a request wanted, or a start that finds no timer or is the first emergency, and with that request |
| `OdcpiReference.EndedIsSilent` | gps/gnss/GnssAdapter.cpp:2150-4125 | after a stop or a modem restart and until a new start nobody is called, and the next expiry stops the timer |
| `Ni.NiControl.RequestNiNotify` | gps/gnss/GnssAdapter.cpp:3807-3892 | takes the request: slot, free, immediate emergency accept, or nothing |
| `Ni.NiControl.GnssNiResponse` | gps/gnss/GnssAdapter.cpp:2882-2922 | stores the answer in the slot of that id and overrules a normal request when an emergency one is accepted |
| `Ni.NiSession.FinishThread` | gps/gnss/GnssAdapter.cpp:3760-3803 | ends the wait: answers or frees the request, if there still is one, clears the slot and its answer flag |
| `Ni.DisposedExactlyOnce` | gps/gnss/GnssAdapter.cpp:3746-3889 | every request id handed out is at each moment either in its slot or has left it exactly once |
| `Ni.RunFaithful` | gps/gnss/GnssAdapter.cpp:3863-3867 | a request stays with, and leaves with, the data it came with |
| `Ni.DepartureIsOneMessage` | gps/gnss/GnssAdapter.cpp:3779-3803 | leaving the slot is one response with that data, or for IGNORE one free |
| `Ni.NormalRequestsGiveWay` | gps/gnss/GnssAdapter.cpp:3839-3860 | a normal request never takes its slot while an emergency one is pending; when both wait the normal one is older |
| `Ni.NoCarryOver` | gps/gnss/GnssAdapter.cpp:2895-2913 | a request leaves with a timeout, or with an answer or an IGNORE that was given to this very request while it was pending |
| `NiReference.RunHolds` | gps/gnss/GnssAdapter.cpp:3746-3889 | over every run the slots hold exactly the requests that wait by the history, with their data, and the last answer each was given while it waited, the IGNORE of an accepted emergency request included |
| `NiReference.RunSends` | gps/gnss/GnssAdapter.cpp:3760-3889 | after every run each event sends exactly what the history calls for: one question under the next id for a request that is let in, a free or an immediate accept for one that is not, and for one that leaves its last answer |
| `NiReference.LeavesWithLastAnswer` | gps/gnss/GnssAdapter.cpp:2895-2913 | a request that leaves in time leaves with the last answer it was given; with NoResponse exactly if it timed out, had none, or was answered so |
| `SvBlacklist.ConvertToGnssSvIdConfig` | gps/gnss/GnssAdapter.cpp:1441-1505 | adds the listed satellites to the masks of their constellations, or clears them for an empty list; valid iff empty list or some mask set |
| `SvBlacklist.ConvertGnssSvIdMaskToList` | gps/gnss/GnssAdapter.cpp:1538-1563 | appends the ids of the set bits, or the single id 0 for the full mask; the shift loop terminates |
| `SvBlacklist.ConvertFromGnssSvIdConfig` | gps/gnss/GnssAdapter.cpp:1508-1536 | lists the four constellations in the source's order and sets the flag iff some mask is set |
| `SvBlacklist.MaskBits` | gps/gnss/GnssAdapter.cpp:1457-1494 | a bit of the mask is set exactly by "all", by the id at its offset below 32, by the sign bit of offset 31, or by what the machine gives for a larger offset |
| `SvBlacklist.ListRoundTripIff` | gps/gnss/GnssAdapter.cpp:1441-1563 | list to mask to list gives the ascending duplicate-free ids, or 0 for "all", whatever the undefined shifts give, if and only if "all" is asked for or no offset from 31 up is named |
| `SvBlacklist.DefinedRoundTripIff` | gps/gnss/GnssAdapter.cpp:1441-1563 | where every shift is defined, on any machine, exactly if "all" is asked for or offset 31 is not named |
| `SvBlacklist.SignBitExample` | gps/gnss/GnssAdapter.cpp:1491 | naming GLONASS 96 alone blacklists GLONASS 100 too |
| `SvBlacklist.MaskRoundTripIff` | gps/gnss/GnssAdapter.cpp:1441-1563 | mask to list to mask is the identity, whatever the undefined shifts give, exactly on masks below 2^31 and the full one |
| `SvBlacklist.MasksRoundTrip` | gps/gnss/GnssAdapter.cpp:1441-1536 | all four masks together survive the trip through one list |
| `SvBlacklist.ListRoundTrip` | gps/gnss/GnssAdapter.cpp:1441-1536 | a mixed list comes back as exactly its meaningful ids |
| `SvBlacklist.ListSpelled` | gps/gnss/GnssAdapter.cpp:1508-1563 | a satellite is listed exactly if its constellation's mask has its bit, GLONASS 65, QZSS 193, Beidou 201 and Galileo 301 being bit 0; a full mask is listed as 0 alone |
| `SvBlacklist.ListInOrder` | gps/gnss/GnssAdapter.cpp:1508-1536 | the list goes by Beidou, Galileo, GLONASS, QZSS and in each by ascending number |
| `Subscriptions.SystemStatusOsObserver.SubscribeRequest` | gps/core/SystemStatusOsObserver.cpp:103-124 | takes the subscribe step, asking the framework to subscribe to the new items or for the data of all, and sends the cached items once |
| `Subscriptions.SystemStatusOsObserver.UpdateSubscriptionRequest` | gps/core/SystemStatusOsObserver.cpp:149-198 | takes the update step and sends the cached ones of the newly added items |
| `Subscriptions.SystemStatusOsObserver.UnsubscribeRequest` | gps/core/SystemStatusOsObserver.cpp:221-240 | takes the unsubscribe step and sends nothing to clients |
| `Subscriptions.SystemStatusOsObserver.UnsubscribeAllRequest` | gps/core/SystemStatusOsObserver.cpp:260-281 | takes the unsubscribe-all step |
| `Subscriptions.SystemStatusOsObserver.SetSubscriptionObject` | gps/core/SystemStatusOsObserver.cpp:69-79 | asks a new subscription object to subscribe to, and for the data of, every subscribed item |
| `Subscriptions.SystemStatusOsObserver.Notify` | gps/core/SystemStatusOsObserver.cpp:308-341 | whatever the iteration order: exactly the clients of an updated item are called, once each, with exactly the updated items they subscribe to and their newest values |
| `Subscriptions.SystemStatusOsObserver.SendCachedDataItems` | gps/core/SystemStatusOsObserver.cpp:513-539 | one call with the cached ones of the items, or none |
| `Subscriptions.SystemStatusOsObserver.UpdateCache` | gps/core/SystemStatusOsObserver.cpp:541-571 | stores a handled item and says whether it is new or changed |
| `Subscriptions.RunGood` | gps/core/SystemStatusOsObserver.cpp:69-281 | over every run the two maps are exact inverses without empty entries, and the items the framework was asked to subscribe to or for the data of, without those unsubscribed from, are exactly the subscribed ones |
| `Subscriptions.SubscribedIff` | gps/core/SystemStatusOsObserver.cpp:69-198 | an item with subscribers is subscribed at the framework exactly if, since somebody last began to subscribe to it, a subscription object was set, or there was one then and that was not a request for data |
| `Subscriptions.RequestHidesSubscription` | gps/core/SystemStatusOsObserver.cpp:103-124 | a run in which a plain subscription is never passed on because the item's data had been requested before |
| `Subscriptions.UpdateReplaces` | gps/core/SystemStatusOsObserver.cpp:149-174 | an update leaves the client with exactly the requested items and every other client as it was |
| `SubscriptionsReference.RunRelates` | gps/core/SystemStatusOsObserver.cpp:103-281 | over every run both maps hold exactly the pairs of the history: a subscribe adds, an update replaces, an unsubscribe removes the pairs it names, an unsubscribe-all the client's |
| `SubscriptionsReference.RequestedIff` | gps/core/SystemStatusOsObserver.cpp:69-198 | the present object was asked for the data of an item exactly if, since somebody last began to subscribe to it, the object was set or was there when somebody asked for its data |
| `SubscriptionsReference.CacheRemembers` | gps/core/SystemStatusOsObserver.cpp:541-571 | after a batch of data the cache has for each item the last value it was handled with, and the updated items are exactly those whose value changed on the way |
| `SubscriptionsReference.ResponseIsOneCall` | gps/core/SystemStatusOsObserver.cpp:513-539 | the cached ones of the items asked for are sent in one call, and nothing if there are none |
| `Subscriptions.ExactIsUnique` | gps/core/SystemStatusOsObserver.cpp:308-341 | the exactness of a notification fixes every delivery up to order |
| `Geofences.GeofenceAdapter.SaveGeofenceItem` | gps/geofence/GeofenceAdapter.cpp:644-661 | enters the fence in both maps, unpaused |
| `Geofences.GeofenceAdapter.RemoveGeofenceItem` | gps/geofence/GeofenceAdapter.cpp:663-686 | removes the fence and its key, or nothing if either is missing |
| `Geofences.GeofenceAdapter.PauseGeofenceItem` | gps/geofence/GeofenceAdapter.cpp:688-698 | sets the paused flag of a known fence only |
| `Geofences.GeofenceAdapter.ResumeGeofenceItem` | gps/geofence/GeofenceAdapter.cpp:700-710 | clears the paused flag of a known fence only |
| `Geofences.GeofenceAdapter.ModifyGeofenceItem` | gps/geofence/GeofenceAdapter.cpp:712-724 | replaces the options of a known fence only |
| `Geofences.GeofenceAdapter.GetHwIdFromClient` | gps/geofence/GeofenceAdapter.cpp:96-106 | finds the hardware id of a key, if any |
| `Geofences.GeofenceAdapter.StopClientSessions` | gps/geofence/GeofenceAdapter.cpp:50-78 | erases exactly the client's keys while walking and asks for the removal of exactly their fences |
| `Geofences.GeofenceAdapter.ClientRemovalDone` | gps/geofence/GeofenceAdapter.cpp:63-71 | erases the fence when the modem confirms |
| `Geofences.GeofenceAdapter.RestartGeofences` | gps/geofence/GeofenceAdapter.cpp:141-162 | clears both maps and asks for every fence that was in them, or does nothing if there is none |
| `Geofences.GeofenceAdapter.GeofenceReadded` | gps/geofence/GeofenceAdapter.cpp:163-173 | on success asks to pause a fence that was paused and enters it in both maps, unpaused |
| `Geofences.GeofenceAdapter.GeofenceBreach` | gps/geofence/GeofenceAdapter.cpp:786-818 | produces the notifications of one breach, in client order |
| `Geofences.GeofenceAdapter.FillClientIds` | gps/geofence/GeofenceAdapter.cpp:795-805 | fills the buffer with the client's own ids in input order |
| `Geofences.IndexExactIff` | gps/geofence/GeofenceAdapter.cpp:50-78 | in every reachable state each key leads to a fence holding it, and the maps are exact inverses if and only if no fence waits for a client's removal |
| `Geofences.RestartPreserves` | gps/geofence/GeofenceAdapter.cpp:141-176 | a restart that the modem answers in full keeps every key with its options and position under a new hardware id |
| `Geofences.RestartKeys` | gps/geofence/GeofenceAdapter.cpp:141-176 | such a restart brings back exactly the keys of the fences that were in the table when it began; what an earlier restart was still waiting for is lost |
| `Geofences.RestartKeysIff` | gps/geofence/GeofenceAdapter.cpp:141-176 | it keeps exactly the keys there were if and only if no fence waits for a client's removal |
| `Geofences.SecondRestartKeys` | gps/geofence/GeofenceAdapter.cpp:141-176 | when the modem goes down again during a restart, the next one brings back exactly the fences that had been answered for |
| `Geofences.SecondRestartLosesFence` | gps/geofence/GeofenceAdapter.cpp:141-176 | a run that loses a fence that way |
| `Geofences.StoppedReturnsIff` | gps/geofence/GeofenceAdapter.cpp:50-176 | a client that stops during a restart has keys again after the answers exactly if some fence of its own was waiting |
| `Geofences.GoneClientReturns` | gps/geofence/GeofenceAdapter.cpp:50-176 | a run after which the key of a client that has gone is back |
| `Geofences.PauseAgreesIff` | gps/geofence/GeofenceAdapter.cpp:163-173 | the modem agrees with what the client last asked for a fence exactly unless that was a pause and there have been two restarts since, or the modem refused to pause it again |
| `Geofences.RunReflects` | gps/geofence/GeofenceAdapter.cpp:644-710 | in every run a fence's flag says that its pause has seen no restart, and the modem has it paused if it has seen at most one |
| `GeofencesReference.RunShows` | gps/geofence/GeofenceAdapter.cpp:50-724 | over every proper run the tables hold for every key exactly the fence of its history: under its latest hardware id, with its latest options, led to unless its client has gone, gone once removed, or waiting for a restart's answer |
| `GeofencesReference.RemovalsAreOwn` | gps/geofence/GeofenceAdapter.cpp:50-78 | a client that goes has exactly the fences removed that its own keys lead to by that history |
| `Geofences.SecondRestartForgetsPause` | gps/geofence/GeofenceAdapter.cpp:163-173 | a run in which a fence is paused again by the first restart and not by the second |
| `Geofences.IdsForExact` | gps/geofence/GeofenceAdapter.cpp:795-805 | a client is told all occurrences of its own fences, each once, in input order, and no others |
| `Geofences.NotificationsExact` | gps/geofence/GeofenceAdapter.cpp:786-818 | the calls are exactly those to registered clients with a callback and a breached fence, each once and with exactly its ids |
| `Geofences.NotificationsInOrder` | gps/geofence/GeofenceAdapter.cpp:786-818 | the clients are called in the order in which they are registered |
| `Geofences.DeliveredIsRouted` | gps/geofence/GeofenceAdapter.cpp:786-818 | the delivered counts sum to the occurrences with a known, registered owner that has a callback |
| `AdapterTable.LocApiBase.AddAdapter` | gps/core/LocApiBase.cpp:230-239 | appends a new adapter if there is room, sending an open message, and keeps the array compact |
| `AdapterTable.LocApiBase.RemoveAdapter` | gps/core/LocApiBase.cpp:241-275 | removes the adapter, keeps the array compact, and sends close or open |
| `AdapterTable.LocApiBase.TakeOut` | gps/core/LocApiBase.cpp:246-266 | the last entry fills the hole |
| `AdapterTable.LocApiBase.GetEvtMask` | gps/core/LocApiBase.cpp:167-174 | a bit is in the mask exactly if it is not excluded and some adapter has it |
| `AdapterTable.LocApiBase.FirstHandling` | gps/core/LocApiBase.h:59-60 | asks a prefix of the adapters that ends with the first one to handle the call |
| `AdapterTable.TableIsSet` | gps/core/LocApiBase.cpp:230-275 | over every run the table holds exactly the members of a bounded set, each once |
| `AdapterTable.CloseIffEmptied` | gps/core/LocApiBase.cpp:265-271 | close is sent exactly when the last adapter goes |
| `AdapterTable.RemoveExact` | gps/core/LocApiBase.cpp:241-275 | removal takes out exactly the given adapter and creates no duplicate |
| `AdapterTable.MessagesExact` | gps/core/LocApiBase.cpp:230-275 | over every run an add or remove sends one message exactly if it changes the set: close if nobody is left, and otherwise open |
| `AdapterTable.PlacesKept` | gps/core/LocApiBase.cpp:230-275 | a new adapter comes last, the last one takes the place of one that leaves, and all others keep theirs |
| `History.Report.SetItemInReport` | gps/core/SystemStatus.cpp:1346-1361 | refreshes the newest item or appends, trims to five, and says whether it appended |
| `History.Report.GetItemInReport` | gps/core/SystemStatus.cpp:1372-1380 | gives the newest item alone, or nothing |
| `History.ReportIsTail` | gps/core/SystemStatus.cpp:1346-1361 | the report is always the last five items of the stream with adjacent repetitions dropped |
| `History.ChangeReported` | gps/core/SystemStatus.cpp:1349-1353 | a call reports a change exactly when the value differs from the previous one |
| `History.NoNeighboursEqual` | gps/core/SystemStatus.cpp:1346-1361 | no two neighbours of a report are equal |
| `History.ReportSpelled` | gps/core/SystemStatus.cpp:1346-1361 | the report is the last five changes of the stream, each with the value it began with and the time at which that was last reported |

## How the source is read

* `mCurrentSubscriber` is the list's own entry when the handle is listed, as at its only use in
  `releaseATL`; marking it inactive through the pointer is modelled by its handle.
* `notifyAllSubscribers` and the trip report read fields of an element after erasing it from the
  container; the model reads them before.
* `deleteSubscriber` compares with a subscriber it may have deleted; the model compares with the
  handle captured at entry.
* The keys of the session maps are integers in the order of the source's key comparison.
* `LocUnorderedSetMap` is not part of this model's sources; its operations are modelled by the
  comments at gps/core/SystemStatusOsObserver.cpp:153-169.
* `uint32_t` distances wrap explicitly in `Trips`; the theorems about them assume only that the
  modem's odometer does not wrap within one batch, that distances and intervals asked for are
  positive, and that the modem refuses the restart a join asks for only where that is harmless. The
  exactness results also need every live trip's true distance to fit 32 bits, which follows by itself
  on runs that are paced.
* On runs of the trips the modem reports when the odometer reaches the batch distance, before it goes
  on; once it has reported and was not started again, it goes on and reports nothing more
  (`TripDeadlines.PromptRun`).
* `1 << n` for n of 32 and more is undefined in C++; the codec takes what the machine gives for it
  as a parameter, and its theorems hold for, or quantify over, every such machine.
* An operation of the trips with several requests to the modem is one step, with the modem's answers
  as part of the event; the odometer does not move between the query and the restart it leads to.
  The restart of the geofences and each of its answers are steps of their own; answers that the modem
  still owes when it goes down do not come.
* `Geofences.Ask` records, for the theorems only, what a client last asked for a fence.

## Left out

- `BatchingAdapter::restartSessions`: it resets a copy of each trip, so nothing useful holds of it.
- Batch-full event registration and the sessions of routine batching.
- `Trips.BatchingAdapter.StopTripBatchingMultiplex`: the distance it uses is a parameter; the runs take it from a query that succeeded, while the source does not look at the query's error.
- `Trips.BatchingAdapter.UpdateTrip`: the other outcome of `restartNeeded`, a session that goes on as routine batching, leaves the trips and is not modelled.
- Power modes: `TrackingReference.RunAsks` says which one each request carries; it is not always the lowest, and no guarantee over runs is stated for them.
- Client removal in the tracking multiplexer: `stopClientSessions` stops the stream but keeps the sessions, so the guarantee is not claimed through it.
- Engine capabilities not yet known: commands that wait for them are the same commands later.
- APN name, bearer, APN type mask and AGPS type of a machine: copied into callbacks only.
- The lock status of the XTRA observer, and configuration items other than the lock and the blacklist.
- Errors of `setGpsLockSync`: a write is taken to reach the modem.
- Threads, locks and timers themselves: a critical section, a thread's exit and a handled expiry are single steps.
- Session-id and request-id counters wrapping around.
- `collate` overrides: the report history is modelled for the default one, with any equivalence as `equals`.
- Null pointers in the vectors of `notify`, which the source skips.
- The order in which sets of clients and of hardware ids are walked: the results proved do not depend on it.
- Positions, logging, debug reports, enum conversions and everything outside `gps/`: copying without state.
