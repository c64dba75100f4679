# Teleoperation control server: verified model

The control server lets remote operators drive vehicles. Each vehicle has a state machine with four
layers (SYSTEM, CONTROL, MEDIA, OPERATOR) and a set of DEGRADED causes. Timer watchdogs (dead-man
switch, command ACK, vehicle ACK) and polling watchdogs (account, telemetry, safety bus) drive it, and
so do operator sessions, handovers, operator sockets and the vehicle's own socket. The fleet service
beside it keeps tasks, position histories and battery alerts, and a simulator drives vehicles round
their stations.

This project models that logic in Dafny and proves what holds in every run of it.

## How the model is built

Code that changes state in place is a class (`Machine`, `DeadmanWatchdog`, `Manager`,
`HandoverManager`, `Registry`, `Server`, `TokenBucket`, `Engine`, the two `Store`s, `Simulator`). Each
class has a value of its own (`Layers`, `Deadman`, `Roster`, `Fleet`, `World`, ...); every method is
proved to take the value where a function on values says, and the properties of whole runs are proved
about those functions. What each step does is also proved in terms of the server's state alone
(`Effects.dfy`, `PollRuns.dfy`), so that no handler is correct only by its own definition.

| file | content |
|---|---|
| `Common.dfy` | the types every part shares |
| `StateMachine.dfy`, `StateMachineRuns.dfy` | one vehicle's machine, and every finite run of calls on it |
| `Interleavings.dfy` | session start and recovery interleaved call by call with other threads |
| `Countdowns.dfy`, `Watchdogs.dfy` | timer watchdogs over a logical clock |
| `Polling.dfy` | polling watchdogs, and the telemetry watchdog composed with the machine |
| `TokenBuckets.dfy` | the command rate limiter against the history of all calls |
| `Sessions.dfy`, `Vehicles.dfy` | session manager; per-vehicle contexts and their registry |
| `Protocol.dfy` | the server as one transition system: a world, an event, a step |
| `ProtocolSafety.dfy`, `ProtocolRuns.dfy`, `WatchdogCoverage.dfy` | the invariant, and what holds in every run |
| `Effects.dfy` | what each request, socket, timer and report does, said of the server's state alone |
| `PollRuns.dfy`, `CommandRuns.dfy` | the polling watchdogs' counters and the shared command limiter inside whole runs |
| `TelemetryRuns.dfy`, `TimedRuns.dfy` | the telemetry watchdog inside whole runs; the dead-man switch and the vehicle-ACK watchdog in whole runs with a clock |
| `Operators.dfy`, `StaleLoops.dfy` | who drives and who is checked after handovers; account-check loops that were stopped |
| `Incidents.dfy` | runs in which an intended property fails |
| `ControlServer.dfy`, `ServerRuns.dfy` | the server's objects, whose handlers refine the steps of the protocol, and their runs |
| `AlertEngine.dfy`, `PositionHistory.dfy`, `TaskStore.dfy`, `FleetSimulator.dfy` | the fleet side |

There are two granularities. In `Protocol.dfy` one handler, message, timer or poll is one atomic step
over all vehicles. In `StateMachineRuns.dfy` and `Interleavings.dfy` one call on a machine is a step, as
its lock makes it.

What the code cannot see is part of the event: whether a token was issued, whether the vehicle's
connection took the bytes, what a health check answered, the time. Session and socket ids are never
reused. Timers may expire at any moment in the protocol, also when they are not pending, which covers
every race between a timer and the call that cancels it; `Countdowns.dfy` says when they do expire, and
`TimedRuns.dfy` puts the clocks of the dead-man switch and the vehicle-ACK watchdog back into whole runs.
A polling loop that was stopped is remembered with its counter; it may finish the check that was under way,
and further ones until it notices.
The auth and telemetry watchdogs are always configured, as in production. Floating-point numbers are
reals. A task status is one of four constants or `Other`, any other string.

## Where the code does not do what its documentation says

Each of these is proved, with the exact condition under which the intended property holds.

- The set of DEGRADED causes survives a session that ends while DEGRADED: the transition to IDLE does
  not clear it (`internal/controlserver/statemachine/state.go:157-160`), so the next session can be
  CONNECTED with an old cause and then stay DEGRADED although every source recovered.
  `LeftoverCausesExactly` says when, `LeftoverCauseIsReachable` is such a run for either source, and
  `LawHoldsIffNoLeftover` shows that the leftover is exactly what breaks the law that the last reports
  decide. For the telemetry watchdog only a telemetry leftover matters (`PollsDecideIffNoLeftover`), and
  in CONNECTED healthy polls never clear it (`LeftoverOutlivesHealthyPolls`).
- Losing the operator between AUTHENTICATED and CONNECTED is overwritten by the rest of the script
  (`EarlyOperatorLossIsOverwritten`); a SAFE_MODE trigger there is not (`TriggerIsNeverLost`).
- A controller's socket that closes late, after its session ended and the vehicle was taken over, stops
  the dead-man switch and the account check of the new session. `DeadmanOffExactly` and `AuthOffExactly`
  show that this is the only way to drive while either does not run, and `DrivingUnwatched` is such a run.
- A confirmed handover changes the operator of the session, but not the account that the check asks for:
  the new operator drives unchecked, and is stopped when the old account is revoked
  (`OldAccountStopsNewOperator`). `CheckedExactly` says when the operator is checked.
- The old operator's open socket goes on driving after the handover, because it shares the session
  (`OldOperatorStillDrives`). `ForwardedByOperatorExactly` says when a forwarded command comes over a
  socket of the current operator.
- Recovery from SAFE_MODE restarts the dead-man switch and the account check, not the vehicle-ACK
  watchdog: `VehicleAckOffExactly` says when it is off, and `DrivingUnacknowledged`, in which a command
  goes unanswered and the operator connects again, ends CONNECTED without it.
- Every forward restarts the single vehicle-ACK timer, so a steady stream of commands hides missing
  ACKs: `SilentExactly` says when the watchdog has not fired, and `SilenceIsMasked` is a stream of any
  length that is never acknowledged and never stopped.
- An EMERGENCY_STOP message passes the rate limiter, which all vehicles share, and is ignored once its
  session has ended: `StopMessageExactly` says when it stops the vehicle, and in `StopIsRefused` the
  limiter refuses it. The HTTP emergency stop does not pass the limiter.
- Stopping the account check cancels a check under way, which counts as a failure, and its loop may then
  still drop the operator: of the next session, in `StaleCheckStopsNextSession`. `StaleDropExactly` says
  when a stopped loop can still do so.
- The in-memory prune drops a sample lying exactly at the cutoff, the SQL prune keeps it
  (`PrunesAgreeExactly`).

## Model

| member | source | states |
|---|---|---|
| ProtocolRuns.ForwardIsSafe | internal/controlserver/transport/websocket.go:307-347 | in every run, whatever reaches a vehicle is a movement command from the one live ACTIVE_OPERATOR session of that vehicle, while the vehicle is CONNECTED or DEGRADED with CONTROL_ACTIVE, and the step changes neither the machine nor the roster |
| ProtocolRuns.ForwardExactly | internal/controlserver/command/engine.go:75-170 | a command is forwarded if and only if it is a movement command over a socket of the indexed controller, the vehicle is drivable and linked, the limiter admits it and the connection takes it |
| ProtocolRuns.RunIsSafe | cmd/control-server/main.go:341-481 | in every world of every run SYSTEM rests in IDLE, CONNECTED, DEGRADED or SAFE_MODE; it is out of IDLE iff some live session controls the vehicle, and at most one does; out of IDLE the telemetry loop runs with its counter below the threshold; HANDOVER_PENDING has a pending record; a drivable vehicle has an operator |
| ProtocolRuns.RunKeepsInv | cmd/control-server/main.go:272-335 | the server invariant holds in every world of every run from a new server |
| ProtocolSafety.StepKeepsInv | cmd/control-server/main.go:272-335 | every handler, message, timer and poll keeps the server invariant |
| ProtocolRuns.NothingForwardedInSafeMode | internal/controlserver/transport/websocket.go:307-312 | between SAFE_MODE and a later forward to the same vehicle, the vehicle's controller reconnected or its session ended |
| ProtocolRuns.SafeModeIsSticky | internal/controlserver/statemachine/state.go:63-71 | no step leaves SAFE_MODE except a reconnect of the vehicle's controller or the end of its session |
| ProtocolRuns.StepIsLocal | internal/controlserver/vehiclecontext/registry.go:108-136 | a step that is not fleet-wide leaves the whole context of every vehicle but its subject as it was |
| ProtocolRuns.StepSeen | internal/controlserver/transport/websocket.go:126-347 | the context of any one vehicle after any step is the effect of that event on that vehicle alone |
| ProtocolRuns.FleetStopEffect | internal/controlserver/safety/bus_watchdog.go:139-157 | a fleet-wide stop leaves exactly the controlled vehicles in SAFE_MODE and changes no other vehicle |
| ProtocolRuns.FleetEndEffect | cmd/control-server/main.go:451-479 | a session end without an id leaves exactly the controlled vehicles in IDLE and changes no other vehicle |
| ProtocolRuns.StopMessageExactly | internal/controlserver/command/engine.go:84-153 | an EMERGENCY_STOP message leaves the vehicle in SAFE_MODE iff it was there already, or the socket's session is still alive, the vehicle is controlled and the shared limiter admits the message |
| ProtocolRuns.OperatorChangesOnlyByConfirm | internal/controlserver/session/handover.go:75-100 | a session's operator changes only by a confirm of the recorded target for the vehicle that session controls; its vehicle and role never change |
| ProtocolRuns.HandoverKeepsControl | internal/controlserver/session/handover.go:51-115 | handover steps change nothing of any machine but OPERATOR, and neither the live sessions nor who controls what |
| Effects.SessionStartExactly | cmd/control-server/main.go:341-384 | a start request creates a session iff it names a vehicle and an operator, the vehicle is linked and a request to observe finds a controller; the session observes iff the vehicle has a controller; otherwise nothing changes |
| Effects.SessionStartOnVehicle | cmd/control-server/main.go:389-407 | the vehicle's whole context afterwards: CONNECTED with an active operator and fresh watchdogs iff the session took it over, else unchanged |
| Effects.SessionEndExactly | cmd/control-server/main.go:427-450 | exactly that session is gone and exactly the vehicle it controlled is free |
| Effects.SessionEndOnVehicle | cmd/control-server/main.go:427-479 | the whole context of every vehicle afterwards: IDLE without an operator or a running watchdog iff its controller's session ended, else unchanged |
| Effects.FleetEndExactly | cmd/control-server/main.go:451-479 | a session end without an id leaves no session and no controller |
| Effects.RequestExactly | internal/controlserver/session/handover.go:51-70 | a handover is recorded and OPERATOR pending iff the vehicle has an active operator; otherwise nothing changes |
| Effects.ConfirmExactly | internal/controlserver/session/handover.go:75-100 | a handover takes place iff it is recorded, its target asks and a token was issued; then the record is gone and exactly the controller's session has the new operator |
| Effects.CancelExactly | internal/controlserver/session/handover.go:103-115 | a recorded handover is dropped and OPERATOR active again; otherwise nothing changes |
| Effects.HandoverAnswersExactly | internal/controlserver/session/handover.go:51-100 | each answer to a handover request and to a confirm by its own condition |
| Effects.StopRequestExactly | cmd/control-server/main.go:590-622 | the whole context of every vehicle after a stop: SAFE_MODE iff it is controlled and meant, else unchanged |
| Effects.SocketOpensExactly | internal/controlserver/transport/websocket.go:91-176 | a socket opens iff its session lives, and remembers the session as it is |
| Effects.SocketOpensOnVehicle | internal/controlserver/transport/websocket.go:126-147 | the whole context afterwards: CONNECTED with a fresh dead-man switch and account check iff its controller connected in SAFE_MODE, else unchanged |
| Effects.SocketClosesExactly | internal/controlserver/transport/websocket.go:227-234 | the socket is gone, and with it the session of an observer and no other |
| Effects.SocketClosesOnVehicle | internal/controlserver/transport/websocket.go:235-268 | the whole context afterwards: a controller's vehicle without dead-man switch and account check, and in SAFE_MODE without an operator iff the session lives and it was not in SAFE_MODE |
| Effects.MessageExactly | internal/controlserver/transport/websocket.go:307-347 | a message changes nothing but its vehicle's context and the limiter, the latter only if it is handled and well-formed |
| Effects.MessageOnVehicle | internal/controlserver/command/engine.go:75-170 | which messages set the dead-man deadline, stop the vehicle or start the vehicle-ACK timer, each iff it is handled and admitted; and nothing else of the context changes but the command-ACK timer |
| Effects.AnswerExactly | internal/controlserver/transport/websocket.go:307-347 | each answer to a message by its own condition |
| Effects.DeadmanExpiryExactly | internal/controlserver/safety/detector.go:106-146 | after an expiry the vehicle is in SAFE_MODE iff it was or it is controlled and the switch was running, which is stopped then; the whole context is given |
| Effects.VehicleAckExpiryExactly | internal/controlserver/safety/detector.go:315-355 | the same of the vehicle-ACK watchdog |
| Effects.AckExpiryExactly | internal/controlserver/safety/detector.go:199-235 | after a command timed out the vehicle is in SAFE_MODE iff it is controlled |
| Effects.LeavingExactly | internal/vehicleconnection/handler.go:83-161 | a vehicle that disconnects is not linked, and in SAFE_MODE iff it is controlled |
| Effects.JoinAckAndLookExactly | internal/vehicleconnection/handler.go:83-161 | a vehicle that connects is linked; its ACK clears the pending timer and nothing else |
| Effects.MediaReportExactly | cmd/control-server/main.go:549-584 | MEDIA, SYSTEM and the causes after a media report, from every state between handlers |
| WatchdogCoverage.DeadmanOffExactly | internal/controlserver/transport/websocket.go:227-239 | a drivable vehicle is without its dead-man switch iff, since the switch was last started, a controller's socket of an ended session closed late |
| WatchdogCoverage.AuthOffExactly | internal/controlserver/transport/websocket.go:227-239 | no account-check loop runs for a drivable vehicle iff, since its watchdogs were last started, a controller's socket of an ended session closed late |
| Operators.CheckedExactly | internal/controlserver/session/handover.go:75-100 | in every run the account check of a drivable vehicle asks for its current operator's account iff, since the check was last started, no controller's socket of an ended session closed late and the last handover, if any, did not go to another operator |
| Operators.AccountFollowsStart | internal/controlserver/safety/auth_watchdog.go:73-126 | in every run the running loop asks for the account it was started for, and that is the operator's iff the vehicle was not handed away since |
| Operators.ForwardedByOperatorExactly | internal/controlserver/transport/websocket.go:314-337 | in every run a forwarded command comes over a socket of the session's current operator iff the last handover of the vehicle since the socket opened, if any, did not go to another operator |
| Operators.SocketOperatorExactly | internal/controlserver/session/manager.go:163-173 | the same for every open socket of a live controller, whether it sends or not |
| Incidents.OldAccountStopsNewOperator | internal/controlserver/safety/auth_watchdog.go:99-126 | for any vehicle and operators, a run in which the handed-over vehicle is stopped because the account of the operator who left was revoked |
| Incidents.OldOperatorStillDrives | internal/controlserver/command/engine.go:102-112 | for any vehicle and operators, a run after which a command over the old operator's socket is forwarded although the session is the new operator's |
| Incidents.DrivingUnwatched | internal/controlserver/transport/websocket.go:227-239 | for any vehicle, operators and sessions, a six-step run of the server that ends CONNECTED without a dead-man switch and without an account check |
| WatchdogCoverage.VehicleAckOffExactly | internal/controlserver/transport/websocket.go:126-147 | a controlled vehicle is without its vehicle-ACK watchdog iff the watchdog expired since the controlling session started |
| Incidents.DrivingUnacknowledged | internal/controlserver/transport/websocket.go:126-147 | for any vehicle, operator and session, a run in which a forwarded command starts the timer, the timer expires, the operator connects again, and the vehicle is CONNECTED with the vehicle-ACK watchdog off |
| Incidents.StopIsRefused | internal/controlserver/command/engine.go:84-92 | a run in which a hundred messages at one instant make the limiter refuse the driver's EMERGENCY_STOP, and the vehicle stays CONNECTED |
| Incidents.StaleCheckStopsNextSession | internal/controlserver/safety/auth_watchdog.go:73-126 | a run in which the cancelled account check of an ended session puts the next session, of another operator, into SAFE_MODE |
| StaleLoops.LoopsAreConserved | internal/controlserver/safety/auth_watchdog.go:73-126 | in every run the stopped loops of a vehicle that are left are those that were stopped less those that fired late, and every counter is below the threshold |
| StaleLoops.StaleDropExactly | internal/controlserver/safety/auth_watchdog.go:99-126 | in every run a stopped loop can still put a drivable vehicle into SAFE_MODE, by one or two failing checks, iff more of its loops were stopped than have fired late |
| TelemetryRuns.TelemetryCauseInRun | internal/controlserver/telemetrycheck/watchdog.go:92-124 | in every run, over every stretch in which a vehicle stays drivable, whatever else happens, its telemetry cause is active iff the trailing run of its failed polls has reached the threshold, given none was active at the start and no stopped loop reports late |
| TelemetryRuns.RecoveredIsFresh | internal/controlserver/transport/websocket.go:126-147 | in every run, right after a controller leaves SAFE_MODE by reconnecting, its vehicle is drivable without a telemetry cause and its telemetry loop still runs with the counter it had, below the threshold |
| TelemetryRuns.FailingFeedDegradesAgain | internal/controlserver/telemetrycheck/watchdog.go:92-124 | in every run, after such a recovery, while the vehicle stays drivable and no telemetry check succeeds, it is DEGRADED with the telemetry cause once the polls complete the counter, hence after two failed polls at the latest; and not before, unless a stopped loop reports late |
| TimedRuns.SwitchFollowsHolds | internal/controlserver/safety/detector.go:60-146 | in every run a vehicle's dead-man switch counts down iff it is running and was held since it was started, and then to the timeout after the last hold |
| TimedRuns.HoldIsRecent | internal/controlserver/safety/detector.go:77-146 | in every timed run with urgent expiries, at every event that is not an expiry, a drivable and watched vehicle that was held since its switch started was last held less than 10 s ago |
| TimedRuns.ExpiryStops | internal/controlserver/safety/detector.go:106-138 | in every run the expiry of a timer that has run out puts its vehicle into SAFE_MODE and stops the watchdog |
| TimedRuns.RunOutStops | internal/controlserver/safety/detector.go:106-138 | in every timed run a vehicle whose dead-man switch or vehicle-ACK watchdog has run out is in SAFE_MODE before anything but an expiry happens |
| TimedRuns.RunIsQuiet | internal/controlserver/safety/detector.go:60-104 | in every run the switch of a vehicle without a controller does not count down, and no session can start it |
| TimedRuns.AckTimerFollowsForwards | internal/controlserver/safety/detector.go:267-313 | in every run a vehicle's ACK watchdog counts down iff it is running and a command was forwarded since the last ACK, and then to the timeout after the last forward |
| TimedRuns.ForwardIsRecent | internal/controlserver/safety/detector.go:293-355 | in every timed run with urgent expiries, at every event that is not an expiry, a drivable vehicle whose ACK watchdog has not expired since the session started and which was sent a command since its last ACK was sent the last one less than 1 s ago |
| TimedRuns.ForwardIsHeld | internal/controlserver/command/engine.go:93-117 | in every timed run a forwarded command is backed by a hold less than 10 s old, unless the vehicle is unwatched or was not yet held since its switch started |
| StateMachineRuns.ReachableIsCoherent | internal/controlserver/statemachine/state.go:147-216 | in every reachable state CONTROL is a function of SYSTEM, DEGRADED has a cause and SAFE_MODE has none |
| StateMachineRuns.ReportsNeverTouchSafety | internal/controlserver/statemachine/state.go:233-273 | after any run a media or telemetry report changes neither CONTROL nor OPERATOR and moves SYSTEM only between CONNECTED and DEGRADED |
| StateMachineRuns.LeftoverCausesExactly | internal/controlserver/statemachine/state.go:147-200 | outside DEGRADED causes remain iff the run tore a DEGRADED session down to IDLE and has seen neither DEGRADED nor SAFE_MODE since |
| StateMachineRuns.LeftoverCauseIsReachable | internal/controlserver/statemachine/state.go:157-160 | for either source, a run that starts its second session CONNECTED with the first one's cause |
| StateMachineRuns.ReportsDecide | internal/controlserver/statemachine/state.go:184-273 | from CONNECTED without causes, after any mix of reports the causes are exactly the sources whose last decisive report was bad, and SYSTEM is DEGRADED iff there is one |
| StateMachineRuns.InterleavingIsIrrelevant | internal/controlserver/statemachine/state.go:233-273 | two report sequences that agree source by source lead to the same machine, however they are interleaved |
| StateMachineRuns.LawHoldsIffNoLeftover | internal/controlserver/statemachine/state.go:184-200 | in CONNECTED the last reports decide DEGRADED for all report sequences iff no cause is left over |
| StateMachineRuns.MediaIsLastReport | internal/controlserver/statemachine/state.go:233-249 | MEDIA is the last media report of any mix |
| StateMachineRuns.TableByTarget | internal/controlserver/statemachine/state.go:63-71 | for every target state, the states from which the table allows it |
| StateMachineRuns.TransitionExactly | internal/controlserver/statemachine/state.go:147-179 | all five parts of a coherent machine after a transition |
| StateMachineRuns.OperatorExactly | internal/controlserver/statemachine/state.go:280-289 | OPERATOR is what it is set to, and losing it in CONNECTED or DEGRADED is SAFE_MODE |
| StateMachineRuns.ConnectExactly | internal/controlserver/statemachine/state.go:204-216 | the guarded step reaches CONNECTED iff SYSTEM is AUTHENTICATED |
| StateMachineRuns.MediaExactly | internal/controlserver/statemachine/state.go:233-249 | SYSTEM, MEDIA and the causes after a media report, from every state |
| StateMachineRuns.TelemetryExactly | internal/controlserver/statemachine/state.go:260-273 | SYSTEM and the causes after a telemetry report, from every state |
| Interleavings.ScriptOutcome | cmd/control-server/main.go:389-398 | for every interleaving of a session start or a recovery with other threads' calls, the machine ends in SAFE_MODE iff a trigger fell after the first call or an operator loss after the third, and otherwise ends drivable |
| Interleavings.TriggerIsNeverLost | internal/controlserver/transport/websocket.go:126-135 | a SAFE_MODE trigger anywhere after the script's first call leaves the machine in SAFE_MODE at the end |
| Interleavings.SystemDuring | internal/controlserver/statemachine/state.go:136-216 | SYSTEM at any point of an interleaving, from the number of the script's calls made and whether it was stopped |
| Effects.ScriptsAreTheHandlers | cmd/control-server/main.go:389-398 | the session start and the recovery of the protocol make exactly the machine calls that are interleaved there |
| Interleavings.EarlyOperatorLossIsOverwritten | internal/controlserver/statemachine/state.go:280-289 | the interleaving in which a lost operator is overwritten and the vehicle ends CONNECTED |
| StateMachine.Machine.constructor | internal/controlserver/statemachine/state.go:97-105 | a new machine is IDLE, without an operator and without causes |
| StateMachine.Machine.TransitionSystem | internal/controlserver/statemachine/state.go:136-179 | succeeds iff the table allows it, with its CONTROL, OPERATOR and cause updates; otherwise nothing changes |
| StateMachine.Machine.EnterDegradedFor | internal/controlserver/statemachine/state.go:184-189 | the cause becomes active and CONNECTED becomes DEGRADED |
| StateMachine.Machine.ExitDegradedFor | internal/controlserver/statemachine/state.go:195-200 | the cause is cleared and DEGRADED ends only with the last cause |
| StateMachine.Machine.TransitionToConnected | internal/controlserver/statemachine/state.go:204-216 | succeeds iff SYSTEM is AUTHENTICATED, so a SAFE_MODE trigger in between is not overwritten |
| StateMachine.Machine.TransitionMedia | internal/controlserver/statemachine/state.go:233-249 | the whole new machine after a media report |
| StateMachine.Machine.TransitionTelemetry | internal/controlserver/statemachine/state.go:260-273 | the whole new machine after a telemetry report |
| StateMachine.Machine.TransitionOperator | internal/controlserver/statemachine/state.go:280-289 | the whole new machine after an OPERATOR change; a lost operator is SAFE_MODE in CONNECTED and DEGRADED |
| Countdowns.CountdownExactly | internal/controlserver/safety/detector.go:60-146 | for every trace a timer watchdog runs iff no stop and no lapse came since its last start; a deadline is pending iff the last signal armed it, and is that signal plus the timeout; it fires iff that signal lapses |
| Countdowns.FiresExactly | internal/controlserver/safety/detector.go:106-146 | it fires after exactly those signals that armed it while running and were followed by a timeout of silence |
| Countdowns.OncePerStart | internal/controlserver/safety/detector.go:106-114 | between two fires there is a start, and no stop between that start and the second fire |
| Countdowns.SilentExactly | internal/controlserver/safety/detector.go:106-146 | the watchdog has not fired iff no signal armed it while running and was followed by a timeout of silence |
| Countdowns.SteadyArmingMasksSilence | internal/controlserver/safety/detector.go:293-303 | signals that arm faster than the timeout keep it from ever firing |
| Watchdogs.DeadmanRefinesCountdown | internal/controlserver/safety/detector.go:60-104 | the dead-man switch refines the countdown, holds arming it; a deadline exists iff armed and not stopped |
| Watchdogs.DeadmanExactly | internal/controlserver/safety/detector.go:60-146 | for every trace: counting iff armed and not stopped, the deadline is the last hold plus the timeout, never before the first hold; it fires iff that hold lapses |
| Watchdogs.VehicleAckRefinesCountdown | internal/controlserver/safety/detector.go:267-313 | the vehicle-ACK watchdog refines the countdown, forwards arming and ACKs disarming it |
| Watchdogs.VehicleAckExactly | internal/controlserver/safety/detector.go:267-355 | for every trace: a deadline is pending iff the last signal is a forward made while running, and is that forward plus the timeout; it fires iff that forward lapses |
| Watchdogs.SilenceIsMasked | internal/controlserver/safety/detector.go:293-303 | for every n, n forwards half a timeout apart without any ACK never fire the vehicle-ACK watchdog |
| Watchdogs.DeadmanWatchdog.constructor | internal/controlserver/safety/detector.go:43-49 | a new switch is neither armed nor stopped |
| Watchdogs.DeadmanWatchdog.Start | internal/controlserver/safety/detector.go:60-73 | running and unarmed, whatever it was before |
| Watchdogs.DeadmanWatchdog.Reset | internal/controlserver/safety/detector.go:77-93 | a hold arms or restarts the countdown, and does nothing once stopped |
| Watchdogs.DeadmanWatchdog.Stop | internal/controlserver/safety/detector.go:96-104 | stopped with no countdown |
| Watchdogs.DeadmanWatchdog.Fire | internal/controlserver/safety/detector.go:106-146 | stops and triggers SAFE_MODE, unless already stopped: then neither switch nor machine changes |
| Watchdogs.VehicleAckWatchdog.constructor | internal/controlserver/safety/detector.go:253-260 | a new watchdog is stopped |
| Watchdogs.VehicleAckWatchdog.Start | internal/controlserver/safety/detector.go:267-278 | running with nothing pending |
| Watchdogs.VehicleAckWatchdog.Stop | internal/controlserver/safety/detector.go:280-289 | stopped with nothing pending |
| Watchdogs.VehicleAckWatchdog.CommandForwarded | internal/controlserver/safety/detector.go:293-303 | restarts the one timer, and does nothing once stopped |
| Watchdogs.VehicleAckWatchdog.AckReceived | internal/controlserver/safety/detector.go:306-313 | nothing is pending |
| Watchdogs.VehicleAckWatchdog.Fire | internal/controlserver/safety/detector.go:315-355 | stops and triggers SAFE_MODE, unless already stopped |
| Watchdogs.AckTimeoutWatcher.CommandReceived | internal/controlserver/safety/detector.go:178-187 | a timer is pending for this command |
| Watchdogs.AckTimeoutWatcher.CommandAcked | internal/controlserver/safety/detector.go:190-197 | no timer is pending |
| Watchdogs.AckTimeoutWatcher.Fire | internal/controlserver/safety/detector.go:199-235 | clears the timer and triggers SAFE_MODE |
| Polling.RunAuth | internal/controlserver/safety/auth_watchdog.go:99-126 | the loop fires iff some block of threshold consecutive polls failed, once, at the end of the first such block |
| Polling.RunBus | internal/controlserver/safety/bus_watchdog.go:98-123 | the loop fires at exactly the polls whose trailing run of failures is a multiple of the threshold |
| Polling.BusActsPerOutage | internal/controlserver/safety/bus_watchdog.go:98-123 | in a run of n failures the bus watchdog fires exactly n / threshold times |
| PollRuns.BusCounterFollowsPolls | internal/controlserver/safety/bus_watchdog.go:98-123 | in every run the server's counter is the trailing run of failed bus polls modulo the threshold |
| PollRuns.BusPollExactly | internal/controlserver/safety/bus_watchdog.go:98-157 | in every run a bus poll puts every controlled vehicle into SAFE_MODE iff the trailing run of failed polls reaches a positive multiple of the threshold, and changes no vehicle otherwise |
| PollRuns.AuthCounterFollowsPolls | internal/controlserver/safety/auth_watchdog.go:99-126 | in every run the running loop's counter is the trailing run of failed account polls since the check was last started |
| PollRuns.AuthPollExactly | internal/controlserver/safety/auth_watchdog.go:99-162 | in every run an account poll drops the operator, and with it a drivable vehicle to SAFE_MODE, iff that run reaches the threshold; otherwise it changes nothing but the counter |
| PollRuns.StaleCheckExactly | internal/controlserver/safety/auth_watchdog.go:99-126 | what a check of a stopped loop leaves of the vehicle and of the loop: nothing if it fires, a zero counter after a success |
| PollRuns.StaleLoopCountsStreaks | internal/controlserver/safety/auth_watchdog.go:99-126 | in every run a stopped loop drops the operator at the first check at which its failures in a row reach the threshold; failures with a success between them do not add up |
| PollRuns.TelemetryPollExactly | internal/controlserver/telemetrycheck/watchdog.go:92-124 | the counter and the report of one telemetry poll, from every state between handlers |
| PollRuns.StaleTelemetryExactly | internal/controlserver/telemetrycheck/watchdog.go:92-124 | the same of a check of a stopped telemetry loop |
| Polling.StreakIsLongestBlock | internal/controlserver/safety/auth_watchdog.go:99-126 | the counter is the length of the longest trailing block of failed polls |
| Polling.CountIsStreakRemainder | internal/controlserver/safety/bus_watchdog.go:105-121 | a counter that resets when it acts is the trailing run modulo the threshold |
| Polling.TelemetryCauseExactly | internal/controlserver/telemetrycheck/watchdog.go:92-124 | for every sequence of polls and media reports on a drivable machine without a telemetry cause, also one with a video cause left over, the telemetry cause is active iff the trailing run of failed polls has reached the threshold |
| Polling.PollsDecideIffNoLeftover | internal/controlserver/statemachine/state.go:260-273 | on a drivable machine that law holds for all sequences iff no telemetry cause is left over |
| Polling.LeftoverOutlivesHealthyPolls | internal/controlserver/statemachine/state.go:260-273 | a telemetry cause left over in CONNECTED survives any number of healthy polls |
| Polling.StillFailingFeedDegradesAgain | internal/controlserver/telemetrycheck/watchdog.go:92-124 | on such a machine, while every poll fails, the cause becomes active at exactly the poll that completes the counter, and DEGRADED with it |
| Polling.CounterStaysBelowLimit | internal/controlserver/telemetrycheck/watchdog.go:92-124 | the counter is below the threshold after every poll in every SYSTEM state |
| Polling.AuthWatchdog.Start | internal/controlserver/safety/auth_watchdog.go:73-86 | a new loop for the given account with a zero counter; a loop that was running is stopped |
| Polling.AuthWatchdog.Stop | internal/controlserver/safety/auth_watchdog.go:89-97 | no loop runs; one that did may still finish checks |
| Polling.AuthWatchdog.Poll | internal/controlserver/safety/auth_watchdog.go:99-162 | one poll of the running loop: fires at the threshold by dropping the operator, and stops polling then |
| Polling.AuthWatchdog.FinishStale | internal/controlserver/safety/auth_watchdog.go:99-162 | a check of a stopped loop: the loop's own counter still decides whether the operator is dropped, and a loop that fires ends |
| Polling.TelemetryWatchdog.Start | internal/controlserver/telemetrycheck/watchdog.go:68-79 | a new loop with a zero counter; a loop that was running is stopped |
| Polling.TelemetryWatchdog.Stop | internal/controlserver/telemetrycheck/watchdog.go:82-90 | no loop runs; one that did may still finish checks |
| Polling.TelemetryWatchdog.Poll | internal/controlserver/telemetrycheck/watchdog.go:92-124 | one poll of the running loop: reports a fresh feed at once and a stale one at the threshold |
| Polling.TelemetryWatchdog.FinishStale | internal/controlserver/telemetrycheck/watchdog.go:92-124 | a check under way when its loop was stopped still reports, by the loop's own counter |
| TokenBuckets.BucketDecides | internal/controlserver/command/engine.go:199-222 | the bucket accepts a call iff, for every window that starts at the creation or an earlier call, the accepted calls in it plus one stay within burst + rate * length |
| TokenBuckets.LevelIsTightestRoom | internal/controlserver/command/engine.go:208-222 | the bucket's level is the room left in its tightest window |
| TokenBuckets.NoWindowOverfilled | internal/controlserver/command/engine.go:199-222 | no window of any position and length ever holds more than burst + rate * length accepted calls |
| CommandRuns.LimiterFollowsCalls | internal/controlserver/command/engine.go:75-92 | in every run the shared limiter is where the history of all well-formed messages of live sessions on vehicles out of SAFE_MODE leaves it, and admitted each of them iff that history did |
| CommandRuns.ForwardsAreLimited | internal/controlserver/command/engine.go:158-222 | in every run no window of any length sees more than 100 + 100 * length commands forwarded to all vehicles together |
| TokenBuckets.TokenBucket.constructor | internal/controlserver/command/engine.go:199-206 | a new bucket is full |
| TokenBuckets.TokenBucket.Allow | internal/controlserver/command/engine.go:208-222 | the object accepts exactly the calls the whole history admits |
| TokenBuckets.TokenBucket.Take | internal/controlserver/command/engine.go:208-222 | the arithmetic of one call refines the refill-and-take of the bucket value |
| Sessions.IndexAgreesWithScan | internal/controlserver/session/manager.go:247-259 | in a consistent roster a vehicle is indexed iff a scan finds a controller, and there is at most one |
| Sessions.StartKeepsConsistent | internal/controlserver/session/manager.go:66-92 | a session start keeps index and sessions in agreement; the stale-lock branch is dead: the new session observes iff the vehicle is indexed |
| Sessions.ReleaseKeepsConsistent | internal/controlserver/session/manager.go:144-157 | a release keeps the agreement and frees exactly the controller's vehicle |
| Sessions.ReleaseExactly | internal/controlserver/session/manager.go:144-157 | exactly that session ends, observer or not, and exactly the vehicle it controlled is free |
| Sessions.StartExactly | internal/controlserver/session/manager.go:66-92 | exactly one session is added, with the given operator and the role that the index decides |
| Sessions.ReassignKeepsConsistent | internal/controlserver/session/manager.go:163-173 | a change of operator keeps the agreement |
| Sessions.Manager.StartSession | internal/controlserver/session/manager.go:66-92 | both maps after a start, and the role the session gets |
| Sessions.Manager.HasActiveOperatorSession | internal/controlserver/session/manager.go:120-129 | true iff some live session controls a vehicle for that operator |
| Sessions.Manager.IsVehicleLocked | internal/controlserver/session/manager.go:132-141 | true iff the vehicle has a live controller |
| Sessions.Manager.GetSessionByVehicle | internal/controlserver/session/manager.go:247-259 | the live controller of that vehicle, if any |
| Sessions.Manager.ReleaseSession | internal/controlserver/session/manager.go:144-157 | both maps after a release |
| Sessions.Manager.UpdateOperator | internal/controlserver/session/manager.go:163-173 | the scan updates the indexed controller in whatever order the map is iterated |
| Sessions.Manager.EndSession | internal/controlserver/session/manager.go:176-181 | both maps are empty |
| Sessions.Manager.ActiveVehicleIds | internal/controlserver/session/manager.go:264-276 | every vehicle with a session, each exactly once, in whatever order |
| Vehicles.VehicleContext.constructor | internal/controlserver/vehiclecontext/registry.go:108-129 | a new context whose watchdogs all act on its own new machine |
| Vehicles.Registry.Get | internal/controlserver/vehiclecontext/registry.go:108-129 | the same context on every access; no two contexts share a machine or watchdog; no other context changes |
| Vehicles.Registry.OnlyChanged | internal/controlserver/vehiclecontext/registry.go:27-52 | changing the parts of one context changes that vehicle's entry alone |
| ControlServer.Advance | cmd/control-server/main.go:389-407 | the session-start script on the vehicle's objects: CONNECTED with all watchdogs started |
| ControlServer.RecoverFromSafeMode | internal/controlserver/transport/websocket.go:126-147 | the recovery script, which restarts two of the watchdogs |
| ControlServer.TearDown | cmd/control-server/main.go:432-446 | the session-end script: all watchdogs stopped, SYSTEM to IDLE |
| ControlServer.Drop | internal/controlserver/transport/websocket.go:227-268 | a controller's disconnect: SAFE_MODE without an operator only if the session still lives |
| ControlServer.ActOn | internal/controlserver/vehiclecontext/registry.go:108-136 | any handler's action on the context of one vehicle has its effect there and changes no other vehicle |
| ControlServer.TripAll | internal/controlserver/safety/bus_watchdog.go:139-157 | trips each listed vehicle once and no other, in any order |
| ControlServer.TearDownAll | cmd/control-server/main.go:459-476 | tears down each listed vehicle that has a controller and no other, in any order |
| ControlServer.AckTimerLeavesNoTrace | internal/controlserver/transport/websocket.go:314-346 | a command-ACK timer started before a command and settled after it has no effect on the outcome |
| ControlServer.HandoverManager.RequestHandover | internal/controlserver/session/handover.go:51-70 | accepted iff the vehicle has an active operator; then recorded and HANDOVER_PENDING |
| ControlServer.HandoverManager.ConfirmHandover | internal/controlserver/session/handover.go:75-100 | accepted iff recorded, by the recorded target and with a token; otherwise nothing changes |
| ControlServer.HandoverManager.CancelHandover | internal/controlserver/session/handover.go:103-115 | a recorded handover is dropped and the operator active again |
| ControlServer.Server.HandleSessionStart | cmd/control-server/main.go:341-384 | the world after the request, and each refusal by its own condition |
| ControlServer.Server.Admit | cmd/control-server/main.go:341-365 | a request is admitted iff it names a vehicle and an operator, finds a controller if it asks to observe, and the vehicle is linked |
| ControlServer.Server.HandleSessionEnd | cmd/control-server/main.go:420-481 | the world after either path |
| ControlServer.Server.HandleHandoverRequest | cmd/control-server/main.go:492-511 | the world after the request and its answer |
| ControlServer.Server.HandleHandoverConfirm | cmd/control-server/main.go:513-531 | the world after the request and its answer |
| ControlServer.Server.HandleHandoverCancel | cmd/control-server/main.go:533-547 | the world after the request |
| ControlServer.Server.HandleEmergencyStop | cmd/control-server/main.go:590-622 | the world after a stop of one vehicle or of every vehicle with a session |
| ControlServer.Server.ServeSocket | internal/controlserver/transport/websocket.go:91-176 | the world after a socket opened, a controller's one recovering its vehicle |
| ControlServer.Server.HandleMessage | internal/controlserver/transport/websocket.go:307-347 | the world after a message, the answer, and exactly which command was forwarded |
| ControlServer.Server.HandleCommand | internal/controlserver/command/engine.go:75-170 | the world after parse, limit and routing, the answer, and whether the vehicle was reached |
| ControlServer.Server.HandleSocketClosed | internal/controlserver/transport/websocket.go:227-280 | the world after an observer's or a controller's disconnect |
| ControlServer.Server.HandleLocal | internal/vehicleconnection/handler.go:123-161 | the world after an event of one vehicle: its ACK, its link, a media report, a timer or a poll |
| ControlServer.Server.HandleBusPoll | internal/controlserver/safety/bus_watchdog.go:98-157 | the world after one poll of the safety bus |
| ControlServer.Server.Dispatch | cmd/control-server/main.go:155-335 | the objects take exactly the steps of the protocol, forward exactly its commands and keep its invariant, for every event |
| ServerRuns.Run | cmd/control-server/main.go:155-335 | a new server that handles any sequence of enabled events goes through a run of the protocol, and whatever it forwards comes from the one live controller of a drivable vehicle |
| AlertEngine.TierIsTwoTriggers | internal/fleetservice/alertengine.go:28-106 | for every sequence of statuses of any vehicles, a vehicle is critical iff some own reading was below 10 with none at 15 or more since, and at least warned iff some was below 20 with none at 25 or more since |
| AlertEngine.AlertsAreSeparated | internal/fleetservice/alertengine.go:77-106 | two warnings of a vehicle are separated by a reading of at least 25, two critical alerts by one of at least 15 |
| AlertEngine.TierPersists | internal/fleetservice/alertengine.go:28-55 | a tier lasts until a reading reaches its clear threshold |
| AlertEngine.AlertExactly | internal/fleetservice/alertengine.go:77-106 | an alert is raised iff a reading makes its vehicle's tier worse, also by two tiers at once, and for the tier it is then |
| AlertEngine.Engine.Evaluate | internal/fleetservice/alertengine.go:77-106 | the tier map after a status, and the alert raised iff the tier got worse |
| PositionHistory.ThrottlesAgree | internal/fleetservice/store.go:760-771 | on spaced samples the last-sample throttle and the any-sample SQL condition accept exactly the same |
| PositionHistory.PrunedIsBounded | internal/fleetservice/store.go:172-178 | a prune keeps samples ordered and spaced, and leaves at most 259200 of them (one more for the SQL prune) |
| PositionHistory.KeptExactly | internal/fleetservice/fake_store.go:268-282 | a prune keeps exactly the samples on the right side of the cutoff |
| PositionHistory.PrunesAgreeExactly | internal/fleetservice/store.go:816-822 | the two prunes agree iff no sample lies exactly at the cutoff |
| PositionHistory.Store.RecordPosition | internal/fleetservice/fake_store.go:242-256 | appends iff a position is given and no sample is recent, and keeps all samples ordered and at least 10 s apart |
| PositionHistory.Store.Prune | internal/fleetservice/fake_store.go:268-282 | prunes every vehicle in any order; afterwards none exceeds the bound |
| TaskStore.ChainIsShort | internal/fleetservice/store.go:587-591 | every chain of allowed changes has at most two entries and enters no status twice |
| TaskStore.RankFalls | internal/fleetservice/store.go:587-591 | a rank falls with every change, so no status is left and entered again |
| TaskStore.ChangeIsExplained | internal/fleetservice/fake_store.go:174-219 | recording an allowed change keeps every task's history a chain from its creation status to its current one |
| TaskStore.AllowedTransitions | internal/fleetservice/store.go:597-616 | the offered changes are exactly the allowed ones, once each, in display order; none for a finished task |
| TaskStore.Store.EnsureVehicleExists | internal/fleetservice/fake_store.go:64-73 | the vehicle is known afterwards |
| TaskStore.Store.AddZone | internal/fleetservice/fake_store.go:86-96 | refused iff the zone exists, which it does afterwards either way |
| TaskStore.Store.AddStation | internal/fleetservice/fake_store.go:108-121 | accepted iff its zone is known and the station is not |
| TaskStore.Store.UpsertVehicleStatus | internal/fleetservice/fake_store.go:231-237 | the vehicle's current task is the reported one, or none |
| TaskStore.Store.CreateTask | internal/fleetservice/fake_store.go:133-156 | the new task or the refusal; an empty status becomes pending; every history stays explained |
| TaskStore.Store.Decide | internal/fleetservice/fake_store.go:178-196 | a change is accepted iff the task exists and its status allows it; an unknown task is reported iff the target is one |
| TaskStore.Store.UpdateTaskStatus | internal/fleetservice/fake_store.go:174-219 | accepted iff the task exists and its status allows the change, each refusal by its own condition; records the change, clears the current task iff it is this finished one, touches no other task, and keeps every history a chain from the creation status |
| TaskStore.Store.GetTaskStatusHistory | internal/fleetservice/fake_store.go:221-229 | the audit trail: at most two entries, a chain from the creation status to the current one |
| FleetSimulator.AdvancesExactly | cmd/vehicle-mock/fleet_simulator.go:91-116 | from every state the target advances at exactly the computed tick and not before, and the vehicle then stands exactly at the station it was heading for |
| FleetSimulator.TickCountsDown | cmd/vehicle-mock/fleet_simulator.go:91-116 | every tick departs, when it is due, or brings the departure one tick nearer |
| FleetSimulator.TicksAreBounded | cmd/vehicle-mock/fleet_simulator.go:91-116 | the departure comes within an explicit bound computed from the distance and the charging rate |
| FleetSimulator.EveryStationIsReached | cmd/vehicle-mock/fleet_simulator.go:91-116 | from every state the vehicle stands at every station at some later tick |
| FleetSimulator.ApproachIsLeast | cmd/vehicle-mock/fleet_simulator.go:100-115 | the approach takes the least number of ticks k with distance * (1 - speed)^k below the threshold |
| FleetSimulator.ChargeIsLeast | cmd/vehicle-mock/fleet_simulator.go:94-99 | charging takes the least number of ticks that fills the battery |
| FleetSimulator.DrainIsLinear | cmd/vehicle-mock/fleet_simulator.go:103-106 | driving drains the battery linearly down to empty |
| FleetSimulator.StaysInBox | cmd/vehicle-mock/fleet_simulator.go:91-116 | after any number of ticks the position is in every box that encloses the stations and the starting position, and the battery is between 0 and 100 |
| FleetSimulator.Simulator.constructor | cmd/vehicle-mock/fleet_simulator.go:73-88 | starts at the first station with 90 per cent, heading for the second, tuned by kind |
| FleetSimulator.Simulator.Tick | cmd/vehicle-mock/fleet_simulator.go:91-137 | one tick of the object refines the tick of the vehicle value, and alerts iff driving and the draw is small |

## Left out

- HTTP, JSON, JWT, Protobuf, WebSocket, MQTT and SQL plumbing, logging, audit writing, event publishing, session recording, the database of vehicles: their outcomes are inputs of an event or have no effect on the modelled state.
- `SaveCheckpoint` and `PushSFUEvent`: they pick an arbitrary active session, so nothing holds about which vehicle is recorded.
- `CreateSession`, and direct requests for CONNECTED or DEGRADED: no handler makes them.
- WebRTC, the MediaMTX client, authentication and the user store, the operator interface, the cloud stack.
- Interleavings below one handler, other than of a session start or a recovery with machine calls (`Interleavings.dfy`).
- Rounding of floating-point numbers in the limiter, the alert engine and the simulator.
- Reconnection of a vehicle while its old link is still open: the link set records the vehicle, not the connection.
- Listing operations, the attributes of zones and stations, timestamps and identifiers of tasks and history entries, and alert texts: nothing in the modelled behaviour depends on them.
- The parsing of a fleet simulation's configuration and its random obstacle alerts beyond the condition that raises them.
