# Offboard mission sequencer — a Dafny model

This project models the mission sequencer of a small MAVROS offboard-control
node (`code/code1.cpp`). The node flies a fixed rectangle. It switches the
autopilot to GUIDED, arms, takes off, publishes five waypoints ten seconds
apart, and lands. Each phase is a state of a five-state machine
(`READY_TO_FLY → TAKE_OFF → GO_TO_POINT → LAND → DONE`). The machine is
driven by a loop that reads cached telemetry and a clock, and may issue one
service request per tick: set-mode, arm, takeoff or land. Every tick that does
not end the mission re-publishes the current target pose.

In the model this loop is a pure function over immutable data:

- `mission_types.dfy` (module `MissionTypes`) holds:
  - the phases and their order;
  - telemetry, pose, the four requests and their payloads;
  - the outcome of a request, one of `TransportFail | Rejected | Accepted`;
  - the context carried from tick to tick: phase, `last_time`, the takeoff
    response flag, and the target;
  - the record of one tick;
  - the timing constants, in integer nanoseconds as `ros::Time` counts them.
- `setpoints.dfy` (module `Setpoints`) holds `go_to_pub` and the waypoint
  tour of GO_TO_POINT. Each blocking 10 s dwell is an advance of the clock.
- `mission.dfy` (module `Mission`) holds:
  - the launch context;
  - one function per arm of the `switch (ms)`;
  - `Step`, which is the switch followed by the DONE exit and the re-publish;
  - `Disciplined`, the per-tick discipline, a predicate on the tick record
    alone, proved of every `Step`.
- `trace.dfy` (module `Trace`) holds:
  - the `while (ros::ok())` loop as a run over a sequence of inputs. Each
    input is the telemetry, the time elapsed since the previous tick ended,
    and the autopilot's answer.
  - a generic run over any step function that keeps the discipline, which is
    what the loop properties are proved about;
  - the properties over whole runs: forward-only progress, cooldown spacing,
    at most one accepted takeoff, at most one navigation tick, silence after DONE,
    and the armed-in-GUIDED stall.
- `scenarios.dfy` (module `Scenarios`) holds concrete runs: a whole mission,
  retries, and the per-state retry disciplines.

The retry discipline differs by phase:

- The set-mode request in READY_TO_FLY has no cooldown at all. It goes out on
  every tick while the mode is not GUIDED (`ReadyToFlyCase`; the scenario
  `ModeRequestedEveryTick` is an example).
- A rejected or failed land request does not reset `last_time`. After the
  first second in LAND the request therefore goes out on every tick
  (`LandRetriedNext`, for every run; the scenario `LandRetriedWithoutSpacing`
  is an example).
- Only arm and takeoff attempts are spaced by their cooldowns
  (`ArmAttemptsSpaced`, `TakeoffAttemptsSpaced`).

Timing conventions:

- One clock reading `now` is taken per tick. The several `ros::Time::now()`
  calls within one tick are taken to return that same value.
- The two blocking sleeps advance the clock by 10 s:
  - once after an accepted takeoff;
  - once after each waypoint.
- The `last_time = ros::Time::now()` that follows a sleep sees the clock
  after the sleep.

## Model

| member | source | states |
|---|---|---|
| `MissionTypes.Rank` | code/code1.cpp:21-28 | The phases are ordered as declared, DONE last and READY_TO_FLY first. |
| `MissionTypes.Next` | code/code1.cpp:21-28 | The successor of each phase before DONE is exactly one position later. |
| `Setpoints.GoToPub` | code/code1.cpp:40-47 | `go_to_pub` overwrites x, y and z with the given coordinates and the frame with "map". It sends exactly the new pose once. |
| `Setpoints.GoToPubIdempotent` | code/code1.cpp:40-45 | Calling `go_to_pub` twice with the same coordinates leaves the same target, and sends the same pose, as calling it once. |
| `Setpoints.Waypoint` | code/code1.cpp:190-193 | Every waypoint is at height 1 in frame "map". |
| `Setpoints.WaypointPlan` | code/code1.cpp:190-193 | The plan is (0,0,1), (1,0,1), (1,1,1), (0,1,1), (0,0,1), and the last waypoint equals the first. |
| `Setpoints.TourFrom` | code/code1.cpp:195-201 | From index i the loop sends the waypoints i..4 in order, one message each, each `DwellTime` after the previous. The target ends on the last waypoint. |
| `Setpoints.FlyTour` | code/code1.cpp:190-201 | The tour sends exactly five messages, the waypoints in plan order, 10 s apart, starting at the tick's clock. It ends one dwell after the last message, with the target back on the first waypoint. |
| `Mission.Launch` | code/code1.cpp:95-124 | The loop starts in READY_TO_FLY, with the timer set at launch, no takeoff answered, and target (0,0,1). |
| `Mission.ReadyToFlyCase` | code/code1.cpp:130-164 | A set-mode request goes out iff the mode is not GUIDED; there is no cooldown. An arm request goes out iff the mode is GUIDED, the vehicle is disarmed and the timer is strictly older than 0.5 s. Armed in GUIDED, nothing happens. TAKE_OFF is entered iff an arm is accepted. The timer is refreshed iff a set-mode is accepted or any arm is attempted. |
| `Mission.TakeOffCase` | code/code1.cpp:166-185 | A takeoff request goes out iff no takeoff succeeded before and the timer is strictly older than 1 s. GO_TO_POINT is entered iff the request is accepted, and then the clock is 10 s later. Every attempt sets the timer to the clock after the attempt. |
| `Mission.GoToPointCase` | code/code1.cpp:187-205 | No request is made. The five waypoints are published in order, 10 s apart. The target ends on the first waypoint. LAND is entered with the timer set to the clock after the last dwell. |
| `Mission.LandCase` | code/code1.cpp:206-222 | A land request goes out iff the timer is strictly older than 1 s. DONE is entered iff it is accepted, and then the timer is refreshed. Otherwise the context, timer included, is untouched. |
| `Mission.Step` | code/code1.cpp:126-239 | A tick records the context, telemetry, clock and answer it was given. |
| `Mission.StepAdvances` | code/code1.cpp:129-227 | A tick changes the phase only to its successor (the assignments at lines 153, 175, 202, 214). It does so only by running GO_TO_POINT or through an accepted arm, takeoff or land request. An issued request carries the autopilot's answer. |
| `Mission.StepToursWaypoints` | code/code1.cpp:187-235 | The GO_TO_POINT tick publishes exactly six setpoints: the five waypoints in order, 10 s apart from the tick's start, then the first waypoint again at the end of the last dwell, which is 50 s after the start. |
| `Mission.StepPublishesTarget` | code/code1.cpp:229-235 | A tick that does not end in DONE ends by publishing the current target once. Outside GO_TO_POINT the target is unchanged and that publish is the only message. |
| `Mission.StepIsDisciplined` | code/code1.cpp:129-235 | Every tick keeps the discipline: the phase moves forward by at most one position; arm, takeoff and land requests are gated by their strict cooldowns; arm and takeoff attempts restart the timer; the timer is never wound back; GO_TO_POINT hands LAND a fresh timer; a tick ending in DONE publishes nothing; DONE does nothing. |
| `Mission.ReadyToFlyDisciplined` | code/code1.cpp:130-164 | The discipline holds for every READY_TO_FLY tick. |
| `Mission.TakeOffDisciplined` | code/code1.cpp:166-185 | The discipline holds for every TAKE_OFF tick. |
| `Mission.GoToPointDisciplined` | code/code1.cpp:187-205 | The discipline holds for every GO_TO_POINT tick. |
| `Mission.LandDisciplined` | code/code1.cpp:206-222 | The discipline holds for every LAND tick. |
| `Mission.DoneDisciplined` | code/code1.cpp:224-226 | A tick in DONE takes the `default` arm: no request and no change. |
| `Mission.StepIgnoresConnected` | code/code1.cpp:126-239 | The loop's decisions do not depend on the `connected` flag. |
| `Mission.TransportFailIsRejection` | code/code1.cpp:133-221 | A failed call and a rejected request lead to the same context, setpoints and clock in every phase. |
| `Trace.RunWith` | code/code1.cpp:126-239 | The loop takes one tick per input. It stops right after the first tick that ends in DONE, and no earlier tick ends in DONE. |
| `Trace.RunWithIsExecution` | code/code1.cpp:126-239 | A loop driven by any step that keeps the discipline is an execution: each tick disciplined, each starting from the previous tick's context, none before the previous one ended. |
| `Trace.RunWithFollowsInputs` | code/code1.cpp:126-239 | Tick k consumes input k: its telemetry and answer, starting that input's elapsed time after the previous tick ended. |
| `Trace.RunWithSteps` | code/code1.cpp:126-239 | Every tick of a run is the step applied to its own input and to the context and clock the tick before it left. |
| `Trace.StepIsFaithful` | code/code1.cpp:126-239 | The mission step records its inputs and keeps the discipline, for all inputs. |
| `Trace.Run` | code/code1.cpp:126-239 | The mission loop runs one tick per input and leaves right after the first tick that ends in DONE. |
| `Trace.RunIsExecution` | code/code1.cpp:126-239 | The mission loop is an execution in which tick k consumes input k and starts from the context the previous tick left. |
| `Trace.Flight` | code/code1.cpp:124-239 | The launched mission is an execution that starts from the launch context, no earlier than the timer was set. |
| `Trace.ForwardOnly` | code/code1.cpp:129-227 | Along any execution each tick moves the phase forward by at most one position, and no later tick starts in an earlier phase than an earlier tick ended in. |
| `Trace.TimerNeverRewinds` | code/code1.cpp:124-222 | Along an execution that starts on time, the timer and the clock never move backward across ticks. |
| `Trace.TimerFromAttempt` | code/code1.cpp:160-208 | After a tick that leaves the timer no later than its own end (an arm attempt, a takeoff attempt, the navigation tick), every later tick sees a timer no older than the one it left, however the run began. |
| `Trace.ArmAttemptsSpaced` | code/code1.cpp:146-161 | Along any execution, however it began, two arm attempts are always more than 0.5 s apart, whatever the first one's answer. |
| `Trace.TakeoffAttemptsSpaced` | code/code1.cpp:168-183 | Along any execution, however it began, two takeoff attempts are always more than 1 s apart. |
| `Trace.AtMostOneAcceptedTakeoff` | code/code1.cpp:150-175 | At most one takeoff and at most one arm are ever accepted. |
| `Trace.NavigationRunsOnce` | code/code1.cpp:187-205 | At most one tick of any execution starts in GO_TO_POINT, and it ends in LAND. |
| `Trace.NavigationFollowsTakeoff` | code/code1.cpp:175-202 | A tick that enters GO_TO_POINT is followed, if the loop goes on, by a tick that starts in GO_TO_POINT and ends in LAND. |
| `Trace.LandWaitsAfterNavigation` | code/code1.cpp:202-208 | Every land attempt comes more than 1 s after the navigation tick ended, along any execution, however it began. |
| `Mission.LandRetryStep` | code/code1.cpp:208-221 | A land request that is not accepted leaves the context, timer included, unchanged, and any later tick in that context issues the land request again. |
| `Trace.ChainedLandRetry` | code/code1.cpp:208-221 | Along any chain of mission steps, a land request that is rejected or fails is issued again by the next step, which starts from the same context. |
| `Trace.LandRetriedNext` | code/code1.cpp:206-222 | Along any run of the mission loop, a land request that is rejected or fails is issued again on the very next tick, whatever time has elapsed. |
| `Trace.DoneIsFinal` | code/code1.cpp:229-232 | After a tick ends in DONE, no later tick issues a request, publishes, or changes the context. |
| `Trace.ArmedInGuidedStalls` | code/code1.cpp:144-163 | In READY_TO_FLY, armed in GUIDED, the loop never finishes and never issues a request. It keeps its context and republishes the unchanged target on every tick. |
| `Scenarios.ArmAcceptedInGuided` | code/code1.cpp:144-161 | Disarmed in GUIDED, an arm accepted 0.6 s after launch enters TAKE_OFF in that tick. |
| `Scenarios.TakeoffAcceptedOnFourthAttempt` | code/code1.cpp:166-185 | Three failed takeoffs 1.1 s apart keep TAKE_OFF. The accepted fourth enters GO_TO_POINT 10 s later. |
| `Scenarios.LandRetriedWithoutSpacing` | code/code1.cpp:206-222 | Example: after a rejected land, the request is repeated on the next tick with no time in between. |
| `Scenarios.ModeRequestedEveryTick` | code/code1.cpp:131-142 | Example: outside GUIDED the set-mode request goes out on consecutive ticks with no time in between. |
| `Scenarios.WholeMission` | code/code1.cpp:124-239 | With all requests accepted, the mission passes every phase in order and ends in DONE on the fifth tick. The navigation tick publishes six setpoints and the last tick none. |

## Left out

- ROS transport is not modelled: subscribers, publishers, service clients,
  `spinOnce` and `rate.sleep`.
  - Telemetry is an input per tick.
  - Service calls are an outcome per tick.
  - Publishes are a list of setpoints in the tick record.
  - The loop period is the `elapsed` field of each input.
- Logging (`ROS_*`) is left out; it has no effect on behaviour.
- The FCU connection wait (lines 82-92) and the 100-message pre-stream
  (lines 99-108) are start-up I/O. The loop is modelled from launch on.
- The `getchar` launch gate (line 122) is console I/O. Launch is the time
  `start` given to `Flight`.
- `ros::ok()` turning false is modelled as the input sequence ending. Other
  interruption is not modelled.
- The unused `override_rc` publisher and the `AUTO` set-mode request (lines
  62-65, 114-115) are never used by the loop.
- Floating point is not modelled. Waypoints are integer literals, so poses are
  `int`. Durations are exact nanosecond counts.
- Orientation and the header stamp of the published pose are not modelled;
  the code never changes them.
- The coordinate-frame convention problem noted in the header comment is not
  modelled. Neither is physical arrival: the code waits fixed times.
- Service-call latency is not modelled. Within one tick every clock reading
  before a sleep is the same `now`.
- The clock never runs backward in the model: each input's `elapsed` is a
  `nat`, and an execution starts each tick no earlier than the previous one
  ended. `ros::Time::now()` can jump backward (wall-clock adjustment, a
  restarted simulation clock). After such a jump `last_time` lies in the
  future and the gates stay shut until the clock catches up, and an accepted
  set-mode (line 136) could move the timer backward. `TimerNeverRewinds`,
  `TimerFromAttempt`, `ArmAttemptsSpaced`, `TakeoffAttemptsSpaced` and
  `LandWaitsAfterNavigation` depend on this assumption.
- Mission.Step: its contract states only that the tick records its inputs.
  What a step does is stated by `StepAdvances`, `StepPublishesTarget`,
  `StepIsDisciplined` and the per-phase functions.
