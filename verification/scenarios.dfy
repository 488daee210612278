/** Concrete runs of the mission loop with chosen telemetry, timing and
    autopilot answers. Times are nanoseconds; the mission is launched at 0. */
module Scenarios {
  import opened MissionTypes
  import opened Setpoints
  import opened Mission
  import opened Trace

  const Second: nat := 1_000_000_000

  function Guided(armed: bool): Telemetry {
    Telemetry(true, armed, GuidedMode)
  }

  /** Already in GUIDED and disarmed, an arm request accepted 0.6 s after
      launch moves the mission to TAKE_OFF in that one tick. */
  lemma ArmAcceptedInGuided()
    ensures var ticks := Flight(0, [Input(Guided(false), 600_000_000, Accepted)]);
            |ticks| == 1
            && ticks[0].issued == Some(Attempt(ArmRequest, Accepted))
            && ticks[0].after.state == TakeOff
            && ticks[0].published == [Setpoint(InitialTarget, 600_000_000)]
  {
  }

  /** Three rejected takeoffs at 1.1 s spacing keep the mission in TAKE_OFF;
      the fourth, accepted, moves it to GO_TO_POINT after the 10 s wait. */
  lemma TakeoffAcceptedOnFourthAttempt()
    ensures var ctx := Context(TakeOff, 0, false, InitialTarget);
            var step := 1_100_000_000;
            var ticks := Run(ctx, 0, [Input(Guided(true), step, Rejected),
                                      Input(Guided(true), step, TransportFail),
                                      Input(Guided(true), step, Rejected),
                                      Input(Guided(true), step, Accepted)]);
            |ticks| == 4
            && (forall k :: 0 <= k < 4 ==> Issues(ticks[k].issued, TakeoffRequest))
            && ticks[0].after.state == TakeOff
            && ticks[1].after.state == TakeOff
            && ticks[2].after.state == TakeOff
            && ticks[3].after.state == GoToPoint
            && ticks[3].clock == 4 * step + SettleTime
  {
    var ctx := Context(TakeOff, 0, false, InitialTarget);
    var step := 1_100_000_000;
    var ins := [Input(Guided(true), step, Rejected), Input(Guided(true), step, TransportFail),
                Input(Guided(true), step, Rejected), Input(Guided(true), step, Accepted)];
    var ticks := Run(ctx, 0, ins);
    RunHead(ctx, 0, ins);
    assert ticks[0].after == ctx.(lastTime := step);
    RunHead(ticks[0].after, ticks[0].clock, ins[1..]);
    assert ticks[1].after == ctx.(lastTime := 2 * step);
    RunHead(ticks[1].after, ticks[1].clock, ins[2..]);
    assert ticks[2].after == ctx.(lastTime := 3 * step);
    RunHead(ticks[2].after, ticks[2].clock, ins[3..]);
  }

  /** Once the land cooldown has passed, a rejected land request is repeated
      on the very next tick even when no time has elapsed: LAND keeps no
      spacing between retries. */
  lemma LandRetriedWithoutSpacing()
    ensures var ctx := Context(Land, 0, true, Waypoint(0));
            var ticks := Run(ctx, 0, [Input(Guided(true), 2 * Second, Rejected),
                                      Input(Guided(true), 0, TransportFail)]);
            |ticks| == 2
            && Issues(ticks[0].issued, LandRequest)
            && Issues(ticks[1].issued, LandRequest)
            && ticks[1].now - ticks[0].now == 0
  {
    var ctx := Context(Land, 0, true, Waypoint(0));
    var ins := [Input(Guided(true), 2 * Second, Rejected), Input(Guided(true), 0, TransportFail)];
    RunHead(ctx, 0, ins);
    var t0 := Run(ctx, 0, ins)[0];
    RunHead(t0.after, t0.clock, ins[1..]);
  }

  /** Outside GUIDED the mode request is sent on every tick, however close
      together the ticks are. */
  lemma ModeRequestedEveryTick()
    ensures var tel := Telemetry(true, false, "STABILIZE");
            var ticks := Flight(0, [Input(tel, 0, Rejected), Input(tel, 0, Accepted)]);
            |ticks| == 2
            && ticks[0].issued == Some(Attempt(ModeRequest, Rejected))
            && ticks[1].issued == Some(Attempt(ModeRequest, Accepted))
            && ticks[1].after.state == ReadyToFly
  {
  }

  /** The five ticks of `WholeMission`, one `Step` at a time, each taking
      input `i` at the clock the previous tick left. The clock and the input
      are parameters fixed by `requires` so that the `Step` term here is the
      very term `RunHead` produces, which keeps each unfolding cheap. */
  lemma MissionModeTick(start: Time, clock: Time, i: Input)
    requires clock == start && i == Input(Telemetry(true, false, "STABILIZE"), 100_000_000, Accepted)
    ensures var t := Step(Launch(start), i.telemetry, clock + i.elapsed, i.outcome);
            t.after == Context(ReadyToFly, start + 100_000_000, false, InitialTarget) && t.clock == start + 100_000_000
  {
  }

  lemma MissionArmTick(start: Time, clock: Time, i: Input)
    requires clock == start + 100_000_000 && i == Input(Guided(false), 600_000_000, Accepted)
    ensures var t := Step(Context(ReadyToFly, start + 100_000_000, false, InitialTarget), i.telemetry, clock + i.elapsed, i.outcome);
            t.after == Context(TakeOff, start + 700_000_000, false, InitialTarget) && t.clock == start + 700_000_000
  {
  }

  lemma MissionTakeoffTick(start: Time, clock: Time, i: Input)
    requires clock == start + 700_000_000 && i == Input(Guided(true), 1_100_000_000, Accepted)
    ensures var t := Step(Context(TakeOff, start + 700_000_000, false, InitialTarget), i.telemetry, clock + i.elapsed, i.outcome);
            t.after == Context(GoToPoint, start + 11_800_000_000, true, InitialTarget) && t.clock == start + 11_800_000_000
  {
  }

  lemma MissionTourTick(start: Time, clock: Time, i: Input)
    requires clock == start + 11_800_000_000 && i == Input(Guided(true), 100_000_000, Accepted)
    ensures var t := Step(Context(GoToPoint, start + 11_800_000_000, true, InitialTarget), i.telemetry, clock + i.elapsed, i.outcome);
            t.after == Context(Land, start + 61_900_000_000, true, Waypoint(0)) && t.clock == start + 61_900_000_000
            && |t.published| == WaypointCount + 1
  {
  }

  lemma MissionLandTick(start: Time, clock: Time, i: Input)
    requires clock == start + 61_900_000_000 && i == Input(Guided(true), 1_100_000_000, Accepted)
    ensures var t := Step(Context(Land, start + 61_900_000_000, true, Waypoint(0)), i.telemetry, clock + i.elapsed, i.outcome);
            t.after.state == Done && t.published == []
  {
  }

  /** The inputs of `WholeMission`: the vehicle starts disarmed outside
      GUIDED and every request is accepted. */
  const MissionInputs: seq<Input> :=
    [Input(Telemetry(true, false, "STABILIZE"), 100_000_000, Accepted),
     Input(Guided(false), 600_000_000, Accepted),
     Input(Guided(true), 1_100_000_000, Accepted),
     Input(Guided(true), 100_000_000, Accepted),
     Input(Guided(true), 1_100_000_000, Accepted),
     Input(Guided(true), 100_000_000, Accepted)]

  /** The landing tick ends the loop. */
  lemma MissionFromLand(start: Time)
    ensures var r := Run(Context(Land, start + 61_900_000_000, true, Waypoint(0)), start + 61_900_000_000, MissionInputs[4..]);
            |r| == 1 && r[0].after.state == Done && r[0].published == []
  {
    var ins := MissionInputs[4..];
    RunHead(Context(Land, start + 61_900_000_000, true, Waypoint(0)), start + 61_900_000_000, ins);
    MissionLandTick(start, start + 61_900_000_000, ins[0]);
  }

  lemma MissionFromTour(start: Time)
    ensures var r := Run(Context(GoToPoint, start + 11_800_000_000, true, InitialTarget), start + 11_800_000_000, MissionInputs[3..]);
            && |r| == 2
            && r[0].after.state == Land && |r[0].published| == WaypointCount + 1
            && r[1].after.state == Done && r[1].published == []
  {
    var ins := MissionInputs[3..];
    RunHead(Context(GoToPoint, start + 11_800_000_000, true, InitialTarget), start + 11_800_000_000, ins);
    MissionTourTick(start, start + 11_800_000_000, ins[0]);
    assert ins[1..] == MissionInputs[4..];
    MissionFromLand(start);
  }

  lemma MissionFromTakeoff(start: Time)
    ensures var r := Run(Context(TakeOff, start + 700_000_000, false, InitialTarget), start + 700_000_000, MissionInputs[2..]);
            && |r| == 3
            && r[0].after.state == GoToPoint
            && r[1].after.state == Land && |r[1].published| == WaypointCount + 1
            && r[2].after.state == Done && r[2].published == []
  {
    var ins := MissionInputs[2..];
    RunHead(Context(TakeOff, start + 700_000_000, false, InitialTarget), start + 700_000_000, ins);
    MissionTakeoffTick(start, start + 700_000_000, ins[0]);
    assert ins[1..] == MissionInputs[3..];
    MissionFromTour(start);
  }

  lemma MissionFromArm(start: Time)
    ensures var r := Run(Context(ReadyToFly, start + 100_000_000, false, InitialTarget), start + 100_000_000, MissionInputs[1..]);
            && |r| == 4
            && r[0].after.state == TakeOff
            && r[1].after.state == GoToPoint
            && r[2].after.state == Land && |r[2].published| == WaypointCount + 1
            && r[3].after.state == Done && r[3].published == []
  {
    var ins := MissionInputs[1..];
    RunHead(Context(ReadyToFly, start + 100_000_000, false, InitialTarget), start + 100_000_000, ins);
    MissionArmTick(start, start + 100_000_000, ins[0]);
    assert ins[1..] == MissionInputs[2..];
    MissionFromTakeoff(start);
  }

  /** A whole mission launched at `start`: mode switch, arm, takeoff, the
      waypoint tour and the landing, ending in DONE on the fifth tick so that
      the sixth input is never consumed; the tour tick publishes six
      setpoints, the landing tick none. */
  lemma WholeMission(start: Time)
    ensures var ticks := Flight(start, MissionInputs);
            && |ticks| == 5
            && ticks[0].after.state == ReadyToFly
            && ticks[1].after.state == TakeOff
            && ticks[2].after.state == GoToPoint
            && ticks[3].after.state == Land
            && ticks[4].after.state == Done
            && |ticks[3].published| == WaypointCount + 1
            && ticks[4].published == []
  {
    var ins := MissionInputs[0..];
    RunHead(Launch(start), start, ins);
    MissionModeTick(start, start, ins[0]);
    assert ins[1..] == MissionInputs[1..];
    MissionFromArm(start);
  }
}
