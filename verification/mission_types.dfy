/** The data the offboard mission node works on: mission phases, cached
    telemetry, the target pose, the service requests it can issue and the
    record of one control-loop tick. Time is an integer count of nanoseconds,
    as `ros::Time` keeps it. */
module MissionTypes {

  datatype Option<T> = None | Some(value: T)

  /** Nanoseconds since an arbitrary epoch. */
  type Time = int

  /** The phases of the `mission_state` enum, in declaration order. */
  datatype MissionState = ReadyToFly | TakeOff | GoToPoint | Land | Done

  /** Position of a phase in the mission order READY_TO_FLY .. DONE. */
  function Rank(s: MissionState): (r: nat)
    ensures r <= 4
    ensures r == 4 <==> s == Done
    ensures r == 0 <==> s == ReadyToFly
  {
    match s
    case ReadyToFly => 0
    case TakeOff => 1
    case GoToPoint => 2
    case Land => 3
    case Done => 4
  }

  /** The phase that follows `s` in the mission order. */
  function Next(s: MissionState): (n: MissionState)
    requires s != Done
    ensures Rank(n) == Rank(s) + 1
  {
    match s
    case ReadyToFly => TakeOff
    case TakeOff => GoToPoint
    case GoToPoint => Land
    case Land => Done
  }

  /** The last-known vehicle state from the autopilot, replaced wholesale on
      every telemetry message. */
  datatype Telemetry = Telemetry(connected: bool, armed: bool, mode: string)

  /** The target pose streamed as a position setpoint. Waypoint coordinates
      are integer literals in the node, so integers suffice. */
  datatype Pose = Pose(x: int, y: int, z: int, frame: string)

  /** The four service requests the mission can make, with the payloads the
      node fills in once before the loop. */
  datatype Command =
    | SetMode(customMode: string)
    | ArmCommand(value: bool)
    | TakeoffCommand(altitude: int)
    | LandCommand(latitude: int, longitude: int, altitude: int)

  /** How a service request ends: the call itself fails, the autopilot answers
      with its success flag false, or it answers with the flag true. */
  datatype Outcome = TransportFail | Rejected | Accepted

  /** One request issued in a tick together with how it ended. */
  datatype Attempt = Attempt(command: Command, outcome: Outcome)

  /** One message on the setpoint topic and the time it was sent. */
  datatype Setpoint = Setpoint(pose: Pose, at: Time)

  /** Everything the loop carries from one tick to the next: the mission
      phase, the cooldown timestamp `last_time`, the takeoff response flag
      (which persists across ticks in the node) and the target pose. */
  datatype Context = Context(
    state: MissionState,
    lastTime: Time,
    takeoffSucceeded: bool,
    target: Pose)

  /** The record of one tick: the context before, the inputs (telemetry,
      start time, the autopilot's answer to any request), the context after,
      the request issued if any, the setpoints published in order, and the
      clock when the tick ends (later than `now` when the tick slept). */
  datatype Tick = Tick(
    before: Context,
    telemetry: Telemetry,
    now: Time,
    outcome: Outcome,
    after: Context,
    issued: Option<Attempt>,
    published: seq<Setpoint>,
    clock: Time)
  {
    /** The loop leaves after this tick. */
    predicate Finished() {
      after.state == Done
    }
  }

  /** Minimum gap, strictly exceeded, between arm attempts (0.5 s). */
  const ArmCooldown: int := 500_000_000
  /** Minimum gap, strictly exceeded, before a takeoff attempt (1 s). */
  const TakeoffCooldown: int := 1_000_000_000
  /** Minimum gap, strictly exceeded, before a land attempt (1 s). */
  const LandCooldown: int := 1_000_000_000
  /** Blocking wait after an accepted takeoff (10 s). */
  const SettleTime: int := 10_000_000_000
  /** Blocking wait after each waypoint is published (10 s). */
  const DwellTime: int := 10_000_000_000

  const GuidedMode: string := "GUIDED"
  const MapFrame: string := "map"

  const ModeRequest: Command := SetMode(GuidedMode)
  const ArmRequest: Command := ArmCommand(true)
  const TakeoffRequest: Command := TakeoffCommand(1)
  const LandRequest: Command := LandCommand(0, 0, 0)

  /** The target set before the mission loop: (0, 0, 1) with the frame id
      still empty, since only `go_to_pub` writes the frame. */
  const InitialTarget: Pose := Pose(0, 0, 1, "")
}
