/** The setpoint side of the node: `go_to_pub`, which overwrites the target
    pose and publishes it once, and the fixed waypoint tour that GO_TO_POINT
    runs with a blocking dwell after every waypoint. */
module Setpoints {
  import opened MissionTypes

  /** The new target and the message `go_to_pub(x, y, z)` sends at time `at`. */
  datatype Published = Published(target: Pose, message: Setpoint)

  /** `go_to_pub`: every field of the pose that the model tracks is
      overwritten, the frame becomes "map", and the new pose is sent once. */
  function GoToPub(target: Pose, x: int, y: int, z: int, at: Time): (p: Published)
    ensures p.target.x == x && p.target.y == y && p.target.z == z
    ensures p.target.frame == MapFrame
    ensures p.message == Setpoint(p.target, at)
  {
    var pose := target.(x := x, y := y, z := z, frame := MapFrame);
    Published(pose, Setpoint(pose, at))
  }

  /** Calling `go_to_pub` twice with the same coordinates leaves the same
      target as calling it once, and both calls send the same pose. */
  lemma GoToPubIdempotent(target: Pose, x: int, y: int, z: int, t1: Time, t2: Time)
    ensures GoToPub(GoToPub(target, x, y, z, t1).target, x, y, z, t2).target
         == GoToPub(target, x, y, z, t1).target
    ensures GoToPub(GoToPub(target, x, y, z, t1).target, x, y, z, t2).message.pose
         == GoToPub(target, x, y, z, t1).message.pose
  {
  }

  /** The waypoint plan: a closed unit square at height 1. */
  const WaypointCount: nat := 5
  const WaypointX: seq<int> := [0, 1, 1, 0, 0]
  const WaypointY: seq<int> := [0, 0, 1, 1, 0]
  const WaypointZ: int := 1

  /** Waypoint `k` as the pose `go_to_pub` makes of it. */
  function Waypoint(k: nat): (p: Pose)
    requires k < WaypointCount
    ensures p.frame == MapFrame && p.z == 1
  {
    Pose(WaypointX[k], WaypointY[k], WaypointZ, MapFrame)
  }

  /** The plan is the square (0,0,1), (1,0,1), (1,1,1), (0,1,1), (0,0,1),
      and it ends where it starts. */
  lemma WaypointPlan()
    ensures Waypoint(0) == Pose(0, 0, 1, MapFrame)
    ensures Waypoint(1) == Pose(1, 0, 1, MapFrame)
    ensures Waypoint(2) == Pose(1, 1, 1, MapFrame)
    ensures Waypoint(3) == Pose(0, 1, 1, MapFrame)
    ensures Waypoint(4) == Pose(0, 0, 1, MapFrame)
    ensures Waypoint(WaypointCount - 1) == Waypoint(0)
  {
  }

  /** Messages sent one dwell apart: the first at `start`, each next one
      `DwellTime` after the one before, and `end` one dwell after the last
      (or `start` itself when nothing was sent). */
  ghost predicate Paced(sent: seq<Setpoint>, start: Time, end: Time) {
    && (|sent| == 0 ==> end == start)
    && (|sent| > 0 ==> sent[0].at == start && end == sent[|sent| - 1].at + DwellTime)
    && (forall k :: 0 <= k < |sent| - 1 ==> sent[k + 1].at == sent[k].at + DwellTime)
  }

  /** Result of the waypoint loop: final target, messages sent, and the clock
      once the last dwell is over. */
  datatype Tour = Tour(target: Pose, sent: seq<Setpoint>, clock: Time)

  /** The waypoint loop from index `i` on, started at time `t`: each waypoint
      is published through `go_to_pub` and followed by a blocking dwell. */
  function TourFrom(i: nat, target: Pose, t: Time): (r: Tour)
    requires i <= WaypointCount
    ensures |r.sent| == WaypointCount - i
    ensures forall k :: 0 <= k < |r.sent| ==> r.sent[k].pose == Waypoint(i + k)
    ensures Paced(r.sent, t, r.clock)
    ensures i < WaypointCount ==> r.target == Waypoint(WaypointCount - 1)
    ensures i == WaypointCount ==> r.target == target
    decreases WaypointCount - i
  {
    if i == WaypointCount then
      Tour(target, [], t)
    else
      var p := GoToPub(target, WaypointX[i], WaypointY[i], WaypointZ, t);
      var rest := TourFrom(i + 1, p.target, t + DwellTime);
      Tour(rest.target, [p.message] + rest.sent, rest.clock)
  }

  /** The whole tour started at `t`: exactly the five waypoints in plan order,
      one message each, `DwellTime` apart, ending back at the first waypoint
      after five dwells. */
  function FlyTour(target: Pose, t: Time): (r: Tour)
    ensures |r.sent| == WaypointCount
    ensures forall k :: 0 <= k < WaypointCount ==> r.sent[k].pose == Waypoint(k)
    ensures Paced(r.sent, t, r.clock)
    ensures r.target == Waypoint(0)
  {
    WaypointPlan();
    TourFrom(0, target, t)
  }
}
