/** One iteration of the mission loop: the `switch (ms)` over the mission
    phase, followed by the DONE exit test and the unconditional re-publish of
    the target pose. Telemetry is the cached vehicle state, `now` the clock at
    the start of the tick, and `outcome` the autopilot's answer to whatever
    request the tick issues (ignored when it issues none). */
module Mission {
  import opened MissionTypes
  import opened Setpoints

  /** The request `issued` in a tick was command `c`. */
  predicate Issues(issued: Option<Attempt>, c: Command) {
    issued.Some? && issued.value.command == c
  }

  /** What one arm of the `switch` leaves behind: the new context, the request
      made, the setpoints sent inside the arm, and the clock afterwards. */
  datatype Branch = Branch(
    after: Context,
    issued: Option<Attempt>,
    published: seq<Setpoint>,
    clock: Time)

  /** The context when the operator starts the mission at time `now`: first
      phase, cooldown timer started, no takeoff answered, initial target. */
  function Launch(now: Time): (ctx: Context)
    ensures ctx.state == ReadyToFly && Rank(ctx.state) == 0
    ensures ctx.lastTime == now
    ensures !ctx.takeoffSucceeded
    ensures ctx.target == InitialTarget
  {
    Context(ReadyToFly, now, false, InitialTarget)
  }

  /** READY_TO_FLY. While the mode is not GUIDED a set-mode request goes out
      on every tick with no cooldown, and only an accepted one refreshes the
      timer. In GUIDED and disarmed, an arm request goes out once the timer
      is strictly older than 0.5 s; every arm attempt refreshes the timer and
      only an accepted one leaves the phase. In GUIDED and armed nothing
      happens at all. */
  function ReadyToFlyCase(ctx: Context, tel: Telemetry, now: Time, outcome: Outcome): (b: Branch)
    requires ctx.state == ReadyToFly
    ensures Issues(b.issued, ModeRequest) <==> tel.mode != GuidedMode
    ensures Issues(b.issued, ArmRequest) <==>
              tel.mode == GuidedMode && !tel.armed && now - ctx.lastTime > ArmCooldown
    ensures b.issued.Some? ==>
              b.issued.value.outcome == outcome
              && (Issues(b.issued, ModeRequest) || Issues(b.issued, ArmRequest))
    ensures tel.mode == GuidedMode && tel.armed ==> b.issued == None && b.after == ctx
    ensures b.after.state == TakeOff <==> b.issued == Some(Attempt(ArmRequest, Accepted))
    ensures b.after.state != TakeOff ==> b.after.state == ReadyToFly
    ensures b.after.lastTime ==
              if b.issued == Some(Attempt(ModeRequest, Accepted)) || Issues(b.issued, ArmRequest)
              then now else ctx.lastTime
    ensures b.after.target == ctx.target && b.after.takeoffSucceeded == ctx.takeoffSucceeded
    ensures b.published == [] && b.clock == now
  {
    if tel.mode != GuidedMode then
      var refreshed := if outcome == Accepted then now else ctx.lastTime;
      Branch(ctx.(lastTime := refreshed), Some(Attempt(ModeRequest, outcome)), [], now)
    else if !tel.armed && now - ctx.lastTime > ArmCooldown then
      var phase := if outcome == Accepted then TakeOff else ReadyToFly;
      Branch(ctx.(state := phase, lastTime := now), Some(Attempt(ArmRequest, outcome)), [], now)
    else
      Branch(ctx, None, [], now)
  }

  /** TAKE_OFF. A takeoff request goes out only while no takeoff has been
      accepted and the timer is strictly older than 1 s. Transport failure and
      rejection both just refresh the timer. Acceptance blocks for the 10 s
      settle time, records the success and enters GO_TO_POINT with the timer
      set to the clock after the wait. */
  function TakeOffCase(ctx: Context, now: Time, outcome: Outcome): (b: Branch)
    requires ctx.state == TakeOff
    ensures b.issued.Some? <==> !ctx.takeoffSucceeded && now - ctx.lastTime > TakeoffCooldown
    ensures b.issued.Some? ==> b.issued.value == Attempt(TakeoffRequest, outcome)
    ensures b.after.state == GoToPoint <==> b.issued == Some(Attempt(TakeoffRequest, Accepted))
    ensures b.after.state != GoToPoint ==> b.after.state == TakeOff
    ensures b.after.takeoffSucceeded <==> ctx.takeoffSucceeded || b.after.state == GoToPoint
    ensures b.clock == if b.after.state == GoToPoint then now + SettleTime else now
    ensures b.after.lastTime == if b.issued.Some? then b.clock else ctx.lastTime
    ensures b.after.target == ctx.target && b.published == []
  {
    if !ctx.takeoffSucceeded && now - ctx.lastTime > TakeoffCooldown then
      if outcome == Accepted then
        var woke := now + SettleTime;
        Branch(ctx.(state := GoToPoint, takeoffSucceeded := true, lastTime := woke),
               Some(Attempt(TakeoffRequest, outcome)), [], woke)
      else
        Branch(ctx.(lastTime := now), Some(Attempt(TakeoffRequest, outcome)), [], now)
    else
      Branch(ctx, None, [], now)
  }

  /** GO_TO_POINT. Completes in one tick without any request: the five
      waypoints are published in plan order 10 s apart, the target ends on
      the last one (which equals the first), and LAND is entered with the
      timer set to the clock after the last dwell. */
  function GoToPointCase(ctx: Context, now: Time): (b: Branch)
    requires ctx.state == GoToPoint
    ensures b.issued == None
    ensures |b.published| == WaypointCount
    ensures forall k :: 0 <= k < WaypointCount ==> b.published[k].pose == Waypoint(k)
    ensures Paced(b.published, now, b.clock)
    ensures b.after.target == Waypoint(0)
    ensures b.after.state == Land
    ensures b.after.lastTime == b.clock
    ensures b.after.takeoffSucceeded == ctx.takeoffSucceeded
  {
    var tour := FlyTour(ctx.target, now);
    Branch(ctx.(state := Land, target := tour.target, lastTime := tour.clock),
           None, tour.sent, tour.clock)
  }

  /** LAND. A land request goes out only when the timer is strictly older
      than 1 s. Acceptance refreshes the timer and enters DONE; rejection and
      transport failure leave the timer alone, so from then on the request is
      repeated on every tick. */
  function LandCase(ctx: Context, now: Time, outcome: Outcome): (b: Branch)
    requires ctx.state == Land
    ensures b.issued.Some? <==> now - ctx.lastTime > LandCooldown
    ensures b.issued.Some? ==> b.issued.value == Attempt(LandRequest, outcome)
    ensures b.after.state == Done <==> b.issued == Some(Attempt(LandRequest, Accepted))
    ensures b.after.state != Done ==> b.after == ctx
    ensures b.after.state == Done ==> b.after.lastTime == now
    ensures b.after.target == ctx.target && b.after.takeoffSucceeded == ctx.takeoffSucceeded
    ensures b.published == [] && b.clock == now
  {
    if now - ctx.lastTime > LandCooldown then
      if outcome == Accepted then
        Branch(ctx.(state := Done, lastTime := now), Some(Attempt(LandRequest, outcome)), [], now)
      else
        Branch(ctx, Some(Attempt(LandRequest, outcome)), [], now)
    else
      Branch(ctx, None, [], now)
  }

  /** The `switch (ms)`; DONE falls to the `default` arm, which does nothing. */
  function Switch(ctx: Context, tel: Telemetry, now: Time, outcome: Outcome): Branch {
    match ctx.state
    case ReadyToFly => ReadyToFlyCase(ctx, tel, now, outcome)
    case TakeOff => TakeOffCase(ctx, now, outcome)
    case GoToPoint => GoToPointCase(ctx, now)
    case Land => LandCase(ctx, now, outcome)
    case Done => Branch(ctx, None, [], now)
  }

  /** The discipline every tick keeps, stated on the tick record alone: the
      phase moves forward by at most one position, and a request changes it
      exactly when it is an arm, takeoff or land request that was accepted;
      each timer-gated request is issued only once its cooldown is strictly
      exceeded, and arm and takeoff attempts restart the timer; the tick ends
      no earlier than it started and never winds the timer back; GO_TO_POINT
      hands LAND a timer started when it ends; and a tick that starts in DONE
      does nothing. */
  predicate Disciplined(t: Tick) {
    && Rank(t.before.state) <= Rank(t.after.state) <= Rank(t.before.state) + 1
    && (t.issued.Some? && t.issued.value.command != ModeRequest ==>
          (t.after.state != t.before.state <==> t.issued.value.outcome == Accepted))
    && (Issues(t.issued, ModeRequest) ==> t.before.state == ReadyToFly)
    && (Issues(t.issued, ArmRequest) ==>
          t.before.state == ReadyToFly && t.now - t.before.lastTime > ArmCooldown
          && t.after.lastTime == t.now)
    && (Issues(t.issued, TakeoffRequest) ==>
          t.before.state == TakeOff && t.now - t.before.lastTime > TakeoffCooldown
          && t.after.lastTime == t.clock)
    && (Issues(t.issued, LandRequest) ==>
          t.before.state == Land && t.now - t.before.lastTime > LandCooldown)
    && (t.before.state == GoToPoint ==> t.after.state == Land && t.after.lastTime == t.clock)
    && t.now <= t.clock
    && (t.before.lastTime <= t.now ==> t.before.lastTime <= t.after.lastTime <= t.clock)
    && (t.Finished() ==> t.published == [])
    && (t.before.state == Done ==> t.after == t.before && t.issued == None)
  }

  /** One loop iteration: the arm of the `switch` for the current phase,
      then, unless the phase is now DONE, the target is published once more.
      The tick records the inputs it was given. */
  function Step(ctx: Context, tel: Telemetry, now: Time, outcome: Outcome): (t: Tick)
    ensures t.before == ctx && t.telemetry == tel && t.now == now && t.outcome == outcome
  {
    var b := Switch(ctx, tel, now, outcome);
    var stream := if b.after.state == Done then [] else [Setpoint(b.after.target, b.clock)];
    Tick(ctx, tel, now, outcome, b.after, b.issued, b.published + stream, b.clock)
  }

  /** The phase changes only to its successor, and only through GO_TO_POINT
      or an accepted arm, takeoff or land request; a request reports the
      autopilot's answer. */
  lemma StepAdvances(ctx: Context, tel: Telemetry, now: Time, outcome: Outcome)
    ensures var t := Step(ctx, tel, now, outcome);
            && (t.after.state != ctx.state ==>
                  ctx.state != Done && t.after.state == Next(ctx.state)
                  && (ctx.state == GoToPoint
                      || (t.issued.Some? && t.issued.value.command != ModeRequest
                          && t.issued.value.outcome == Accepted)))
            && (t.issued.Some? ==> t.issued.value.outcome == outcome)
  {
  }

  /** Every tick that does not end in DONE ends by publishing the current
      target once, and only GO_TO_POINT changes the target, so every other
      phase publishes exactly the unchanged target. */
  lemma StepPublishesTarget(ctx: Context, tel: Telemetry, now: Time, outcome: Outcome)
    ensures var t := Step(ctx, tel, now, outcome);
            && (!t.Finished() ==>
                  |t.published| > 0 && t.published[|t.published| - 1] == Setpoint(t.after.target, t.clock))
            && (ctx.state != GoToPoint ==>
                  t.after.target == ctx.target
                  && (!t.Finished() ==> t.published == [Setpoint(ctx.target, t.clock)]))
  {
  }

  /** The GO_TO_POINT tick publishes exactly six setpoints: the five waypoints
      in order, 10 s apart from the start of the tick, and then the first
      waypoint again as the stream setpoint at the end of the last dwell. */
  lemma StepToursWaypoints(ctx: Context, tel: Telemetry, now: Time, outcome: Outcome)
    requires ctx.state == GoToPoint
    ensures var t := Step(ctx, tel, now, outcome);
            && t.clock == now + WaypointCount * DwellTime
            && t.published == [Setpoint(Waypoint(0), now),
                               Setpoint(Waypoint(1), now + DwellTime),
                               Setpoint(Waypoint(2), now + 2 * DwellTime),
                               Setpoint(Waypoint(3), now + 3 * DwellTime),
                               Setpoint(Waypoint(4), now + 4 * DwellTime),
                               Setpoint(Waypoint(0), t.clock)]
  {
  }

  /** Every tick keeps the tick discipline, in every phase and for every
      telemetry, time and answer. */
  lemma StepIsDisciplined(ctx: Context, tel: Telemetry, now: Time, outcome: Outcome)
    ensures Disciplined(Step(ctx, tel, now, outcome))
  {
    match ctx.state
    case ReadyToFly => ReadyToFlyDisciplined(ctx, tel, now, outcome);
    case TakeOff => TakeOffDisciplined(ctx, tel, now, outcome);
    case GoToPoint => GoToPointDisciplined(ctx, tel, now, outcome);
    case Land => LandDisciplined(ctx, tel, now, outcome);
    case Done => DoneDisciplined(ctx, tel, now, outcome);
  }

  lemma ReadyToFlyDisciplined(ctx: Context, tel: Telemetry, now: Time, outcome: Outcome)
    requires ctx.state == ReadyToFly
    ensures Disciplined(Step(ctx, tel, now, outcome))
  {
  }

  lemma TakeOffDisciplined(ctx: Context, tel: Telemetry, now: Time, outcome: Outcome)
    requires ctx.state == TakeOff
    ensures Disciplined(Step(ctx, tel, now, outcome))
  {
  }

  lemma GoToPointDisciplined(ctx: Context, tel: Telemetry, now: Time, outcome: Outcome)
    requires ctx.state == GoToPoint
    ensures Disciplined(Step(ctx, tel, now, outcome))
  {
  }

  lemma LandDisciplined(ctx: Context, tel: Telemetry, now: Time, outcome: Outcome)
    requires ctx.state == Land
    ensures Disciplined(Step(ctx, tel, now, outcome))
  {
  }

  lemma DoneDisciplined(ctx: Context, tel: Telemetry, now: Time, outcome: Outcome)
    requires ctx.state == Done
    ensures Disciplined(Step(ctx, tel, now, outcome))
  {
  }

  /** A land request that is not accepted leaves the context, timer
      included, exactly as it was, so any later tick in that context issues
      the land request again, with no further wait. */
  lemma LandRetryStep(ctx: Context, tel: Telemetry, now: Time, outcome: Outcome,
                      tel2: Telemetry, now2: Time, outcome2: Outcome)
    requires Issues(Step(ctx, tel, now, outcome).issued, LandRequest)
    requires Step(ctx, tel, now, outcome).issued.value.outcome != Accepted
    requires now2 >= Step(ctx, tel, now, outcome).clock
    ensures Step(ctx, tel, now, outcome).after == ctx
    ensures Issues(Step(ctx, tel2, now2, outcome2).issued, LandRequest)
  {
    StepIsDisciplined(ctx, tel, now, outcome);
    assert ctx.state == Land;
  }

  /** The loop never looks at the `connected` flag: it is only consulted by
      the connection wait before the loop. */
  lemma StepIgnoresConnected(ctx: Context, tel: Telemetry, now: Time, outcome: Outcome)
    ensures Step(ctx, tel, now, outcome).after
         == Step(ctx, tel.(connected := !tel.connected), now, outcome).after
    ensures Step(ctx, tel, now, outcome).issued
         == Step(ctx, tel.(connected := !tel.connected), now, outcome).issued
  {
  }

  /** A failed call and a rejected request lead to the same tick in every
      phase: the same context, the same setpoints and the same clock. */
  lemma TransportFailIsRejection(ctx: Context, tel: Telemetry, now: Time)
    ensures Step(ctx, tel, now, TransportFail).after == Step(ctx, tel, now, Rejected).after
    ensures Step(ctx, tel, now, TransportFail).published == Step(ctx, tel, now, Rejected).published
    ensures Step(ctx, tel, now, TransportFail).clock == Step(ctx, tel, now, Rejected).clock
  {
  }
}
