/** Runs of the mission loop: a sequence of ticks, each the `Step` of the
    context the previous one left, until a tick ends in DONE or the inputs run
    out (the node being shut down). Properties that span several ticks live
    here: forward-only progress, cooldown spacing between attempts, at most
    one accepted takeoff, one navigation tick, silence after DONE and the
    armed-in-GUIDED stall. */
module Trace {
  import opened MissionTypes
  import opened Setpoints
  import opened Mission

  /** The inputs of one tick: cached telemetry, the time elapsed since the
      previous tick ended, and the answer to any request the tick makes. The
      elapsed time is a `nat`: the model assumes the clock never runs
      backward. */
  datatype Input = Input(telemetry: Telemetry, elapsed: nat, outcome: Outcome)

  /** Each tick keeps the tick discipline of `Step`, each starts from the
      context the previous one left, and none starts before the previous one
      ended. */
  ghost predicate Execution(ticks: seq<Tick>) {
    && (forall k :: 0 <= k < |ticks| ==> Disciplined(ticks[k]))
    && (forall k :: 0 <= k < |ticks| - 1 ==>
          ticks[k + 1].before == ticks[k].after && ticks[k].clock <= ticks[k + 1].now)
  }

  /** The first tick does not start before the cooldown timer was last set;
      the loop starts this way because `last_time` is set at launch. */
  ghost predicate TimelyStart(ticks: seq<Tick>) {
    |ticks| > 0 ==> ticks[0].before.lastTime <= ticks[0].now
  }

  /** A transition for one tick, such as `Step`. */
  type Stepper = (Context, Telemetry, Time, Outcome) -> Tick

  /** `step` records its own inputs in the tick it returns and every tick it
      returns keeps the tick discipline. */
  ghost predicate Faithful(step: Stepper) {
    forall ctx, tel, now, outcome ::
      && step(ctx, tel, now, outcome).before == ctx
      && step(ctx, tel, now, outcome).telemetry == tel
      && step(ctx, tel, now, outcome).now == now
      && step(ctx, tel, now, outcome).outcome == outcome
      && Disciplined(step(ctx, tel, now, outcome))
  }

  /** The `while (ros::ok())` loop driven by `step`, from context `ctx` with
      the clock at `clock`, one tick per input. It leaves right after the
      first tick that ends in DONE; otherwise it runs until the inputs are
      exhausted. */
  function RunWith(step: Stepper, ctx: Context, clock: Time, ins: seq<Input>): (ticks: seq<Tick>)
    ensures |ticks| <= |ins|
    ensures |ticks| < |ins| ==> |ticks| > 0 && ticks[|ticks| - 1].Finished()
    ensures forall k :: 0 <= k < |ticks| - 1 ==> !ticks[k].Finished()
    decreases |ins|
  {
    if |ins| == 0 then
      []
    else
      var t := step(ctx, ins[0].telemetry, clock + ins[0].elapsed, ins[0].outcome);
      if t.Finished() then
        [t]
      else
        [t] + RunWith(step, t.after, t.clock, ins[1..])
  }

  /** The first tick of a run is the step of the first input, and unless it
      ends in DONE the rest of the run is the run from where it left off. */
  lemma RunWithHead(step: Stepper, ctx: Context, clock: Time, ins: seq<Input>)
    requires |ins| > 0
    ensures var ticks := RunWith(step, ctx, clock, ins);
            && |ticks| > 0
            && ticks[0] == step(ctx, ins[0].telemetry, clock + ins[0].elapsed, ins[0].outcome)
            && (ticks[0].Finished() ==> ticks == [ticks[0]])
            && (!ticks[0].Finished() ==>
                  ticks == [ticks[0]] + RunWith(step, ticks[0].after, ticks[0].clock, ins[1..]))
  {
  }

  /** A disciplined tick followed by an execution that starts where the tick
      left off is again an execution. */
  lemma ExecutionCons(t: Tick, rest: seq<Tick>)
    requires Disciplined(t) && Execution(rest)
    requires |rest| > 0 ==> rest[0].before == t.after && t.clock <= rest[0].now
    ensures Execution([t] + rest)
  {
    var ticks := [t] + rest;
    forall k | 0 <= k < |ticks| - 1
      ensures ticks[k + 1].before == ticks[k].after && ticks[k].clock <= ticks[k + 1].now
    {
      assert ticks[k + 1] == rest[k];
      if k > 0 {
        assert ticks[k] == rest[k - 1];
      }
    }
  }

  /** A run driven by a faithful step is an execution. */
  lemma {:induction false} RunWithIsExecution(step: Stepper, ctx: Context, clock: Time, ins: seq<Input>)
    requires Faithful(step)
    ensures Execution(RunWith(step, ctx, clock, ins))
    decreases |ins|
  {
    if |ins| > 0 {
      RunWithHead(step, ctx, clock, ins);
      var t := RunWith(step, ctx, clock, ins)[0];
      if !t.Finished() {
        RunWithIsExecution(step, t.after, t.clock, ins[1..]);
        ExecutionCons(t, RunWith(step, t.after, t.clock, ins[1..]));
      }
    }
  }

  /** In a run driven by a faithful step, tick `k` consumes input `k`: it
      sees that input's telemetry and answer, starts the input's `elapsed`
      after the previous tick ended (the first one after `clock`), and starts
      from the context the previous tick left (the first one from `ctx`). */
  lemma {:induction false} RunWithFollowsInputs(step: Stepper, ctx: Context, clock: Time, ins: seq<Input>)
    requires Faithful(step)
    ensures var ticks := RunWith(step, ctx, clock, ins);
            && (|ticks| > 0 ==> ticks[0].before == ctx && ticks[0].now == clock + ins[0].elapsed)
            && (forall k :: 0 <= k < |ticks| ==>
                  ticks[k].telemetry == ins[k].telemetry && ticks[k].outcome == ins[k].outcome)
            && (forall k :: 0 <= k < |ticks| - 1 ==>
                  ticks[k + 1].before == ticks[k].after && ticks[k + 1].now == ticks[k].clock + ins[k + 1].elapsed)
    decreases |ins|
  {
    if |ins| > 0 {
      RunWithHead(step, ctx, clock, ins);
      var ticks := RunWith(step, ctx, clock, ins);
      var t := ticks[0];
      if !t.Finished() {
        var rest := RunWith(step, t.after, t.clock, ins[1..]);
        RunWithFollowsInputs(step, t.after, t.clock, ins[1..]);
        forall k | 0 < k < |ticks|
          ensures ticks[k].telemetry == ins[k].telemetry && ticks[k].outcome == ins[k].outcome
        {
          assert ticks[k] == rest[k - 1] && ins[k] == ins[1..][k - 1];
        }
        forall k | 0 < k < |ticks| - 1
          ensures ticks[k + 1].before == ticks[k].after
                  && ticks[k + 1].now == ticks[k].clock + ins[k + 1].elapsed
        {
          assert ticks[k + 1] == rest[k] && ticks[k] == rest[k - 1] && ins[k + 1] == ins[1..][k];
        }
      }
    }
  }

  /** Each tick of `ticks` is `step` applied to input `k`: the first from
      `ctx` at `clock`, every later one from the context and clock the tick
      before it left. */
  ghost predicate Chained(step: Stepper, ctx: Context, clock: Time, ticks: seq<Tick>, ins: seq<Input>) {
    && |ticks| <= |ins|
    && (|ticks| > 0 ==> ticks[0] == step(ctx, ins[0].telemetry, clock + ins[0].elapsed, ins[0].outcome))
    && (forall k :: 0 < k < |ticks| ==>
          ticks[k] == step(ticks[k - 1].after, ins[k].telemetry, ticks[k - 1].clock + ins[k].elapsed, ins[k].outcome))
  }

  /** A step followed by a chain from where it left off is a chain. */
  lemma ChainedCons(step: Stepper, ctx: Context, clock: Time, t: Tick, rest: seq<Tick>, ins: seq<Input>)
    requires |ins| > 0 && t == step(ctx, ins[0].telemetry, clock + ins[0].elapsed, ins[0].outcome)
    requires Chained(step, t.after, t.clock, rest, ins[1..])
    ensures Chained(step, ctx, clock, [t] + rest, ins)
  {
    var ticks := [t] + rest;
    forall k | 0 < k < |ticks|
      ensures ticks[k] == step(ticks[k - 1].after, ins[k].telemetry, ticks[k - 1].clock + ins[k].elapsed, ins[k].outcome)
    {
      assert ticks[k] == rest[k - 1] && ins[k] == ins[1..][k - 1];
      if k > 1 {
        assert ticks[k - 1] == rest[k - 2];
      }
    }
  }

  /** Every tick of a run is `step` applied to its own input and to the
      context and clock the tick before it left. */
  lemma {:induction false} RunWithSteps(step: Stepper, ctx: Context, clock: Time, ins: seq<Input>)
    ensures Chained(step, ctx, clock, RunWith(step, ctx, clock, ins), ins)
    decreases |ins|
  {
    if |ins| > 0 {
      RunWithHead(step, ctx, clock, ins);
      var t := RunWith(step, ctx, clock, ins)[0];
      if !t.Finished() {
        RunWithSteps(step, t.after, t.clock, ins[1..]);
        ChainedCons(step, ctx, clock, t, RunWith(step, t.after, t.clock, ins[1..]), ins);
      }
    }
  }

  /** `Step` is faithful. */
  lemma StepIsFaithful()
    ensures Faithful(Step)
  {
    forall ctx, tel, now, outcome
      ensures Disciplined(Step(ctx, tel, now, outcome))
    {
      StepIsDisciplined(ctx, tel, now, outcome);
    }
  }

  /** The mission loop itself: a copy of `RunWith` with `Step` written in.
      The copy exists only so that concrete runs unfold cheaply;
      `RunIsRunWith` shows the two are the same. */
  function Run(ctx: Context, clock: Time, ins: seq<Input>): (ticks: seq<Tick>)
    ensures |ticks| <= |ins|
    ensures |ticks| < |ins| ==> |ticks| > 0 && ticks[|ticks| - 1].Finished()
    ensures forall k :: 0 <= k < |ticks| - 1 ==> !ticks[k].Finished()
    decreases |ins|
  {
    if |ins| == 0 then
      []
    else
      var t := Step(ctx, ins[0].telemetry, clock + ins[0].elapsed, ins[0].outcome);
      if t.Finished() then
        [t]
      else
        [t] + Run(t.after, t.clock, ins[1..])
  }

  /** The first tick of the mission loop is the `Step` of the first input,
      and unless it ends in DONE the rest is the loop from where it left off. */
  lemma RunHead(ctx: Context, clock: Time, ins: seq<Input>)
    requires |ins| > 0
    ensures var ticks := Run(ctx, clock, ins);
            && |ticks| > 0
            && ticks[0] == Step(ctx, ins[0].telemetry, clock + ins[0].elapsed, ins[0].outcome)
            && (ticks[0].Finished() ==> ticks == [ticks[0]])
            && (!ticks[0].Finished() ==> ticks == [ticks[0]] + Run(ticks[0].after, ticks[0].clock, ins[1..]))
  {
  }

  /** The mission loop is the run driven by `Step`. */
  lemma {:induction false} RunIsRunWith(ctx: Context, clock: Time, ins: seq<Input>)
    ensures Run(ctx, clock, ins) == RunWith(Step, ctx, clock, ins)
    decreases |ins|
  {
    if |ins| > 0 {
      RunHead(ctx, clock, ins);
      RunWithHead(Step, ctx, clock, ins);
      var t := Run(ctx, clock, ins)[0];
      if !t.Finished() {
        RunIsRunWith(t.after, t.clock, ins[1..]);
      }
    }
  }

  /** The mission loop is an execution in which tick `k` consumes input `k`:
      it sees that input's telemetry and answer, starts the input's `elapsed`
      after the previous tick ended (the first one after `clock`), and starts
      from the context the previous tick left (the first one from `ctx`). */
  lemma RunIsExecution(ctx: Context, clock: Time, ins: seq<Input>)
    ensures var ticks := Run(ctx, clock, ins);
            && Execution(ticks)
            && (|ticks| > 0 ==> ticks[0].before == ctx && ticks[0].now == clock + ins[0].elapsed)
            && (forall k :: 0 <= k < |ticks| ==>
                  ticks[k].telemetry == ins[k].telemetry && ticks[k].outcome == ins[k].outcome)
            && (forall k :: 0 <= k < |ticks| - 1 ==>
                  ticks[k + 1].now == ticks[k].clock + ins[k + 1].elapsed)
  {
    RunIsRunWith(ctx, clock, ins);
    StepIsFaithful();
    RunWithIsExecution(Step, ctx, clock, ins);
    RunWithFollowsInputs(Step, ctx, clock, ins);
  }

  /** The mission as launched at time `start`: the loop from the launch
      context, whose first tick cannot start before the timer was set. */
  function Flight(start: Time, ins: seq<Input>): (ticks: seq<Tick>)
    ensures Execution(ticks) && TimelyStart(ticks)
    ensures |ticks| > 0 ==> ticks[0].before == Launch(start)
  {
    RunIsExecution(Launch(start), start, ins);
    Run(Launch(start), start, ins)
  }

  /** Phases never move backward: a later tick starts no earlier in the
      mission than any earlier tick ended, and within a tick the phase moves
      at most one position forward. */
  lemma {:induction false} ForwardOnly(ticks: seq<Tick>)
    requires Execution(ticks)
    ensures forall k :: 0 <= k < |ticks| ==>
              Rank(ticks[k].before.state) <= Rank(ticks[k].after.state) <= Rank(ticks[k].before.state) + 1
    ensures forall i, j :: 0 <= i < j < |ticks| ==>
              Rank(ticks[i].after.state) <= Rank(ticks[j].before.state)
  {
    if |ticks| > 1 {
      var n := |ticks| - 1;
      var front := ticks[..n];
      assert Execution(front);
      ForwardOnly(front);
      forall i | 0 <= i < n
        ensures Rank(ticks[i].after.state) <= Rank(ticks[n].before.state)
      {
        assert ticks[n].before == ticks[n - 1].after;
        if i < n - 1 {
          assert front[i] == ticks[i] && front[n - 1] == ticks[n - 1];
        }
      }
    }
  }

  /** The cooldown timer and the clock only move forward along a run that
      starts on time: every tick starts no earlier than the timer it sees, and
      no earlier than any earlier tick ended or set the timer. */
  lemma {:induction false} TimerNeverRewinds(ticks: seq<Tick>)
    requires Execution(ticks) && TimelyStart(ticks)
    ensures forall k :: 0 <= k < |ticks| ==> ticks[k].before.lastTime <= ticks[k].now
    ensures forall i, j :: 0 <= i < j < |ticks| ==>
              ticks[i].after.lastTime <= ticks[j].before.lastTime && ticks[i].clock <= ticks[j].now
  {
    if |ticks| > 1 {
      var n := |ticks| - 1;
      var front := ticks[..n];
      assert Execution(front);
      TimerNeverRewinds(front);
      assert front[n - 1] == ticks[n - 1];
      assert ticks[n].before == ticks[n - 1].after;
      forall i | 0 <= i < n
        ensures ticks[i].after.lastTime <= ticks[n].before.lastTime && ticks[i].clock <= ticks[n].now
      {
        if i < n - 1 {
          assert front[i] == ticks[i];
        }
      }
    }
  }

  /** Two arm attempts are always more than 0.5 s apart, whatever the
      autopilot answered to the first. */
  lemma ArmAttemptsSpaced(ticks: seq<Tick>)
    requires Execution(ticks)
    ensures forall i, j ::
              (0 <= i < j < |ticks|
               && Issues(ticks[i].issued, ArmRequest) && Issues(ticks[j].issued, ArmRequest)) ==>
              ticks[j].now - ticks[i].now > ArmCooldown
  {
    forall i, j | 0 <= i < j < |ticks| && Issues(ticks[i].issued, ArmRequest)
      ensures ticks[i].now <= ticks[j].before.lastTime
    {
      TimerFromAttempt(ticks, i, j);
    }
  }

  /** Two takeoff attempts are always more than 1 s apart. */
  lemma TakeoffAttemptsSpaced(ticks: seq<Tick>)
    requires Execution(ticks)
    ensures forall i, j ::
              (0 <= i < j < |ticks|
               && Issues(ticks[i].issued, TakeoffRequest) && Issues(ticks[j].issued, TakeoffRequest)) ==>
              ticks[j].now - ticks[i].now > TakeoffCooldown
  {
    forall i, j | 0 <= i < j < |ticks| && Issues(ticks[i].issued, TakeoffRequest)
      ensures ticks[i].now <= ticks[j].before.lastTime
    {
      TimerFromAttempt(ticks, i, j);
    }
  }

  /** After a tick that leaves the timer no later than its own end, as every
      arm attempt, takeoff attempt and navigation tick does, every later tick
      sees a timer no older than the one that tick left. No assumption on how
      the run began is needed. */
  lemma TimerFromAttempt(ticks: seq<Tick>, i: nat, j: nat)
    requires Execution(ticks) && i < j < |ticks|
    requires ticks[i].after.lastTime <= ticks[i].clock
    ensures ticks[i].after.lastTime <= ticks[j].before.lastTime
  {
    var tail := ticks[i + 1..];
    assert tail[0] == ticks[i + 1];
    assert Execution(tail) by {
      forall k | 0 <= k < |tail| - 1
        ensures tail[k + 1].before == tail[k].after && tail[k].clock <= tail[k + 1].now
      {
        assert tail[k] == ticks[i + 1 + k] && tail[k + 1] == ticks[i + 1 + k + 1];
      }
    }
    assert TimelyStart(tail);
    TimerNeverRewinds(tail);
    if j > i + 1 {
      assert tail[j - i - 1] == ticks[j];
    }
  }

  /** At most one takeoff is ever accepted, and at most one arm. */
  lemma AtMostOneAcceptedTakeoff(ticks: seq<Tick>)
    requires Execution(ticks)
    ensures forall i, j ::
              (0 <= i < |ticks| && 0 <= j < |ticks|
               && ticks[i].issued == Some(Attempt(TakeoffRequest, Accepted))
               && ticks[j].issued == Some(Attempt(TakeoffRequest, Accepted))) ==> i == j
    ensures forall i, j ::
              (0 <= i < |ticks| && 0 <= j < |ticks|
               && ticks[i].issued == Some(Attempt(ArmRequest, Accepted))
               && ticks[j].issued == Some(Attempt(ArmRequest, Accepted))) ==> i == j
  {
    ForwardOnly(ticks);
  }

  /** At most one tick of any run starts in GO_TO_POINT, and every such tick
      ends in LAND. */
  lemma NavigationRunsOnce(ticks: seq<Tick>)
    requires Execution(ticks)
    ensures forall i, j ::
              (0 <= i < |ticks| && 0 <= j < |ticks|
               && ticks[i].before.state == GoToPoint && ticks[j].before.state == GoToPoint) ==> i == j
    ensures forall i :: 0 <= i < |ticks| && ticks[i].before.state == GoToPoint ==>
              ticks[i].after.state == Land
  {
    ForwardOnly(ticks);
  }

  /** A tick that enters GO_TO_POINT is followed, if the run goes on, by the
      navigation tick, which ends in LAND. */
  lemma NavigationFollowsTakeoff(ticks: seq<Tick>, i: nat)
    requires Execution(ticks) && i + 1 < |ticks| && ticks[i].after.state == GoToPoint
    ensures ticks[i + 1].before.state == GoToPoint && ticks[i + 1].after.state == Land
  {
  }

  /** Every land attempt comes more than 1 s after the navigation tick that
      entered LAND has ended, along any execution, however it began. */
  lemma LandWaitsAfterNavigation(ticks: seq<Tick>)
    requires Execution(ticks)
    ensures forall i, j ::
              (0 <= i < j < |ticks|
               && ticks[i].before.state == GoToPoint && Issues(ticks[j].issued, LandRequest)) ==>
              ticks[j].now - ticks[i].clock > LandCooldown
  {
    forall i, j | 0 <= i < j < |ticks| && ticks[i].before.state == GoToPoint
      ensures ticks[i].clock <= ticks[j].before.lastTime
    {
      TimerFromAttempt(ticks, i, j);
    }
  }

  /** Once a tick has ended in DONE, no later tick issues a request, publishes
      a setpoint or changes the context. */
  lemma DoneIsFinal(ticks: seq<Tick>)
    requires Execution(ticks)
    ensures forall i, j :: 0 <= i < j < |ticks| && ticks[i].Finished() ==>
              ticks[j].issued == None && ticks[j].published == [] && ticks[j].after == ticks[j].before
  {
    ForwardOnly(ticks);
  }

  /** LAND's retry discipline along any chain of mission steps: a land
      request that is rejected or fails is issued again by the next step,
      which starts from the same context. */
  lemma ChainedLandRetry(ctx: Context, clock: Time, ticks: seq<Tick>, ins: seq<Input>, i: nat)
    requires Chained(Step, ctx, clock, ticks, ins) && i + 1 < |ticks|
    requires Issues(ticks[i].issued, LandRequest) && ticks[i].issued.value.outcome != Accepted
    ensures Issues(ticks[i + 1].issued, LandRequest) && ticks[i + 1].before == ticks[i].before
  {
    var c := if i == 0 then ctx else ticks[i - 1].after;
    var k := if i == 0 then clock else ticks[i - 1].clock;
    assert ticks[i] == Step(c, ins[i].telemetry, k + ins[i].elapsed, ins[i].outcome);
    LandRetryStep(c, ins[i].telemetry, k + ins[i].elapsed, ins[i].outcome,
                  ins[i + 1].telemetry, ticks[i].clock + ins[i + 1].elapsed, ins[i + 1].outcome);
  }

  /** LAND's retry discipline along any run of the mission loop: a land
      request that is rejected or fails is issued again on the very next
      tick, whatever time has elapsed, and that tick starts from the same
      context. */
  lemma LandRetriedNext(ctx: Context, clock: Time, ins: seq<Input>, i: nat)
    requires i + 1 < |Run(ctx, clock, ins)|
    requires Issues(Run(ctx, clock, ins)[i].issued, LandRequest)
    requires Run(ctx, clock, ins)[i].issued.value.outcome != Accepted
    ensures Issues(Run(ctx, clock, ins)[i + 1].issued, LandRequest)
    ensures Run(ctx, clock, ins)[i + 1].before == Run(ctx, clock, ins)[i].before
  {
    RunIsRunWith(ctx, clock, ins);
    RunWithSteps(Step, ctx, clock, ins);
    ChainedLandRetry(ctx, clock, Run(ctx, clock, ins), ins, i);
  }

  /** In READY_TO_FLY with the vehicle already armed in GUIDED mode the loop
      stalls: it never finishes, issues no request and keeps its context,
      republishing the unchanged target on every tick. */
  lemma {:induction false} ArmedInGuidedStalls(ctx: Context, clock: Time, ins: seq<Input>)
    requires ctx.state == ReadyToFly
    requires forall k :: 0 <= k < |ins| ==> ins[k].telemetry.mode == GuidedMode && ins[k].telemetry.armed
    ensures var ticks := Run(ctx, clock, ins);
            && |ticks| == |ins|
            && forall k :: 0 <= k < |ticks| ==>
                 ticks[k].issued == None && ticks[k].after == ctx
                 && ticks[k].published == [Setpoint(ctx.target, ticks[k].now)]
    decreases |ins|
  {
    if |ins| > 0 {
      RunHead(ctx, clock, ins);
      var ticks := Run(ctx, clock, ins);
      var t := ticks[0];
      StepPublishesTarget(ctx, ins[0].telemetry, clock + ins[0].elapsed, ins[0].outcome);
      assert t.after == ctx && t.clock == t.now;
      ArmedInGuidedStalls(ctx, t.clock, ins[1..]);
      var rest := Run(ctx, t.clock, ins[1..]);
      forall k | 0 < k < |ticks|
        ensures ticks[k].issued == None && ticks[k].after == ctx
                && ticks[k].published == [Setpoint(ctx.target, ticks[k].now)]
      {
        assert ticks[k] == rest[k - 1];
      }
    }
  }
}
