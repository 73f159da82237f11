/** The joint-space trajectory generator. */
module TrajectoryGenerators {
  import opened Shapes
  import opened RestToRest
  import opened TrajectoryLaws
  import opened RobotModels

  /** What a generator was built to do: per joint, from where to where, and in which time. */
  datatype Plan = Plan(kind: Kind, home: seq<real>, goal: seq<real>, duration: real) {

    predicate Valid()
    {
      |home| == |goal| && duration != 0.0
    }

    ghost function Position(i: nat, t: real): real
      requires Valid() && i < |home|
    {
      PositionAt(kind, home[i], goal[i], duration, t)
    }

    ghost function Velocity(i: nat, t: real): real
      requires Valid() && i < |home|
    {
      VelocityAt(kind, home[i], goal[i], duration, t)
    }

    ghost function Positions(t: real): seq<real>
      requires Valid()
    {
      seq(|home|, i requires 0 <= i < |home| => Position(i, t))
    }

    ghost function Velocities(t: real): seq<real>
      requires Valid()
    {
      seq(|home|, i requires 0 <= i < |home| => Velocity(i, t))
    }
  }

  /** The plan for a goal request: every joint's goal is clamped to the joint's limits. */
  ghost function PlanFor(kind: Kind, robot: RobotModel, goal: seq<real>, duration: real): Plan
    requires robot.Shaped() && |goal| == robot.Dofs()
  {
    Plan(kind, robot.home,
         seq(|goal|, i requires 0 <= i < |goal| => Clamp(goal[i], robot.jointMin[i], robot.jointMax[i])), duration)
  }

  /** What the earlier generator, which clamps time from above only, reports. */
  ghost function EarlierPositions(plan: Plan, t: real): seq<real>
    requires plan.Valid()
  {
    seq(|plan.home|, i requires 0 <= i < |plan.home| =>
      EarlierPositionAt(plan.kind, plan.home[i], plan.goal[i], plan.duration, t))
  }

  ghost function EarlierVelocities(plan: Plan, t: real): seq<real>
    requires plan.Valid()
  {
    seq(|plan.home|, i requires 0 <= i < |plan.home| =>
      EarlierVelocityAt(plan.kind, plan.home[i], plan.goal[i], plan.duration, t))
  }

  class TrajectoryGenerator {
    const duration: real
    const trajectories: array<Traj>

    ghost predicate Follows(plan: Plan)
      reads trajectories
    {
      && plan.Valid()
      && duration == plan.duration
      && trajectories.Length == |plan.home|
      && forall i :: 0 <= i < trajectories.Length ==>
           trajectories[i] == MakeTraj(plan.kind, plan.home[i], plan.goal[i], duration)
    }

    constructor (kind: Kind, robot: RobotModel, goal: seq<real>, duration: real)
      requires robot.Shaped() && |goal| == robot.Dofs() && duration != 0.0
      ensures fresh(trajectories)
      ensures Follows(PlanFor(kind, robot, goal, duration))
    {
      this.duration := duration;
      trajectories := new Traj[robot.Dofs()];
      new;
      for i := 0 to robot.Dofs()
        invariant trajectories.Length == robot.Dofs()
        invariant forall j :: 0 <= j < i ==>
          trajectories[j] == MakeTraj(kind, robot.home[j], Clamp(goal[j], robot.jointMin[j], robot.jointMax[j]), duration)
      {
        var q0 := robot.home[i];
        var qf := Clamp(goal[i], robot.jointMin[i], robot.jointMax[i]);
        trajectories[i] := MakeTraj(kind, q0, qf, duration);
      }
    }

    method Compute(t: real, pos: array<real>, vel: array<real>, ghost plan: Plan)
      requires Follows(plan)
      requires pos != vel && pos.Length == vel.Length == trajectories.Length
      modifies pos, vel
      ensures Follows(plan)
      ensures pos[..] == plan.Positions(t) && vel[..] == plan.Velocities(t)
    {
      var tc := Clamp(t, 0.0, duration);
      for i := 0 to trajectories.Length
        invariant Follows(plan)
        invariant forall j :: 0 <= j < i ==> pos[j] == plan.Position(j, t) && vel[j] == plan.Velocity(j, t)
      {
        pos[i] := trajectories[i].Position(tc);
        vel[i] := trajectories[i].Velocity(tc);
      }
    }

    /** As the earlier header has it: time is clamped from above only. */
    method EarlierCompute(t: real, pos: array<real>, vel: array<real>, ghost plan: Plan)
      requires Follows(plan)
      requires pos != vel && pos.Length == vel.Length == trajectories.Length
      modifies pos, vel
      ensures Follows(plan)
      ensures pos[..] == EarlierPositions(plan, t) && vel[..] == EarlierVelocities(plan, t)
    {
      var tc := if t < duration then t else duration;
      for i := 0 to trajectories.Length
        invariant Follows(plan)
        invariant forall j :: 0 <= j < i ==>
          pos[j] == EarlierPositions(plan, t)[j] && vel[j] == EarlierVelocities(plan, t)[j]
      {
        pos[i] := trajectories[i].Position(tc);
        vel[i] := trajectories[i].Velocity(tc);
      }
    }
  }

  // ---------- Joint limits ----------

  lemma ClampBetween(v: real, lo: real, hi: real)
    requires lo <= hi
    ensures lo <= Clamp(v, lo, hi) <= hi
    ensures lo <= v <= hi ==> Clamp(v, lo, hi) == v
  {
  }

  lemma HomeBefore(k: Kind, q0: real, qf: real, T: real, t: real)
    requires T != 0.0 && t < 0.0
    ensures PositionAt(k, q0, qf, T, t) == q0
  {
    hide *;
    if T > 0.0 {
      RestsOutside(k, q0, qf, T, t);
    } else {
      JumpsWhenNegative(k, q0, qf, T, t);
    }
  }

  /** The plan goes from home to the value within the joint's limits that is closest to the
      requested goal, in the requested time. */
  lemma GoalIsClosest(kind: Kind, robot: RobotModel, goal: seq<real>, duration: real, i: nat)
    requires robot.Shaped() && |goal| == robot.Dofs() && i < |goal|
    ensures var plan := PlanFor(kind, robot, goal, duration);
            var lo, hi := robot.jointMin[i], robot.jointMax[i];
            && plan.kind == kind && plan.duration == duration && plan.home == robot.home && |plan.goal| == |goal|
            && (goal[i] < lo ==> plan.goal[i] == lo)
            && (goal[i] >= lo && goal[i] > hi ==> plan.goal[i] == hi)
            && (lo <= goal[i] <= hi ==> plan.goal[i] == goal[i])
            && (lo <= hi ==> lo <= plan.goal[i] <= hi
                             && forall x :: lo <= x <= hi ==> AbsDiff(goal[i], plan.goal[i]) <= AbsDiff(goal[i], x))
  {
  }

  /** Whatever the goal, all positions at all times respect the limits exactly when home does. */
  lemma LimitsRespected(kind: Kind, robot: RobotModel, goal: seq<real>, duration: real)
    requires robot.Shaped() && |goal| == robot.Dofs() && duration != 0.0
    ensures robot.WithinLimits(robot.home)
       <==> forall t :: robot.WithinLimits(PlanFor(kind, robot, goal, duration).Positions(t))
  {
    var plan := PlanFor(kind, robot, goal, duration);
    if robot.WithinLimits(robot.home) {
      forall t ensures robot.WithinLimits(plan.Positions(t)) {
        forall i | 0 <= i < robot.Dofs()
          ensures robot.jointMin[i] <= plan.Position(i, t) <= robot.jointMax[i]
        {
          ClampBetween(goal[i], robot.jointMin[i], robot.jointMax[i]);
          MovesMonotonically(kind, plan.home[i], plan.goal[i], duration, t, t);
        }
      }
    }
    if robot.WithinLimits(plan.Positions(-1.0)) {
      forall i | 0 <= i < robot.Dofs()
        ensures plan.Positions(-1.0)[i] == robot.home[i]
      {
        HomeBefore(kind, plan.home[i], plan.goal[i], duration, -1.0);
      }
    }
  }

  /** A goal within limits is held from the end of the motion on. */
  lemma GoalHeld(kind: Kind, robot: RobotModel, goal: seq<real>, duration: real, t: real)
    requires robot.Shaped() && |goal| == robot.Dofs() && duration != 0.0 && t >= 0.0 && t >= duration
    requires robot.WithinLimits(goal)
    ensures PlanFor(kind, robot, goal, duration).Positions(t) == goal
  {
    var plan := PlanFor(kind, robot, goal, duration);
    forall i | 0 <= i < robot.Dofs()
      ensures plan.Positions(t)[i] == goal[i]
    {
      ArrivesAtT(kind, plan.home[i], plan.goal[i], duration, t);
    }
  }

  /** The shipped goals are reached, unclamped, and held from five seconds on. */
  lemma ShippedGoalsReached(t: real)
    requires t >= 5.0
    ensures SPOT.Shaped() && UR5.Shaped()
    ensures PlanFor(QuinticKind, SPOT, SPOT_GOAL, DURATION).Positions(t) == SPOT_GOAL
    ensures PlanFor(QuinticKind, UR5, UR5_GOAL, DURATION).Positions(t) == UR5_GOAL
  {
    TablesWithinLimits();
    GoalHeld(QuinticKind, SPOT, SPOT_GOAL, DURATION, t);
    GoalHeld(QuinticKind, UR5, UR5_GOAL, DURATION, t);
  }

  // ---------- The earlier generator ----------

  /** Both generators fill the same positions, and the same velocities, if and only if no joint
      has anything to travel or the time is one at which the two ways of clamping agree. */
  lemma EarlierArraysAgree(plan: Plan, t: real)
    requires plan.Valid()
    ensures EarlierPositions(plan, t) == plan.Positions(t)
       <==> plan.home == plan.goal || SamePositions(plan.kind, plan.duration, t)
    ensures EarlierVelocities(plan, t) == plan.Velocities(t)
       <==> plan.home == plan.goal || SameVelocities(plan.duration, t)
  {
    hide PositionAt, VelocityAt, EarlierPositionAt, EarlierVelocityAt, SamePositions, SameVelocities;
    forall i | 0 <= i < |plan.home|
      ensures EarlierPositions(plan, t)[i] == plan.Positions(t)[i]
         <==> plan.home[i] == plan.goal[i] || SamePositions(plan.kind, plan.duration, t)
      ensures EarlierVelocities(plan, t)[i] == plan.Velocities(t)[i]
         <==> plan.home[i] == plan.goal[i] || SameVelocities(plan.duration, t)
    {
      EarlierClampAgrees(plan.kind, plan.home[i], plan.goal[i], plan.duration, t);
    }
    if EarlierPositions(plan, t) == plan.Positions(t) {
      assert plan.home == plan.goal || SamePositions(plan.kind, plan.duration, t);
    }
    if EarlierVelocities(plan, t) == plan.Velocities(t) {
      assert plan.home == plan.goal || SameVelocities(plan.duration, t);
    }
  }
}
