/** Joint tables of the supported robots. */
module RobotModels {
  datatype RobotModel = RobotModel(jointNames: seq<string>, jointMin: seq<real>, jointMax: seq<real>, home: seq<real>) {

    predicate Shaped()
    {
      |jointNames| == |jointMin| == |jointMax| == |home| > 0
    }

    function Dofs(): nat
    {
      |home|
    }

    ghost predicate WithinLimits(q: seq<real>)
      requires Shaped()
    {
      && |q| == Dofs()
      && forall i :: 0 <= i < Dofs() ==> jointMin[i] <= q[i] <= jointMax[i]
    }
  }

  const SPOT := RobotModel(
    ["front_left_hip_x", "front_left_hip_y", "front_left_knee",
     "front_right_hip_x", "front_right_hip_y", "front_right_knee",
     "rear_left_hip_x", "rear_left_hip_y", "rear_left_knee",
     "rear_right_hip_x", "rear_right_hip_y", "rear_right_knee"],
    [-0.785, -0.899, -2.793, -0.785, -0.899, -2.793, -0.785, -0.899, -2.793, -0.785, -0.899, -2.793],
    [0.785, 2.295, -0.255, 0.785, 2.295, -0.248, 0.785, 2.295, -0.267, 0.785, 2.295, -0.258],
    [0.0, 0.0, -1.5238505, 0.0, 0.0, -1.5202315, 0.0, 0.0, -1.5300265, 0.0, 0.0, -1.5253125])

  const UR5 := RobotModel(
    ["shoulder_pan_joint", "shoulder_lift_joint", "elbow_joint",
     "wrist_1_joint", "wrist_2_joint", "wrist_3_joint"],
    [-6.133, -6.133, -2.992, -6.133, -6.133, -6.133],
    [6.133, 6.133, 2.992, 6.133, 6.133, 6.133],
    [0.0, 0.0, 0.0, 0.0, 0.0, 0.0])

  // The goals and the duration the simulation client ships with.
  const SPOT_GOAL: seq<real> := [0.0, 0.4, -0.5, 0.0, 0.5, -0.4, 0.0, 0.4, -0.5, 0.0, 0.5, -0.4]
  const UR5_GOAL: seq<real> := [1.57, -1.57, 1.57, -1.57, 1.57, 0.0]
  const DURATION: real := 5.0

  lemma TablesWithinLimits()
    ensures SPOT.Shaped() && SPOT.Dofs() == 12 && SPOT.WithinLimits(SPOT.home) && SPOT.WithinLimits(SPOT_GOAL)
    ensures UR5.Shaped() && UR5.Dofs() == 6 && UR5.WithinLimits(UR5.home) && UR5.WithinLimits(UR5_GOAL)
  {
  }
}
