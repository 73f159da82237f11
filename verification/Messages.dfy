/** Messages handed to the publishers and samples written to DDS. */
module Messages {
  import opened Timestamps
  import opened PdoFrames

  datatype Header = Header(seq_: nat, stampNs: nat)

  datatype JointMsg = JointMsg(header: Header, positions: seq<real>, velocities: seq<real>, efforts: seq<real>) {
    predicate Shaped(dofs: nat)
    {
      |positions| == |velocities| == |efforts| == dofs
    }
  }

  datatype ImuMsg = ImuMsg(header: Header, orientation: Quaternion, angular: Vector3, linear: Vector3)

  datatype JointState = JointState(stamp: Stamp, frameId: string, name: seq<string>,
                                   position: seq<real>, velocity: seq<real>, effort: seq<real>)

  datatype Imu = Imu(stamp: Stamp, frameId: string, orientation: Quaternion, angular: Vector3, linear: Vector3)

  /** The sample that stands for a joint message. */
  function JointSample(names: seq<string>, msg: JointMsg): JointState
  {
    JointState(Split(msg.header.stampNs), "", names, msg.positions, msg.velocities, msg.efforts)
  }

  function ImuSample(frameId: string, msg: ImuMsg): Imu
  {
    Imu(Split(msg.header.stampNs), frameId, msg.orientation, msg.angular, msg.linear)
  }
}
