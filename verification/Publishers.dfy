/** The joint-state and IMU publishers on top of the shared DDS base. */
module Publishers {
  import opened MachineIntegers
  import opened Timestamps
  import opened PdoFrames
  import opened Messages
  import opened DdsEntities

  /** What can happen to a publisher after `init`: the number of matched readers changes, or
      it is asked to publish. */
  datatype Happening<M> = Matched(change: int) | Publish(msg: M)

  ghost function SumOfChanges<M>(hs: seq<Happening<M>>): int
  {
    if hs == [] then 0
    else
      SumOfChanges(hs[..|hs| - 1]) + match hs[|hs| - 1] case Matched(c) => c case Publish(_) => 0
  }

  /** Whether a publish call after the happenings hs is written: the 32-bit count is positive. */
  ghost predicate GateOpen<M>(hs: seq<Happening<M>>)
  {
    ToI32(SumOfChanges(hs)) > 0
  }

  /** The messages that are written: those published while the gate was open. */
  ghost function PublishedWhileOpen<M>(hs: seq<Happening<M>>): seq<M>
  {
    if hs == [] then []
    else
      var before := hs[..|hs| - 1];
      match hs[|hs| - 1]
      case Matched(_) => PublishedWhileOpen(before)
      case Publish(m) => PublishedWhileOpen(before) + (if GateOpen(before) then [m] else [])
  }

  lemma HappeningStep<M>(hs: seq<Happening<M>>, h: Happening<M>)
    ensures h.Matched? ==> SumOfChanges(hs + [h]) == SumOfChanges(hs) + h.change
    ensures h.Matched? ==> PublishedWhileOpen(hs + [h]) == PublishedWhileOpen(hs)
    ensures h.Publish? ==> SumOfChanges(hs + [h]) == SumOfChanges(hs)
    ensures h.Publish? ==> PublishedWhileOpen(hs + [h]) == PublishedWhileOpen(hs) + if GateOpen(hs) then [h.msg] else []
  {
    assert (hs + [h])[..|hs + [h]| - 1] == hs;
  }

  /** The messages among the happenings, in order. */
  ghost function Handed<M>(hs: seq<Happening<M>>): seq<M>
  {
    if hs == [] then []
    else
      Handed(hs[..|hs| - 1]) + match hs[|hs| - 1] case Matched(_) => [] case Publish(m) => [m]
  }

  lemma HandedStep<M>(hs: seq<Happening<M>>, h: Happening<M>)
    ensures Handed(hs + [h]) == Handed(hs) + match h case Matched(_) => [] case Publish(m) => [m]
  {
    assert (hs + [h])[..|hs|] == hs;
  }

  lemma GateStep<M>(hs: seq<Happening<M>>, matched: int)
    requires matched == ToI32(SumOfChanges(hs))
    ensures GateOpen(hs) <==> matched > 0
  {
  }

  /** For each history the gate is open exactly when the sum is positive as a 32-bit count. */
  lemma GateCount<M>(hs: seq<Happening<M>>)
    ensures GateOpen(hs) <==> 0 < SumOfChanges(hs) % TWO_32 < TWO_31
  {
    hide SumOfChanges;
  }

  lemma SumOfOne(x: int)
    ensures var hs: seq<Happening<JointMsg>> := [Matched(x)]; SumOfChanges(hs) == x
  {
    var none: seq<Happening<JointMsg>> := [];
    HappeningStep(none, Matched(x));
    assert none + [Matched(x)] == [Matched(x)];
  }

  /** Two matches whose sum is positive, and the gate is closed. */
  lemma GateOverflows()
    ensures var hs: seq<Happening<JointMsg>> := [Matched(TWO_31 - 1), Matched(1)];
            SumOfChanges(hs) > 0 && !GateOpen(hs)
  {
    var one: seq<Happening<JointMsg>> := [Matched(TWO_31 - 1)];
    SumOfOne(TWO_31 - 1);
    HappeningStep(one, Matched(1));
    assert one + [Matched(1)] == [Matched(TWO_31 - 1), Matched(1)];
  }

  lemma SignWithin(x: int)
    ensures -TWO_31 <= x < TWO_31 ==> ToI32(x) == x
    ensures x == TWO_31 ==> ToI32(x) < 0
    ensures x == -TWO_31 - 1 ==> ToI32(x) > 0
  {
  }

  /** The gate is the sign of the sum in all histories with sums from lo to below hi, if and
      only if that range is one of 32-bit counts. */
  lemma GateIsSign(lo: int, hi: int)
    requires lo <= 0 < hi
    ensures (forall hs: seq<Happening<JointMsg>> ::
               lo <= SumOfChanges(hs) < hi ==> (GateOpen(hs) <==> SumOfChanges(hs) > 0))
       <==> -TWO_31 <= lo && hi <= TWO_31
  {
    if -TWO_31 <= lo && hi <= TWO_31 {
      forall hs: seq<Happening<JointMsg>> | lo <= SumOfChanges(hs) < hi
        ensures GateOpen(hs) <==> SumOfChanges(hs) > 0
      {
        hide SumOfChanges;
        SignWithin(SumOfChanges(hs));
      }
    } else {
      var x := if hi > TWO_31 then TWO_31 else -TWO_31 - 1;
      var hs: seq<Happening<JointMsg>> := [Matched(x)];
      SumOfOne(x);
      hide SumOfChanges;
      SignWithin(x);
      assert lo <= SumOfChanges(hs) < hi && !(GateOpen(hs) <==> SumOfChanges(hs) > 0);
    }
  }

  /** Only messages handed to `publish` are written. */
  lemma {:induction false} OpenWasHanded<M>(hs: seq<Happening<M>>, m: M)
    requires m in PublishedWhileOpen(hs)
    ensures m in Handed(hs)
  {
    if hs == [] {
    } else {
      hide GateOpen;
      if m in PublishedWhileOpen(hs[..|hs| - 1]) {
        OpenWasHanded(hs[..|hs| - 1], m);
      }
    }
  }

  lemma I32Add(x: int, c: int)
    ensures ToI32(ToI32(x) + c) == ToI32(x + c)
  {
    var y := x + TWO_31;
    ModOffset(y % TWO_32 + c, y / TWO_32, TWO_32);
    assert y + c == TWO_32 * (y / TWO_32) + (y % TWO_32 + c);
  }

  lemma HappeningsEmpty<M>()
    ensures SumOfChanges<M>([]) == 0 && PublishedWhileOpen<M>([]) == []
    ensures ToI32(0) == 0
  {
  }

  ghost function Samples(names: seq<string>, ms: seq<JointMsg>): seq<JointState>
  {
    seq(|ms|, i requires 0 <= i < |ms| => JointSample(names, ms[i]))
  }

  lemma SamplesEmpty(names: seq<string>)
    ensures Samples(names, []) == []
  {
  }

  lemma SamplesStep(names: seq<string>, ms: seq<JointMsg>, m: JointMsg)
    ensures Samples(names, ms + [m]) == Samples(names, ms) + [JointSample(names, m)]
    ensures Samples(names, ms + []) == Samples(names, ms)
  {
    assert ms + [] == ms;
  }

  class JointStatePublisher {
    const dofs: nat
    const dds: DdsPublisher
    var matched: int
    // the reused sample
    var stamp: Stamp
    var frameId: string
    var name: seq<string>
    var position: array<real>
    var velocity: array<real>
    var effort: array<real>
    // what `writer_->write` was given
    var written: seq<JointState>

    /** The entities and a sample of the robot's size are there. */
    ghost predicate Sized()
      reads this, dds
    {
      && dds.Fields().Complete()
      && frameId == ""
      && |name| == position.Length == velocity.Length == effort.Length == dofs
      && position != velocity && position != effort && velocity != effort
    }

    ghost predicate Ready()
      reads this, dds
    {
      dds.Valid() && Sized()
    }

    constructor (dofs: nat)
      ensures this.dofs == dofs && matched == 0 && written == []
      ensures fresh(dds) && fresh(position) && fresh(velocity) && fresh(effort)
      ensures dds.Valid() && dds.Fields().Empty()
    {
      this.dofs := dofs;
      dds := new DdsPublisher();
      matched := 0;
      stamp, frameId, name := Stamp(0, 0), "", [];
      position := new real[0];
      velocity := new real[0];
      effort := new real[0];
      written := [];
    }

    method Init(names: seq<string>, o: Outcome) returns (ok: bool)
      modifies this, dds
      ensures ok <==> |names| == dofs && o.Succeeds()
      ensures |names| != dofs ==> unchanged(dds)
      ensures |names| == dofs && old(dds.Valid()) ==> (dds.Valid() <==> old(dds.Fields().Empty()))
      ensures !ok && old(dds.Fields().Empty()) ==> dds.Fields().Empty()
      ensures ok ==> Sized() && name == names
      ensures ok && old(dds.Valid() && dds.Fields().Empty()) ==> Ready()
      ensures ok ==> fresh(position) && fresh(velocity) && fresh(effort)
      ensures !ok ==> position == old(position) && velocity == old(velocity) && effort == old(effort)
      ensures matched == old(matched) && written == old(written)
    {
      hide DdsPublisher.Valid;
      if |names| != dofs {
        return false;
      }
      var created := dds.InitDds(o);
      if !created {
        return false;
      }
      name := names;
      position := new real[dofs](_ => 0.0);
      velocity := new real[dofs](_ => 0.0);
      effort := new real[dofs](_ => 0.0);
      frameId := "";
      return true;
    }

    /** The destructor: afterwards every entity has been deleted exactly once. */
    method Destroy()
      modifies dds
      ensures dds.Fields().Empty()
      ensures old(dds.Valid()) ==> dds.Valid() && Released(dds.log)
    {
      dds.Cleanup();
    }

    method OnPublicationMatched(change: int)
      modifies this`matched
      ensures matched == ToI32(old(matched) + change)
    {
      matched := ToI32(matched + change);
    }

    method Publish(msg: JointMsg)
      requires Ready() && msg.Shaped(dofs)
      modifies this`stamp, this`written, position, velocity, effort
      ensures Ready()
      ensures written == old(written) + if matched > 0 then [JointSample(name, msg)] else []
      ensures matched > 0 ==>
                && |written| == |old(written)| + 1
                && var w := written[|old(written)|];
                && w.stamp == Split(msg.header.stampNs) && w.frameId == "" && w.name == name
                && w.position == msg.positions && w.velocity == msg.velocities && w.effort == msg.efforts
    {
      hide DdsPublisher.Valid;
      if matched <= 0 {
        return;
      }
      stamp := Stamp(ToI32(msg.header.stampNs / NS_PER_S), ToU32(msg.header.stampNs % NS_PER_S));
      for i := 0 to dofs
        invariant Ready() && stamp == Split(msg.header.stampNs) && written == old(written)
        invariant position[..i] == msg.positions[..i]
        invariant velocity[..i] == msg.velocities[..i]
        invariant effort[..i] == msg.efforts[..i]
      {
        position[i] := msg.positions[i];
        velocity[i] := msg.velocities[i];
        effort[i] := msg.efforts[i];
      }
      assert position[..] == msg.positions && velocity[..] == msg.velocities && effort[..] == msg.efforts;
      written := written + [JointState(stamp, frameId, name, position[..], velocity[..], effort[..])];
    }

    /** Over every history the publisher writes exactly the messages published while the
        running sum of count changes, as a 32-bit count, was positive. */
    method Live(hs: seq<Happening<JointMsg>>)
      requires Ready() && matched == 0 && written == []
      requires forall i :: 0 <= i < |hs| && hs[i].Publish? ==> hs[i].msg.Shaped(dofs)
      modifies this`matched, this`stamp, this`written, position, velocity, effort
      ensures Ready()
      ensures written == Samples(name, PublishedWhileOpen(hs))
    {
      hide DdsPublisher.Valid, SumOfChanges, PublishedWhileOpen, Samples, ToI32, JointSample;
      SamplesEmpty(name);
      HappeningsEmpty<JointMsg>();
      assert hs[..0] == [];
      for i := 0 to |hs|
        invariant Ready() && name == old(name)
        invariant matched == ToI32(SumOfChanges(hs[..i]))
        invariant written == Samples(name, PublishedWhileOpen(hs[..i]))
      {
        assert hs[..i + 1] == hs[..i] + [hs[i]];
        HappeningStep(hs[..i], hs[i]);
        match hs[i] {
          case Matched(c) =>
            I32Add(SumOfChanges(hs[..i]), c);
            OnPublicationMatched(c);
          case Publish(m) =>
            SamplesStep(name, PublishedWhileOpen(hs[..i]), m);
            Publish(m);
        }
      }
      assert hs[..|hs|] == hs;
    }
  }

  ghost function ImuSamples(frameId: string, ms: seq<ImuMsg>): seq<Imu>
  {
    seq(|ms|, i requires 0 <= i < |ms| => ImuSample(frameId, ms[i]))
  }

  lemma ImuSamplesStep(frameId: string, ms: seq<ImuMsg>, m: ImuMsg)
    ensures ImuSamples(frameId, ms + [m]) == ImuSamples(frameId, ms) + [ImuSample(frameId, m)]
    ensures ImuSamples(frameId, ms + []) == ImuSamples(frameId, ms)
    ensures ImuSamples(frameId, []) == []
  {
    assert ms + [] == ms;
  }

  class ImuPublisher {
    const dds: DdsPublisher
    var matched: int
    var imu: Imu
    var written: seq<Imu>

    constructor ()
      ensures dds.Valid() && dds.Fields().Empty() && fresh(dds) && matched == 0 && written == []
    {
      dds := new DdsPublisher();
      matched := 0;
      imu := Imu(Stamp(0, 0), "", Quaternion(0.0, 0.0, 0.0, 0.0), Vector3(0.0, 0.0, 0.0), Vector3(0.0, 0.0, 0.0));
      written := [];
    }

    method Init(frameId: string, o: Outcome) returns (ok: bool)
      modifies this, dds
      ensures ok <==> o.Succeeds()
      ensures old(dds.Valid()) ==> (dds.Valid() <==> old(dds.Fields().Empty()))
      ensures ok ==> dds.Fields().Complete() && imu.frameId == frameId
      ensures !ok && old(dds.Fields().Empty()) ==> dds.Fields().Empty()
      ensures matched == old(matched) && written == old(written)
    {
      ok := dds.InitDds(o);
      if ok {
        imu := imu.(frameId := frameId);
      }
    }

    /** The destructor: afterwards every entity has been deleted exactly once. */
    method Destroy()
      modifies dds
      ensures dds.Fields().Empty()
      ensures old(dds.Valid()) ==> dds.Valid() && Released(dds.log)
    {
      dds.Cleanup();
    }

    method OnPublicationMatched(change: int)
      modifies this`matched
      ensures matched == ToI32(old(matched) + change)
    {
      matched := ToI32(matched + change);
    }

    method Publish(msg: ImuMsg)
      requires dds.Fields().Complete()
      modifies this`imu, this`written
      ensures imu.frameId == old(imu.frameId)
      ensures written == old(written) + if matched > 0 then [ImuSample(imu.frameId, msg)] else []
      ensures matched > 0 ==>
                && |written| == |old(written)| + 1
                && var w := written[|old(written)|];
                && w.stamp == Split(msg.header.stampNs) && w.frameId == imu.frameId
                && w.orientation == msg.orientation && w.angular == msg.angular && w.linear == msg.linear
    {
      if matched <= 0 {
        return;
      }
      imu := imu.(stamp := Stamp(ToI32(msg.header.stampNs / NS_PER_S), ToU32(msg.header.stampNs % NS_PER_S)));
      imu := imu.(orientation := msg.orientation);
      imu := imu.(angular := msg.angular);
      imu := imu.(linear := msg.linear);
      written := written + [imu];
    }
  }
}
