/** The real-robot joint loop: watched pipes drained batch by batch through one buffer. */
module JointLoop {
  import opened MachineIntegers
  import opened Timestamps
  import opened PdoFrames
  import opened Messages
  import opened DdsEntities
  import opened Publishers
  import opened Drains

  /** A pipe reported ready: its joint number, what its successive reads deliver, and the
      real-time clock (consulted only for records without a stamp). */
  datatype PipeEvent = PipeEvent(joint: nat, chunks: seq<seq<Byte>>, now: nat)

  datatype Wake = Interrupted | WaitFailed | Batch(events: seq<PipeEvent>)

  /** One round of the loop: what `g_running` reads, what the wait returns, and by how much
      the number of matched readers changed meanwhile. */
  datatype Round = Round(running: bool, wake: Wake, change: int)

  ghost predicate Fits(events: seq<PipeEvent>)
  {
    forall e :: e in events ==> FitRaw(e.chunks)
  }

  // ---------- What each joint last said ----------

  ghost function EventReading(decode: Decoder, e: PipeEvent): Option<Reading>
  {
    var frame := LastFrame(e.chunks);
    if frame == [] then None else JointReading(decode, frame, e.now)
  }

  /** The reading of the joint's most recent event that gave one. */
  ghost function Latest(decode: Decoder, events: seq<PipeEvent>, joint: nat): Option<Reading>
  {
    if events == [] then None
    else
      var e := events[|events| - 1];
      if e.joint == joint && EventReading(decode, e).Some? then EventReading(decode, e)
      else Latest(decode, events[..|events| - 1], joint)
  }

  /** The first reading, in event order, of any joint of the robot. */
  ghost function First(decode: Decoder, dofs: nat, events: seq<PipeEvent>): Option<Reading>
  {
    if events == [] then None
    else
      var before := First(decode, dofs, events[..|events| - 1]);
      var e := events[|events| - 1];
      if before.Some? then before else if e.joint < dofs then EventReading(decode, e) else None
  }

  ghost function PosOf(r: Option<Reading>): real { if r.Some? then r.value.pos else 0.0 }
  ghost function VelOf(r: Option<Reading>): real { if r.Some? then r.value.vel else 0.0 }
  ghost function EffOf(r: Option<Reading>): real { if r.Some? then r.value.eff else 0.0 }

  ghost predicate Shows(decode: Decoder, events: seq<PipeEvent>, pos: seq<real>, vel: seq<real>, eff: seq<real>)
  {
    && |pos| == |vel| == |eff|
    && forall j :: 0 <= j < |pos| ==>
         var r := Latest(decode, events, j);
         pos[j] == PosOf(r) && vel[j] == VelOf(r) && eff[j] == EffOf(r)
  }

  // ---------- What the loop publishes ----------

  ghost function Events(rounds: seq<Round>): seq<PipeEvent>
  {
    if rounds == [] then []
    else
      Events(rounds[..|rounds| - 1])
      + match rounds[|rounds| - 1].wake case Batch(es) => es case _ => []
  }

  ghost function BatchReading(decode: Decoder, dofs: nat, r: Round): Option<Reading>
  {
    match r.wake case Batch(es) => First(decode, dofs, es) case _ => None
  }

  /** How many of the rounds brought at least one reading. */
  ghost function FreshRounds(decode: Decoder, dofs: nat, rounds: seq<Round>): nat
  {
    if rounds == [] then 0
    else
      FreshRounds(decode, dofs, rounds[..|rounds| - 1])
      + if BatchReading(decode, dofs, rounds[|rounds| - 1]).Some? then 1 else 0
  }

  /** The message published in the last of the rounds. */
  ghost function MessageAfter(decode: Decoder, dofs: nat, rounds: seq<Round>): JointMsg
    requires rounds != [] && BatchReading(decode, dofs, rounds[|rounds| - 1]).Some?
  {
    var es := Events(rounds);
    JointMsg(Header(ToU64(FreshRounds(decode, dofs, rounds[..|rounds| - 1])),
                    BatchReading(decode, dofs, rounds[|rounds| - 1]).value.stamp),
             seq(dofs, j requires 0 <= j < dofs => PosOf(Latest(decode, es, j))),
             seq(dofs, j requires 0 <= j < dofs => VelOf(Latest(decode, es, j))),
             seq(dofs, j requires 0 <= j < dofs => EffOf(Latest(decode, es, j))))
  }

  /** What the publisher sees: in every round the change of matched readers, and a message
      if the round brought a reading. */
  ghost function Happenings(decode: Decoder, dofs: nat, rounds: seq<Round>): seq<Happening<JointMsg>>
  {
    if rounds == [] then []
    else
      Happenings(decode, dofs, rounds[..|rounds| - 1])
      + [Matched(rounds[|rounds| - 1].change)]
      + if BatchReading(decode, dofs, rounds[|rounds| - 1]).Some?
        then [Happening.Publish(MessageAfter(decode, dofs, rounds))] else []
  }

  // ---------- One more event, one more round ----------

  lemma LatestStep(decode: Decoder, es: seq<PipeEvent>, e: PipeEvent, j: nat)
    ensures Latest(decode, es + [e], j)
         == if e.joint == j && EventReading(decode, e).Some? then EventReading(decode, e) else Latest(decode, es, j)
  {
    assert (es + [e])[..|es|] == es;
  }

  lemma FirstStep(decode: Decoder, dofs: nat, es: seq<PipeEvent>, e: PipeEvent)
    ensures First(decode, dofs, es + [e])
         == if First(decode, dofs, es).Some? then First(decode, dofs, es)
            else if e.joint < dofs then EventReading(decode, e) else None
  {
    assert (es + [e])[..|es|] == es;
  }

  lemma RoundStep(decode: Decoder, dofs: nat, rounds: seq<Round>, r: Round)
    ensures Events(rounds + [r]) == Events(rounds) + match r.wake case Batch(es) => es case _ => []
    ensures FreshRounds(decode, dofs, rounds + [r])
         == FreshRounds(decode, dofs, rounds) + if BatchReading(decode, dofs, r).Some? then 1 else 0
    ensures BatchReading(decode, dofs, r).None? ==>
              Happenings(decode, dofs, rounds + [r]) == Happenings(decode, dofs, rounds) + [Matched(r.change)]
    ensures BatchReading(decode, dofs, r).Some? ==>
              Happenings(decode, dofs, rounds + [r])
              == Happenings(decode, dofs, rounds) + [Matched(r.change)]
                 + [Happening.Publish(MessageAfter(decode, dofs, rounds + [r]))]
  {
    assert (rounds + [r])[..|rounds|] == rounds;
  }

  // ---------- The loop ----------

  // ---------- What an event tells ----------

  /** The last read of the event's drain is a frame that carries a record with this motor data
      and stamp. */
  ghost predicate Tells(decode: Decoder, e: PipeEvent, pdo: Pdo, rx: MotorRx, stamp: nat)
  {
    exists k: nat :: LastRead(e.chunks, k) && Carries(decode, e.chunks[k - 1], pdo)
                && HasMotor(pdo, rx) && HasStamp(pdo, e.now, stamp)
  }

  ghost predicate Quiet(decode: Decoder, e: PipeEvent)
  {
    forall pdo, rx, stamp :: !Tells(decode, e, pdo, rx, stamp)
  }

  lemma ToldIsRead(decode: Decoder, e: PipeEvent, pdo: Pdo, rx: MotorRx, stamp: nat)
    requires FitRaw(e.chunks) && Tells(decode, e, pdo, rx, stamp)
    ensures EventReading(decode, e) == Some(Reading(rx.linkPos, rx.linkVel, rx.torque, stamp))
  {
    var k: nat :| LastRead(e.chunks, k) && Carries(decode, e.chunks[k - 1], pdo)
             && HasMotor(pdo, rx) && HasStamp(pdo, e.now, stamp);
    LastFrameMeaning(e.chunks, k);
    JointReadingMeaning(decode, e.chunks[k - 1], e.now);
    hide LastFrame, JointReading, Carries, HasMotor, HasStamp;
  }

  lemma ReadIsTold(decode: Decoder, e: PipeEvent)
    requires FitRaw(e.chunks) && EventReading(decode, e).Some?
    ensures exists pdo, rx :: Tells(decode, e, pdo, rx, EventReading(decode, e).value.stamp)
  {
    LastReadExists(e.chunks);
    var k: nat :| LastRead(e.chunks, k);
    LastFrameMeaning(e.chunks, k);
    JointReadingMeaning(decode, e.chunks[k - 1], e.now);
    hide LastFrame, JointReading, Carries, HasMotor, HasStamp;
    var pdo, rx :| Carries(decode, e.chunks[k - 1], pdo) && HasMotor(pdo, rx)
                   && HasStamp(pdo, e.now, JointReading(decode, e.chunks[k - 1], e.now).value.stamp);
    assert Tells(decode, e, pdo, rx, EventReading(decode, e).value.stamp);
  }

  /** An event's reading is the position, velocity and torque it tells, with the stamp; it has
      none exactly if it tells nothing. */
  lemma EventReadingMeaning(decode: Decoder, e: PipeEvent)
    requires FitRaw(e.chunks)
    ensures forall pdo, rx, stamp :: Tells(decode, e, pdo, rx, stamp) ==>
              EventReading(decode, e) == Some(Reading(rx.linkPos, rx.linkVel, rx.torque, stamp))
    ensures EventReading(decode, e).Some? ==>
              exists pdo, rx :: Tells(decode, e, pdo, rx, EventReading(decode, e).value.stamp)
    ensures EventReading(decode, e).None? <==> Quiet(decode, e)
  {
    hide EventReading, Tells;
    forall pdo, rx, stamp | Tells(decode, e, pdo, rx, stamp)
      ensures EventReading(decode, e) == Some(Reading(rx.linkPos, rx.linkVel, rx.torque, stamp))
    {
      ToldIsRead(decode, e, pdo, rx, stamp);
    }
    if EventReading(decode, e).Some? {
      ReadIsTold(decode, e);
    }
  }

  class Loop {
    const dofs: nat
    const raw: array<Byte>
    // the persistent message
    const positions: array<real>
    const velocities: array<real>
    const efforts: array<real>
    var stampNs: nat
    var sent: nat

    ghost predicate Shaped()
    {
      && raw.Length == RAW_SIZE
      && positions.Length == velocities.Length == efforts.Length == dofs
      && positions != velocities && positions != efforts && velocities != efforts
    }

    ghost predicate Slots(decode: Decoder, events: seq<PipeEvent>)
      reads positions, velocities, efforts
    {
      Shows(decode, events, positions[..], velocities[..], efforts[..])
    }

    constructor (dofs: nat, decode: Decoder)
      ensures this.dofs == dofs && Shaped() && Slots(decode, []) && sent == 0 && stampNs == 0
      ensures fresh(raw) && fresh(positions) && fresh(velocities) && fresh(efforts)
    {
      this.dofs := dofs;
      raw := new Byte[RAW_SIZE];
      positions := new real[dofs](_ => 0.0);
      velocities := new real[dofs](_ => 0.0);
      efforts := new real[dofs](_ => 0.0);
      stampNs, sent := 0, 0;
    }

    /** Drains one pipe and, if its last frame parses, overwrites the joint's slots. */
    method TakeEvent(decode: Decoder, e: PipeEvent, anyNew: bool, ghost before: seq<PipeEvent>) returns (isNew: bool)
      requires Shaped() && FitRaw(e.chunks) && Slots(decode, before)
      modifies raw, positions, velocities, efforts, this`stampNs
      ensures Slots(decode, before + [e])
      ensures isNew <==> anyNew || (e.joint < dofs && EventReading(decode, e).Some?)
      ensures stampNs == if !anyNew && isNew then EventReading(decode, e).value.stamp else old(stampNs)
      ensures forall pdo, rx, stamp :: e.joint < dofs && Tells(decode, e, pdo, rx, stamp) ==>
                && isNew && positions[e.joint] == rx.linkPos && velocities[e.joint] == rx.linkVel && efforts[e.joint] == rx.torque
                && (!anyNew ==> stampNs == stamp)
      ensures e.joint >= dofs || Quiet(decode, e) ==> isNew == anyNew && unchanged(positions, velocities, efforts)
      ensures forall j :: 0 <= j < dofs && j != e.joint ==>
                positions[j] == old(positions[j]) && velocities[j] == old(velocities[j]) && efforts[j] == old(efforts[j])
    {
      EventReadingMeaning(decode, e);
      forall j: nat ensures Latest(decode, before + [e], j)
             == if e.joint == j && EventReading(decode, e).Some? then EventReading(decode, e) else Latest(decode, before, j) {
        LatestStep(decode, before, e, j);
      }
      isNew := anyNew;
      if e.joint >= dofs {
        return;
      }
      var last := Drain(raw, e.chunks);
      if last <= 0 {
        return;
      }
      var ok, pos, vel, eff, hwStamp := ParseJointFrame(decode, raw, last, e.now, 0.0, 0.0, 0.0, 0);
      if ok {
        positions[e.joint] := pos;
        velocities[e.joint] := vel;
        efforts[e.joint] := eff;
        if !isNew {
          stampNs := hwStamp;
        }
        isNew := true;
      }
    }

    method TakeBatch(decode: Decoder, events: seq<PipeEvent>, ghost before: seq<PipeEvent>) returns (anyNew: bool)
      requires Shaped() && Fits(events) && Slots(decode, before)
      modifies raw, positions, velocities, efforts, this`stampNs
      ensures Slots(decode, before + events)
      ensures anyNew <==> First(decode, dofs, events).Some?
      ensures anyNew ==> stampNs == First(decode, dofs, events).value.stamp
    {
      assert events[..0] == [] && First(decode, dofs, []).None?;
      hide Tells, Quiet, EventReading, Latest, First;
      anyNew := false;
      assert before + events[..0] == before;
      for i := 0 to |events|
        invariant Slots(decode, before + events[..i])
        invariant anyNew <==> First(decode, dofs, events[..i]).Some?
        invariant anyNew ==> stampNs == First(decode, dofs, events[..i]).value.stamp
      {
        assert events[i] in events;
        assert events[..i + 1] == events[..i] + [events[i]];
        assert before + events[..i] + [events[i]] == before + events[..i + 1];
        FirstStep(decode, dofs, events[..i], events[i]);
        anyNew := TakeEvent(decode, events[i], anyNew, before + events[..i]);
      }
      assert events[..|events|] == events;
    }

    /** The loop and its publisher are where the rounds so far lead. */
    ghost predicate After(decode: Decoder, rounds: seq<Round>, pub: JointStatePublisher)
      reads this, positions, velocities, efforts, pub, pub.dds
    {
      var hs := Happenings(decode, dofs, rounds);
      && Shaped() && pub.Ready() && pub.dofs == dofs
      && {positions, velocities, efforts} !! {pub.position, pub.velocity, pub.effort}
      && Slots(decode, Events(rounds))
      && sent == ToU64(FreshRounds(decode, dofs, rounds))
      && pub.matched == ToI32(SumOfChanges(hs))
      && pub.written == Samples(pub.name, PublishedWhileOpen(hs))
    }

    /** Numbers, stamps and publishes the message of a round that brought a reading. */
    method Send(decode: Decoder, ghost past: seq<Round>, ghost r: Round, pub: JointStatePublisher)
      requires Shaped() && pub.Ready() && pub.dofs == dofs
      requires {positions, velocities, efforts} !! {pub.position, pub.velocity, pub.effort}
      requires BatchReading(decode, dofs, r).Some? && stampNs == BatchReading(decode, dofs, r).value.stamp
      requires Slots(decode, Events(past + [r])) && sent == ToU64(FreshRounds(decode, dofs, past))
      modifies this`sent, pub`stamp, pub`written, pub.position, pub.velocity, pub.effort
      ensures pub.Ready() && sent == ToU64(FreshRounds(decode, dofs, past + [r]))
      ensures pub.written == old(pub.written)
                             + if pub.matched > 0 then [JointSample(pub.name, MessageAfter(decode, dofs, past + [r]))] else []
    {
      hide DdsPublisher.Valid, Latest, First, Events, JointSample, ToU64;
      assert (past + [r])[..|past|] == past;
      var msg := JointMsg(Header(sent, stampNs), positions[..], velocities[..], efforts[..]);
      assert msg == MessageAfter(decode, dofs, past + [r]);
      U64Next(FreshRounds(decode, dofs, past));
      sent := ToU64(sent + 1);
      pub.Publish(msg);
    }

    method TakeRound(decode: Decoder, ghost past: seq<Round>, r: Round, pub: JointStatePublisher)
      requires After(decode, past, pub)
      requires r.wake.Batch? ==> Fits(r.wake.events)
      modifies this`stampNs, this`sent, raw, positions, velocities, efforts
      modifies pub`matched, pub`stamp, pub`written, pub.position, pub.velocity, pub.effort
      ensures After(decode, past + [r], pub) && pub.name == old(pub.name)
    {
      hide DdsPublisher.Valid, PublishedWhileOpen, SumOfChanges, Samples, JointSample, ToI32, ToU64;
      hide Latest, First, Events, FreshRounds, Happenings, MessageAfter, Shows, GateOpen;
      RoundStep(decode, dofs, past, r);
      ghost var hs := Happenings(decode, dofs, past);
      HappeningStep(hs, Matched(r.change));
      I32Add(SumOfChanges(hs), r.change);
      pub.OnPublicationMatched(r.change);
      assert Events(past) + [] == Events(past);
      if r.wake.Batch? {
        var anyNew := TakeBatch(decode, r.wake.events, Events(past));
        if anyNew {
          ghost var hs1 := hs + [Matched(r.change)];
          ghost var msg := MessageAfter(decode, dofs, past + [r]);
          GateStep(hs1, pub.matched);
          HappeningStep(hs1, Happening.Publish(msg));
          SamplesStep(pub.name, PublishedWhileOpen(hs1), msg);
          Send(decode, past, r, pub);
        }
      }
    }

    /** Runs until `g_running` is off or the wait fails, over all rounds at most. */
    method Run(decode: Decoder, rounds: seq<Round>, pub: JointStatePublisher) returns (n: nat)
      requires After(decode, [], pub)
      requires forall r :: r in rounds && r.wake.Batch? ==> Fits(r.wake.events)
      modifies this, raw, positions, velocities, efforts
      modifies pub`matched, pub`stamp, pub`written, pub.position, pub.velocity, pub.effort
      ensures n <= |rounds| && forall i :: 0 <= i < n ==> rounds[i].running && !rounds[i].wake.WaitFailed?
      ensures n < |rounds| ==> !rounds[n].running || rounds[n].wake.WaitFailed?
      ensures After(decode, rounds[..n], pub) && pub.name == old(pub.name)
    {
      n := 0;
      assert rounds[..0] == [];
      hide After;
      while n < |rounds|
        invariant n <= |rounds| && forall i :: 0 <= i < n ==> rounds[i].running && !rounds[i].wake.WaitFailed?
        invariant After(decode, rounds[..n], pub) && pub.name == old(pub.name)
      {
        var r := rounds[n];
        if !r.running || r.wake.WaitFailed? {
          return;
        }
        assert r in rounds && rounds[..n + 1] == rounds[..n] + [r];
        TakeRound(decode, rounds[..n], r, pub);
        n := n + 1;
      }
    }
  }

  // ---------- What the published messages mean ----------

  lemma HandedLast(decode: Decoder, dofs: nat, rounds: seq<Round>)
    requires rounds != []
    ensures var r := rounds[|rounds| - 1];
            Handed(Happenings(decode, dofs, rounds))
            == Handed(Happenings(decode, dofs, rounds[..|rounds| - 1]))
               + if BatchReading(decode, dofs, r).Some? then [MessageAfter(decode, dofs, rounds)] else []
  {
    var past, r := rounds[..|rounds| - 1], rounds[|rounds| - 1];
    assert rounds == past + [r];
    RoundStep(decode, dofs, past, r);
    hide Happenings, MessageAfter, BatchReading, Handed;
    var hs := Happenings(decode, dofs, past);
    HandedStep(hs, Matched(r.change));
    assert Handed(hs) + [] == Handed(hs);
    if BatchReading(decode, dofs, r).Some? {
      HandedStep(hs + [Matched(r.change)], Happening.Publish(MessageAfter(decode, dofs, rounds)));
    }
  }

  lemma FreshLast(decode: Decoder, dofs: nat, rounds: seq<Round>)
    ensures rounds == [] ==>
              FreshRounds(decode, dofs, rounds) == 0 && Handed(Happenings(decode, dofs, rounds)) == []
    ensures rounds != [] ==>
              FreshRounds(decode, dofs, rounds)
              == FreshRounds(decode, dofs, rounds[..|rounds| - 1])
                 + if BatchReading(decode, dofs, rounds[|rounds| - 1]).Some? then 1 else 0
  {
    hide BatchReading;
  }

  lemma MessageShows(decode: Decoder, dofs: nat, rounds: seq<Round>)
    requires rounds != [] && BatchReading(decode, dofs, rounds[|rounds| - 1]).Some?
    ensures var m := MessageAfter(decode, dofs, rounds);
            && m.header == Header(ToU64(FreshRounds(decode, dofs, rounds[..|rounds| - 1])),
                                  BatchReading(decode, dofs, rounds[|rounds| - 1]).value.stamp)
            && |m.positions| == dofs
            && Shows(decode, Events(rounds), m.positions, m.velocities, m.efforts)
  {
    hide FreshRounds, BatchReading, Events, Latest, ToU64, PosOf, VelOf, EffOf;
  }

  /** Exactly one message per round with a reading, numbered in order. */
  lemma {:induction false} OneMessagePerFreshRound(decode: Decoder, dofs: nat, rounds: seq<Round>)
    ensures var ms := Handed(Happenings(decode, dofs, rounds));
            && |ms| == FreshRounds(decode, dofs, rounds)
            && forall k :: 0 <= k < |ms| ==> ms[k].header.seq_ == ToU64(k)
  {
    hide *;
    FreshLast(decode, dofs, rounds);
    if rounds == [] {
    } else {
      OneMessagePerFreshRound(decode, dofs, rounds[..|rounds| - 1]);
      HandedLast(decode, dofs, rounds);
      if BatchReading(decode, dofs, rounds[|rounds| - 1]).Some? {
        MessageShows(decode, dofs, rounds);
      }
    }
  }

  /** The message of a round with a reading is numbered by the earlier such rounds, stamped
      with the batch's first reading, and shows what every joint last said. */
  lemma {:induction false} MessageOfRound(decode: Decoder, dofs: nat, rounds: seq<Round>, i: nat)
    requires i < |rounds| && BatchReading(decode, dofs, rounds[i]).Some?
    ensures var ms := Handed(Happenings(decode, dofs, rounds));
            var k := FreshRounds(decode, dofs, rounds[..i]);
            && k < |ms|
            && ms[k].header == Header(ToU64(k), BatchReading(decode, dofs, rounds[i]).value.stamp)
            && |ms[k].positions| == dofs
            && Shows(decode, Events(rounds[..i + 1]), ms[k].positions, ms[k].velocities, ms[k].efforts)
  {
    hide *;
    var past := rounds[..|rounds| - 1];
    HandedLast(decode, dofs, rounds);
    OneMessagePerFreshRound(decode, dofs, past);
    if i < |past| {
      assert rounds[..i] == past[..i] && rounds[..i + 1] == past[..i + 1] && rounds[i] == past[i];
      MessageOfRound(decode, dofs, past, i);
    } else {
      assert rounds[..i] == past && rounds[..i + 1] == rounds;
      MessageShows(decode, dofs, rounds);
    }
  }

  /** The events of one joint, in order. */
  ghost function OnlyJoint(events: seq<PipeEvent>, joint: nat): seq<PipeEvent>
  {
    if events == [] then []
    else
      var e := events[|events| - 1];
      OnlyJoint(events[..|events| - 1], joint) + if e.joint == joint then [e] else []
  }

  /** No joint's reading depends on what arrived for another joint. */
  lemma {:induction false} JointsAreIndependent(decode: Decoder, events: seq<PipeEvent>, joint: nat)
    ensures Latest(decode, events, joint) == Latest(decode, OnlyJoint(events, joint), joint)
  {
    if events == [] {
    } else {
      var past, e := events[..|events| - 1], events[|events| - 1];
      JointsAreIndependent(decode, past, joint);
      if e.joint == joint {
        LatestStep(decode, OnlyJoint(past, joint), e, joint);
      } else {
        assert OnlyJoint(events, joint) == OnlyJoint(past, joint);
      }
    }
  }

  /** `Latest` is the reading of an event after which the joint has none, if there is any. */
  lemma {:induction false} LatestMeaning(decode: Decoder, events: seq<PipeEvent>, joint: nat)
    ensures Latest(decode, events, joint).None?
       <==> forall i :: 0 <= i < |events| && events[i].joint == joint ==> EventReading(decode, events[i]).None?
    ensures Latest(decode, events, joint).Some? ==>
              exists i :: 0 <= i < |events| && events[i].joint == joint
                          && EventReading(decode, events[i]) == Latest(decode, events, joint)
                          && forall k :: i < k < |events| && events[k].joint == joint ==> EventReading(decode, events[k]).None?
  {
    if events == [] {
    } else {
      var past, e := events[..|events| - 1], events[|events| - 1];
      LatestMeaning(decode, past, joint);
      if e.joint == joint && EventReading(decode, e).Some? {
        assert events[|events| - 1] == e;
      } else {
        assert forall i :: 0 <= i < |past| ==> past[i] == events[i];
      }
    }
  }

  /** `First` is the reading of the earliest event of a joint of the robot that gave one. */
  lemma {:induction false} FirstMeaning(decode: Decoder, dofs: nat, events: seq<PipeEvent>)
    ensures First(decode, dofs, events).None?
       <==> forall i :: 0 <= i < |events| && events[i].joint < dofs ==> EventReading(decode, events[i]).None?
    ensures First(decode, dofs, events).Some? ==>
              exists i :: 0 <= i < |events| && events[i].joint < dofs
                          && EventReading(decode, events[i]) == First(decode, dofs, events)
                          && forall k :: 0 <= k < i && events[k].joint < dofs ==> EventReading(decode, events[k]).None?
  {
    if events == [] {
    } else {
      var past, e := events[..|events| - 1], events[|events| - 1];
      FirstMeaning(decode, dofs, past);
      FirstStep(decode, dofs, past, e);
      assert events == past + [e];
      hide First, EventReading;
      assert forall i :: 0 <= i < |past| ==> past[i] == events[i];
    }
  }

  /** A joint shows this batch's reading if the batch brought one, and otherwise what it
      showed before: a message may mix readings of different times under one stamp. */
  lemma {:induction false} CarriedOver(decode: Decoder, before: seq<PipeEvent>, batch: seq<PipeEvent>, joint: nat)
    ensures Latest(decode, before + batch, joint)
         == if Latest(decode, batch, joint).Some? then Latest(decode, batch, joint) else Latest(decode, before, joint)
  {
    if batch == [] {
      assert before + batch == before;
    } else {
      var past, e := batch[..|batch| - 1], batch[|batch| - 1];
      CarriedOver(decode, before, past, joint);
      LatestStep(decode, past, e, joint);
      LatestStep(decode, before + past, e, joint);
      assert before + batch == before + past + [e] && batch == past + [e];
    }
  }

  // ---------- Were the states of a message recorded together? ----------

  ghost predicate RecordedAt(r: Option<Reading>, stamp: nat)
  {
    r.Some? && r.value.stamp == stamp
  }

  /** Every joint's states in the message of the last round were recorded at its stamp. */
  ghost predicate Simultaneous(decode: Decoder, dofs: nat, rounds: seq<Round>)
    requires rounds != [] && BatchReading(decode, dofs, rounds[|rounds| - 1]).Some?
  {
    forall j: nat :: j < dofs ==> RecordedAt(Latest(decode, Events(rounds), j), MessageAfter(decode, dofs, rounds).header.stampNs)
  }

  /** Every joint of the robot has a reading in the batch, its last one with the batch's stamp. */
  ghost predicate Complete(decode: Decoder, dofs: nat, batch: seq<PipeEvent>)
    requires First(decode, dofs, batch).Some?
  {
    forall j: nat :: j < dofs ==> RecordedAt(Latest(decode, batch, j), First(decode, dofs, batch).value.stamp)
  }

  /** No reading of the robot before the batch has the batch's stamp. */
  ghost predicate NewStamp(decode: Decoder, dofs: nat, before: seq<PipeEvent>, stamp: nat)
  {
    forall e :: e in before && e.joint < dofs ==> !RecordedAt(EventReading(decode, e), stamp)
  }

  lemma LatestIsNew(decode: Decoder, dofs: nat, before: seq<PipeEvent>, joint: nat, stamp: nat)
    requires NewStamp(decode, dofs, before, stamp) && joint < dofs
    ensures !RecordedAt(Latest(decode, before, joint), stamp)
  {
    LatestMeaning(decode, before, joint);
    hide Latest, EventReading;
  }

  /** What joint j shows after the batch. */
  ghost function Merged(decode: Decoder, before: seq<PipeEvent>, batch: seq<PipeEvent>, j: nat): Option<Reading>
  {
    if Latest(decode, batch, j).Some? then Latest(decode, batch, j) else Latest(decode, before, j)
  }

  /** The states of a message were recorded together if and only if every joint's last reading
      in the batch has the message's stamp, or, for a joint silent in the batch, its latest
      earlier one. */
  lemma SimultaneousIff(decode: Decoder, dofs: nat, past: seq<Round>, r: Round)
    requires BatchReading(decode, dofs, r).Some?
    ensures Simultaneous(decode, dofs, past + [r])
       <==> forall j: nat :: j < dofs ==>
              RecordedAt(Merged(decode, Events(past), r.wake.events, j), BatchReading(decode, dofs, r).value.stamp)
  {
    RoundStep(decode, dofs, past, r);
    MessageShows(decode, dofs, past + [r]);
    hide Latest, First, Events, MessageAfter, Shows, FreshRounds, Happenings, RecordedAt;
    forall j: nat ensures Latest(decode, Events(past + [r]), j) == Merged(decode, Events(past), r.wake.events, j) {
      CarriedOver(decode, Events(past), r.wake.events, j);
    }
    hide Merged, BatchReading;
  }

  /** Where the batch's stamp is new, that is: if and only if the batch is complete. */
  lemma SimultaneousIffComplete(decode: Decoder, dofs: nat, past: seq<Round>, r: Round)
    requires BatchReading(decode, dofs, r).Some?
    requires NewStamp(decode, dofs, Events(past), BatchReading(decode, dofs, r).value.stamp)
    ensures Simultaneous(decode, dofs, past + [r]) <==> Complete(decode, dofs, r.wake.events)
  {
    var stamp, es, before := BatchReading(decode, dofs, r).value.stamp, r.wake.events, Events(past);
    assert First(decode, dofs, es) == BatchReading(decode, dofs, r);
    SimultaneousIff(decode, dofs, past, r);
    hide Latest, First, Events, Simultaneous, BatchReading, NewStamp;
    forall j: nat | j < dofs
      ensures RecordedAt(Merged(decode, before, es, j), stamp) <==> RecordedAt(Latest(decode, es, j), stamp)
    {
      LatestIsNew(decode, dofs, before, j, stamp);
    }
    hide Merged, RecordedAt;
  }

  // Two joints, and a decoder for one-byte payloads that hold the seconds of the stamp.

  function SecondsDecoder(payload: seq<Byte>, size: int): Option<Pdo>
  {
    if |payload| == 1
    then Some(Pdo(RxCia402, Some(Timespec(payload[0], 0)), Some(MotorRx(0.0, 0.0, 0.0)), None, None))
    else None
  }

  function At(joint: nat, second: Byte): PipeEvent
  {
    PipeEvent(joint, [[1, 0, 0, 0, second]], 0)
  }

  lemma ReadingAt(joint: nat, second: Byte)
    ensures EventReading(SecondsDecoder, At(joint, second)) == Some(Reading(0.0, 0.0, 0.0, second * NS_PER_S))
  {
    var frame: seq<Byte> := [1, 0, 0, 0, second];
    LastFrameMeaning(At(joint, second).chunks, 1);
    assert frame[..4] == [1, 0, 0, 0] && frame[4..] == [second];
    assert FrameCall(frame) == Call([second], 1);
    ToNsExact(Timespec(second, 0));
  }

  lemma OneReading(i: nat, x: Byte)
    requires i < 2
    ensures RecordedAt(First(SecondsDecoder, 2, [At(i, x)]), x * NS_PER_S)
    ensures RecordedAt(Latest(SecondsDecoder, [At(i, x)], i), x * NS_PER_S)
    ensures Latest(SecondsDecoder, [At(i, x)], 1 - i).None?
  {
    ReadingAt(i, x);
    LatestStep(SecondsDecoder, [], At(i, x), i);
    LatestStep(SecondsDecoder, [], At(i, x), 1 - i);
    FirstStep(SecondsDecoder, 2, [], At(i, x));
    hide EventReading;
    assert [] + [At(i, x)] == [At(i, x)];
  }

  lemma TwoReadings(i: nat, x: Byte, j: nat, y: Byte)
    requires i < 2 && j < 2 && i != j
    ensures RecordedAt(First(SecondsDecoder, 2, [At(i, x), At(j, y)]), x * NS_PER_S)
    ensures RecordedAt(Latest(SecondsDecoder, [At(i, x), At(j, y)], i), x * NS_PER_S)
    ensures RecordedAt(Latest(SecondsDecoder, [At(i, x), At(j, y)], j), y * NS_PER_S)
  {
    OneReading(i, x);
    ReadingAt(j, y);
    LatestStep(SecondsDecoder, [At(i, x)], At(j, y), i);
    LatestStep(SecondsDecoder, [At(i, x)], At(j, y), j);
    FirstStep(SecondsDecoder, 2, [At(i, x)], At(j, y));
    hide EventReading, Latest, First;
    assert [At(i, x)] + [At(j, y)] == [At(i, x), At(j, y)];
  }

  /** A joint that is silent in a later batch is published with its old reading under the new
      stamp. */
  lemma SilentJointIsOld()
    ensures var rounds := [Round(true, Batch([At(0, 1), At(1, 1)]), 0), Round(true, Batch([At(0, 2)]), 0)];
            && BatchReading(SecondsDecoder, 2, rounds[1]).Some?
            && MessageAfter(SecondsDecoder, 2, rounds).header.stampNs == 2 * NS_PER_S
            && RecordedAt(Latest(SecondsDecoder, Events(rounds), 1), NS_PER_S)
            && !Simultaneous(SecondsDecoder, 2, rounds)
  {
    var r0, r1 := Round(true, Batch([At(0, 1), At(1, 1)]), 0), Round(true, Batch([At(0, 2)]), 0);
    var rounds := [r0, r1];
    assert rounds == [r0] + [r1];
    TwoReadings(0, 1, 1, 1);
    OneReading(0, 2);
    RoundStep(SecondsDecoder, 2, [], r0);
    assert [] + [r0] == [r0] && [] + r0.wake.events == r0.wake.events;
    RoundStep(SecondsDecoder, 2, [r0], r1);
    CarriedOver(SecondsDecoder, r0.wake.events, r1.wake.events, 1);
    MessageShows(SecondsDecoder, 2, rounds);
    hide Latest, First, FreshRounds, MessageAfter, Shows, EventReading;
  }

  /** Two joints read in one batch are published under the stamp of the first. */
  lemma OneBatchTwoTimes()
    ensures var rounds := [Round(true, Batch([At(0, 1), At(1, 2)]), 0)];
            && BatchReading(SecondsDecoder, 2, rounds[0]).Some?
            && MessageAfter(SecondsDecoder, 2, rounds).header.stampNs == NS_PER_S
            && RecordedAt(Latest(SecondsDecoder, Events(rounds), 1), 2 * NS_PER_S)
            && !Simultaneous(SecondsDecoder, 2, rounds)
  {
    var r := Round(true, Batch([At(0, 1), At(1, 2)]), 0);
    TwoReadings(0, 1, 1, 2);
    RoundStep(SecondsDecoder, 2, [], r);
    assert [] + [r] == [r] && [] + r.wake.events == r.wake.events;
    MessageShows(SecondsDecoder, 2, [r]);
    hide Latest, First, FreshRounds, MessageAfter, Shows, EventReading;
  }

  // ---------- Joints that are not watched ----------

  ghost predicate Names(rounds: seq<Round>, watched: set<nat>)
  {
    forall r, e :: r in rounds && r.wake.Batch? && e in r.wake.events ==> e.joint in watched
  }

  lemma {:induction false} EventsAreWatched(rounds: seq<Round>, watched: set<nat>)
    requires Names(rounds, watched)
    ensures forall e :: e in Events(rounds) ==> e.joint in watched
  {
    if rounds == [] {
    } else {
      assert forall r :: r in rounds[..|rounds| - 1] ==> r in rounds;
      EventsAreWatched(rounds[..|rounds| - 1], watched);
      assert rounds[|rounds| - 1] in rounds;
    }
  }

  lemma NeverHeardIsZero(decode: Decoder, es: seq<PipeEvent>, watched: set<nat>, joint: nat, m: JointMsg, dofs: nat)
    requires (forall e :: e in es ==> e.joint in watched) && joint < dofs && joint !in watched
    requires |m.positions| == dofs && Shows(decode, es, m.positions, m.velocities, m.efforts)
    ensures m.Shaped(dofs) && m.positions[joint] == m.velocities[joint] == m.efforts[joint] == 0.0
  {
    LatestMeaning(decode, es, joint);
    hide Latest, EventReading;
  }

  /** A joint whose pipe is not watched reads exactly zero in every message. */
  lemma {:induction false} UnwatchedStayZero(decode: Decoder, dofs: nat, rounds: seq<Round>,
                                             watched: set<nat>, joint: nat, k: nat)
    requires Names(rounds, watched) && joint < dofs && joint !in watched
    requires k < |Handed(Happenings(decode, dofs, rounds))|
    ensures var m := Handed(Happenings(decode, dofs, rounds))[k];
            m.Shaped(dofs) && m.positions[joint] == m.velocities[joint] == m.efforts[joint] == 0.0
  {
    hide Happenings, Handed, Events, FreshRounds, BatchReading, MessageAfter, Shows, JointMsg.Shaped;
    FreshLast(decode, dofs, rounds);
    if rounds == [] {
    } else {
      var past := rounds[..|rounds| - 1];
      HandedLast(decode, dofs, rounds);
      if k < |Handed(Happenings(decode, dofs, past))| {
        assert forall r :: r in past ==> r in rounds;
        UnwatchedStayZero(decode, dofs, past, watched, joint, k);
      } else {
        EventsAreWatched(rounds, watched);
        MessageShows(decode, dofs, rounds);
        NeverHeardIsZero(decode, Events(rounds), watched, joint, MessageAfter(decode, dofs, rounds), dofs);
      }
    }
  }
}
