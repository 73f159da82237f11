/** The IMU loop: one pipe, one message per drain whose last frame parses. */
module ImuLoop {
  import opened MachineIntegers
  import opened PdoFrames
  import opened Messages
  import opened Publishers
  import opened Drains

  datatype Wake = Interrupted | WaitFailed | TimedOut | Ready(chunks: seq<seq<Byte>>, now: nat)

  datatype Round = Round(running: bool, wake: Wake, change: int)

  ghost function WakeReading(decode: Decoder, wake: Wake): Option<ImuReading>
  {
    if !wake.Ready? || LastFrame(wake.chunks) == [] then None
    else ImuReadingOf(decode, LastFrame(wake.chunks), wake.now)
  }

  /** The readings of the rounds, in order. */
  ghost function Readings(decode: Decoder, rounds: seq<Round>): seq<ImuReading>
  {
    if rounds == [] then []
    else
      Readings(decode, rounds[..|rounds| - 1])
      + match WakeReading(decode, rounds[|rounds| - 1].wake) case None => [] case Some(x) => [x]
  }

  /** The k-th message, for a reading. */
  ghost function Message(k: nat, x: ImuReading): ImuMsg
  {
    ImuMsg(Header(ToU64(k), x.stamp), x.orientation, x.angular, x.linear)
  }

  ghost function Numbered(readings: seq<ImuReading>): seq<ImuMsg>
  {
    seq(|readings|, k requires 0 <= k < |readings| => Message(k, readings[k]))
  }

  /** What the publisher sees: in every round the change of matched readers, and a message
      if the round brought a reading. */
  ghost function Happenings(decode: Decoder, rounds: seq<Round>): seq<Happening<ImuMsg>>
  {
    if rounds == [] then []
    else
      var past, r := rounds[..|rounds| - 1], rounds[|rounds| - 1];
      Happenings(decode, past) + [Matched(r.change)]
      + match WakeReading(decode, r.wake)
        case None => []
        case Some(x) => [Happening.Publish(Message(|Readings(decode, past)|, x))]
  }

  lemma RoundStep(decode: Decoder, rounds: seq<Round>, r: Round)
    ensures Readings(decode, rounds + [r])
         == Readings(decode, rounds) + match WakeReading(decode, r.wake) case None => [] case Some(x) => [x]
    ensures Happenings(decode, rounds + [r])
         == Happenings(decode, rounds) + [Matched(r.change)]
            + match WakeReading(decode, r.wake)
              case None => []
              case Some(x) => [Happening.Publish(Message(|Readings(decode, rounds)|, x))]
  {
    assert (rounds + [r])[..|rounds|] == rounds;
  }

  class Loop {
    const raw: array<Byte>
    var msg: ImuMsg
    var sent: nat

    constructor ()
      ensures raw.Length == RAW_SIZE && fresh(raw) && sent == 0
    {
      raw := new Byte[RAW_SIZE];
      msg := ImuMsg(Header(0, 0), Quaternion(0.0, 0.0, 0.0, 0.0), Vector3(0.0, 0.0, 0.0), Vector3(0.0, 0.0, 0.0));
      sent := 0;
    }

    /** Waits once; a drain whose last frame parses fills in the next message and publishes it. */
    method Wait(decode: Decoder, wake: Wake, pub: ImuPublisher, ghost count: nat)
      requires raw.Length == RAW_SIZE && (wake.Ready? ==> FitRaw(wake.chunks))
      requires pub.dds.Fields().Complete() && sent == ToU64(count)
      modifies this`msg, this`sent, raw, pub`imu, pub`written
      ensures pub.dds.Fields().Complete() && pub.imu.frameId == old(pub.imu.frameId)
      ensures WakeReading(decode, wake).None? ==> sent == old(sent) && pub.written == old(pub.written)
      ensures WakeReading(decode, wake).Some? ==>
                && sent == ToU64(count + 1)
                && pub.written == old(pub.written)
                   + if pub.matched > 0 then [ImuSample(pub.imu.frameId, Message(count, WakeReading(decode, wake).value))] else []
    {
      if !wake.Ready? {
        return;
      }
      var last := Drain(raw, wake.chunks);
      if last <= 0 {
        return;
      }
      var reading := ParseImuFrame(decode, raw, last, wake.now);
      if reading.None? {
        return;
      }
      msg := ImuMsg(msg.header.(stampNs := reading.value.stamp), reading.value.orientation, reading.value.angular, reading.value.linear);
      msg := msg.(header := msg.header.(seq_ := sent));
      U64Next(count);
      sent := ToU64(sent + 1);
      pub.Publish(msg);
    }

    /** The loop and its publisher are where the rounds so far lead. */
    ghost predicate After(decode: Decoder, rounds: seq<Round>, pub: ImuPublisher)
      reads this, pub, pub.dds
    {
      var hs := Happenings(decode, rounds);
      && raw.Length == RAW_SIZE && pub.dds.Fields().Complete()
      && sent == ToU64(|Readings(decode, rounds)|)
      && pub.matched == ToI32(SumOfChanges(hs))
      && pub.written == ImuSamples(pub.imu.frameId, PublishedWhileOpen(hs))
    }

    method TakeRound(decode: Decoder, ghost past: seq<Round>, r: Round, pub: ImuPublisher)
      requires After(decode, past, pub)
      requires r.wake.Ready? ==> FitRaw(r.wake.chunks)
      modifies this`msg, this`sent, raw, pub`matched, pub`imu, pub`written
      ensures After(decode, past + [r], pub) && pub.imu.frameId == old(pub.imu.frameId)
    {
      hide PublishedWhileOpen, SumOfChanges, ImuSamples, ImuSample, ToI32, ToU64;
      hide Readings, Happenings, Message, WakeReading, GateOpen;
      ghost var hs, k := Happenings(decode, past), |Readings(decode, past)|;
      assert Readings(decode, past) + [] == Readings(decode, past);
      RoundStep(decode, past, r);
      HappeningStep(hs, Matched(r.change));
      I32Add(SumOfChanges(hs), r.change);
      pub.OnPublicationMatched(r.change);
      ghost var hs1 := hs + [Matched(r.change)];
      assert hs1 + [] == hs1;
      Wait(decode, r.wake, pub, k);
      if WakeReading(decode, r.wake).Some? {
        ghost var m := Message(k, WakeReading(decode, r.wake).value);
        GateStep(hs1, pub.matched);
        HappeningStep(hs1, Happening.Publish(m));
        ImuSamplesStep(pub.imu.frameId, PublishedWhileOpen(hs1), m);
      }
    }

    /** Runs until `g_running` is off or the wait fails, over all rounds at most. */
    method Run(decode: Decoder, rounds: seq<Round>, pub: ImuPublisher) returns (n: nat)
      requires After(decode, [], pub)
      requires forall r :: r in rounds && r.wake.Ready? ==> FitRaw(r.wake.chunks)
      modifies this`msg, this`sent, raw, pub`matched, pub`imu, pub`written
      ensures n <= |rounds| && forall i :: 0 <= i < n ==> rounds[i].running && !rounds[i].wake.WaitFailed?
      ensures n < |rounds| ==> !rounds[n].running || rounds[n].wake.WaitFailed?
      ensures After(decode, rounds[..n], pub) && pub.imu.frameId == old(pub.imu.frameId)
    {
      hide After, FitRaw;
      n := 0;
      assert rounds[..0] == [];
      while n < |rounds|
        invariant n <= |rounds| && forall i :: 0 <= i < n ==> rounds[i].running && !rounds[i].wake.WaitFailed?
        invariant After(decode, rounds[..n], pub) && pub.imu.frameId == old(pub.imu.frameId)
      {
        var r := rounds[n];
        if !r.running || r.wake.WaitFailed? {
          return;
        }
        assert r in rounds && rounds[..n + 1] == rounds[..n] + [r];
        TakeRound(decode, rounds[..n], r, pub);
        n := n + 1;
      }
    }
  }

  lemma NumberedStep(xs: seq<ImuReading>, x: ImuReading)
    ensures Numbered(xs + [x]) == Numbered(xs) + [Message(|xs|, x)]
  {
  }

  /** The messages handed to `publish` are exactly the readings of the drains whose last
      frame parses, in order and numbered from zero. */
  lemma {:induction false} HandedAreReadings(decode: Decoder, rounds: seq<Round>)
    ensures Handed(Happenings(decode, rounds)) == Numbered(Readings(decode, rounds))
  {
    if rounds == [] {
    } else {
      var past, r := rounds[..|rounds| - 1], rounds[|rounds| - 1];
      HandedAreReadings(decode, past);
      assert rounds == past + [r];
      RoundStep(decode, past, r);
      hide Happenings, Readings, Numbered, Handed, Message, WakeReading;
      var hs, xs := Happenings(decode, past), Readings(decode, past);
      HandedStep(hs, Matched(r.change));
      assert Handed(hs) + [] == Handed(hs) && xs + [] == xs;
      assert hs + [Matched(r.change)] + [] == hs + [Matched(r.change)];
      if WakeReading(decode, r.wake).Some? {
        var x := WakeReading(decode, r.wake).value;
        HandedStep(hs + [Matched(r.change)], Happening.Publish(Message(|xs|, x)));
        NumberedStep(xs, x);
      }
    }
  }

  /** The k-th message handed over carries number k. */
  lemma HandedNumbered(decode: Decoder, rounds: seq<Round>)
    ensures var ms := Handed(Happenings(decode, rounds));
            && |ms| == |Readings(decode, rounds)|
            && forall k :: 0 <= k < |ms| ==> ms[k].header.seq_ == ToU64(k)
  {
    HandedAreReadings(decode, rounds);
    hide Handed, Happenings, Readings, ToU64;
  }
}
