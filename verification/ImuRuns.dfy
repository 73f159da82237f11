/** What the IMU thread writes, from opening its pipe to releasing its publisher. */
module ImuRuns {
  import opened MachineIntegers
  import opened Timestamps
  import opened PdoFrames
  import opened Messages
  import opened DdsEntities
  import opened Publishers
  import opened Drains
  import opened ImuLoop

  // ---------- What a drain tells ----------

  /** The last read of the drain is a frame that carries a record with these IMU data and stamp. */
  ghost predicate Tells(decode: Decoder, wake: Wake, pdo: Pdo, rx: ImuRx, stamp: nat)
  {
    wake.Ready? && exists k: nat ::
      LastRead(wake.chunks, k) && Carries(decode, wake.chunks[k - 1], pdo)
      && HasImu(pdo, rx) && HasStamp(pdo, wake.now, stamp)
  }

  ghost predicate Quiet(decode: Decoder, wake: Wake)
  {
    forall pdo, rx, stamp :: !Tells(decode, wake, pdo, rx, stamp)
  }

  lemma ToldIsRead(decode: Decoder, wake: Wake, pdo: Pdo, rx: ImuRx, stamp: nat)
    requires Tells(decode, wake, pdo, rx, stamp) && FitRaw(wake.chunks)
    ensures WakeReading(decode, wake) == Some(ImuReading(stamp, rx.quat, rx.rate, rx.acc))
  {
    var k: nat :| LastRead(wake.chunks, k) && Carries(decode, wake.chunks[k - 1], pdo)
                  && HasImu(pdo, rx) && HasStamp(pdo, wake.now, stamp);
    LastFrameMeaning(wake.chunks, k);
    ImuReadingMeaning(decode, wake.chunks[k - 1], wake.now);
    hide LastFrame, ImuReadingOf, Carries, HasImu, HasStamp;
  }

  lemma ReadIsTold(decode: Decoder, wake: Wake)
    requires (wake.Ready? ==> FitRaw(wake.chunks)) && WakeReading(decode, wake).Some?
    ensures exists pdo, rx :: Tells(decode, wake, pdo, rx, WakeReading(decode, wake).value.stamp)
  {
    LastReadExists(wake.chunks);
    var k: nat :| LastRead(wake.chunks, k);
    LastFrameMeaning(wake.chunks, k);
    ImuReadingMeaning(decode, wake.chunks[k - 1], wake.now);
    hide LastFrame, ImuReadingOf, Carries, HasImu, HasStamp;
    var pdo, rx :| Carries(decode, wake.chunks[k - 1], pdo) && HasImu(pdo, rx)
                   && HasStamp(pdo, wake.now, ImuReadingOf(decode, wake.chunks[k - 1], wake.now).value.stamp);
    assert Tells(decode, wake, pdo, rx, WakeReading(decode, wake).value.stamp);
  }

  /** A drain's reading is the quaternion, rate and acceleration it tells, with the stamp; it has
      none exactly if it tells nothing. */
  lemma WakeReadingMeaning(decode: Decoder, wake: Wake)
    requires wake.Ready? ==> FitRaw(wake.chunks)
    ensures forall pdo, rx, stamp :: Tells(decode, wake, pdo, rx, stamp) ==>
              WakeReading(decode, wake) == Some(ImuReading(stamp, rx.quat, rx.rate, rx.acc))
    ensures WakeReading(decode, wake).Some? ==>
              exists pdo, rx :: Tells(decode, wake, pdo, rx, WakeReading(decode, wake).value.stamp)
    ensures WakeReading(decode, wake).None? <==> Quiet(decode, wake)
  {
    forall pdo, rx, stamp | Tells(decode, wake, pdo, rx, stamp)
      ensures WakeReading(decode, wake) == Some(ImuReading(stamp, rx.quat, rx.rate, rx.acc))
    {
      ToldIsRead(decode, wake, pdo, rx, stamp);
    }
    hide WakeReading, Tells;
    if WakeReading(decode, wake).Some? {
      ReadIsTold(decode, wake);
    }
  }

  // ---------- What the samples show ----------

  /** The rounds up to and including round i. */
  ghost function Upto(rounds: seq<Round>, i: nat): seq<Round>
    requires i < |rounds|
  {
    rounds[..i + 1]
  }

  lemma UptoOfPast(rounds: seq<Round>)
    requires rounds != []
    ensures var past := rounds[..|rounds| - 1];
            && Upto(rounds, |past|) == rounds
            && forall i: nat :: i < |past| ==> Upto(past, i) == Upto(rounds, i)
  {
  }

  /** How the number of matched readers changed in the rounds. */
  ghost function Changes(rounds: seq<Round>): int
  {
    if rounds == [] then 0 else Changes(rounds[..|rounds| - 1]) + rounds[|rounds| - 1].change
  }

  /** Whether the last of the rounds tells something and publishes it to somebody. */
  ghost predicate Writes(decode: Decoder, rounds: seq<Round>)
  {
    rounds != [] && !Quiet(decode, rounds[|rounds| - 1].wake) && ToI32(Changes(rounds)) > 0
  }

  /** The samples the thread writes when it takes the given rounds. */
  ghost function WrittenIn(decode: Decoder, rounds: seq<Round>): seq<Imu>
  {
    ImuSamples("", PublishedWhileOpen(Happenings(decode, rounds)))
  }

  lemma NothingYet(decode: Decoder)
    ensures WrittenIn(decode, []) == [] && ToU64(|Readings(decode, [])|) == 0
    ensures ToI32(SumOfChanges(Happenings(decode, []))) == 0
  {
  }

  ghost predicate AllFit(rounds: seq<Round>)
  {
    forall r :: r in rounds && r.wake.Ready? ==> FitRaw(r.wake.chunks)
  }

  /** The sample shows what the drain tells: quaternion, rate, acceleration and stamp. */
  ghost predicate ShowsTold(decode: Decoder, wake: Wake, w: Imu)
  {
    w.frameId == "" && exists pdo, rx, stamp ::
      Tells(decode, wake, pdo, rx, stamp) && w.stamp == Split(stamp)
      && w.orientation == rx.quat && w.angular == rx.rate && w.linear == rx.acc
  }

  lemma {:induction false} ChangesAreSum(decode: Decoder, rounds: seq<Round>)
    ensures SumOfChanges(Happenings(decode, rounds)) == Changes(rounds)
  {
    if rounds == [] {
    } else {
      var past, r := rounds[..|rounds| - 1], rounds[|rounds| - 1];
      ChangesAreSum(decode, past);
      assert rounds == past + [r];
      RoundStep(decode, past, r);
      hide Happenings, SumOfChanges, Message, WakeReading, Readings;
      var hs, k := Happenings(decode, past), |Readings(decode, past)|;
      HappeningStep(hs, Matched(r.change));
      assert hs + [Matched(r.change)] + [] == hs + [Matched(r.change)];
      if WakeReading(decode, r.wake).Some? {
        HappeningStep(hs + [Matched(r.change)], Happening.Publish(Message(k, WakeReading(decode, r.wake).value)));
      }
    }
  }

  lemma OpenStep(decode: Decoder, rounds: seq<Round>)
    requires rounds != [] && (rounds[|rounds| - 1].wake.Ready? ==> FitRaw(rounds[|rounds| - 1].wake.chunks))
    ensures var past, r := rounds[..|rounds| - 1], rounds[|rounds| - 1];
            WrittenIn(decode, rounds)
            == WrittenIn(decode, past)
               + if Writes(decode, rounds) && WakeReading(decode, r.wake).Some?
                 then [ImuSample("", Message(|Readings(decode, past)|, WakeReading(decode, r.wake).value))] else []
  {
    var past, r := rounds[..|rounds| - 1], rounds[|rounds| - 1];
    assert rounds == past + [r];
    RoundStep(decode, past, r);
    ChangesAreSum(decode, past);
    WakeReadingMeaning(decode, r.wake);
    hide Happenings, SumOfChanges, Message, WakeReading, Readings, PublishedWhileOpen, ImuSamples, ImuSample, ToI32, Quiet, FitRaw;
    var hs, k := Happenings(decode, past), |Readings(decode, past)|;
    HappeningStep(hs, Matched(r.change));
    var hs1 := hs + [Matched(r.change)];
    var open := PublishedWhileOpen(hs1);
    assert hs1 + [] == hs1 && WrittenIn(decode, past) + [] == WrittenIn(decode, past);
    if WakeReading(decode, r.wake).Some? {
      var m := Message(k, WakeReading(decode, r.wake).value);
      HappeningStep(hs1, Happening.Publish(m));
      ImuSamplesStep("", open, m);
      assert SumOfChanges(hs1) == Changes(rounds);
    }
  }

  lemma SampleShows(decode: Decoder, wake: Wake, k: nat)
    requires (wake.Ready? ==> FitRaw(wake.chunks)) && WakeReading(decode, wake).Some?
    ensures ShowsTold(decode, wake, ImuSample("", Message(k, WakeReading(decode, wake).value)))
  {
    WakeReadingMeaning(decode, wake);
    hide WakeReading, Tells, Split, ToU64;
    var x := WakeReading(decode, wake).value;
    var pdo, rx :| Tells(decode, wake, pdo, rx, x.stamp);
  }

  /** The rounds that write a sample, in order. */
  ghost function WritingRounds(decode: Decoder, rounds: seq<Round>): seq<nat>
  {
    if rounds == [] then []
    else WritingRounds(decode, rounds[..|rounds| - 1]) + if Writes(decode, rounds) then [|rounds| - 1] else []
  }

  lemma WritingStep(decode: Decoder, rounds: seq<Round>, i: nat)
    requires rounds != []
    ensures var past := rounds[..|rounds| - 1];
            i in WritingRounds(decode, rounds) <==> i in WritingRounds(decode, past) || (i == |past| && Writes(decode, rounds))
  {
    hide Writes;
    var ix := WritingRounds(decode, rounds[..|rounds| - 1]);
    var last := if Writes(decode, rounds) then [|rounds| - 1] else [];
    assert WritingRounds(decode, rounds) == ix + last;
    assert i in ix + last <==> i in ix || i in last;
  }

  lemma {:induction false} WritingRoundsMeaning(decode: Decoder, rounds: seq<Round>, i: nat)
    ensures i in WritingRounds(decode, rounds) <==> i < |rounds| && Writes(decode, Upto(rounds, i))
  {
    hide Writes;
    if rounds == [] {
    } else {
      WritingRoundsMeaning(decode, rounds[..|rounds| - 1], i);
      WritingStep(decode, rounds, i);
      UptoOfPast(rounds);
      hide Upto, WritingRounds;
    }
  }

  lemma WritesRead(decode: Decoder, rounds: seq<Round>)
    requires Writes(decode, rounds)
    requires rounds[|rounds| - 1].wake.Ready? ==> FitRaw(rounds[|rounds| - 1].wake.chunks)
    ensures WakeReading(decode, rounds[|rounds| - 1].wake).Some?
  {
    WakeReadingMeaning(decode, rounds[|rounds| - 1].wake);
    hide WakeReading, Quiet;
  }

  /** In terms of the bytes read and the decoder: the k-th sample written is of the k-th round
      whose drain ends in an IMU record while somebody is matched, and shows that record. */
  lemma {:induction false} SampleShowsRecord(decode: Decoder, rounds: seq<Round>)
    requires AllFit(rounds)
    ensures var ws, ix := WrittenIn(decode, rounds), WritingRounds(decode, rounds);
            && |ws| == |ix|
            && (forall k, l :: 0 <= k < l < |ix| ==> ix[k] < ix[l])
            && forall k :: 0 <= k < |ws| ==> ix[k] < |rounds| && ShowsTold(decode, rounds[ix[k]].wake, ws[k])
  {
    hide Writes, WrittenIn, ShowsTold, FitRaw;
    if rounds == [] {
      NothingYet(decode);
    } else {
      var past, r := rounds[..|rounds| - 1], rounds[|rounds| - 1];
      assert r in rounds && forall q :: q in past ==> q in rounds;
      SampleShowsRecord(decode, past);
      OpenStep(decode, rounds);
      var ix := WritingRounds(decode, past);
      forall k | 0 <= k < |ix| ensures ix[k] < |past| && past[ix[k]] == rounds[ix[k]] {
        WritingRoundsMeaning(decode, past, ix[k]);
      }
      if Writes(decode, rounds) {
        WritesRead(decode, rounds);
        SampleShows(decode, r.wake, |Readings(decode, past)|);
      }
    }
  }

  // ---------- The thread ----------

  lemma {:induction false} NothingReady(decode: Decoder, rounds: seq<Round>)
    requires forall r :: r in rounds ==> !r.wake.Ready?
    ensures Readings(decode, rounds) == []
  {
    if rounds == [] {
    } else {
      NothingReady(decode, rounds[..|rounds| - 1]);
      assert rounds[|rounds| - 1] in rounds;
    }
  }

  lemma NothingWritten(decode: Decoder, rounds: seq<Round>)
    requires forall r :: r in rounds ==> !r.wake.Ready?
    ensures WrittenIn(decode, rounds) == []
  {
    var hs := Happenings(decode, rounds);
    HandedAreReadings(decode, rounds);
    NothingReady(decode, rounds);
    hide Happenings, Readings, PublishedWhileOpen, Handed;
    if PublishedWhileOpen(hs) != [] {
      OpenWasHanded(hs, PublishedWhileOpen(hs)[0]);
    }
  }

  /** The loop of the thread, over its own message and buffer. */
  method PublishRounds(decode: Decoder, rounds: seq<Round>, pub: ImuPublisher) returns (n: nat)
    requires pub.dds.Fields().Complete() && pub.imu.frameId == "" && pub.matched == 0 && pub.written == []
    requires forall r :: r in rounds && r.wake.Ready? ==> FitRaw(r.wake.chunks)
    modifies pub`matched, pub`imu, pub`written
    ensures n <= |rounds| && forall i :: 0 <= i < n ==> rounds[i].running && !rounds[i].wake.WaitFailed?
    ensures n < |rounds| ==> !rounds[n].running || rounds[n].wake.WaitFailed?
    ensures pub.written == WrittenIn(decode, rounds[..n])
  {
    NothingYet(decode);
    hide FitRaw, Happenings, SumOfChanges, PublishedWhileOpen, ImuSamples, ToU64, ToI32, Readings;
    var loop := new Loop();
    n := loop.Run(decode, rounds, pub);
  }

  /** Opens the pipe, watches it if it is there, publishes until stopped, releases the
      publisher.  Whatever fails, nobody else is stopped.  Only a watched pipe is ever ready. */
  method RunImu(decode: Decoder, pipe: int, epoll: bool, accepted: bool, o: Outcome, rounds: seq<Round>)
    returns (written: seq<Imu>, log: seq<DdsCall>, n: nat)
    requires forall r :: r in rounds && r.wake.Ready? ==> FitRaw(r.wake.chunks)
    requires pipe < 0 ==> forall r :: r in rounds ==> !r.wake.Ready?
    ensures n <= |rounds| && written == WrittenIn(decode, rounds[..n])
    ensures !epoll || (pipe >= 0 && !accepted) || !o.Succeeds() ==> n == 0
    ensures epoll && (pipe < 0 || accepted) && o.Succeeds() && n < |rounds| ==>
              !rounds[n].running || rounds[n].wake.WaitFailed?
    ensures pipe < 0 ==> written == []
    ensures Released(log)
  {
    hide WrittenIn, Released, FitRaw, DdsPublisher.Valid;
    written, log, n := [], [], 0;
    NothingYet(decode);
    NoCalls();
    if !epoll {
      return;
    }
    var reader := new XddpReader(1);
    var ok := reader.Open([pipe], true);
    assert reader.fds[0] == reader.fds[..][0];
    if reader.IsOpen(0) && !accepted {
      return;
    }
    var pub := new ImuPublisher();
    var ready := pub.Init("", o);
    if !ready {
      pub.Destroy();
      log := pub.dds.log;
      return;
    }
    n := PublishRounds(decode, rounds, pub);
    written := pub.written;
    if pipe < 0 {
      NothingWritten(decode, rounds[..n]);
    }
    pub.Destroy();
    log := pub.dds.log;
  }
}
