/** Runs that publish two given clock readings, and one whose stamps go back. */
module StampRuns {
  import opened MachineIntegers
  import opened Timestamps
  import opened Messages
  import opened DdsEntities
  import opened SimPipeline
  import opened SimTheorems

  ghost predicate Reaches(c: Config, es: seq<Event>, s: State)
    requires c.plan.Valid()
  {
    Legal(c, INITIAL, es) && Run(c, INITIAL, es) == s
  }

  lemma ReachStep(c: Config, es: seq<Event>, s: State, e: Event)
    requires c.plan.Valid() && Reaches(c, es, s) && Enabled(s, e)
    ensures Reaches(c, es + [e], Apply(c, s, e))
  {
    assert (es + [e])[..|es|] == es;
    hide Enabled, Apply;
  }

  // A run that starts at ta, samples at ta and at tb, and then publishes both to one reader.

  const STARTED: seq<Event> :=
    [SpawnedDds(true), SpawnedRt(true), DdsInits(Outcome(true, true, true, true)), MatchedChanges(1)]
  const PUBLISHED: seq<Event> := [DdsChecks, DdsPops, DdsPublishes]

  function SampledTwice(ta: Timespec, tb: Timespec): seq<Event>
  {
    STARTED + [RtStarts(ta), RtChecks, RtSamples(ta), RtPushes, RtSleeps, RtChecks, RtSamples(tb), RtPushes]
  }

  function TwoSamples(ta: Timespec, tb: Timespec): seq<Event>
  {
    SampledTwice(ta, tb) + PUBLISHED + PUBLISHED
  }

  const READY := INITIAL.(main := JoinRt, rt := RtStart, dds := DdsGuard, matched := 1)

  lemma StartedReaches(c: Config)
    requires c.plan.Valid()
    ensures Reaches(c, STARTED, READY)
  {
    var e0, e1, e2, e3 := SpawnedDds(true), SpawnedRt(true), DdsInits(Outcome(true, true, true, true)), MatchedChanges(1);
    assert Reaches(c, [], INITIAL);
    hide Reaches, MessageAt;
    var s1, s2 := Apply(c, INITIAL, e0), Apply(c, Apply(c, INITIAL, e0), e1);
    var s3 := Apply(c, s2, e2);
    ReachStep(c, [], INITIAL, e0);
    ReachStep(c, [] + [e0], s1, e1);
    ReachStep(c, [] + [e0] + [e1], s2, e2);
    ReachStep(c, [] + [e0] + [e1] + [e2], s3, e3);
    assert STARTED == [] + [e0] + [e1] + [e2] + [e3];
  }

  // What a sampling and a publishing step lead to.

  ghost function Sampled(c: Config, s: State, ts: Timespec): State
    requires c.plan.Valid() && s.clock != []
  {
    var m := MessageAt(c, s.clock + [ts], |s.clock| - 1);
    s.(clock := s.clock + [ts], nextSeq := ToU64(s.nextSeq + 1), rt := RtSleep,
       ring := s.ring + [m.(header := m.header.(seq_ := s.nextSeq))], accepted := s.accepted + [|s.clock| - 1])
  }

  ghost function Published(c: Config, s: State): State
    requires s.ring != []
  {
    s.(ring := s.ring[1..], popped := s.popped + [s.ring[0]],
       written := s.written + [JointSample(c.names, s.ring[0])], writtenAt := s.writtenAt + [|s.popped|])
  }

  lemma SampleReaches(c: Config, es: seq<Event>, s: State, ts: Timespec)
    requires c.plan.Valid() && Reaches(c, es, s) && s.running && s.rt == RtGuard && |s.ring| < RING_CAPACITY
    requires s.clock != [] && ClockAllows(s.clock, ts)
    ensures Reaches(c, es + [RtChecks, RtSamples(ts), RtPushes], Sampled(c, s, ts))
  {
    hide Reaches, MessageAt, ClockAllows, ToU64;
    var s1 := Apply(c, s, RtChecks);
    var s2 := Apply(c, s1, RtSamples(ts));
    ReachStep(c, es, s, RtChecks);
    ReachStep(c, es + [RtChecks], s1, RtSamples(ts));
    ReachStep(c, es + [RtChecks] + [RtSamples(ts)], s2, RtPushes);
    assert es + [RtChecks, RtSamples(ts), RtPushes] == es + [RtChecks] + [RtSamples(ts)] + [RtPushes];
    assert s2.Attempted() == |s.clock| - 1;
  }

  lemma PublishReaches(c: Config, es: seq<Event>, s: State)
    requires c.plan.Valid() && Reaches(c, es, s) && s.running && s.dds == DdsGuard && s.ring != [] && s.matched > 0
    ensures Reaches(c, es + PUBLISHED, Published(c, s))
  {
    hide Reaches, MessageAt, JointSample;
    var s1 := Apply(c, s, DdsChecks);
    var s2 := Apply(c, s1, DdsPops);
    ReachStep(c, es, s, DdsChecks);
    ReachStep(c, es + [DdsChecks], s1, DdsPops);
    ReachStep(c, es + [DdsChecks] + [DdsPops], s2, DdsPublishes);
    assert es + PUBLISHED == es + [DdsChecks] + [DdsPops] + [DdsPublishes];
  }

  lemma FirstSampleReaches(c: Config, ta: Timespec, s1: State)
    requires c.plan.Valid() && s1 == READY.(clock := [ta], rt := RtGuard)
    requires ClockAllows([], ta) && ClockAllows([ta], ta)
    ensures Reaches(c, STARTED + [RtStarts(ta)] + [RtChecks, RtSamples(ta), RtPushes] + [RtSleeps],
                    Sampled(c, s1, ta).(rt := RtGuard))
  {
    StartedReaches(c);
    var s2 := Sampled(c, s1, ta);
    var l1 := STARTED + [RtStarts(ta)];
    assert Enabled(READY, RtStarts(ta)) && Apply(c, READY, RtStarts(ta)) == s1;
    assert Enabled(s2, RtSleeps) && Apply(c, s2, RtSleeps) == s2.(rt := RtGuard);
    hide Reaches, MessageAt, ClockAllows, ToU64, Apply, Enabled, Sampled;
    ReachStep(c, STARTED, READY, RtStarts(ta));
    SampleReaches(c, l1, s1, ta);
    ReachStep(c, l1 + [RtChecks, RtSamples(ta), RtPushes], s2, RtSleeps);
  }

  lemma TwoSamplesReach(c: Config, ta: Timespec, tb: Timespec, s1: State)
    requires c.plan.Valid() && s1 == READY.(clock := [ta], rt := RtGuard)
    requires ClockAllows([], ta) && ClockAllows([ta], ta) && ClockAllows([ta, ta], tb)
    ensures var s4 := Sampled(c, Sampled(c, s1, ta).(rt := RtGuard), tb);
            s4.clock == [ta, ta, tb] && |s4.ring| == 2 && s4.running && s4.dds == DdsGuard && s4.matched > 0
            && Reaches(c, SampledTwice(ta, tb), s4)
  {
    FirstSampleReaches(c, ta, s1);
    var s3 := Sampled(c, s1, ta).(rt := RtGuard);
    assert [ta] + [ta] == [ta, ta] && [ta, ta] + [tb] == [ta, ta, tb];
    hide Reaches, MessageAt, ClockAllows, ToU64;
    var l3 := STARTED + [RtStarts(ta)] + [RtChecks, RtSamples(ta), RtPushes] + [RtSleeps];
    SampleReaches(c, l3, s3, tb);
    assert SampledTwice(ta, tb) == l3 + [RtChecks, RtSamples(tb), RtPushes];
  }

  lemma SampledStamp(c: Config, s: State, ts: Timespec)
    requires c.plan.Valid() && s.clock != []
    ensures var r := Sampled(c, s, ts).ring;
            && r == s.ring + [r[|s.ring|]]
            && JointSample(c.names, r[|s.ring|]).stamp == Split(ts.ToNs())
  {
    StampIsElapsed(c, s.clock + [ts], |s.clock| - 1);
    hide MessageAt, Split, Timespec.ToNs, ToU64;
  }

  lemma ReachedIs(c: Config, es: seq<Event>, s: State)
    requires c.plan.Valid() && Reaches(c, es, s)
    ensures Legal(c, INITIAL, es) && Run(c, INITIAL, es) == s
  {
    hide Run, Legal;
  }

  /** Any two clock readings in order occur as those of two written samples. */
  lemma ReadingsOccur(c: Config, ta: Timespec, tb: Timespec)
    requires c.plan.Valid() && ta.Normalised() && tb.Normalised() && ta.Exact() <= tb.Exact()
    ensures Legal(c, INITIAL, TwoSamples(ta, tb))
    ensures var w := Run(c, INITIAL, TwoSamples(ta, tb)).written;
            |w| == 2 && w[0].stamp == Split(ta.ToNs()) && w[1].stamp == Split(tb.ToNs())
  {
    var s1 := READY.(clock := [ta], rt := RtGuard);
    TwoSamplesReach(c, ta, tb, s1);
    var s3 := Sampled(c, s1, ta).(rt := RtGuard);
    var s4 := Sampled(c, s3, tb);
    SampledStamp(c, s1, ta);
    SampledStamp(c, s3, tb);
    hide Sampled, Reaches, Run, Legal, JointSample, Split, Timespec.ToNs, Timespec.Exact;
    PublishReaches(c, SampledTwice(ta, tb), s4);
    PublishReaches(c, SampledTwice(ta, tb) + PUBLISHED, Published(c, s4));
    ReachedIs(c, TwoSamples(ta, tb), Published(c, Published(c, s4)));
  }

  /** So a run can write a sample whose stamp is before that of an earlier one. */
  lemma StampsCanGoBack(c: Config)
    requires c.plan.Valid()
    ensures var es := TwoSamples(Timespec(TWO_31 - 1, 999_999_999), Timespec(TWO_31, 0));
            && Legal(c, INITIAL, es)
            && var w := Run(c, INITIAL, es).written;
            && |w| == 2 && !w[0].stamp.AtMost(w[1].stamp)
  {
    ReadingsOutOfOrder();
    ReadingsOccur(c, Timespec(TWO_31 - 1, 999_999_999), Timespec(TWO_31, 0));
    hide Run, Legal, TwoSamples;
  }
}
