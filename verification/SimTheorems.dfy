/** What every simulation run guarantees about messages and samples. */
module SimTheorems {
  import opened MachineIntegers
  import opened Timestamps
  import opened Messages
  import opened Publishers
  import opened RealProducts
  import opened Shapes
  import opened RestToRest
  import opened RobotModels
  import opened TrajectoryGenerators
  import opened SimPipeline

  // ---------- Conservation ----------

  /** In every reachable state each pushed sample is popped, in the ring, or dropped, and
      exactly one of these; popped then ring messages are the accepted samples in order. */
  lemma Conservation(c: Config, es: seq<Event>)
    requires c.plan.Valid() && Legal(c, INITIAL, es)
    ensures var s := Run(c, INITIAL, es);
            && |s.ring| <= 8
            && s.Attempted() == |s.popped| + |s.ring| + |s.dropped|
            && Partition(s.accepted, s.dropped, s.Attempted())
            && |s.accepted| == |s.popped| + |s.ring|
            && forall j :: 0 <= j < |s.accepted| ==>
                 s.accepted[j] + 1 < |s.clock| && (s.popped + s.ring)[j] == MessageAt(c, s.clock, s.accepted[j])
  {
    InvInitially(c);
    InvAlways(c, INITIAL, es);
    hide Run, Legal, Partition, MessageAt;
  }

  /** The accepted messages, and so the popped ones, carry their sample's number and time. */
  lemma MessageHeaders(c: Config, es: seq<Event>, j: nat)
    requires c.plan.Valid() && Legal(c, INITIAL, es) && j < |Run(c, INITIAL, es).accepted|
    ensures var s := Run(c, INITIAL, es);
            && j < |s.popped| + |s.ring| && s.accepted[j] + 1 < |s.clock|
            && (s.popped + s.ring)[j].header == Header(ToU64(s.accepted[j]), s.clock[s.accepted[j] + 1].ToNs())
  {
    Conservation(c, es);
    var s := Run(c, INITIAL, es);
    var k := s.accepted[j];
    hide Run, Legal, Partition, Plan.Positions, Plan.Velocities, ToU64, Timespec.ToNs;
    assert MessageAt(c, s.clock, k).header == Header(ToU64(k), s.clock[k + 1].ToNs());
  }

  lemma HistoryStep(c: Config, s: State, e: Event)
    requires c.plan.Valid() && Enabled(s, e)
    ensures s.accepted <= Apply(c, s, e).accepted && s.dropped <= Apply(c, s, e).dropped
    ensures e == RtPushes ==>
              if |s.ring| < RING_CAPACITY then Apply(c, s, e).accepted == s.accepted + [s.Attempted()]
              else Apply(c, s, e).dropped == s.dropped + [s.Attempted()]
  {
    hide MessageAt, ToI32, ToU64, JointSample;
  }

  lemma {:induction false} LegalPrefix(c: Config, s: State, es: seq<Event>, i: nat)
    requires c.plan.Valid() && Legal(c, s, es) && i <= |es|
    ensures Legal(c, s, es[..i])
    ensures i < |es| ==> Enabled(Run(c, s, es[..i]), es[i])
  {
    hide Enabled, Apply;
    if i < |es| {
      var past := es[..|es| - 1];
      LegalPrefix(c, s, past, i);
      assert past[..i] == es[..i];
      if i < |past| { assert past[i] == es[i]; }
    } else {
      assert es[..i] == es;
    }
  }

  lemma {:induction false} HistoryGrows(c: Config, s: State, es: seq<Event>, i: nat)
    requires c.plan.Valid() && Legal(c, s, es) && i <= |es|
    requires Legal(c, s, es[..i])
    ensures Run(c, s, es[..i]).accepted <= Run(c, s, es).accepted
    ensures Run(c, s, es[..i]).dropped <= Run(c, s, es).dropped
  {
    hide Enabled, Apply;
    if i < |es| {
      var past := es[..|es| - 1];
      assert past[..i] == es[..i];
      HistoryGrows(c, s, past, i);
      HistoryStep(c, Run(c, s, past), es[|es| - 1]);
    } else {
      assert es[..i] == es;
    }
  }

  lemma PrefixMember(xs: seq<nat>, ys: seq<nat>, i: nat)
    requires xs <= ys && i < |xs|
    ensures xs[i] in ys
  {
    assert ys[i] == xs[i];
  }

  /** A sample is missing at the end of a run if and only if the ring was full when the
      producer pushed it. */
  lemma DroppedIffFull(c: Config, es: seq<Event>, i: nat)
    requires c.plan.Valid() && Legal(c, INITIAL, es)
    requires i < |es| && es[i] == RtPushes
    ensures Legal(c, INITIAL, es[..i])
    ensures var before := Run(c, INITIAL, es[..i]);
            before.Attempted() in Run(c, INITIAL, es).dropped <==> |before.ring| == 8
  {
    LegalPrefix(c, INITIAL, es, i);
    LegalPrefix(c, INITIAL, es, i + 1);
    var before, after, end := Run(c, INITIAL, es[..i]), Run(c, INITIAL, es[..i + 1]), Run(c, INITIAL, es);
    assert es[..i + 1][..i] == es[..i] && es[..i + 1][i] == es[i];
    assert after == Apply(c, before, RtPushes);
    HistoryStep(c, before, RtPushes);
    HistoryGrows(c, INITIAL, es, i + 1);
    Conservation(c, es);
    Conservation(c, es[..i]);
    hide Run, Legal, Enabled, Apply, MessageAt;
    var k := before.Attempted();
    if |before.ring| < RING_CAPACITY {
      assert after.accepted[|before.accepted|] == k;
      PrefixMember(after.accepted, end.accepted, |before.accepted|);
    } else {
      assert after.dropped[|before.dropped|] == k;
      PrefixMember(after.dropped, end.dropped, |before.dropped|);
    }
  }

  lemma {:induction false} IncreasingFrom(xs: seq<nat>, j: nat)
    requires Increasing(xs) && j < |xs|
    ensures xs[j] >= j
  {
    if j == 0 {
    } else {
      IncreasingFrom(xs, j - 1);
    }
  }

  lemma {:induction false} IncreasingTo(xs: seq<nat>, n: nat, j: nat)
    requires Increasing(xs) && |xs| == n && j < n && forall k :: k in xs ==> k < n
    ensures xs[j] <= j
    decreases n - j
  {
    if j + 1 < n {
      IncreasingTo(xs, n, j + 1);
    } else {
      assert xs[j] in xs;
    }
  }

  lemma IncreasingBelow(xs: seq<nat>, n: nat, j: nat)
    requires Increasing(xs) && |xs| == n && j < n && forall k :: k in xs ==> k < n
    ensures xs[j] == j
  {
    IncreasingFrom(xs, j);
    IncreasingTo(xs, n, j);
  }

  ghost predicate NeverFullAtPush(c: Config, es: seq<Event>)
    requires c.plan.Valid() && Legal(c, INITIAL, es)
  {
    forall i: nat | i < |es| && es[i] == RtPushes ::
      Legal(c, INITIAL, es[..i]) && |Run(c, INITIAL, es[..i]).ring| < RING_CAPACITY
  }

  lemma DropsOnlyWhenFull(c: Config, s: State, e: Event)
    requires c.plan.Valid() && Enabled(s, e)
    ensures Apply(c, s, e).dropped != s.dropped ==> e == RtPushes && |s.ring| >= RING_CAPACITY
  {
    hide MessageAt, ToI32, ToU64, JointSample;
  }

  lemma {:induction false} NothingDropped(c: Config, es: seq<Event>)
    requires c.plan.Valid() && Legal(c, INITIAL, es) && NeverFullAtPush(c, es)
    ensures Run(c, INITIAL, es).dropped == []
  {
    if es == [] {
    } else {
      var past, e := es[..|es| - 1], es[|es| - 1];
      forall i: nat | i < |past| && past[i] == RtPushes
        ensures Legal(c, INITIAL, past[..i]) && |Run(c, INITIAL, past[..i]).ring| < RING_CAPACITY
      {
        assert past[..i] == es[..i] && past[i] == es[i];
      }
      NothingDropped(c, past);
      if e == RtPushes {
        assert |Run(c, INITIAL, es[..|es| - 1]).ring| < RING_CAPACITY;
      }
      DropsOnlyWhenFull(c, Run(c, INITIAL, past), e);
    }
  }

  /** If the ring is never full at a push, the consumer gets samples 0, 1, 2, ... without a gap. */
  lemma GapFree(c: Config, es: seq<Event>)
    requires c.plan.Valid() && Legal(c, INITIAL, es) && NeverFullAtPush(c, es)
    ensures var s := Run(c, INITIAL, es);
            && s.dropped == []
            && forall j :: 0 <= j < |s.popped| ==> j + 1 < |s.clock| && s.popped[j] == MessageAt(c, s.clock, j)
  {
    var s := Run(c, INITIAL, es);
    NothingDropped(c, es);
    Conservation(c, es);
    hide Run, Legal, NeverFullAtPush, MessageAt;
    forall j | 0 <= j < |s.popped| ensures j + 1 < |s.clock| && s.popped[j] == MessageAt(c, s.clock, j) {
      IncreasingBelow(s.accepted, |s.accepted|, j);
      assert s.popped[j] == (s.popped + s.ring)[j];
    }
  }

  // ---------- Which messages are written ----------

  /** What the publisher sees of a step. */
  ghost function Seen(s: State, e: Event): seq<Happening<JointMsg>>
  {
    match e
    case MatchedChanges(change) => [Matched(change)]
    case DdsPublishes => if s.dds.DdsPublish? then [Happening.Publish(s.dds.msg)] else []
    case _ => []
  }

  /** What the publisher sees of a run. */
  ghost function Happenings(c: Config, es: seq<Event>): seq<Happening<JointMsg>>
    requires c.plan.Valid() && Legal(c, INITIAL, es)
  {
    if es == [] then []
    else Happenings(c, es[..|es| - 1]) + Seen(Run(c, INITIAL, es[..|es| - 1]), es[|es| - 1])
  }

  /** Popped messages, but for one that is still to be handed to `publish`. */
  ghost function Delivered(s: State): seq<JointMsg>
    requires s.dds.DdsPublish? ==> s.popped != []
  {
    if s.dds.DdsPublish? then s.popped[..|s.popped| - 1] else s.popped
  }

  /** The publisher of state s has seen hs. */
  ghost predicate HasSeen(c: Config, s: State, hs: seq<Happening<JointMsg>>)
  {
    && s.matched == ToI32(SumOfChanges(hs))
    && s.written == Samples(c.names, PublishedWhileOpen(hs))
    && (s.dds.DdsPublish? ==> s.popped != [] && s.dds.msg == s.popped[|s.popped| - 1])
    && Handed(hs) == Delivered(s)
  }

  lemma SeesMatch(c: Config, s: State, hs: seq<Happening<JointMsg>>, change: int)
    requires HasSeen(c, s, hs)
    ensures HasSeen(c, s.(matched := ToI32(s.matched + change)), hs + [Matched(change)])
  {
    HappeningStep(hs, Matched(change));
    HandedStep(hs, Matched(change));
    I32Add(SumOfChanges(hs), change);
    assert Handed(hs) + [] == Handed(hs);
    hide SumOfChanges, PublishedWhileOpen, Handed, Samples, ToI32;
  }

  lemma PublishEffect(c: Config, s: State)
    requires c.plan.Valid() && Enabled(s, DdsPublishes)
    ensures var s' := Apply(c, s, DdsPublishes);
            && s'.matched == s.matched && s'.popped == s.popped && !s'.dds.DdsPublish?
            && s'.written == s.written + if s.matched > 0 then [JointSample(c.names, s.dds.msg)] else []
  {
    hide JointSample, MessageAt, ToI32, ToU64;
  }

  lemma WritesIfOpen(names: seq<string>, hs: seq<Happening<JointMsg>>, matched: int, m: JointMsg)
    requires matched == ToI32(SumOfChanges(hs))
    ensures Samples(names, PublishedWhileOpen(hs + [Happening.Publish(m)]))
         == Samples(names, PublishedWhileOpen(hs)) + if matched > 0 then [JointSample(names, m)] else []
  {
    hide SumOfChanges, PublishedWhileOpen, Samples, ToI32, GateOpen, JointSample;
    HappeningStep(hs, Happening.Publish(m));
    GateStep(hs, matched);
    SamplesStep(names, PublishedWhileOpen(hs), m);
    assert Samples(names, PublishedWhileOpen(hs)) + [] == Samples(names, PublishedWhileOpen(hs));
  }

  lemma SumOfPublish(hs: seq<Happening<JointMsg>>, m: JointMsg)
    ensures SumOfChanges(hs + [Happening.Publish(m)]) == SumOfChanges(hs)
  {
    HappeningStep(hs, Happening.Publish(m));
    hide SumOfChanges, PublishedWhileOpen, GateOpen;
  }

  lemma DeliversLast(s: State, s': State, m: JointMsg)
    requires s.dds.DdsPublish? && s.popped != [] && m == s.popped[|s.popped| - 1]
    requires s'.popped == s.popped && !s'.dds.DdsPublish?
    ensures Delivered(s') == Delivered(s) + [m]
  {
  }

  lemma SeesPublish(c: Config, s: State, hs: seq<Happening<JointMsg>>)
    requires c.plan.Valid() && HasSeen(c, s, hs) && Enabled(s, DdsPublishes)
    ensures HasSeen(c, Apply(c, s, DdsPublishes), hs + [Happening.Publish(s.dds.msg)])
  {
    hide Apply, Delivered, Plan.Valid, SumOfChanges, PublishedWhileOpen, Handed, Samples, ToI32, GateOpen, JointSample;
    PublishEffect(c, s);
    var m, s' := s.dds.msg, Apply(c, s, DdsPublishes);
    DeliversLast(s, s', m);
    hide Enabled;
    WritesIfOpen(c.names, hs, s.matched, m);
    HandedStep(hs, Happening.Publish(m));
    SumOfPublish(hs, m);
  }

  lemma PopEffect(c: Config, s: State)
    requires c.plan.Valid() && Enabled(s, DdsPops)
    ensures var s' := Apply(c, s, DdsPops);
            && s'.matched == s.matched && s'.written == s.written
            && (if s'.dds.DdsPublish? then s'.popped == s.popped + [s'.dds.msg] else s'.popped == s.popped)
  {
    hide JointSample, MessageAt, ToI32, ToU64;
  }

  lemma OthersAreNotSeen(c: Config, s: State, e: Event)
    requires c.plan.Valid() && Enabled(s, e) && ThreadInv(s)
    requires !e.DdsPops? && !e.DdsPublishes? && !e.MatchedChanges?
    ensures var s' := Apply(c, s, e);
            s'.matched == s.matched && (s.dds.DdsPublish? ==> s'.dds == s.dds)
  {
    hide JointSample, MessageAt, ToI32, ToU64;
  }

  lemma SeesNothing(c: Config, s: State, e: Event, hs: seq<Happening<JointMsg>>)
    requires c.plan.Valid() && HasSeen(c, s, hs) && Enabled(s, e) && ThreadInv(s)
    requires !e.MatchedChanges? && !e.DdsPublishes?
    ensures HasSeen(c, Apply(c, s, e), hs)
  {
    hide Apply, SumOfChanges, PublishedWhileOpen, Handed, Samples, ToI32, ThreadInv;
    if e.DdsPops? {
      PopEffect(c, s);
      var s' := Apply(c, s, e);
      assert !s.dds.DdsPublish?;
      assert s'.dds.DdsPublish? ==> s'.popped[..|s'.popped| - 1] == s.popped;
    } else {
      hide Enabled;
      OthersDoNotWrite(c, s, e);
      OthersAreNotSeen(c, s, e);
    }
  }

  lemma SeesStep(c: Config, s: State, e: Event, hs: seq<Happening<JointMsg>>)
    requires c.plan.Valid() && HasSeen(c, s, hs) && Enabled(s, e) && Inv(c, s)
    ensures HasSeen(c, Apply(c, s, e), hs + Seen(s, e))
  {
    hide HasSeen, ClockInv, IndexInv, RingInv, WrittenInv, ThreadInv, MessageAt;
    if e.MatchedChanges? {
      SeesMatch(c, s, hs, e.change);
    } else if e.DdsPublishes? {
      SeesPublish(c, s, hs);
    } else {
      SeesNothing(c, s, e, hs);
      assert hs + [] == hs;
    }
  }

  lemma NothingSeen(c: Config)
    requires c.plan.Valid()
    ensures HasSeen(c, INITIAL, [])
  {
    SamplesEmpty(c.names);
    HappeningsEmpty<JointMsg>();
  }

  /** In every run exactly the messages handed over while the gate was open are written, and
      every popped message is handed over, in order. */
  lemma {:induction false} WrittenWhileOpen(c: Config, es: seq<Event>)
    requires c.plan.Valid() && Legal(c, INITIAL, es)
    ensures HasSeen(c, Run(c, INITIAL, es), Happenings(c, es))
  {
    hide HasSeen, Inv, Apply, Enabled, Seen;
    if es == [] {
      NothingSeen(c);
    } else {
      var past, e := es[..|es| - 1], es[|es| - 1];
      WrittenWhileOpen(c, past);
      InvInitially(c);
      InvAlways(c, INITIAL, past);
      SeesStep(c, Run(c, INITIAL, past), e, Happenings(c, past));
    }
  }

  // ---------- The samples written ----------

  /** Which sample of the producer the i-th written one is. */
  ghost function SampleIndex(c: Config, s: State, i: nat): nat
    requires c.plan.Valid() && Inv(c, s) && i < |s.written|
  {
    s.accepted[s.writtenAt[i]]
  }

  lemma WrittenSample(c: Config, s: State, i: nat)
    requires c.plan.Valid() && Inv(c, s) && i < |s.written|
    ensures var k := SampleIndex(c, s, i);
            k + 1 < |s.clock| && s.written[i] == JointSample(c.names, MessageAt(c, s.clock, k))
  {
    hide ClockInv, Partition, ThreadInv, MessageAt, JointSample;
    var w := s.writtenAt[i];
    assert s.popped[w] == (s.popped + s.ring)[w];
  }

  lemma SampleBounds(c: Config, s: State, i: nat)
    requires c.plan.Valid() && Inv(c, s) && i < |s.written|
    ensures s.writtenAt[i] < |s.accepted|
  {
    hide ClockInv, Partition, ThreadInv, MessageAt, JointSample;
  }

  lemma WrittenInOrder(c: Config, s: State, i: nat, j: nat)
    requires c.plan.Valid() && Inv(c, s) && i < j < |s.written|
    ensures SampleIndex(c, s, i) < SampleIndex(c, s, j)
  {
    hide ClockInv, RingInv, ThreadInv, MessageAt, JointSample;
    SampleBounds(c, s, i);
    SampleBounds(c, s, j);
  }

  ghost function StartSeconds(clock: seq<Timespec>): real
    requires clock != []
  {
    clock[0].Exact() as real / 1000000000.0
  }

  /** Seconds since the start of the motion at which sample k was taken. */
  ghost function Elapsed(clock: seq<Timespec>, k: nat): real
    requires k + 1 < |clock|
  {
    DiffSeconds(clock[k + 1], clock[0])
  }

  lemma ElapsedOrder(clock: seq<Timespec>, k: nat, l: nat)
    requires Ordered(clock) && k <= l && l + 1 < |clock|
    ensures 0.0 <= Elapsed(clock, k) <= Elapsed(clock, l)
  {
    DiffIsExact(clock[k + 1], clock[0]);
    DiffIsExact(clock[l + 1], clock[0]);
    hide DiffSeconds, Timespec.Exact;
    assert clock[0].Exact() <= clock[k + 1].Exact() <= clock[l + 1].Exact();
  }

  /** The stamp of sample k is the time it was taken, but for what the conversions lost. */
  lemma StampIsElapsed(c: Config, clock: seq<Timespec>, k: nat)
    requires c.plan.Valid() && k + 1 < |clock|
    ensures MessageAt(c, clock, k).header.stampNs == clock[k + 1].ToNs()
    ensures Split(clock[k + 1].ToNs()).Seconds() == StartSeconds(clock) + Elapsed(clock, k) - Lost(clock[k + 1])
  {
    var ts := clock[k + 1];
    assert MessageAt(c, clock, k).header.stampNs == ts.ToNs() by { hide Plan.Positions, Plan.Velocities; }
    DiffIsExact(ts, clock[0]);
    hide MessageAt, DiffSeconds, Timespec.Exact, Timespec.ToNs, Split, Lost, Stamp.Seconds;
    PublishedSeconds(ts);
    var x, y := ts.Exact(), clock[0].Exact();
    assert (x - y) as real == x as real - y as real;
  }

  /** What joint d shows in two samples written one after the other. */
  ghost predicate JointAdvances(plan: Plan, d: nat, a: JointState, b: JointState)
    requires plan.Valid() && d < |plan.home|
    requires |a.position| == |a.velocity| == |b.position| == |plan.home|
  {
    var q0, qf := plan.home[d], plan.goal[d];
    && (q0 <= qf ==> q0 <= a.position[d] <= b.position[d] <= qf)
    && (q0 >= qf ==> q0 >= a.position[d] >= b.position[d] >= qf)
    && (plan.duration > 0.0 ==> AbsDiff(0.0, a.velocity[d]) <= MaxSpeed(plan.kind, q0, qf, plan.duration))
  }

  lemma WrittenPair(c: Config, s: State, i: nat, j: nat)
    requires c.plan.Valid() && Inv(c, s) && i <= j < |s.written|
    ensures Ordered(s.clock)
    ensures var k, l := SampleIndex(c, s, i), SampleIndex(c, s, j);
            && k <= l && l + 1 < |s.clock|
            && s.written[i] == JointSample(c.names, MessageAt(c, s.clock, k))
            && s.written[j] == JointSample(c.names, MessageAt(c, s.clock, l))
  {
    WrittenSample(c, s, i);
    WrittenSample(c, s, j);
    if i < j {
      WrittenInOrder(c, s, i, j);
    }
    hide IndexInv, RingInv, WrittenInv, ThreadInv, SampleIndex, Ordered, MessageAt, JointSample;
  }

  lemma PairAdvances(c: Config, clock: seq<Timespec>, k: nat, l: nat, d: nat)
    requires c.plan.Valid() && Ordered(clock) && k <= l && l + 1 < |clock| && d < |c.plan.home|
    ensures var a, b := JointSample(c.names, MessageAt(c, clock, k)), JointSample(c.names, MessageAt(c, clock, l));
            && |a.position| == |a.velocity| == |a.effort| == |b.position| == |c.plan.home|
            && a.effort[d] == 0.0
            && a.position[d] == c.plan.Position(d, Elapsed(clock, k))
            && a.velocity[d] == c.plan.Velocity(d, Elapsed(clock, k))
            && b.position[d] == c.plan.Position(d, Elapsed(clock, l))
            && JointAdvances(c.plan, d, a, b)
  {
    ElapsedOrder(clock, k, l);
    hide Ordered, PositionAt, VelocityAt, MaxSpeed, DiffSeconds, Split;
    var q0, qf, T := c.plan.home[d], c.plan.goal[d], c.plan.duration;
    MovesMonotonically(c.plan.kind, q0, qf, T, Elapsed(clock, k), Elapsed(clock, l));
    if T > 0.0 {
      VelocityLimited(c.plan.kind, q0, qf, T, Elapsed(clock, k));
    }
  }

  /** In every simulation run, for any interleaving, clock, drops and subscribers, and any
      two written samples: names and lengths are the robot's, every joint has moved on from
      home towards its clamped goal and not beyond, no faster than its largest speed. */
  lemma SamplesAdvance(c: Config, es: seq<Event>, i: nat, j: nat, d: nat)
    requires c.plan.Valid() && Legal(c, INITIAL, es)
    requires i <= j < |Run(c, INITIAL, es).written| && d < |c.plan.home|
    ensures var a, b := Run(c, INITIAL, es).written[i], Run(c, INITIAL, es).written[j];
            && a.name == c.names && |a.position| == |a.velocity| == |a.effort| == |b.position| == |c.plan.home|
            && a.effort[d] == 0.0
            && JointAdvances(c.plan, d, a, b)
  {
    InvInitially(c);
    InvAlways(c, INITIAL, es);
    var s := Run(c, INITIAL, es);
    hide Run, Legal;
    WrittenPair(c, s, i, j);
    var k, l := SampleIndex(c, s, i), SampleIndex(c, s, j);
    hide Inv, SampleIndex, Ordered;
    PairAdvances(c, s.clock, k, l, d);
  }

  /** What samples a and b, the first taken so many seconds after the start and the second dt
      seconds later, show of joint d: it changed by at most its largest speed times dt, and in a
      it is at its goal, and then at rest, exactly from the duration on. */
  ghost predicate FollowsClock(plan: Plan, d: nat, a: JointState, b: JointState, since: real, dt: real)
    requires plan.Valid() && d < |plan.home|
    requires |a.position| == |a.velocity| == |b.position| == |plan.home|
  {
    var q0, qf, T := plan.home[d], plan.goal[d], plan.duration;
    && 0.0 <= since && 0.0 <= dt
    && (T > 0.0 ==> AbsDiff(a.position[d], b.position[d]) <= MaxSpeed(plan.kind, q0, qf, T) * dt)
    && (a.position[d] == qf <==> q0 == qf || since >= T)
    && (since >= T ==> a.velocity[d] == 0.0)
  }

  lemma PlanUnfolded(plan: Plan, d: nat, t: real)
    requires plan.Valid() && d < |plan.home|
    ensures plan.Position(d, t) == PositionAt(plan.kind, plan.home[d], plan.goal[d], plan.duration, t)
    ensures plan.Velocity(d, t) == VelocityAt(plan.kind, plan.home[d], plan.goal[d], plan.duration, t)
  {
    hide PositionAt, VelocityAt;
  }

  lemma PlanFollowsTime(plan: Plan, d: nat, s: real, t: real, dt: real)
    requires plan.Valid() && d < |plan.home| && 0.0 <= s <= t && dt == t - s
    ensures var q0, qf, T := plan.home[d], plan.goal[d], plan.duration;
            && T != 0.0
            && (T > 0.0 ==> AbsDiff(plan.Position(d, s), plan.Position(d, t)) <= Mul(MaxSpeed(plan.kind, q0, qf, T), dt))
            && (plan.Position(d, s) == qf <==> q0 == qf || s >= T)
            && (s >= T ==> plan.Velocity(d, s) == 0.0)
  {
    var q0, qf, T := plan.home[d], plan.goal[d], plan.duration;
    assert T != 0.0;
    hide *;
    PlanUnfolded(plan, d, s);
    PlanUnfolded(plan, d, t);
    ArrivesAtT(plan.kind, q0, qf, T, s);
    if T > 0.0 {
      SpeedLimitedFor(plan.kind, q0, qf, T, s, t, dt);
    }
  }

  lemma PairFollowsClock(c: Config, clock: seq<Timespec>, k: nat, l: nat, d: nat, dt: real)
    requires c.plan.Valid() && Ordered(clock) && k <= l && l + 1 < |clock| && d < |c.plan.home|
    requires dt == Elapsed(clock, l) - Elapsed(clock, k)
    ensures var q0, qf, T := c.plan.home[d], c.plan.goal[d], c.plan.duration;
            && (T > 0.0 ==> AbsDiff(c.plan.Position(d, Elapsed(clock, k)), c.plan.Position(d, Elapsed(clock, l)))
                            <= Mul(MaxSpeed(c.plan.kind, q0, qf, T), dt))
            && (c.plan.Position(d, Elapsed(clock, k)) == qf <==> q0 == qf || Elapsed(clock, k) >= T)
            && (Elapsed(clock, k) >= T ==> c.plan.Velocity(d, Elapsed(clock, k)) == 0.0)
  {
    assert c.plan.duration != 0.0;
    hide *;
    ElapsedOrder(clock, k, l);
    PlanFollowsTime(c.plan, d, Elapsed(clock, k), Elapsed(clock, l), dt);
  }

  lemma SamplesFollowClock(c: Config, clock: seq<Timespec>, k: nat, l: nat, d: nat, a: JointState, b: JointState,
                           since: real, dt: real)
    requires c.plan.Valid() && Ordered(clock) && k <= l && l + 1 < |clock| && d < |c.plan.home|
    requires a == JointSample(c.names, MessageAt(c, clock, k)) && b == JointSample(c.names, MessageAt(c, clock, l))
    requires since == Elapsed(clock, k) && dt == Elapsed(clock, l) - Elapsed(clock, k)
    ensures && |a.position| == |a.velocity| == |b.position| == |c.plan.home|
            && FollowsClock(c.plan, d, a, b, since, dt)
  {
    hide Ordered, MaxSpeed, Split, MessageAt, AbsDiff, JointAdvances, Elapsed, Plan.Position, Plan.Velocity;
    PairAdvances(c, clock, k, l, d);
    ElapsedOrder(clock, k, l);
    PairFollowsClock(c, clock, k, l, d, dt);
  }

  /** What the stamp of a sample taken at a clock reading says: the time since the start, less
      what the conversions lose, which is nothing if and only if the reading can be published. */
  ghost predicate StampTells(a: JointState, ts: Timespec, start: real, since: real)
  {
    && a.stamp == Split(ts.ToNs())
    && a.stamp.Seconds() == start + since - Lost(ts)
    && (a.stamp.Seconds() == start + since <==> Publishable(ts.Exact()))
  }

  lemma StampAlwaysTells(c: Config, clock: seq<Timespec>, k: nat, a: JointState)
    requires c.plan.Valid() && k + 1 < |clock| && a == JointSample(c.names, MessageAt(c, clock, k))
    ensures StampTells(a, clock[k + 1], StartSeconds(clock), Elapsed(clock, k))
  {
    StampIsElapsed(c, clock, k);
    NothingLost(clock[k + 1]);
    hide MessageAt, Split, Lost, LostNs, Elapsed, StartSeconds, Stamp.Seconds, Timespec.ToNs, Timespec.Exact, Publishable;
  }

  /** Samples a and b, taken as samples k and l of the producer: joint d follows the clock; each
      stamp is its clock reading but for what is lost; the stamps are in order if and only if
      the second reading lost no more than the time from the first; and two readings that can be
      published make joint d follow the stamps themselves. */
  ghost predicate StampsTell(c: Config, clock: seq<Timespec>, k: nat, l: nat, d: nat, a: JointState, b: JointState)
    requires c.plan.Valid() && d < |c.plan.home|
  {
    && k <= l && l + 1 < |clock|
    && |a.position| == |a.velocity| == |b.position| == |c.plan.home|
    && var ta, tb, start := clock[k + 1], clock[l + 1], StartSeconds(clock);
    && FollowsClock(c.plan, d, a, b, Elapsed(clock, k), Elapsed(clock, l) - Elapsed(clock, k))
    && StampTells(a, ta, start, Elapsed(clock, k)) && StampTells(b, tb, start, Elapsed(clock, l))
    && (a.stamp.AtMost(b.stamp) <==> LostNs(tb) - LostNs(ta) <= tb.Exact() - ta.Exact())
    && (Publishable(ta.Exact()) && Publishable(tb.Exact()) ==>
          && a.stamp.AtMost(b.stamp)
          && FollowsClock(c.plan, d, a, b, a.stamp.Seconds() - start, b.stamp.Seconds() - a.stamp.Seconds()))
  }

  lemma PublishableInOrder(ta: Timespec, tb: Timespec)
    requires Publishable(ta.Exact()) && Publishable(tb.Exact()) && ta.Exact() <= tb.Exact()
    ensures Split(ta.ToNs()).AtMost(Split(tb.ToNs()))
  {
    NothingLost(ta);
    NothingLost(tb);
    ReadingsInOrder(ta, tb);
    hide *;
  }

  lemma ReadingsOrdered(clock: seq<Timespec>, k: nat, l: nat)
    requires Ordered(clock) && k <= l && l + 1 < |clock|
    ensures clock[k + 1].Exact() <= clock[l + 1].Exact()
  {
    hide Timespec.Exact;
  }

  lemma StampsAlwaysTell(c: Config, clock: seq<Timespec>, k: nat, l: nat, d: nat, a: JointState, b: JointState)
    requires c.plan.Valid() && Ordered(clock) && k <= l && l + 1 < |clock| && d < |c.plan.home|
    requires a == JointSample(c.names, MessageAt(c, clock, k)) && b == JointSample(c.names, MessageAt(c, clock, l))
    ensures StampsTell(c, clock, k, l, d, a, b)
  {
    hide Ordered, MessageAt, JointSample, Lost, LostNs, FollowsClock, StartSeconds, Elapsed, Plan.Valid;
    hide Split, Stamp.Seconds, Stamp.AtMost, Timespec.ToNs, Timespec.Exact, Publishable;
    var ta, tb, start := clock[k + 1], clock[l + 1], StartSeconds(clock);
    SamplesFollowClock(c, clock, k, l, d, a, b, Elapsed(clock, k), Elapsed(clock, l) - Elapsed(clock, k));
    StampAlwaysTells(c, clock, k, a);
    StampAlwaysTells(c, clock, l, b);
    ReadingsInOrder(ta, tb);
    if Publishable(ta.Exact()) && Publishable(tb.Exact()) {
      ReadingsOrdered(clock, k, l);
      PublishableInOrder(ta, tb);
      SamplesFollowClock(c, clock, k, l, d, a, b, a.stamp.Seconds() - start, b.stamp.Seconds() - a.stamp.Seconds());
    }
  }

  /** In any run the stamps of the same two samples follow the clock. */
  lemma SamplesFollowStamps(c: Config, es: seq<Event>, i: nat, j: nat, d: nat)
    requires c.plan.Valid() && Legal(c, INITIAL, es)
    requires i <= j < |Run(c, INITIAL, es).written| && d < |c.plan.home|
    ensures var s := Run(c, INITIAL, es);
            && Inv(c, s)
            && StampsTell(c, s.clock, SampleIndex(c, s, i), SampleIndex(c, s, j), d, s.written[i], s.written[j])
  {
    hide *;
    InvInitially(c);
    InvAlways(c, INITIAL, es);
    var s := Run(c, INITIAL, es);
    WrittenPair(c, s, i, j);
    StampsAlwaysTell(c, s.clock, SampleIndex(c, s, i), SampleIndex(c, s, j), d, s.written[i], s.written[j]);
  }

  /** For a robot whose home is within limits, so is every sample written in any run. */
  lemma SamplesWithinLimits(robot: RobotModel, goal: seq<real>, kind: Kind, duration: real, es: seq<Event>, i: nat)
    requires robot.Shaped() && |goal| == robot.Dofs() && duration != 0.0 && robot.WithinLimits(robot.home)
    requires var c := Config(PlanFor(kind, robot, goal, duration), robot.jointNames);
             Legal(c, INITIAL, es) && i < |Run(c, INITIAL, es).written|
    ensures var c := Config(PlanFor(kind, robot, goal, duration), robot.jointNames);
            robot.WithinLimits(Run(c, INITIAL, es).written[i].position)
  {
    var c := Config(PlanFor(kind, robot, goal, duration), robot.jointNames);
    InvInitially(c);
    InvAlways(c, INITIAL, es);
    var s := Run(c, INITIAL, es);
    hide Run, Legal;
    WrittenSample(c, s, i);
    var k := SampleIndex(c, s, i);
    LimitsRespected(kind, robot, goal, duration);
    hide Inv, SampleIndex, RobotModel.WithinLimits, PlanFor, Plan.Positions, Split;
    assert s.written[i].position == c.plan.Positions(Elapsed(s.clock, k));
  }

  /** For a goal within limits, a sample shows exactly the goal from the duration on. */
  lemma SamplesHoldGoal(robot: RobotModel, goal: seq<real>, kind: Kind, duration: real, es: seq<Event>, i: nat)
    requires robot.Shaped() && |goal| == robot.Dofs() && duration != 0.0 && robot.WithinLimits(goal)
    requires var c := Config(PlanFor(kind, robot, goal, duration), robot.jointNames);
             Legal(c, INITIAL, es) && i < |Run(c, INITIAL, es).written|
    ensures var c := Config(PlanFor(kind, robot, goal, duration), robot.jointNames);
            var s := Run(c, INITIAL, es);
            && Inv(c, s)
            && var k := SampleIndex(c, s, i);
            && k + 1 < |s.clock|
            && (Elapsed(s.clock, k) >= duration ==> s.written[i].position == goal)
  {
    var c := Config(PlanFor(kind, robot, goal, duration), robot.jointNames);
    InvInitially(c);
    InvAlways(c, INITIAL, es);
    var s := Run(c, INITIAL, es);
    hide Run, Legal;
    WrittenSample(c, s, i);
    var k := SampleIndex(c, s, i);
    WrittenPair(c, s, i, i);
    hide Inv, SampleIndex, RobotModel.WithinLimits, PlanFor, Plan.Positions, Split, Ordered;
    assert s.written[i].position == c.plan.Positions(Elapsed(s.clock, k));
    ElapsedOrder(s.clock, k, k);
    if Elapsed(s.clock, k) >= duration {
      GoalHeld(kind, robot, goal, duration, Elapsed(s.clock, k));
    }
  }

  /** The configuration the simulation client ships with. */
  ghost function Shipped(robot: RobotModel, goal: seq<real>): (c: Config)
    requires robot.Shaped() && |goal| == robot.Dofs()
    ensures c.plan.Valid()
  {
    Config(PlanFor(QuinticKind, robot, goal, DURATION), robot.jointNames)
  }

  ghost function OnTheWay(q0: real, qf: real, u: real): real
  {
    q0 + Mul(qf - q0, 10.0 * (u * u * u) - 15.0 * (u * u * u * u) + 6.0 * (u * u * u * u * u))
  }

  ghost predicate AllOnTheWay(plan: Plan, w: JointState, u: real)
    requires plan.Valid()
  {
    && |w.position| == |plan.home|
    && forall d :: 0 <= d < |plan.home| ==> w.position[d] == OnTheWay(plan.home[d], plan.goal[d], u)
  }

  /** A sample taken so many seconds after the start is within limits; for the first five
      seconds it is on the polynomial of `QuinticFormula` from home to the goal, and from then on
      it is the goal. */
  ghost predicate ShownAt(robot: RobotModel, goal: seq<real>, w: JointState, seconds: real)
    requires robot.Shaped() && |goal| == robot.Dofs()
  {
    && robot.WithinLimits(w.position)
    && (seconds >= 5.0 ==> w.position == goal)
    && (seconds <= 5.0 ==> AllOnTheWay(Plan(QuinticKind, robot.home, goal, 5.0), w, seconds / 5.0))
  }

  /** Sample i of a run shows what its clock reading asks for. */
  ghost predicate ShippedSample(robot: RobotModel, goal: seq<real>, es: seq<Event>, i: nat)
    requires robot.Shaped() && |goal| == robot.Dofs()
    requires Legal(Shipped(robot, goal), INITIAL, es) && i < |Run(Shipped(robot, goal), INITIAL, es).written|
  {
    var c := Shipped(robot, goal);
    var s := Run(c, INITIAL, es);
    && Inv(c, s)
    && var k := SampleIndex(c, s, i);
    && k + 1 < |s.clock|
    && ShownAt(robot, goal, s.written[i], Elapsed(s.clock, k))
  }

  lemma OnTheWayIs(q0: real, qf: real, t: real)
    requires 0.0 <= t <= 5.0
    ensures PositionAt(QuinticKind, q0, qf, 5.0, t) == OnTheWay(q0, qf, t / 5.0)
  {
    QuinticFormula(q0, qf, 5.0, t, t / 5.0);
    hide PositionAt, VelocityAt, Mul;
  }

  lemma ShippedPlan(robot: RobotModel, goal: seq<real>)
    requires robot.Shaped() && |goal| == robot.Dofs() && robot.WithinLimits(goal)
    ensures Shipped(robot, goal).plan == Plan(QuinticKind, robot.home, goal, 5.0)
  {
  }

  lemma JointOnTheWay(c: Config, clock: seq<Timespec>, k: nat, d: nat, w: JointState)
    requires c.plan.Valid() && Ordered(clock) && k + 1 < |clock| && d < |c.plan.home|
    requires c.plan.kind == QuinticKind && c.plan.duration == 5.0
    requires w == JointSample(c.names, MessageAt(c, clock, k)) && Elapsed(clock, k) <= 5.0
    ensures |w.position| == |c.plan.home|
    ensures w.position[d] == OnTheWay(c.plan.home[d], c.plan.goal[d], Elapsed(clock, k) / 5.0)
  {
    assert d < |c.plan.goal|;
    hide *;
    ElapsedOrder(clock, k, k);
    PairAdvances(c, clock, k, k, d);
    PlanUnfolded(c.plan, d, Elapsed(clock, k));
    OnTheWayIs(c.plan.home[d], c.plan.goal[d], Elapsed(clock, k));
  }

  lemma PositionsShaped(c: Config, clock: seq<Timespec>, k: nat)
    requires c.plan.Valid() && k + 1 < |clock|
    ensures |JointSample(c.names, MessageAt(c, clock, k)).position| == |c.plan.home|
  {
    hide Plan.Position, Plan.Velocity, Split;
  }

  lemma SampleOnTheWay(c: Config, clock: seq<Timespec>, k: nat, w: JointState)
    requires c.plan.Valid() && Ordered(clock) && k + 1 < |clock|
    requires c.plan.kind == QuinticKind && c.plan.duration == 5.0
    requires w == JointSample(c.names, MessageAt(c, clock, k)) && Elapsed(clock, k) <= 5.0
    ensures AllOnTheWay(c.plan, w, Elapsed(clock, k) / 5.0)
  {
    assert |c.plan.home| == |c.plan.goal|;
    hide Ordered, MessageAt, JointSample, Elapsed, OnTheWay, Plan.Valid;
    PositionsShaped(c, clock, k);
    forall d | 0 <= d < |c.plan.home|
      ensures w.position[d] == OnTheWay(c.plan.home[d], c.plan.goal[d], Elapsed(clock, k) / 5.0)
    {
      JointOnTheWay(c, clock, k, d, w);
    }
  }

  lemma SamplesOnTheWay(robot: RobotModel, goal: seq<real>, es: seq<Event>, i: nat)
    requires robot.Shaped() && |goal| == robot.Dofs() && robot.WithinLimits(goal)
    requires Legal(Shipped(robot, goal), INITIAL, es) && i < |Run(Shipped(robot, goal), INITIAL, es).written|
    ensures var c := Shipped(robot, goal);
            var s := Run(c, INITIAL, es);
            && Inv(c, s)
            && var k := SampleIndex(c, s, i);
            && k + 1 < |s.clock|
            && (Elapsed(s.clock, k) <= 5.0 ==> AllOnTheWay(c.plan, s.written[i], Elapsed(s.clock, k) / 5.0))
  {
    hide *;
    var c := Shipped(robot, goal);
    InvInitially(c);
    InvAlways(c, INITIAL, es);
    var s := Run(c, INITIAL, es);
    WrittenPair(c, s, i, i);
    ShippedPlan(robot, goal);
    var k := SampleIndex(c, s, i);
    if Elapsed(s.clock, k) <= 5.0 {
      SampleOnTheWay(c, s.clock, k, s.written[i]);
    }
  }

  lemma ShippedIs(robot: RobotModel, goal: seq<real>)
    requires robot.Shaped() && |goal| == robot.Dofs()
    ensures Shipped(robot, goal) == Config(PlanFor(QuinticKind, robot, goal, 5.0), robot.jointNames)
  {
    hide PlanFor;
  }

  lemma ShownAtAll(robot: RobotModel, goal: seq<real>, w: JointState, seconds: real)
    requires robot.Shaped() && |goal| == robot.Dofs() && robot.WithinLimits(w.position)
    requires seconds >= 5.0 ==> w.position == goal
    requires seconds <= 5.0 ==> AllOnTheWay(Plan(QuinticKind, robot.home, goal, 5.0), w, seconds / 5.0)
    ensures ShownAt(robot, goal, w, seconds)
  {
    hide AllOnTheWay, RobotModel.WithinLimits;
  }

  lemma ShippedRobot(robot: RobotModel, goal: seq<real>, es: seq<Event>, i: nat)
    requires robot.Shaped() && |goal| == robot.Dofs() && robot.WithinLimits(robot.home) && robot.WithinLimits(goal)
    requires Legal(Shipped(robot, goal), INITIAL, es) && i < |Run(Shipped(robot, goal), INITIAL, es).written|
    ensures var c := Shipped(robot, goal);
            var s := Run(c, INITIAL, es);
            && Inv(c, s)
            && var k := SampleIndex(c, s, i);
            && k + 1 < |s.clock|
            && ShownAt(robot, goal, s.written[i], Elapsed(s.clock, k))
  {
    hide *;
    ShippedIs(robot, goal);
    ShippedPlan(robot, goal);
    SamplesWithinLimits(robot, goal, QuinticKind, 5.0, es, i);
    SamplesHoldGoal(robot, goal, QuinticKind, 5.0, es, i);
    SamplesOnTheWay(robot, goal, es, i);
    var c := Shipped(robot, goal);
    var s := Run(c, INITIAL, es);
    ShownAtAll(robot, goal, s.written[i], Elapsed(s.clock, SampleIndex(c, s, i)));
  }

  /** In every run with the shipped goals, every sample spot or ur5 writes is within its joint
      limits, shows the polynomial from home to the goal during the first five seconds, and the
      goal from then on. */
  lemma ShippedSamples(es: seq<Event>, i: nat)
    ensures SPOT.Shaped() && |SPOT_GOAL| == SPOT.Dofs() && UR5.Shaped() && |UR5_GOAL| == UR5.Dofs()
    ensures Legal(Shipped(SPOT, SPOT_GOAL), INITIAL, es) && i < |Run(Shipped(SPOT, SPOT_GOAL), INITIAL, es).written| ==>
              ShippedSample(SPOT, SPOT_GOAL, es, i)
    ensures Legal(Shipped(UR5, UR5_GOAL), INITIAL, es) && i < |Run(Shipped(UR5, UR5_GOAL), INITIAL, es).written| ==>
              ShippedSample(UR5, UR5_GOAL, es, i)
  {
    TablesWithinLimits();
    hide Shipped, Run, Legal, Inv, SampleIndex, RobotModel.WithinLimits, ShownAt, Elapsed;
    if Legal(Shipped(SPOT, SPOT_GOAL), INITIAL, es) && i < |Run(Shipped(SPOT, SPOT_GOAL), INITIAL, es).written| {
      ShippedRobot(SPOT, SPOT_GOAL, es, i);
    }
    if Legal(Shipped(UR5, UR5_GOAL), INITIAL, es) && i < |Run(Shipped(UR5, UR5_GOAL), INITIAL, es).written| {
      ShippedRobot(UR5, UR5_GOAL, es, i);
    }
  }
}
