/** Simulation mode as a step system: the real-time producer, the DDS consumer, the main
    thread that starts and joins them, the subscribers and the signal handler interleave
    arbitrarily.  A step is what a thread does between two accesses to shared state. */
module SimPipeline {
  import opened MachineIntegers
  import opened Timestamps
  import opened Messages
  import opened DdsEntities
  import opened TrajectoryGenerators

  const RING_CAPACITY: nat := 8

  datatype Config = Config(plan: Plan, names: seq<string>)

  datatype MainPc = SpawnDds | SpawnRt | JoinRt | JoinDds(code: int) | Exited(code: int)

  datatype RtPc = RtNotStarted | RtStart | RtGuard | RtSample | RtPush(msg: JointMsg) | RtSleep | RtDone

  /** `DdsRelease`: the publisher goes out of scope and releases its entities. */
  datatype DdsPc = DdsNotStarted | DdsInit | DdsGuard | DdsPop | DdsPublish(msg: JointMsg) | DdsIdle | DdsRelease | DdsDone

  /** The program state, with a history: all monotonic clock readings of the producer (the
      first is the start of the motion), which samples the ring accepted and dropped, what
      was popped, and which of the popped messages were written. */
  datatype State = State(
    running: bool, main: MainPc, rt: RtPc, dds: DdsPc,
    ring: seq<JointMsg>, nextSeq: nat, matched: int, written: seq<JointState>,
    clock: seq<Timespec>, accepted: seq<nat>, dropped: seq<nat>, popped: seq<JointMsg>, writtenAt: seq<nat>)
  {
    /** How many samples the producer has taken, and how many pushes it has attempted. */
    function Taken(): nat { if clock == [] then 0 else |clock| - 1 }

    function Attempted(): nat { if rt.RtPush? && clock != [] && |clock| > 1 then |clock| - 2 else Taken() }
  }

  datatype Event =
    | SpawnedDds(ok: bool) | SpawnedRt(ok: bool) | JoinedRt | JoinedDds
    | RtStarts(ts: Timespec) | RtChecks | RtSamples(ts: Timespec) | RtPushes | RtSleeps
    | DdsInits(o: Outcome) | DdsChecks | DdsPops | DdsPublishes | DdsIdles | DdsReleases
    | MatchedChanges(change: int) | Signal

  const INITIAL := State(true, SpawnDds, RtNotStarted, DdsNotStarted, [], 0, 0, [], [], [], [], [], [])

  /** The message of sample k. */
  ghost function MessageAt(c: Config, clock: seq<Timespec>, k: nat): JointMsg
    requires c.plan.Valid() && k + 1 < |clock|
  {
    var t := DiffSeconds(clock[k + 1], clock[0]);
    JointMsg(Header(ToU64(k), clock[k + 1].ToNs()), c.plan.Positions(t), c.plan.Velocities(t),
             seq(|c.plan.home|, _ => 0.0))
  }

  ghost predicate ClockAllows(clock: seq<Timespec>, ts: Timespec)
  {
    ts.Normalised() && (clock == [] || clock[|clock| - 1].Exact() <= ts.Exact())
  }

  ghost predicate Enabled(s: State, e: Event)
  {
    match e
    case SpawnedDds(_) => s.main == SpawnDds
    case SpawnedRt(_) => s.main == SpawnRt
    case JoinedRt => s.main == JoinRt && s.rt == RtDone
    case JoinedDds => s.main.JoinDds? && s.dds == DdsDone
    case RtStarts(ts) => s.rt == RtStart && ClockAllows(s.clock, ts)
    case RtChecks => s.rt == RtGuard
    case RtSamples(ts) => s.rt == RtSample && s.clock != [] && ClockAllows(s.clock, ts)
    case RtPushes => s.rt.RtPush?
    case RtSleeps => s.rt == RtSleep
    case DdsInits(_) => s.dds == DdsInit
    case DdsChecks => s.dds == DdsGuard
    case DdsPops => s.dds == DdsPop
    case DdsPublishes => s.dds.DdsPublish? && s.popped != []
    case DdsIdles => s.dds == DdsIdle
    case DdsReleases => s.dds == DdsRelease
    case MatchedChanges(_) => true
    case Signal => true
  }

  /** Starting and joining threads: a failed start ends the program, the second one only
      after stopping and joining the first thread. */
  function MainStep(s: State, e: Event): State
  {
    match e
    case SpawnedDds(ok) => if ok then s.(main := SpawnRt, dds := DdsInit) else s.(main := Exited(1))
    case SpawnedRt(ok) => if ok then s.(main := JoinRt, rt := RtStart) else s.(main := JoinDds(1), running := false)
    case JoinedRt => s.(main := JoinDds(0))
    case JoinedDds => s.(main := Exited(if s.main.JoinDds? then s.main.code else 0))
    case _ => s
  }

  ghost function RtStep(c: Config, s: State, e: Event): State
    requires c.plan.Valid() && Enabled(s, e)
  {
    match e
    case RtStarts(ts) => s.(clock := [ts], rt := RtGuard)
    case RtChecks => s.(rt := if s.running then RtSample else RtDone)
    case RtSamples(ts) =>
      var clock := s.clock + [ts];
      var msg := MessageAt(c, clock, |clock| - 2);
      s.(clock := clock, nextSeq := ToU64(s.nextSeq + 1), rt := RtPush(msg.(header := msg.header.(seq_ := s.nextSeq))))
    case RtPushes =>
      if |s.ring| < RING_CAPACITY
      then s.(ring := s.ring + [s.rt.msg], accepted := s.accepted + [s.Attempted()], rt := RtSleep)
      else s.(dropped := s.dropped + [s.Attempted()], rt := RtSleep)
    case RtSleeps => s.(rt := RtGuard)
    case _ => s
  }

  function DdsStep(c: Config, s: State, e: Event): State
    requires Enabled(s, e)
  {
    match e
    case DdsInits(o) => if o.Succeeds() then s.(dds := DdsGuard) else s.(dds := DdsRelease, running := false)
    case DdsChecks => s.(dds := if s.running then DdsPop else DdsRelease)
    case DdsPops =>
      if s.ring == [] then s.(dds := DdsIdle)
      else s.(dds := DdsPublish(s.ring[0]), ring := s.ring[1..], popped := s.popped + [s.ring[0]])
    case DdsPublishes =>
      if s.matched > 0
      then s.(written := s.written + [JointSample(c.names, s.dds.msg)], writtenAt := s.writtenAt + [|s.popped| - 1], dds := DdsGuard)
      else s.(dds := DdsGuard)
    case DdsIdles => s.(dds := DdsGuard)
    case DdsReleases => s.(dds := DdsDone)
    case _ => s
  }

  ghost function Apply(c: Config, s: State, e: Event): State
    requires c.plan.Valid() && Enabled(s, e)
  {
    match e
    case MatchedChanges(change) => s.(matched := ToI32(s.matched + change))
    case Signal => s.(running := false)
    case _ =>
      if e.SpawnedDds? || e.SpawnedRt? || e.JoinedRt? || e.JoinedDds? then MainStep(s, e)
      else if e.RtStarts? || e.RtChecks? || e.RtSamples? || e.RtPushes? || e.RtSleeps? then RtStep(c, s, e)
      else DdsStep(c, s, e)
  }

  // ---------- Runs ----------

  ghost predicate Legal(c: Config, s: State, es: seq<Event>)
    requires c.plan.Valid()
    decreases |es|, 0
  {
    es != [] ==> Legal(c, s, es[..|es| - 1]) && Enabled(Run(c, s, es[..|es| - 1]), es[|es| - 1])
  }

  ghost function Run(c: Config, s: State, es: seq<Event>): State
    requires c.plan.Valid() && Legal(c, s, es)
    decreases |es|, 1
  {
    if es == [] then s else Apply(c, Run(c, s, es[..|es| - 1]), es[|es| - 1])
  }

  // ---------- The invariant ----------

  ghost predicate Ordered(clock: seq<Timespec>)
  {
    && (forall i :: 0 <= i < |clock| ==> clock[i].Normalised())
    && forall i, j :: 0 <= i <= j < |clock| ==> clock[i].Exact() <= clock[j].Exact()
  }

  ghost predicate Increasing(xs: seq<nat>)
  {
    forall i, j :: 0 <= i < j < |xs| ==> xs[i] < xs[j]
  }

  /** Clock, numbering and the message about to be pushed. */
  ghost predicate ClockInv(c: Config, s: State)
    requires c.plan.Valid()
  {
    && Ordered(s.clock)
    && (s.clock == [] <==> s.rt.RtNotStarted? || s.rt.RtStart?)
    && s.nextSeq == ToU64(s.Taken())
    && (s.rt.RtPush? ==> |s.clock| > 1 && s.rt.msg == MessageAt(c, s.clock, |s.clock| - 2))
  }

  /** xs and ys are increasing and split the numbers below n between them. */
  ghost predicate Partition(xs: seq<nat>, ys: seq<nat>, n: nat)
  {
    && Increasing(xs) && Increasing(ys)
    && (forall k :: k in xs || k in ys ==> k < n)
    && (forall k: nat :: k < n ==> (k in xs <==> k !in ys))
    && |xs| + |ys| == n
  }

  /** Every attempted sample was either accepted or dropped. */
  ghost predicate IndexInv(s: State)
  {
    Partition(s.accepted, s.dropped, s.Attempted())
  }

  /** The popped messages followed by those in the ring are the accepted ones, in order. */
  ghost predicate RingInv(c: Config, s: State)
    requires c.plan.Valid()
  {
    && |s.ring| <= RING_CAPACITY
    && |s.popped| + |s.ring| == |s.accepted|
    && forall j :: 0 <= j < |s.accepted| ==>
         s.accepted[j] + 1 < |s.clock| && (s.popped + s.ring)[j] == MessageAt(c, s.clock, s.accepted[j])
  }

  /** What was written are popped messages, in order, none twice. */
  ghost predicate WrittenInv(c: Config, s: State)
  {
    && (s.dds.DdsPublish? ==> s.popped != [] && s.dds.msg == s.popped[|s.popped| - 1])
    && |s.written| == |s.writtenAt| && Increasing(s.writtenAt)
    && forall i :: 0 <= i < |s.written| ==>
         s.writtenAt[i] < |s.popped| - (if s.dds.DdsPublish? then 1 else 0)
         && s.written[i] == JointSample(c.names, s.popped[s.writtenAt[i]])
  }

  /** Threads run only between their start and their join, and leave only when stopped. */
  ghost predicate ThreadInv(s: State)
  {
    && (s.rt == RtDone || s.dds == DdsRelease || s.dds == DdsDone || s.main.JoinDds? ==> !s.running)
    && match s.main
       case SpawnDds => s.rt == RtNotStarted && s.dds == DdsNotStarted
       case SpawnRt => s.rt == RtNotStarted && s.dds != DdsNotStarted
       case JoinRt => s.rt != RtNotStarted && s.dds != DdsNotStarted
       case JoinDds(_) => (s.rt == RtNotStarted || s.rt == RtDone) && s.dds != DdsNotStarted
       case Exited(_) => (s.rt == RtNotStarted || s.rt == RtDone) && (s.dds == DdsNotStarted || s.dds == DdsDone)
  }

  ghost predicate Inv(c: Config, s: State)
    requires c.plan.Valid()
  {
    ClockInv(c, s) && IndexInv(s) && RingInv(c, s) && WrittenInv(c, s) && ThreadInv(s)
  }

  lemma OrderedExtends(clock: seq<Timespec>, ts: Timespec)
    requires Ordered(clock) && ClockAllows(clock, ts)
    ensures Ordered(clock + [ts])
  {
  }

  lemma MessageStays(c: Config, clock: seq<Timespec>, ts: Timespec, k: nat)
    requires c.plan.Valid() && k + 1 < |clock|
    ensures MessageAt(c, clock + [ts], k) == MessageAt(c, clock, k)
  {
  }

  lemma OrderedEmpty()
    ensures Ordered([])
  {
  }

  lemma MessageHeader(c: Config, clock: seq<Timespec>, k: nat)
    requires c.plan.Valid() && k + 1 < |clock|
    ensures MessageAt(c, clock, k).header.seq_ == ToU64(k)
  {
  }

  lemma OthersKeepClock(c: Config, s: State, e: Event)
    requires c.plan.Valid() && Enabled(s, e) && ThreadInv(s) && !e.RtStarts? && !e.RtSamples?
    ensures var s' := Apply(c, s, e);
            && s'.clock == s.clock && s'.nextSeq == s.nextSeq
            && ((s'.rt.RtNotStarted? || s'.rt.RtStart?) <==> (s.rt.RtNotStarted? || s.rt.RtStart?))
            && (s'.rt.RtPush? ==> s'.rt == s.rt)
  {
    hide MessageAt, ToI32, ToU64;
  }

  lemma ClockKept(c: Config, s: State, e: Event)
    requires c.plan.Valid() && Inv(c, s) && Enabled(s, e)
    ensures ClockInv(c, Apply(c, s, e))
  {
    hide Ordered, IndexInv, RingInv, WrittenInv, ThreadInv, MessageAt, ToI32, ToU64;
    match e {
      case RtStarts(ts) =>
        OrderedEmpty();
        OrderedExtends([], ts);
        assert [] + [ts] == [ts];
        U64Zero();
      case RtSamples(ts) =>
        OrderedExtends(s.clock, ts);
        U64Next(s.Taken());
        MessageHeader(c, s.clock + [ts], |s.clock| - 1);
      case _ =>
        OthersKeepClock(c, s, e);
        hide Apply, Enabled;
    }
  }

  lemma PartitionGrows(xs: seq<nat>, ys: seq<nat>, n: nat)
    requires Partition(xs, ys, n)
    ensures Partition(xs + [n], ys, n + 1) && Partition(xs, ys + [n], n + 1)
  {
    assert forall x :: x in xs + [n] <==> x in xs || x == n;
    assert forall y :: y in ys + [n] <==> y in ys || y == n;
    assert forall i :: 0 <= i < |xs| ==> xs[i] in xs;
    assert forall i :: 0 <= i < |ys| ==> ys[i] in ys;
  }

  lemma IndexKept(c: Config, s: State, e: Event)
    requires c.plan.Valid() && Inv(c, s) && Enabled(s, e)
    ensures IndexInv(Apply(c, s, e))
  {
    hide Ordered, RingInv, WrittenInv, MessageAt, ToI32, ToU64, Partition;
    match e {
      case RtPushes =>
        assert Apply(c, s, e).Attempted() == s.Attempted() + 1;
        PartitionGrows(s.accepted, s.dropped, s.Attempted());
      case _ =>
    }
  }

  lemma OthersKeepRing(c: Config, s: State, e: Event)
    requires c.plan.Valid() && Enabled(s, e) && !e.RtStarts? && !e.RtSamples? && !e.RtPushes? && !e.DdsPops?
    ensures var s' := Apply(c, s, e);
            s'.clock == s.clock && s'.accepted == s.accepted && s'.popped == s.popped && s'.ring == s.ring
  {
    hide MessageAt, ToI32, ToU64;
  }

  lemma RingKept(c: Config, s: State, e: Event)
    requires c.plan.Valid() && Inv(c, s) && Enabled(s, e)
    ensures RingInv(c, Apply(c, s, e))
  {
    hide Ordered, IndexInv, WrittenInv, ThreadInv, MessageAt, ToI32, ToU64;
    var s' := Apply(c, s, e);
    match e {
      case RtStarts(_) =>
      case RtSamples(ts) =>
        forall j | 0 <= j < |s.accepted| ensures MessageAt(c, s'.clock, s.accepted[j]) == MessageAt(c, s.clock, s.accepted[j]) {
          MessageStays(c, s.clock, ts, s.accepted[j]);
        }
      case RtPushes =>
        if |s.ring| < RING_CAPACITY {
          assert s'.popped + s'.ring == (s.popped + s.ring) + [s.rt.msg];
        }
      case DdsPops =>
        assert s'.popped + s'.ring == s.popped + s.ring;
      case _ =>
        OthersKeepRing(c, s, e);
        hide Apply, Enabled, ClockInv;
    }
  }

  lemma OthersDoNotWrite(c: Config, s: State, e: Event)
    requires c.plan.Valid() && Enabled(s, e) && !e.DdsPops? && !e.DdsPublishes?
    ensures var s' := Apply(c, s, e);
            && s'.written == s.written && s'.writtenAt == s.writtenAt && s'.popped == s.popped
            && (s'.dds.DdsPublish? ==> s'.dds == s.dds)
  {
    hide MessageAt, ToI32, ToU64, JointSample;
  }

  lemma WrittenKept(c: Config, s: State, e: Event)
    requires c.plan.Valid() && Inv(c, s) && Enabled(s, e)
    ensures WrittenInv(c, Apply(c, s, e))
  {
    hide ClockInv, IndexInv, RingInv, ThreadInv, MessageAt, ToI32, ToU64, JointSample;
    if e.DdsPops? || e.DdsPublishes? {
      assert Apply(c, s, e) == DdsStep(c, s, e);
      hide Apply;
    } else {
      OthersDoNotWrite(c, s, e);
      hide Apply, Enabled;
    }
  }

  lemma ThreadsKept(c: Config, s: State, e: Event)
    requires c.plan.Valid() && Inv(c, s) && Enabled(s, e)
    ensures ThreadInv(Apply(c, s, e))
  {
    hide ClockInv, IndexInv, RingInv, WrittenInv, MessageAt, ToI32, ToU64;
  }

  lemma InvKept(c: Config, s: State, e: Event)
    requires c.plan.Valid() && Inv(c, s) && Enabled(s, e)
    ensures Inv(c, Apply(c, s, e))
  {
    ClockKept(c, s, e);
    IndexKept(c, s, e);
    RingKept(c, s, e);
    WrittenKept(c, s, e);
    ThreadsKept(c, s, e);
    hide *;
  }

  lemma InvInitially(c: Config)
    requires c.plan.Valid()
    ensures Inv(c, INITIAL)
  {
  }

  /** The invariant holds in every reachable state. */
  lemma {:induction false} InvAlways(c: Config, s: State, es: seq<Event>)
    requires c.plan.Valid() && Inv(c, s) && Legal(c, s, es)
    ensures Inv(c, Run(c, s, es))
  {
    hide Inv, Apply, Enabled;
    if es == [] {
    } else {
      InvAlways(c, s, es[..|es| - 1]);
      InvKept(c, Run(c, s, es[..|es| - 1]), es[|es| - 1]);
    }
  }
}
