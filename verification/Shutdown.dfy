/** Stopping a simulation run: both loops finish their current iteration and are joined. */
module Shutdown {
  import opened Timestamps
  import opened DdsEntities
  import opened SimPipeline

  /** Steps of the three threads, as opposed to the subscribers and the signal handler. */
  predicate ThreadStep(e: Event)
  {
    !e.MatchedChanges? && !e.Signal?
  }

  /** How many steps the threads still take once stopped. */
  function RankMain(m: MainPc): nat
  {
    match m
    case SpawnDds => 9
    case SpawnRt => 5
    case JoinRt => 2
    case JoinDds(_) => 1
    case Exited(_) => 0
  }

  function RankRt(p: RtPc): nat
  {
    match p
    case RtNotStarted => 0
    case RtStart => 2
    case RtGuard => 1
    case RtSample => 4
    case RtPush(_) => 3
    case RtSleep => 2
    case RtDone => 0
  }

  function RankDds(p: DdsPc): nat
  {
    match p
    case DdsNotStarted => 0
    case DdsInit => 3
    case DdsGuard => 2
    case DdsPop => 4
    case DdsPublish(_) => 3
    case DdsIdle => 3
    case DdsRelease => 1
    case DdsDone => 0
  }

  function Rank(s: State): nat
  {
    RankMain(s.main) + RankRt(s.rt) + RankDds(s.dds)
  }

  /** Whether the producer may still push, and the consumer still publish, once. */
  function PushesLeft(s: State): nat { if s.rt.RtSample? || s.rt.RtPush? then 1 else 0 }

  function PublishesLeft(s: State): nat { if s.dds.DdsPop? || s.dds.DdsPublish? then 1 else 0 }

  /** `g_running` never becomes true again. */
  lemma StaysStopped(c: Config, s: State, e: Event)
    requires c.plan.Valid() && Enabled(s, e) && !s.running
    ensures !Apply(c, s, e).running
  {
    hide MessageAt;
  }

  lemma StepDown(c: Config, s: State, e: Event)
    requires c.plan.Valid() && Enabled(s, e) && !s.running && ThreadInv(s)
    ensures var s' := Apply(c, s, e);
            && Rank(s') + (if ThreadStep(e) then 1 else 0) <= Rank(s)
            && PushesLeft(s') + (if e.RtPushes? then 1 else 0) <= PushesLeft(s)
            && PublishesLeft(s') + (if e.DdsPublishes? then 1 else 0) <= PublishesLeft(s)
  {
    hide MessageAt;
  }

  ghost function Count(es: seq<Event>, p: Event -> bool): nat
  {
    if es == [] then 0 else Count(es[..|es| - 1], p) + if p(es[|es| - 1]) then 1 else 0
  }

  lemma ThreadsIn(c: Config, s: State)
    requires c.plan.Valid() && Inv(c, s)
    ensures ThreadInv(s)
  {
    hide ClockInv, IndexInv, RingInv, WrittenInv, ThreadInv;
  }

  lemma RankBound(c: Config, s: State)
    requires c.plan.Valid() && Inv(c, s)
    ensures Rank(s) <= 10 && PushesLeft(s) <= 1 && PublishesLeft(s) <= 1
  {
    hide ClockInv, IndexInv, RingInv, WrittenInv;
  }

  /** Once stopped, in every continuation: the flag stays off, the threads together take at
      most `Rank` more steps, the producer pushes at most once more and the consumer
      publishes at most once more. */
  lemma {:induction false} StoppingIsBounded(c: Config, s: State, es: seq<Event>)
    requires c.plan.Valid() && Inv(c, s) && !s.running && Legal(c, s, es)
    ensures var end := Run(c, s, es);
            && !end.running && Inv(c, end)
            && Rank(end) + Count(es, ThreadStep) <= Rank(s) <= 10
            && PushesLeft(end) + Count(es, (e: Event) => e.RtPushes?) <= PushesLeft(s) <= 1
            && PublishesLeft(end) + Count(es, (e: Event) => e.DdsPublishes?) <= PublishesLeft(s) <= 1
  {
    InvAlways(c, s, es);
    RankBound(c, s);
    hide Inv, Apply, Enabled, Rank, PushesLeft, PublishesLeft;
    if es == [] {
    } else {
      var past, e := es[..|es| - 1], es[|es| - 1];
      StoppingIsBounded(c, s, past);
      ThreadsIn(c, Run(c, s, past));
      StepDown(c, Run(c, s, past), e);
      StaysStopped(c, Run(c, s, past), e);
    }
  }

  /** The next step of a thread that is not waiting, at a clock reading the clock allows. */
  ghost function NextStep(s: State): Event
    requires ThreadInv(s) && !s.main.Exited?
    requires s.clock != [] ==> s.clock[|s.clock| - 1].Normalised()
  {
    var now := if s.clock == [] then Timespec(0, 0) else s.clock[|s.clock| - 1];
    match s.rt
    case RtStart => RtStarts(now)
    case RtGuard => RtChecks
    case RtSample => RtSamples(now)
    case RtPush(_) => RtPushes
    case RtSleep => RtSleeps
    case _ =>
      match s.dds
      case DdsInit => DdsInits(Outcome(true, true, true, true))
      case DdsGuard => DdsChecks
      case DdsPop => DdsPops
      case DdsPublish(_) => DdsPublishes
      case DdsIdle => DdsIdles
      case DdsRelease => DdsReleases
      case _ =>
        match s.main
        case SpawnDds => SpawnedDds(true)
        case SpawnRt => SpawnedRt(true)
        case JoinRt => JoinedRt
        case _ => JoinedDds
  }

  lemma LastReading(c: Config, s: State)
    requires c.plan.Valid() && Inv(c, s)
    ensures s.clock != [] ==> s.clock[|s.clock| - 1].Normalised()
  {
    hide IndexInv, RingInv, WrittenInv, ThreadInv, MessageAt;
  }

  /** Until the program exits some thread can take a step: nobody waits for ever. */
  lemma NoDeadlock(c: Config, s: State)
    requires c.plan.Valid() && Inv(c, s) && !s.main.Exited?
    ensures exists e :: ThreadStep(e) && Enabled(s, e)
  {
    LastReading(c, s);
    hide IndexInv, RingInv, Ordered, MessageAt;
    var e := NextStep(s);
    assert ThreadStep(e) && Enabled(s, e);
  }

  lemma ExitState(c: Config, s: State)
    requires c.plan.Valid() && Inv(c, s)
    ensures |s.ring| <= RING_CAPACITY && |s.accepted| == |s.popped| + |s.ring|
    ensures s.main.Exited? ==> (s.rt == RtNotStarted || s.rt == RtDone) && (s.dds == DdsNotStarted || s.dds == DdsDone)
  {
    hide ClockInv, IndexInv, WrittenInv, MessageAt;
  }

  /** A stopped run in which no thread can step has exited; no thread is left running, and
      at most eight messages stay unpublished in the ring. */
  lemma StoppedMeansExited(c: Config, es: seq<Event>)
    requires c.plan.Valid() && Legal(c, INITIAL, es)
    requires forall e :: ThreadStep(e) ==> !Enabled(Run(c, INITIAL, es), e)
    ensures var s := Run(c, INITIAL, es);
            && s.main.Exited?
            && (s.rt == RtNotStarted || s.rt == RtDone)
            && (s.dds == DdsNotStarted || s.dds == DdsDone)
            && |s.ring| <= 8
            && |s.accepted| == |s.popped| + |s.ring|
  {
    InvInitially(c);
    InvAlways(c, INITIAL, es);
    var s := Run(c, INITIAL, es);
    hide Run, Legal, Enabled;
    if !s.main.Exited? {
      NoDeadlock(c, s);
    }
    ExitState(c, s);
  }

  /** Each way of stopping: the signal, a consumer that cannot start publishing, and a
      producer thread that cannot be started. */
  lemma StopsOn(c: Config, s: State, e: Event)
    requires c.plan.Valid() && Enabled(s, e) && s.running
    ensures !Apply(c, s, e).running <==> e == Signal || (e.DdsInits? && !e.o.Succeeds()) || e == SpawnedRt(false)
  {
    hide MessageAt;
  }

  // ---------- The exit code ----------

  /** What the steps so far say about where the main thread is, and its exit code. */
  ghost predicate MainKnows(m: MainPc, es: seq<Event>)
  {
    var dds, rt := SpawnedDds(true) in es, SpawnedRt(true) in es;
    match m
    case SpawnDds => !dds && !rt
    case SpawnRt => dds && !rt
    case JoinRt => dds && rt
    case JoinDds(code) => dds && code == if rt then 0 else 1
    case Exited(code) => code == if dds && rt then 0 else 1
  }

  lemma MainLearns(c: Config, s: State, es: seq<Event>, e: Event)
    requires c.plan.Valid() && Enabled(s, e) && MainKnows(s.main, es)
    ensures MainKnows(Apply(c, s, e).main, es + [e])
  {
    hide MessageAt;
    assert forall x :: x in es + [e] <==> x in es || x == e;
  }

  lemma {:induction false} MainAlwaysKnows(c: Config, es: seq<Event>)
    requires c.plan.Valid() && Legal(c, INITIAL, es)
    ensures MainKnows(Run(c, INITIAL, es).main, es)
  {
    if es == [] {
    } else {
      var past := es[..|es| - 1];
      MainAlwaysKnows(c, past);
      MainLearns(c, Run(c, INITIAL, past), past, es[|es| - 1]);
      assert past + [es[|es| - 1]] == es;
      hide Enabled, Apply, MainKnows;
    }
  }

  /** The program exits only after both threads it started have ended, with code 0 if both were
      started and 1 if one could not be. */
  lemma ExitCode(c: Config, es: seq<Event>)
    requires c.plan.Valid() && Legal(c, INITIAL, es) && Run(c, INITIAL, es).main.Exited?
    ensures var s := Run(c, INITIAL, es);
            && s.main.code == (if SpawnedDds(true) in es && SpawnedRt(true) in es then 0 else 1)
            && (s.rt == RtNotStarted || s.rt == RtDone)
            && (s.dds == DdsNotStarted || s.dds == DdsDone)
  {
    MainAlwaysKnows(c, es);
    InvInitially(c);
    InvAlways(c, INITIAL, es);
    ExitState(c, Run(c, INITIAL, es));
    hide Run, Legal, Inv;
  }
}
