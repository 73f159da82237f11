/** The simulation threads over their mutable objects, step by step as the program runs
    them, refining the step system. */
module SimRuntime {
  import opened MachineIntegers
  import opened Timestamps
  import opened Messages
  import opened DdsEntities
  import opened Publishers
  import opened TrajectoryGenerators
  import opened SimPipeline
  import SimTheorems

  /** The single-producer single-consumer queue, by its contract. */
  class Ring {
    var items: seq<JointMsg>

    constructor ()
      ensures items == []
    {
      items := [];
    }

    method Push(msg: JointMsg) returns (ok: bool)
      modifies this
      ensures ok <==> |old(items)| < RING_CAPACITY
      ensures items == if ok then old(items) + [msg] else old(items)
    {
      ok := |items| < RING_CAPACITY;
      if ok {
        items := items + [msg];
      }
    }

    method Pop(msg0: JointMsg) returns (ok: bool, msg: JointMsg)
      modifies this
      ensures ok <==> old(items) != []
      ensures if ok then old(items) == [msg] + items else items == old(items) && msg == msg0
    {
      ok, msg := items != [], msg0;
      if ok {
        msg := items[0];
        items := items[1..];
      }
    }
  }

  /** The producer's local objects. */
  class RtClient {
    const gen: TrajectoryGenerator
    const dofs: nat
    // the message being filled in, and the generator's output
    const positions: array<real>
    const velocities: array<real>
    const efforts: array<real>
    const pos: array<real>
    const vel: array<real>
    var header: Header
    var nextSeq: nat
    var t0: Timespec

    ghost predicate Shaped(plan: Plan)
      reads gen.trajectories
    {
      && gen.Follows(plan) && dofs == |plan.home|
      && positions.Length == velocities.Length == efforts.Length == pos.Length == vel.Length == dofs
      && pos != vel && pos != positions && pos != velocities && pos != efforts
      && vel != positions && vel != velocities && vel != efforts
      && positions != velocities && positions != efforts && velocities != efforts
    }

    constructor (gen: TrajectoryGenerator, ghost plan: Plan)
      requires gen.Follows(plan)
      ensures Shaped(plan) && nextSeq == 0 && this.gen == gen
      ensures fresh(positions) && fresh(velocities) && fresh(efforts) && fresh(pos) && fresh(vel)
    {
      this.gen := gen;
      dofs := gen.trajectories.Length;
      positions := new real[gen.trajectories.Length];
      velocities := new real[gen.trajectories.Length];
      efforts := new real[gen.trajectories.Length];
      pos := new real[gen.trajectories.Length];
      vel := new real[gen.trajectories.Length];
      header, nextSeq, t0 := Header(0, 0), 0, Timespec(0, 0);
    }

    /** Samples the trajectory at a clock reading and fills in the message. */
    method Sample(ts: Timespec, ghost plan: Plan) returns (msg: JointMsg)
      requires Shaped(plan)
      modifies this`header, this`nextSeq, positions, velocities, efforts, pos, vel
      ensures Shaped(plan) && nextSeq == ToU64(old(nextSeq) + 1)
      ensures var t := DiffSeconds(ts, t0);
              msg == JointMsg(Header(old(nextSeq), ts.ToNs()), plan.Positions(t), plan.Velocities(t), seq(dofs, _ => 0.0))
    {
      assert gen.trajectories.Length == dofs;
      hide Plan.Positions, Plan.Velocities, Plan.Valid, TrajectoryGenerator.Follows, DiffSeconds, Timespec.ToNs, ToU64;
      var t := DiffSeconds(ts, t0);
      header := header.(seq_ := nextSeq);
      nextSeq := ToU64(nextSeq + 1);
      header := header.(stampNs := ts.ToNs());
      gen.Compute(t, pos, vel, plan);
      for i := 0 to dofs
        invariant Shaped(plan) && header == Header(old(nextSeq), ts.ToNs()) && nextSeq == ToU64(old(nextSeq) + 1)
        invariant pos[..] == plan.Positions(t) && vel[..] == plan.Velocities(t)
        invariant positions[..i] == pos[..i] && velocities[..i] == vel[..i]
        invariant forall j :: 0 <= j < i ==> efforts[j] == 0.0
      {
        positions[i] := pos[i];
        velocities[i] := vel[i];
        efforts[i] := 0.0;
      }
      assert positions[..] == pos[..] && velocities[..] == vel[..] && efforts[..] == seq(dofs, _ => 0.0);
      msg := JointMsg(header, positions[..], velocities[..], efforts[..]);
    }
  }

  lemma StepFacts(c: Config, es: seq<Event>, i: nat)
    requires c.plan.Valid() && Legal(c, INITIAL, es) && i < |es|
    ensures Legal(c, INITIAL, es[..i]) && Legal(c, INITIAL, es[..i + 1])
    ensures var s := Run(c, INITIAL, es[..i]);
            Inv(c, s) && Enabled(s, es[i]) && Run(c, INITIAL, es[..i + 1]) == Apply(c, s, es[i])
  {
    SimTheorems.LegalPrefix(c, INITIAL, es, i);
    SimTheorems.LegalPrefix(c, INITIAL, es, i + 1);
    assert es[..i + 1][..i] == es[..i] && es[..i + 1][i] == es[i];
    InvInitially(c);
    InvAlways(c, INITIAL, es[..i]);
    hide Inv, Apply, Enabled;
  }

  lemma EndFacts(c: Config, es: seq<Event>)
    requires c.plan.Valid() && Legal(c, INITIAL, es)
    ensures var s := Run(c, INITIAL, es);
            s.main.Exited? ==> s.dds.DdsNotStarted? || s.dds.DdsDone?
  {
    InvInitially(c);
    InvAlways(c, INITIAL, es);
    hide Run, Legal, ClockInv, IndexInv, RingInv, WrittenInv;
  }

  lemma ReachedFacts(c: Config, s: State)
    requires c.plan.Valid() && Inv(c, s)
    ensures ThreadInv(s)
    ensures s.rt.RtSample? || s.rt.RtPush? ==> s.clock != []
    ensures s.rt.RtSample? ==> s.nextSeq == ToU64(|s.clock| - 1)
    ensures s.dds.DdsPublish? ==> s.dds.msg.Shaped(|c.plan.home|)
  {
    hide IndexInv, ThreadInv, ToU64, Plan.Position, Plan.Velocity;
    if s.dds.DdsPublish? {
      assert s.dds.msg == (s.popped + s.ring)[|s.popped| - 1];
    }
  }

  /** The whole program in simulation mode: `main`, both threads, and what they share. */
  class Hub {
    const ring: Ring
    const client: RtClient
    const pub: JointStatePublisher
    const names: seq<string>
    var running: bool
    var main: MainPc
    var rt: RtPc
    var dds: DdsPc

    /** The objects hold what the state of the step system says. */
    ghost predicate Shows(c: Config, s: State)
      reads this, ring, client, client.gen.trajectories, pub, pub.dds
    {
      && c.plan.Valid() && names == c.names && |names| == pub.dofs == client.dofs
      && running == s.running && main == s.main && rt == s.rt && dds == s.dds
      && ring.items == s.ring
      && client.Shaped(c.plan)
      && client.nextSeq == s.nextSeq && (s.clock != [] ==> client.t0 == s.clock[0])
      && pub.matched == s.matched && pub.written == s.written
      && pub.dds.Valid()
      && (s.dds.DdsNotStarted? || s.dds.DdsInit? || s.dds.DdsDone? ==> pub.dds.Fields().Empty())
      && (s.dds.DdsGuard? || s.dds.DdsPop? || s.dds.DdsPublish? || s.dds.DdsIdle? ==> pub.Ready() && pub.name == names)
      && {client.positions, client.velocities, client.efforts, client.pos, client.vel}
         !! {pub.position, pub.velocity, pub.effort}
    }

    constructor (gen: TrajectoryGenerator, names: seq<string>, ghost c: Config)
      requires gen.Follows(c.plan) && names == c.names && |names| == gen.trajectories.Length
      ensures Shows(c, INITIAL)
      ensures fresh(ring) && fresh(client) && fresh(pub) && fresh(pub.dds)
      ensures fresh({client.positions, client.velocities, client.efforts, client.pos, client.vel})
      ensures fresh({pub.position, pub.velocity, pub.effort})
    {
      ring := new Ring();
      client := new RtClient(gen, c.plan);
      pub := new JointStatePublisher(|names|);
      this.names := names;
      running, main, rt, dds := true, SpawnDds, RtNotStarted, DdsNotStarted;
    }

    /** A step of the real-time thread. */
    method RtTurn(e: Event, ghost c: Config, ghost s: State)
      requires Shows(c, s) && Enabled(s, e)
      requires e.RtStarts? || e.RtChecks? || e.RtSamples? || e.RtPushes? || e.RtSleeps?
      requires s.rt.RtSample? ==> s.clock != [] && s.nextSeq == ToU64(|s.clock| - 1)
      modifies this`rt, ring, client
      modifies client.positions, client.velocities, client.efforts, client.pos, client.vel
      ensures Shows(c, Apply(c, s, e))
    {
      hide DdsPublisher.Valid, JointStatePublisher.Ready, Handles.Empty, Plan.Positions, Plan.Velocities, TrajectoryGenerator.Follows, ToU64;
      match e {
        case RtStarts(ts) =>
          client.t0 := ts;
          rt := RtGuard;
        case RtChecks =>
          rt := if running then RtSample else RtDone;
        case RtSamples(ts) =>
          var msg := client.Sample(ts, c.plan);
          rt := RtPush(msg);
        case RtPushes =>
          var ok := ring.Push(rt.msg);
          rt := RtSleep;
        case RtSleeps =>
          rt := RtGuard;
      }
    }

    /** The publishing thread sets up its publisher; a failure stops the program. */
    method DdsStarts(o: Outcome, ghost c: Config, ghost s: State)
      requires Shows(c, s) && Enabled(s, DdsInits(o))
      modifies this`dds, this`running, pub, pub.dds
      ensures Shows(c, Apply(c, s, DdsInits(o)))
      ensures pub.position == old(pub.position) || fresh(pub.position)
      ensures pub.velocity == old(pub.velocity) || fresh(pub.velocity)
      ensures pub.effort == old(pub.effort) || fresh(pub.effort)
    {
      hide DdsPublisher.Valid, RtClient.Shaped, Plan.Valid, MessageAt, ToU64, ToI32, JointSample;
      var ready := pub.Init(names, o);
      if ready {
        dds := DdsGuard;
      } else {
        running := false;
        dds := DdsRelease;
      }
    }

    /** It publishes the message it popped. */
    method DdsSends(ghost c: Config, ghost s: State)
      requires Shows(c, s) && Enabled(s, DdsPublishes)
      requires s.dds.DdsPublish? ==> s.dds.msg.Shaped(pub.dofs)
      modifies this`dds, pub`stamp, pub`written, pub.position, pub.velocity, pub.effort
      ensures Shows(c, Apply(c, s, DdsPublishes))
    {
      hide DdsPublisher.Valid, RtClient.Shaped, Plan.Positions, Plan.Velocities, ToU64, JointSample;
      pub.Publish(dds.msg);
      dds := DdsGuard;
    }

    /** Its publisher goes out of scope. */
    method DdsReleases(ghost c: Config, ghost s: State)
      requires Shows(c, s) && Enabled(s, Event.DdsReleases)
      modifies this`dds, pub.dds
      ensures Shows(c, Apply(c, s, Event.DdsReleases))
    {
      hide DdsPublisher.Valid, Released, RtClient.Shaped, Plan.Positions, Plan.Velocities, ToU64, JointSample;
      pub.Destroy();
      dds := DdsDone;
    }

    /** Another step of the publishing thread. */
    method DdsTurn(e: Event, ghost c: Config, ghost s: State)
      requires Shows(c, s) && Enabled(s, e)
      requires e.DdsChecks? || e.DdsPops? || e.DdsIdles?
      modifies this`dds, ring
      ensures Shows(c, Apply(c, s, e))
    {
      hide DdsPublisher.Valid, RtClient.Shaped, JointStatePublisher.Ready, Handles.Empty, MessageAt, ToU64, ToI32, JointSample;
      match e {
        case DdsChecks =>
          dds := if running then DdsPop else DdsRelease;
        case DdsPops =>
          var ok, msg := ring.Pop(JointMsg(Header(0, 0), [], [], []));
          dds := if ok then DdsPublish(msg) else DdsIdle;
        case DdsIdles =>
          dds := DdsGuard;
      }
    }

    /** A step of the main thread. */
    method MainTurn(e: Event, ghost c: Config, ghost s: State)
      requires Shows(c, s) && Enabled(s, e) && ThreadInv(s)
      requires e.SpawnedDds? || e.SpawnedRt? || e.JoinedRt? || e.JoinedDds?
      modifies this`main, this`rt, this`dds, this`running
      ensures Shows(c, Apply(c, s, e))
    {
      hide DdsPublisher.Valid, JointStatePublisher.Sized, RtClient.Shaped, Handles.Empty, MessageAt, ToU64, ToI32, JointSample;
      match e {
        case SpawnedDds(ok) =>
          if ok {
            dds := DdsInit;
            main := SpawnRt;
          } else {
            main := Exited(1);
          }
        case SpawnedRt(ok) =>
          if ok {
            rt := RtStart;
            main := JoinRt;
          } else {
            running := false;
            main := JoinDds(1);
          }
        case JoinedRt =>
          main := JoinDds(0);
        case JoinedDds =>
          main := Exited(main.code);
      }
    }

    /** The middleware reports a change of subscribers, or a signal arrives. */
    method OutsideTurn(e: Event, ghost c: Config, ghost s: State)
      requires Shows(c, s) && (e.MatchedChanges? || e.Signal?)
      modifies this`running, pub`matched
      ensures Shows(c, Apply(c, s, e))
    {
      hide DdsPublisher.Valid, RtClient.Shaped, Handles.Empty, MessageAt, ToU64, ToI32, JointSample;
      match e {
        case MatchedChanges(change) =>
          pub.OnPublicationMatched(change);
        case Signal =>
          running := false;
      }
    }

    /** A step of the publishing thread. */
    method PublisherTurn(e: Event, ghost c: Config, ghost s: State)
      requires Shows(c, s) && Enabled(s, e)
      requires s.dds.DdsPublish? ==> s.dds.msg.Shaped(pub.dofs)
      requires e.DdsInits? || e.DdsChecks? || e.DdsPops? || e.DdsPublishes? || e.DdsIdles? || e.DdsReleases?
      modifies this`dds, this`running, ring, pub, pub.dds, pub.position, pub.velocity, pub.effort
      ensures Shows(c, Apply(c, s, e))
      ensures pub.position == old(pub.position) || fresh(pub.position)
      ensures pub.velocity == old(pub.velocity) || fresh(pub.velocity)
      ensures pub.effort == old(pub.effort) || fresh(pub.effort)
    {
      hide *;
      if e.DdsInits? {
        DdsStarts(e.o, c, s);
      } else if e.DdsPublishes? {
        DdsSends(c, s);
      } else if e.DdsReleases? {
        DdsReleases(c, s);
      } else {
        DdsTurn(e, c, s);
      }
    }

    /** One step of whichever thread the schedule picks. */
    method Turn(e: Event, ghost c: Config, ghost s: State)
      requires Shows(c, s) && Inv(c, s) && Enabled(s, e)
      modifies this, ring, client, pub, pub.dds
      modifies client.positions, client.velocities, client.efforts, client.pos, client.vel
      modifies pub.position, pub.velocity, pub.effort
      ensures Shows(c, Apply(c, s, e))
      ensures pub.position == old(pub.position) || fresh(pub.position)
      ensures pub.velocity == old(pub.velocity) || fresh(pub.velocity)
      ensures pub.effort == old(pub.effort) || fresh(pub.effort)
    {
      ReachedFacts(c, s);
      assert pub.dofs == |c.plan.home|;
      hide *;
      if e.RtStarts? || e.RtChecks? || e.RtSamples? || e.RtPushes? || e.RtSleeps? {
        RtTurn(e, c, s);
      } else if e.DdsInits? || e.DdsChecks? || e.DdsPops? || e.DdsPublishes? || e.DdsIdles? || e.DdsReleases? {
        PublisherTurn(e, c, s);
      } else if e.MatchedChanges? || e.Signal? {
        OutsideTurn(e, c, s);
      } else {
        MainTurn(e, c, s);
      }
    }

    /** Whatever the schedule, the objects end up where the step system says. */
    method Execute(es: seq<Event>, ghost c: Config)
      requires Shows(c, INITIAL) && Legal(c, INITIAL, es)
      modifies this, ring, client, pub, pub.dds
      modifies client.positions, client.velocities, client.efforts, client.pos, client.vel
      modifies pub.position, pub.velocity, pub.effort
      ensures Shows(c, Run(c, INITIAL, es))
      ensures dds == DdsDone || main.Exited? ==> Released(pub.dds.log)
    {
      assert es[..0] == [];
      for i := 0 to |es|
        invariant Legal(c, INITIAL, es[..i]) && Shows(c, Run(c, INITIAL, es[..i]))
        invariant pub.position == old(pub.position) || fresh(pub.position)
        invariant pub.velocity == old(pub.velocity) || fresh(pub.velocity)
        invariant pub.effort == old(pub.effort) || fresh(pub.effort)
      {
        ghost var s := Run(c, INITIAL, es[..i]);
        StepFacts(c, es, i);
        Turn(es[i], c, s);
      }
      assert es[..|es|] == es;
      EndFacts(c, es);
      hide Run, Legal, Released, Inv;
      if pub.dds.Fields().Empty() {
        EmptyIsReleased(pub.dds.log, pub.dds.nextId);
      }
    }
  }
}
