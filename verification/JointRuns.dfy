/** What the real-robot joint thread writes, from opening the pipes to releasing its publisher. */
module JointRuns {
  import opened MachineIntegers
  import opened Timestamps
  import opened PdoFrames
  import opened Messages
  import opened DdsEntities
  import opened Publishers
  import opened Drains
  import opened JointLoop

  // ---------- Which messages are written ----------

  /** The rounds up to and including round i. */
  ghost function Upto(rounds: seq<Round>, i: nat): seq<Round>
    requires i < |rounds|
  {
    rounds[..i + 1]
  }

  lemma UptoOfPast(rounds: seq<Round>)
    requires rounds != []
    ensures var past := rounds[..|rounds| - 1];
            && Upto(rounds, |past|) == rounds
            && forall i: nat :: i < |past| ==> Upto(past, i) == Upto(rounds, i)
  {
  }

  /** How the number of matched readers changed in the rounds. */
  ghost function Changes(rounds: seq<Round>): int
  {
    if rounds == [] then 0 else Changes(rounds[..|rounds| - 1]) + rounds[|rounds| - 1].change
  }

  /** Whether the last of the rounds publishes to somebody. */
  ghost predicate Writes(decode: Decoder, dofs: nat, rounds: seq<Round>)
  {
    rounds != [] && BatchReading(decode, dofs, rounds[|rounds| - 1]).Some? && ToI32(Changes(rounds)) > 0
  }

  /** The rounds that write a sample, in order. */
  ghost function WritingRounds(decode: Decoder, dofs: nat, rounds: seq<Round>): seq<nat>
  {
    if rounds == [] then []
    else WritingRounds(decode, dofs, rounds[..|rounds| - 1]) + if Writes(decode, dofs, rounds) then [|rounds| - 1] else []
  }

  lemma WritingStep(decode: Decoder, dofs: nat, rounds: seq<Round>, i: nat)
    requires rounds != []
    ensures var past := rounds[..|rounds| - 1];
            i in WritingRounds(decode, dofs, rounds)
            <==> i in WritingRounds(decode, dofs, past) || (i == |past| && Writes(decode, dofs, rounds))
  {
    hide Writes;
    var ix := WritingRounds(decode, dofs, rounds[..|rounds| - 1]);
    var last := if Writes(decode, dofs, rounds) then [|rounds| - 1] else [];
    assert WritingRounds(decode, dofs, rounds) == ix + last;
    assert i in ix + last <==> i in ix || i in last;
  }

  lemma {:induction false} WritingRoundsMeaning(decode: Decoder, dofs: nat, rounds: seq<Round>, i: nat)
    ensures i in WritingRounds(decode, dofs, rounds) <==> i < |rounds| && Writes(decode, dofs, Upto(rounds, i))
  {
    hide Writes;
    if rounds == [] {
    } else {
      var past := rounds[..|rounds| - 1];
      WritingRoundsMeaning(decode, dofs, past, i);
      WritingStep(decode, dofs, rounds, i);
      UptoOfPast(rounds);
      hide Upto, WritingRounds;
    }
  }

  lemma {:induction false} WritingRoundsInOrder(decode: Decoder, dofs: nat, rounds: seq<Round>)
    ensures var ix := WritingRounds(decode, dofs, rounds);
            forall k, l :: 0 <= k < l < |ix| ==> ix[k] < ix[l]
  {
    hide Writes;
    if rounds == [] {
    } else {
      var past := rounds[..|rounds| - 1];
      var ix := WritingRounds(decode, dofs, past);
      WritingRoundsInOrder(decode, dofs, past);
      forall k | 0 <= k < |ix| ensures ix[k] < |past| {
        WritingRoundsMeaning(decode, dofs, past, ix[k]);
      }
    }
  }

  lemma {:induction false} ChangesAreSum(decode: Decoder, dofs: nat, rounds: seq<Round>)
    ensures SumOfChanges(Happenings(decode, dofs, rounds)) == Changes(rounds)
  {
    if rounds == [] {
    } else {
      var past, r := rounds[..|rounds| - 1], rounds[|rounds| - 1];
      ChangesAreSum(decode, dofs, past);
      assert rounds == past + [r];
      RoundStep(decode, dofs, past, r);
      hide Happenings, SumOfChanges, MessageAfter, BatchReading;
      HappeningStep(Happenings(decode, dofs, past), Matched(r.change));
      if BatchReading(decode, dofs, r).Some? {
        HappeningStep(Happenings(decode, dofs, past) + [Matched(r.change)], Happening.Publish(MessageAfter(decode, dofs, rounds)));
      }
    }
  }

  lemma OpenStep(decode: Decoder, dofs: nat, rounds: seq<Round>)
    requires rounds != []
    ensures PublishedWhileOpen(Happenings(decode, dofs, rounds))
         == PublishedWhileOpen(Happenings(decode, dofs, rounds[..|rounds| - 1]))
            + if Writes(decode, dofs, rounds) then [MessageAfter(decode, dofs, rounds)] else []
  {
    var past, r := rounds[..|rounds| - 1], rounds[|rounds| - 1];
    assert rounds == past + [r];
    RoundStep(decode, dofs, past, r);
    ChangesAreSum(decode, dofs, past);
    hide Happenings, SumOfChanges, MessageAfter, BatchReading, PublishedWhileOpen, ToI32;
    var hs := Happenings(decode, dofs, past);
    var open := PublishedWhileOpen(hs);
    HappeningStep(hs, Matched(r.change));
    assert open + [] == open;
    if BatchReading(decode, dofs, r).Some? {
      HappeningStep(hs + [Matched(r.change)], Happening.Publish(MessageAfter(decode, dofs, rounds)));
      assert SumOfChanges(hs + [Matched(r.change)]) == Changes(rounds);
    }
  }

  /** The k-th message written is the message of the k-th round that had a reading while the
      32-bit count of matched readers was positive. */
  lemma {:induction false} WrittenMessages(decode: Decoder, dofs: nat, rounds: seq<Round>)
    ensures var ms, ix := PublishedWhileOpen(Happenings(decode, dofs, rounds)), WritingRounds(decode, dofs, rounds);
            && |ms| == |ix| && (forall k, l :: 0 <= k < l < |ix| ==> ix[k] < ix[l])
            && forall k :: 0 <= k < |ms| ==>
                 && ix[k] < |rounds| && Writes(decode, dofs, Upto(rounds, ix[k]))
                 && ms[k] == MessageAfter(decode, dofs, Upto(rounds, ix[k]))
  {
    hide Writes, MessageAfter;
    WritingRoundsInOrder(decode, dofs, rounds);
    if rounds == [] {
    } else {
      var past := rounds[..|rounds| - 1];
      WrittenMessages(decode, dofs, past);
      OpenStep(decode, dofs, rounds);
      hide PublishedWhileOpen, Happenings;
      UptoOfPast(rounds);
      hide Upto;
    }
  }

  lemma WritesMeans(decode: Decoder, dofs: nat, rounds: seq<Round>)
    requires Writes(decode, dofs, rounds)
    ensures rounds != [] && BatchReading(decode, dofs, rounds[|rounds| - 1]).Some?
  {
    hide BatchReading;
  }

  lemma LastOfPrefix(rounds: seq<Round>, i: nat)
    requires i < |rounds|
    ensures Upto(rounds, i) != [] && Upto(rounds, i)[|Upto(rounds, i)| - 1] == rounds[i]
  {
  }

  lemma SampleIs(names: seq<string>, ms: seq<JointMsg>, k: nat)
    requires k < |Samples(names, ms)|
    ensures |Samples(names, ms)| == |ms|
    ensures Samples(names, ms)[k] == JointSample(names, ms[k])
  {
    hide JointSample;
  }

  /** The k-th sample written carries the stamp of its round's first reading and shows what
      every joint last said up to that round. */
  lemma SampleOfRound(decode: Decoder, names: seq<string>, rounds: seq<Round>, k: nat)
    requires k < |Samples(names, PublishedWhileOpen(Happenings(decode, |names|, rounds)))|
    ensures var w := Samples(names, PublishedWhileOpen(Happenings(decode, |names|, rounds)))[k];
            && k < |WritingRounds(decode, |names|, rounds)|
            && var i := WritingRounds(decode, |names|, rounds)[k];
            && (forall l :: 0 <= l < k ==> WritingRounds(decode, |names|, rounds)[l] < i)
            && i < |rounds| && BatchReading(decode, |names|, rounds[i]).Some?
            && w.name == names && |w.position| == |names|
            && w.stamp == Split(BatchReading(decode, |names|, rounds[i]).value.stamp)
            && Shows(decode, Events(Upto(rounds, i)), w.position, w.velocity, w.effort)
  {
    var dofs, ms := |names|, PublishedWhileOpen(Happenings(decode, |names|, rounds));
    SampleIs(names, ms, k);
    WrittenMessages(decode, dofs, rounds);
    hide Samples, PublishedWhileOpen, Happenings, WritingRounds, Writes, MessageAfter, BatchReading, Shows, Events, Split;
    var i := WritingRounds(decode, dofs, rounds)[k];
    WritesMeans(decode, dofs, Upto(rounds, i));
    LastOfPrefix(rounds, i);
    MessageShows(decode, dofs, Upto(rounds, i));
  }

  // ---------- What the samples show ----------

  /** Event n is of joint j and tells position p, velocity v and effort f. */
  ghost predicate ToldBy(decode: Decoder, es: seq<PipeEvent>, n: nat, j: nat, p: real, v: real, f: real)
  {
    && n < |es| && es[n].joint == j
    && exists pdo, rx, stamp ::
         Tells(decode, es[n], pdo, rx, stamp) && p == rx.linkPos && v == rx.linkVel && f == rx.torque
  }

  /** From event n on joint j tells nothing. */
  ghost predicate QuietFrom(decode: Decoder, es: seq<PipeEvent>, n: nat, j: nat)
  {
    forall m :: n <= m < |es| && es[m].joint == j ==> Quiet(decode, es[m])
  }

  lemma LatestIsTold(decode: Decoder, es: seq<PipeEvent>, j: nat)
    requires Fits(es)
    ensures var r := Latest(decode, es, j);
            if r.None? then QuietFrom(decode, es, 0, j)
            else exists n: nat :: ToldBy(decode, es, n, j, r.value.pos, r.value.vel, r.value.eff)
                                  && QuietFrom(decode, es, n + 1, j)
  {
    hide Latest, EventReading, Quiet, Tells, FitRaw;
    LatestMeaning(decode, es, j);
    forall n | 0 <= n < |es| ensures EventReading(decode, es[n]).None? <==> Quiet(decode, es[n]) {
      assert es[n] in es;
      EventReadingMeaning(decode, es[n]);
    }
    if Latest(decode, es, j).Some? {
      var n :| 0 <= n < |es| && es[n].joint == j && EventReading(decode, es[n]) == Latest(decode, es, j)
               && forall k :: n < k < |es| && es[k].joint == j ==> EventReading(decode, es[k]).None?;
      assert es[n] in es;
      EventReadingMeaning(decode, es[n]);
      var r := Latest(decode, es, j).value;
      var pdo, rx :| Tells(decode, es[n], pdo, rx, r.stamp);
      assert ToldBy(decode, es, n, j, r.pos, r.vel, r.eff);
      assert QuietFrom(decode, es, n + 1, j);
    }
  }

  /** Joint j shows in sample w what it last told, or zero if it never told anything. */
  ghost predicate ShowsLastTold(decode: Decoder, es: seq<PipeEvent>, j: nat, w: JointState)
    requires j < |w.position| == |w.velocity| == |w.effort|
  {
    || (exists n: nat :: ToldBy(decode, es, n, j, w.position[j], w.velocity[j], w.effort[j]) && QuietFrom(decode, es, n + 1, j))
    || (QuietFrom(decode, es, 0, j) && w.position[j] == w.velocity[j] == w.effort[j] == 0.0)
  }

  /** The first event of the batch by which a joint of the robot tells anything has this stamp. */
  ghost predicate FirstTells(decode: Decoder, dofs: nat, batch: seq<PipeEvent>, stamp: nat)
  {
    exists n: nat, pdo, rx ::
      && n < |batch| && batch[n].joint < dofs && Tells(decode, batch[n], pdo, rx, stamp)
      && forall m :: 0 <= m < n && batch[m].joint < dofs ==> Quiet(decode, batch[m])
  }

  lemma FirstIsTold(decode: Decoder, dofs: nat, batch: seq<PipeEvent>)
    requires Fits(batch) && First(decode, dofs, batch).Some?
    ensures FirstTells(decode, dofs, batch, First(decode, dofs, batch).value.stamp)
  {
    hide First, EventReading, Quiet, Tells, FitRaw;
    FirstMeaning(decode, dofs, batch);
    forall n | 0 <= n < |batch| ensures EventReading(decode, batch[n]).None? <==> Quiet(decode, batch[n]) {
      assert batch[n] in batch;
      EventReadingMeaning(decode, batch[n]);
    }
    var n :| 0 <= n < |batch| && batch[n].joint < dofs && EventReading(decode, batch[n]) == First(decode, dofs, batch)
             && forall k :: 0 <= k < n && batch[k].joint < dofs ==> EventReading(decode, batch[k]).None?;
    assert batch[n] in batch;
    EventReadingMeaning(decode, batch[n]);
    var pdo, rx :| Tells(decode, batch[n], pdo, rx, First(decode, dofs, batch).value.stamp);
  }

  ghost predicate AllFit(rounds: seq<Round>)
  {
    forall r :: r in rounds && r.wake.Batch? ==> Fits(r.wake.events)
  }

  lemma {:induction false} EventsFit(rounds: seq<Round>)
    requires AllFit(rounds)
    ensures Fits(Events(rounds))
  {
    hide FitRaw;
    if rounds == [] {
    } else {
      assert forall r :: r in rounds[..|rounds| - 1] ==> r in rounds;
      EventsFit(rounds[..|rounds| - 1]);
      assert rounds[|rounds| - 1] in rounds;
    }
  }

  lemma FitUpto(rounds: seq<Round>, i: nat)
    requires AllFit(rounds) && i < |rounds|
    ensures AllFit(Upto(rounds, i)) && (rounds[i].wake.Batch? ==> Fits(rounds[i].wake.events))
  {
    assert forall r :: r in Upto(rounds, i) ==> r in rounds;
    assert rounds[i] in rounds;
    hide Fits;
  }

  lemma ShownIsTold(decode: Decoder, es: seq<PipeEvent>, j: nat, w: JointState)
    requires Fits(es) && Shows(decode, es, w.position, w.velocity, w.effort) && j < |w.position|
    ensures ShowsLastTold(decode, es, j, w)
  {
    LatestIsTold(decode, es, j);
    hide Latest, QuietFrom, ToldBy, Fits;
  }

  /** In terms of the bytes read and the decoder: the k-th sample written shows of every joint
      the position, velocity and torque of the record in the last frame of the joint's most
      recent drain that ended in one, and carries the stamp of the first such record of its
      round's batch. */
  lemma SampleShowsRecords(decode: Decoder, names: seq<string>, rounds: seq<Round>, k: nat)
    requires AllFit(rounds) && k < |Samples(names, PublishedWhileOpen(Happenings(decode, |names|, rounds)))|
    ensures var w := Samples(names, PublishedWhileOpen(Happenings(decode, |names|, rounds)))[k];
            && k < |WritingRounds(decode, |names|, rounds)|
            && var i := WritingRounds(decode, |names|, rounds)[k];
            && i < |rounds| && rounds[i].wake.Batch?
            && |w.position| == |w.velocity| == |w.effort| == |names|
            && (forall j: nat :: j < |names| ==> ShowsLastTold(decode, Events(Upto(rounds, i)), j, w))
            && exists stamp :: w.stamp == Split(stamp) && FirstTells(decode, |names|, rounds[i].wake.events, stamp)
  {
    SampleOfRound(decode, names, rounds, k);
    var w := Samples(names, PublishedWhileOpen(Happenings(decode, |names|, rounds)))[k];
    var i := WritingRounds(decode, |names|, rounds)[k];
    FitUpto(rounds, i);
    EventsFit(Upto(rounds, i));
    hide Samples, PublishedWhileOpen, Happenings, WritingRounds, Events, Split, First, Latest, AllFit, Fits, Upto;
    hide ShowsLastTold, FirstTells;
    FirstIsTold(decode, |names|, rounds[i].wake.events);
    forall j: nat | j < |names| ensures ShowsLastTold(decode, Events(Upto(rounds, i)), j, w) {
      ShownIsTold(decode, Events(Upto(rounds, i)), j, w);
    }
  }

  lemma BatchTells(decode: Decoder, dofs: nat, batch: seq<PipeEvent>)
    requires Fits(batch)
    ensures First(decode, dofs, batch).Some? <==> exists e :: e in batch && e.joint < dofs && !Quiet(decode, e)
  {
    hide First, EventReading, Quiet, Tells, FitRaw;
    FirstMeaning(decode, dofs, batch);
    forall e | e in batch ensures EventReading(decode, e).None? <==> Quiet(decode, e) {
      EventReadingMeaning(decode, e);
    }
    assert forall n :: 0 <= n < |batch| ==> batch[n] in batch;
  }

  /** The rounds that write are exactly those with an event of a joint of the robot that tells
      something, while the 32-bit count of matched readers is positive. */
  lemma WritingRoundsTell(decode: Decoder, dofs: nat, rounds: seq<Round>, i: nat)
    requires AllFit(rounds)
    ensures i in WritingRounds(decode, dofs, rounds)
       <==> && i < |rounds| && rounds[i].wake.Batch?
            && (exists e :: e in rounds[i].wake.events && e.joint < dofs && !Quiet(decode, e))
            && ToI32(Changes(Upto(rounds, i))) > 0
  {
    WritingRoundsMeaning(decode, dofs, rounds, i);
    if i < |rounds| {
      FitUpto(rounds, i);
      LastOfPrefix(rounds, i);
      if rounds[i].wake.Batch? {
        BatchTells(decode, dofs, rounds[i].wake.events);
      }
      hide WritingRounds, Upto, First, Quiet, Changes, ToI32, AllFit, Fits;
    }
  }

  // ---------- Joints that are not watched ----------

  lemma NamesOfPrefix(rounds: seq<Round>, watched: set<nat>, i: nat)
    requires Names(rounds, watched) && i <= |rounds|
    ensures Names(rounds[..i], watched)
  {
    assert forall r :: r in rounds[..i] ==> r in rounds;
  }

  /** A joint whose pipe is not watched reads exactly zero in every sample written. */
  lemma UnwatchedSamplesZero(decode: Decoder, names: seq<string>, rounds: seq<Round>, watched: set<nat>, joint: nat, k: nat)
    requires Names(rounds, watched) && joint < |names| && joint !in watched
    requires k < |Samples(names, PublishedWhileOpen(Happenings(decode, |names|, rounds)))|
    ensures var w := Samples(names, PublishedWhileOpen(Happenings(decode, |names|, rounds)))[k];
            && |w.position| == |w.velocity| == |w.effort| == |names|
            && w.position[joint] == w.velocity[joint] == w.effort[joint] == 0.0
  {
    SampleOfRound(decode, names, rounds, k);
    var w := Samples(names, PublishedWhileOpen(Happenings(decode, |names|, rounds)))[k];
    var i := WritingRounds(decode, |names|, rounds)[k];
    hide Samples, PublishedWhileOpen, Happenings, WritingRounds, BatchReading, Shows, Events, Split, Names;
    NamesOfPrefix(rounds, watched, i + 1);
    EventsAreWatched(Upto(rounds, i), watched);
    NeverHeardIsZero(decode, Events(Upto(rounds, i)), watched, joint,
                     JointMsg(Header(0, 0), w.position, w.velocity, w.effort), |names|);
  }

  // ---------- The thread ----------

  /** The joints whose pipe opened and was accepted for watching. */
  ghost function Watched(pipes: seq<int>, accepted: seq<bool>): set<nat>
    requires |pipes| == |accepted|
  {
    set i: nat | i < |pipes| && pipes[i] >= 0 && accepted[i]
  }

  /** The samples the thread writes when it takes the given rounds. */
  ghost function WrittenIn(decode: Decoder, names: seq<string>, rounds: seq<Round>): seq<JointState>
  {
    Samples(names, PublishedWhileOpen(Happenings(decode, |names|, rounds)))
  }

  /** Sample w is of the robot's size, and zero for joint j. */
  ghost predicate ZeroAt(w: JointState, dofs: nat, j: nat)
  {
    |w.position| == |w.velocity| == |w.effort| == dofs && j < dofs && w.position[j] == w.velocity[j] == w.effort[j] == 0.0
  }

  lemma UnopenedSamplesZero(decode: Decoder, names: seq<string>, pipes: seq<int>, accepted: seq<bool>, rounds: seq<Round>)
    requires |pipes| == |accepted| == |names| && Names(rounds, Watched(pipes, accepted))
    ensures forall j: nat, w :: j < |names| && (pipes[j] < 0 || !accepted[j]) && w in WrittenIn(decode, names, rounds) ==>
              ZeroAt(w, |names|, j)
  {
    var written := WrittenIn(decode, names, rounds);
    forall j: nat, w | j < |names| && (pipes[j] < 0 || !accepted[j]) && w in written
      ensures ZeroAt(w, |names|, j)
    {
      var k :| 0 <= k < |written| && written[k] == w;
      UnwatchedSamplesZero(decode, names, rounds, Watched(pipes, accepted), j, k);
    }
  }

  lemma NothingYet(decode: Decoder, names: seq<string>)
    ensures WrittenIn(decode, names, []) == []
    ensures Events([]) == [] && ToU64(FreshRounds(decode, |names|, [])) == 0
    ensures ToI32(SumOfChanges(Happenings(decode, |names|, []))) == 0
  {
  }

  /** The loop of the thread, over its own message and buffer. */
  method PublishRounds(decode: Decoder, rounds: seq<Round>, pub: JointStatePublisher) returns (n: nat)
    requires pub.Ready() && pub.dofs == |pub.name| && pub.matched == 0 && pub.written == []
    requires forall r :: r in rounds && r.wake.Batch? ==> Fits(r.wake.events)
    modifies pub`matched, pub`stamp, pub`written, pub.position, pub.velocity, pub.effort
    ensures n <= |rounds| && forall i :: 0 <= i < n ==> rounds[i].running && !rounds[i].wake.WaitFailed?
    ensures n < |rounds| ==> !rounds[n].running || rounds[n].wake.WaitFailed?
    ensures pub.dds.Valid() && pub.written == WrittenIn(decode, old(pub.name), rounds[..n])
  {
    NothingYet(decode, pub.name);
    hide DdsPublisher.Valid, Happenings, Events, FreshRounds, SumOfChanges, PublishedWhileOpen, Samples, ToU64, ToI32;
    hide Latest, FitRaw, Fits;
    var loop := new Loop(pub.dofs, decode);
    n := loop.Run(decode, rounds, pub);
  }

  /** Opens the pipes, watches those it can, publishes until stopped, releases the publisher.
      `stops` tells whether it turned `g_running` off; the waits report watched pipes only. */
  method RunJoints(decode: Decoder, names: seq<string>, pipes: seq<int>, epoll: bool, accepted: seq<bool>,
                   o: Outcome, rounds: seq<Round>)
    returns (written: seq<JointState>, log: seq<DdsCall>, n: nat, stops: bool)
    requires |pipes| == |accepted| == |names|
    requires forall r :: r in rounds && r.wake.Batch? ==> Fits(r.wake.events)
    requires Names(rounds, Watched(pipes, accepted))
    ensures stops <==> !epoll || !o.Succeeds()
    ensures n <= |rounds| && written == WrittenIn(decode, names, rounds[..n])
    ensures stops ==> n == 0
    ensures !stops ==> forall i :: 0 <= i < n ==> rounds[i].running && !rounds[i].wake.WaitFailed?
    ensures !stops && n < |rounds| ==> !rounds[n].running || rounds[n].wake.WaitFailed?
    ensures forall j: nat, w :: j < |names| && (pipes[j] < 0 || !accepted[j]) && w in written ==> ZeroAt(w, |names|, j)
    ensures Released(log)
  {
    written, log, n, stops := [], [], 0, true;
    var reader := new XddpReader(|names|);
    var ok := reader.Open(pipes, true);
    NothingYet(decode, names);
    hide DdsPublisher.Valid, Released, WrittenIn, Names, Fits, ZeroAt;
    if !epoll {
      NoCalls();
      return;
    }
    var watched := reader.Register(accepted);
    assert watched == Watched(pipes, accepted) by { assert pipes == reader.fds[..]; }
    hide Watched;
    var pub := new JointStatePublisher(|names|);
    var ready := pub.Init(names, o);
    if !ready {
      pub.Destroy();
      log := pub.dds.log;
      return;
    }
    stops := false;
    n := PublishRounds(decode, rounds, pub);
    written := pub.written;
    NamesOfPrefix(rounds, watched, n);
    UnopenedSamplesZero(decode, names, pipes, accepted, rounds[..n]);
    pub.Destroy();
    log := pub.dds.log;
  }
}
