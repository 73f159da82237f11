/** Acquisition and release of the Fast DDS entities, against the rules of OMG DDS 1.4
    section 2.2.2.2.1: an entity is created on a live entity, and deleted once, on the entity
    that created it, while nothing live depends on it. */
module DdsEntities {
  datatype EntityKind = ParticipantEntity | TopicEntity | PublisherEntity | WriterEntity

  datatype Handle = Null | Id(id: nat)

  ghost function IdSet(h: Handle): set<nat> { if h.Id? then {h.id} else {} }

  /** `on` is the pointer the call is made on, null for the participant factory; `uses` are
      the other entities a new one depends on. */
  datatype DdsCall =
    | Created(kind: EntityKind, id: nat, on: Handle, uses: set<nat>)
    | Deleted(kind: EntityKind, id: nat, on: Handle)

  datatype Entity = Entity(kind: EntityKind, on: Handle, uses: set<nat>) {
    ghost function Parents(): set<nat> { IdSet(on) + uses }
  }

  datatype Ledger = Broken | Live(entities: map<nat, Entity>, used: set<nat>)

  /** The factory creates participants, a participant topics and publishers, and a publisher
      writers, for one topic of its own participant. */
  ghost predicate MayCreate(m: map<nat, Entity>, kind: EntityKind, on: Handle, uses: set<nat>)
  {
    match kind
    case ParticipantEntity => on == Null && uses == {}
    case TopicEntity => on.Id? && on.id in m && m[on.id].kind == ParticipantEntity && uses == {}
    case PublisherEntity => on.Id? && on.id in m && m[on.id].kind == ParticipantEntity && uses == {}
    case WriterEntity =>
      && on.Id? && on.id in m && m[on.id].kind == PublisherEntity
      && exists t :: uses == {t} && t in m && m[t].kind == TopicEntity && m[t].on == m[on.id].on
  }

  /** The ledger after one more call to Fast DDS; a call that is not allowed, or made on a
      null pointer, breaks it. */
  ghost function Book(l: Ledger, e: DdsCall): Ledger
  {
    match l
    case Broken => Broken
    case Live(m, used) =>
      match e
      case Created(kind, id, on, uses) =>
        if id in used || !MayCreate(m, kind, on, uses) then Broken
        else Live(m[id := Entity(kind, on, uses)], used + {id})
      case Deleted(kind, id, on) =>
        if id !in m || m[id].kind != kind || m[id].on != on || exists c :: c in m && id in m[c].Parents() then Broken
        else Live(m - {id}, used)
  }

  ghost function Replay(log: seq<DdsCall>): Ledger
  {
    if log == [] then Live(map[], {}) else Book(Replay(log[..|log| - 1]), log[|log| - 1])
  }

  lemma ReplayStep(log: seq<DdsCall>, e: DdsCall)
    ensures Replay(log + [e]) == Book(Replay(log), e)
  {
    assert (log + [e])[..|log|] == log;
  }

  ghost function Creations(log: seq<DdsCall>, id: nat): nat
  {
    if log == [] then 0
    else
      Creations(log[..|log| - 1], id)
      + (if log[|log| - 1].Created? && log[|log| - 1].id == id then 1 else 0)
  }

  ghost function Deletions(log: seq<DdsCall>, id: nat): nat
  {
    if log == [] then 0
    else
      Deletions(log[..|log| - 1], id)
      + (if log[|log| - 1].Deleted? && log[|log| - 1].id == id then 1 else 0)
  }

  /** All calls were allowed, nothing is live, and everything created was deleted exactly once. */
  ghost predicate Released(log: seq<DdsCall>)
  {
    && Replay(log).Live? && Replay(log).entities == map[]
    && forall id :: Creations(log, id) == Deletions(log, id) <= 1
  }

  lemma NoCalls()
    ensures Released([])
  {
  }

  /** In an unbroken ledger everything used was created once, and deleted once unless live. */
  lemma {:induction false} LiveIsBalance(log: seq<DdsCall>, id: nat)
    requires Replay(log).Live?
    ensures var l := Replay(log);
            && (id in l.entities ==> id in l.used)
            && Creations(log, id) == (if id in l.used then 1 else 0)
            && Deletions(log, id) == (if id in l.used && id !in l.entities then 1 else 0)
  {
    if log == [] {
    } else {
      LiveIsBalance(log[..|log| - 1], id);
      hide Entity.Parents;
    }
  }

  lemma {:induction false} EntityAsCreated(log: seq<DdsCall>, k: nat)
    requires Replay(log).Live? && k < |log| && log[k].Created?
    ensures var l, e := Replay(log), log[k];
            && Replay(log[..k]).Live? && e.id in l.used
            && (e.id in l.entities ==> l.entities[e.id] == Entity(e.kind, e.on, e.uses))
  {
    var past, last := log[..|log| - 1], log[|log| - 1];
    if k == |past| {
      assert log[..k] == past;
    } else {
      assert past[..k] == log[..k] && past[k] == log[k];
      EntityAsCreated(past, k);
      LiveIsBalance(past, log[k].id);
    }
    hide MayCreate, Entity.Parents;
  }

  lemma {:induction false} PrefixLive(log: seq<DdsCall>, i: nat)
    requires Replay(log).Live? && i <= |log|
    ensures Replay(log[..i]).Live?
    ensures i < |log| ==> Book(Replay(log[..i]), log[i]).Live?
  {
    if i == |log| {
      assert log[..i] == log;
    } else {
      var past := log[..|log| - 1];
      PrefixLive(past, i);
      assert past[..i] == log[..i];
      if i < |past| { assert past[i] == log[i]; }
      hide Book;
    }
  }

  /** In a log whose calls are all allowed, everything created on an entity, or using it, has
      been deleted before that entity is. */
  lemma ChildrenFirst(log: seq<DdsCall>, i: nat, k: nat)
    requires Replay(log).Live? && k < i < |log| && log[i].Deleted? && log[k].Created?
    requires log[k].on == Id(log[i].id) || log[i].id in log[k].uses
    ensures Deletions(log[..i], log[k].id) == 1
  {
    PrefixLive(log, i);
    var before := log[..i];
    assert before[k] == log[k];
    EntityAsCreated(before, k);
    LiveIsBalance(before, log[k].id);
    hide Replay, Deletions, Creations;
  }

  /** A live entity that is not deleted stays live, unless the ledger breaks. */
  lemma SparedStays(log: seq<DdsCall>, e: DdsCall, p: nat)
    requires Replay(log).Live? ==> p in Replay(log).entities
    requires e == Deleted(e.kind, e.id, e.on) ==> e.id != p
    ensures Replay(log + [e]).Live? ==> p in Replay(log + [e]).entities
  {
    ReplayStep(log, e);
    hide Replay, Entity.Parents;
  }

  /** Which of the four creations succeed. */
  datatype Outcome = Outcome(participant: bool, topic: bool, publisher: bool, writer: bool) {
    predicate Succeeds() { participant && topic && publisher && writer }
  }

  /** The four pointers of a publisher object. */
  datatype Handles = Handles(participant: Handle, topic: Handle, publisher: Handle, writer: Handle) {

    /** Writer implies publisher and topic, and these imply participant; later entities have
        larger numbers. */
    ghost predicate Nested(nextId: nat)
    {
      && (writer.Id? ==> publisher.Id? && topic.Id? && publisher.id < writer.id < nextId)
      && (publisher.Id? ==> participant.Id? && participant.id < publisher.id < nextId)
      && (topic.Id? ==> participant.Id? && participant.id < topic.id < nextId)
      && (publisher.Id? && topic.Id? ==> topic.id < publisher.id)
      && (participant.Id? ==> participant.id < nextId)
    }

    ghost predicate Empty() { participant == Null && topic == Null && publisher == Null && writer == Null }

    ghost predicate Complete() { participant.Id? && topic.Id? && publisher.Id? && writer.Id? }

    ghost predicate Avoids(id: nat)
    {
      participant != Id(id) && topic != Id(id) && publisher != Id(id) && writer != Id(id)
    }

    ghost function One(h: Handle, e: Entity): map<nat, Entity> { if h.Id? then map[h.id := e] else map[] }

    /** The entities pointed to, as they were created. */
    ghost function Held(): map<nat, Entity>
    {
      One(participant, Entity(ParticipantEntity, Null, {}))
      + One(topic, Entity(TopicEntity, participant, {}))
      + One(publisher, Entity(PublisherEntity, participant, {}))
      + One(writer, Entity(WriterEntity, publisher, IdSet(topic)))
    }
  }

  const EMPTY := Handles(Null, Null, Null, Null)

  lemma NothingHeld(h: Handles)
    requires h.Empty()
    ensures h.Held() == map[]
  {
  }

  lemma AvoidedNotHeld(h: Handles, id: nat)
    requires h.Avoids(id)
    ensures id !in h.Held()
  {
  }

  // One lemma per call to Fast DDS: it is allowed, and the live entities stay the held ones.

  lemma ParticipantCreated(h: Handles, n: nat, used: set<nat>)
    requires n !in used && h.Empty()
    ensures Book(Live(h.Held(), used), Created(ParticipantEntity, n, Null, {}))
         == Live(h.(participant := Id(n)).Held(), used + {n})
  {
  }

  lemma TopicCreated(h: Handles, n: nat, used: set<nat>)
    requires n !in used && h.Nested(n) && h.participant.Id? && h.topic == h.publisher == h.writer == Null
    ensures Book(Live(h.Held(), used), Created(TopicEntity, n, h.participant, {}))
         == Live(h.(topic := Id(n)).Held(), used + {n})
  {
  }

  lemma PublisherCreated(h: Handles, n: nat, used: set<nat>)
    requires n !in used && h.Nested(n) && h.participant.Id? && h.topic.Id? && h.publisher == h.writer == Null
    ensures Book(Live(h.Held(), used), Created(PublisherEntity, n, h.participant, {}))
         == Live(h.(publisher := Id(n)).Held(), used + {n})
  {
  }

  lemma WriterCreated(h: Handles, n: nat, used: set<nat>)
    requires n !in used && h.Nested(n) && h.publisher.Id? && h.topic.Id? && h.writer == Null
    ensures Book(Live(h.Held(), used), Created(WriterEntity, n, h.publisher, {h.topic.id}))
         == Live(h.(writer := Id(n)).Held(), used + {n})
  {
  }

  lemma WriterHasNoChildren(h: Handles, n: nat)
    requires h.Nested(n) && h.writer.Id?
    ensures h.writer.id in h.Held() && h.Held()[h.writer.id] == Entity(WriterEntity, h.publisher, IdSet(h.topic))
    ensures forall c :: c in h.Held() ==> h.writer.id !in h.Held()[c].Parents()
    ensures h.Held() - {h.writer.id} == h.(writer := Null).Held()
  {
    assert h.Held() - {h.writer.id} == h.(writer := Null).Held();
  }

  lemma WriterDeleted(h: Handles, n: nat, used: set<nat>)
    requires h.Nested(n) && h.writer.Id?
    ensures Book(Live(h.Held(), used), Deleted(WriterEntity, h.writer.id, h.publisher))
         == Live(h.(writer := Null).Held(), used)
  {
    WriterHasNoChildren(h, n);
    hide Handles.Held, Handles.Nested, Entity.Parents;
  }

  lemma PublisherDeleted(h: Handles, n: nat, used: set<nat>)
    requires h.Nested(n) && h.publisher.Id? && h.writer == Null
    ensures Book(Live(h.Held(), used), Deleted(PublisherEntity, h.publisher.id, h.participant))
         == Live(h.(publisher := Null).Held(), used)
  {
    assert h.Held() - {h.publisher.id} == h.(publisher := Null).Held();
  }

  lemma TopicDeleted(h: Handles, n: nat, used: set<nat>)
    requires h.Nested(n) && h.topic.Id? && h.publisher == h.writer == Null
    ensures Book(Live(h.Held(), used), Deleted(TopicEntity, h.topic.id, h.participant))
         == Live(h.(topic := Null).Held(), used)
  {
    assert h.Held() - {h.topic.id} == h.(topic := Null).Held();
  }

  lemma ParticipantDeleted(h: Handles, n: nat, used: set<nat>)
    requires h.Nested(n) && h.participant.Id? && h.topic == h.publisher == h.writer == Null
    ensures Book(Live(h.Held(), used), Deleted(ParticipantEntity, h.participant.id, Null))
         == Live(h.(participant := Null).Held(), used)
  {
    assert h.Held() - {h.participant.id} == h.(participant := Null).Held();
  }

  // ---------- Cleaning up ----------

  ghost function WriterCalls(h: Handles): seq<DdsCall>
  {
    if h.writer.Id? then [Deleted(WriterEntity, h.writer.id, h.publisher)] else []
  }

  ghost function PublisherCalls(h: Handles): seq<DdsCall>
  {
    if h.publisher.Id? then [Deleted(PublisherEntity, h.publisher.id, h.participant)] else []
  }

  ghost function TopicCalls(h: Handles): seq<DdsCall>
  {
    if h.topic.Id? then [Deleted(TopicEntity, h.topic.id, h.participant)] else []
  }

  ghost function ParticipantCalls(h: Handles): seq<DdsCall>
  {
    if h.participant.Id? then [Deleted(ParticipantEntity, h.participant.id, Null)] else []
  }

  /** Whatever is held is deleted, children first. */
  ghost function CleanupCalls(h: Handles): seq<DdsCall>
  {
    WriterCalls(h) + PublisherCalls(h) + TopicCalls(h) + ParticipantCalls(h)
  }

  lemma CleanupIs(h: Handles)
    ensures CleanupCalls(h) == WriterCalls(h) + PublisherCalls(h) + TopicCalls(h) + ParticipantCalls(h)
  {
    hide WriterCalls, PublisherCalls, TopicCalls, ParticipantCalls;
  }

  /** The pointers are nested, all calls so far were allowed, and exactly the entities
      pointed to are live. */
  ghost predicate InOrder(log: seq<DdsCall>, h: Handles, nextId: nat)
  {
    && h.Nested(nextId)
    && Replay(log).Live? && Replay(log).entities == h.Held()
    && forall id :: id in Replay(log).used ==> id < nextId
  }

  lemma InOrderStep(log: seq<DdsCall>, h: Handles, n: nat, calls: seq<DdsCall>, h1: Handles)
    requires InOrder(log, h, n) && h1.Nested(n) && |calls| <= 1
    requires calls == [] ==> h1 == h
    requires calls != [] ==> Book(Live(h.Held(), Replay(log).used), calls[0]) == Live(h1.Held(), Replay(log).used)
    ensures InOrder(log + calls, h1, n)
  {
    hide Book, Replay, Handles.Held;
    if calls == [] {
      assert log + calls == log;
    } else {
      ReplayStep(log, calls[0]);
      assert calls == [calls[0]];
    }
  }

  lemma WriterCleaned(log: seq<DdsCall>, h: Handles, n: nat)
    requires InOrder(log, h, n)
    ensures InOrder(log + WriterCalls(h), h.(writer := Null), n)
  {
    hide Book, Replay, Handles.Held;
    if h.writer.Id? { WriterDeleted(h, n, Replay(log).used); }
    InOrderStep(log, h, n, WriterCalls(h), h.(writer := Null));
  }

  lemma PublisherCleaned(log: seq<DdsCall>, h: Handles, n: nat)
    requires InOrder(log, h, n) && h.writer == Null
    ensures InOrder(log + PublisherCalls(h), h.(publisher := Null), n)
  {
    hide Book, Replay, Handles.Held;
    if h.publisher.Id? { PublisherDeleted(h, n, Replay(log).used); }
    InOrderStep(log, h, n, PublisherCalls(h), h.(publisher := Null));
  }

  lemma TopicCleaned(log: seq<DdsCall>, h: Handles, n: nat)
    requires InOrder(log, h, n) && h.publisher == h.writer == Null
    ensures InOrder(log + TopicCalls(h), h.(topic := Null), n)
  {
    hide Book, Replay, Handles.Held;
    if h.topic.Id? { TopicDeleted(h, n, Replay(log).used); }
    InOrderStep(log, h, n, TopicCalls(h), h.(topic := Null));
  }

  lemma ParticipantCleaned(log: seq<DdsCall>, h: Handles, n: nat)
    requires InOrder(log, h, n) && h.topic == h.publisher == h.writer == Null
    ensures InOrder(log + ParticipantCalls(h), h.(participant := Null), n)
  {
    hide Book, Replay, Handles.Held;
    if h.participant.Id? { ParticipantDeleted(h, n, Replay(log).used); }
    InOrderStep(log, h, n, ParticipantCalls(h), h.(participant := Null));
  }

  lemma EmptyIsReleased(log: seq<DdsCall>, n: nat)
    requires InOrder(log, EMPTY, n)
    ensures Released(log)
  {
    NothingHeld(EMPTY);
    forall id ensures Creations(log, id) == Deletions(log, id) <= 1 {
      LiveIsBalance(log, id);
    }
  }

  lemma Concatenated<T>(l: seq<T>, a: seq<T>, b: seq<T>, c: seq<T>, d: seq<T>)
    ensures l + a + b + c + d == l + (a + b + c + d)
  {
  }

  lemma CleanupParts(h: Handles, h1: Handles, h2: Handles, h3: Handles)
    requires h1 == h.(writer := Null) && h2 == h1.(publisher := Null) && h3 == h2.(topic := Null)
    ensures CleanupCalls(h) == WriterCalls(h) + PublisherCalls(h1) + TopicCalls(h2) + ParticipantCalls(h3)
    ensures h3.(participant := Null) == EMPTY
  {
    assert PublisherCalls(h1) == PublisherCalls(h) && TopicCalls(h2) == TopicCalls(h);
    assert ParticipantCalls(h3) == ParticipantCalls(h);
    hide WriterCalls, PublisherCalls, TopicCalls, ParticipantCalls;
  }

  /** Cleaning up an orderly publisher leaves nothing live, everything deleted once. */
  lemma CleanupInOrder(log: seq<DdsCall>, h: Handles, n: nat)
    requires InOrder(log, h, n)
    ensures InOrder(log + CleanupCalls(h), EMPTY, n)
    ensures Released(log + CleanupCalls(h))
  {
    hide *;
    var h1 := h.(writer := Null);
    var h2 := h1.(publisher := Null);
    var h3 := h2.(topic := Null);
    CleanupParts(h, h1, h2, h3);
    var a, b, c, d := WriterCalls(h), PublisherCalls(h1), TopicCalls(h2), ParticipantCalls(h3);
    WriterCleaned(log, h, n);
    PublisherCleaned(log + a, h1, n);
    TopicCleaned(log + a + b, h2, n);
    ParticipantCleaned(log + a + b + c, h3, n);
    Concatenated(log, a, b, c, d);
    EmptyIsReleased(log + CleanupCalls(h), n);
  }

  /** A live entity no pointer leads to survives a cleanup, unless the ledger breaks. */
  lemma {:induction false} CleanupSpares(log: seq<DdsCall>, calls: seq<DdsCall>, p: nat)
    requires Replay(log).Live? ==> p in Replay(log).entities
    requires forall e :: e in calls ==> e.Deleted? && e.id != p
    ensures Replay(log + calls).Live? ==> p in Replay(log + calls).entities
  {
    hide Replay;
    if calls == [] {
      assert log + calls == log;
    } else {
      var past, e := calls[..|calls| - 1], calls[|calls| - 1];
      CleanupSpares(log, past, p);
      SparedStays(log + past, e, p);
      assert log + past + [e] == log + calls;
    }
  }

  // ---------- Initialising ----------

  /** Started with nothing held, all is in order; otherwise the old participant p is live and
      no pointer leads to it any more. */
  ghost predicate Tracks(log: seq<DdsCall>, h: Handles, nextId: nat, clean: bool, p: Handle)
  {
    if clean then InOrder(log, h, nextId)
    else p.Id? && p.id < nextId && h.Avoids(p.id) && (Replay(log).Live? ==> p.id in Replay(log).entities)
  }

  lemma TracksMeans(log: seq<DdsCall>, h: Handles, n: nat, clean: bool, p: Handle)
    requires Tracks(log, h, n, clean, p)
    ensures InOrder(log, h, n) <==> clean
  {
    if !clean {
      AvoidedNotHeld(h, p.id);
      hide Replay, Handles.Held;
    }
  }

  lemma NewEntity(log: seq<DdsCall>, h: Handles, n: nat, e: DdsCall, h1: Handles)
    requires InOrder(log, h, n) && e.Created? && e.id == n && h1.Nested(n + 1)
    requires Book(Live(h.Held(), Replay(log).used), e) == Live(h1.Held(), Replay(log).used + {n})
    ensures InOrder(log + [e], h1, n + 1)
  {
    ReplayStep(log, e);
    hide Book, Replay, Handles.Held;
  }

  lemma StrayStays(log: seq<DdsCall>, h: Handles, n: nat, p: Handle, e: DdsCall, h1: Handles)
    requires Tracks(log, h, n, false, p) && e.Created? && forall id :: h.Avoids(id) && id != n ==> h1.Avoids(id)
    ensures Tracks(log + [e], h1, n + 1, false, p)
  {
    SparedStays(log, e, p.id);
    hide Replay;
  }

  lemma ParticipantTracked(log: seq<DdsCall>, h: Handles, n: nat)
    requires InOrder(log, h, n)
    ensures Tracks(log, h.(participant := Null), n, h.Empty(), h.participant)
    ensures Tracks(log + [Created(ParticipantEntity, n, Null, {})], h.(participant := Id(n)), n + 1, h.Empty(), h.participant)
  {
    hide Book, Replay;
    var e := Created(ParticipantEntity, n, Null, {});
    if h.Empty() {
      ParticipantCreated(h, n, Replay(log).used);
      NewEntity(log, h, n, e, h.(participant := Id(n)));
    } else {
      assert h.participant.id in h.Held();
      StrayStays(log, h.(participant := Null), n, h.participant, e, h.(participant := Id(n)));
    }
  }

  lemma TopicTracked(log: seq<DdsCall>, h: Handles, n: nat, clean: bool, p: Handle)
    requires Tracks(log, h, n, clean, p) && h.participant.Id?
    requires clean ==> h.topic == h.publisher == h.writer == Null
    ensures Tracks(log, h.(topic := Null), n, clean, p)
    ensures Tracks(log + [Created(TopicEntity, n, h.participant, {})], h.(topic := Id(n)), n + 1, clean, p)
  {
    hide Book, Replay, Handles.Held;
    var e := Created(TopicEntity, n, h.participant, {});
    if clean {
      TopicCreated(h, n, Replay(log).used);
      NewEntity(log, h, n, e, h.(topic := Id(n)));
    } else {
      StrayStays(log, h, n, p, e, h.(topic := Id(n)));
    }
  }

  lemma PublisherTracked(log: seq<DdsCall>, h: Handles, n: nat, clean: bool, p: Handle)
    requires Tracks(log, h, n, clean, p) && h.participant.Id? && h.topic.Id?
    requires clean ==> h.publisher == h.writer == Null
    ensures Tracks(log, h.(publisher := Null), n, clean, p)
    ensures Tracks(log + [Created(PublisherEntity, n, h.participant, {})], h.(publisher := Id(n)), n + 1, clean, p)
  {
    hide Book, Replay, Handles.Held;
    var e := Created(PublisherEntity, n, h.participant, {});
    if clean {
      PublisherCreated(h, n, Replay(log).used);
      NewEntity(log, h, n, e, h.(publisher := Id(n)));
    } else {
      StrayStays(log, h, n, p, e, h.(publisher := Id(n)));
    }
  }

  lemma WriterTracked(log: seq<DdsCall>, h: Handles, n: nat, clean: bool, p: Handle)
    requires Tracks(log, h, n, clean, p) && h.topic.Id? && h.publisher.Id?
    requires clean ==> h.writer == Null
    ensures Tracks(log, h.(writer := Null), n, clean, p)
    ensures Tracks(log + [Created(WriterEntity, n, h.publisher, {h.topic.id})], h.(writer := Id(n)), n + 1, clean, p)
  {
    hide Book, Replay, Handles.Held;
    var e := Created(WriterEntity, n, h.publisher, {h.topic.id});
    if clean {
      WriterCreated(h, n, Replay(log).used);
      NewEntity(log, h, n, e, h.(writer := Id(n)));
    } else {
      StrayStays(log, h, n, p, e, h.(writer := Id(n)));
    }
  }

  lemma CleanupTracked(log: seq<DdsCall>, h: Handles, n: nat, clean: bool, p: Handle)
    requires Tracks(log, h, n, clean, p)
    ensures Tracks(log + CleanupCalls(h), EMPTY, n, clean, p)
  {
    hide InOrder, Replay;
    if clean {
      CleanupInOrder(log, h, n);
    } else {
      CleanupSpares(log, CleanupCalls(h), p.id);
    }
  }

  class DdsPublisher {
    var participant: Handle
    var topic: Handle
    var publisher: Handle
    var writer: Handle
    var log: seq<DdsCall>
    var nextId: nat

    ghost function Fields(): Handles
      reads this
    {
      Handles(participant, topic, publisher, writer)
    }

    ghost predicate Valid()
      reads this
    {
      InOrder(log, Fields(), nextId)
    }

    constructor ()
      ensures Valid() && Fields().Empty() && log == []
    {
      participant, topic, publisher, writer := Null, Null, Null, Null;
      log, nextId := [], 0;
    }

    method Create(kind: EntityKind, on: Handle, uses: set<nat>, ok: bool) returns (h: Handle)
      modifies this`log, this`nextId
      ensures !ok ==> h == Null && log == old(log) && nextId == old(nextId)
      ensures ok ==> h == Id(old(nextId)) && nextId == old(nextId) + 1
      ensures ok ==> log == old(log) + [Created(kind, old(nextId), on, uses)]
    {
      h := Null;
      if ok {
        log := log + [Created(kind, nextId, on, uses)];
        h := Id(nextId);
        nextId := nextId + 1;
      }
    }

    method Delete(kind: EntityKind, h: Handle, on: Handle)
      requires h.Id?
      modifies this`log
      ensures log == old(log) + [Deleted(kind, h.id, on)]
    {
      log := log + [Deleted(kind, h.id, on)];
    }

    /** Releases whatever is held; from an orderly state this leaves every entity deleted once. */
    method Cleanup()
      modifies this
      ensures Fields().Empty() && nextId == old(nextId)
      ensures log == old(log) + CleanupCalls(old(Fields()))
      ensures old(Valid()) ==> Valid() && Released(log)
    {
      ghost var h := Fields();
      hide InOrder, Released, CleanupCalls;
      if InOrder(log, h, nextId) {
        CleanupInOrder(log, h, nextId);
      }
      CleanupIs(h);
      if writer != Null {
        Delete(WriterEntity, writer, publisher);
        writer := Null;
      }
      ghost var l1 := log;
      assert l1 == old(log) + WriterCalls(h);
      hide WriterCalls;
      if publisher != Null {
        Delete(PublisherEntity, publisher, participant);
        publisher := Null;
      }
      ghost var l2 := log;
      assert l2 == l1 + PublisherCalls(h);
      hide PublisherCalls;
      if topic != Null {
        Delete(TopicEntity, topic, participant);
        topic := Null;
      }
      ghost var l3 := log;
      assert l3 == l2 + TopicCalls(h);
      hide TopicCalls;
      if participant != Null {
        Delete(ParticipantEntity, participant, Null);
        participant := Null;
      }
      assert log == l3 + ParticipantCalls(h);
      Concatenated(old(log), WriterCalls(h), PublisherCalls(h), TopicCalls(h), ParticipantCalls(h));
    }

    /** Creates participant, topic, publisher and writer; on a later failure releases what there
        is.  The life of the entities stays in order if and only if nothing was held before. */
    method InitDds(o: Outcome) returns (ok: bool)
      modifies this
      ensures ok == o.Succeeds()
      ensures ok ==> Fields().Complete()
      ensures !ok && (o.participant || old(Fields().Empty())) ==> Fields().Empty()
      ensures !o.participant ==> Fields() == old(Fields()).(participant := Null) && log == old(log)
      ensures old(Valid()) ==> (Valid() <==> old(Fields().Empty()))
    {
      hide InOrder, Tracks, Replay, Book, CleanupCalls, Released, Handles.Held, Handles.Nested;
      ghost var h, orderly := Fields(), Valid();
      ghost var clean, p := h.Empty(), h.participant;
      if orderly {
        ParticipantTracked(log, h, nextId);
      }
      participant := Create(ParticipantEntity, Null, {}, o.participant);
      if participant == Null {
        if orderly {
          TracksMeans(log, Fields(), nextId, clean, p);
        }
        return false;
      }
      if orderly {
        TopicTracked(log, Fields(), nextId, clean, p);
      }
      topic := Create(TopicEntity, participant, {}, o.topic);
      if topic == Null {
        ghost var l, f := log, Fields();
        Cleanup();
        if orderly {
          CleanupTracked(l, f, nextId, clean, p);
          TracksMeans(log, Fields(), nextId, clean, p);
        }
        return false;
      }
      if orderly {
        PublisherTracked(log, Fields(), nextId, clean, p);
      }
      publisher := Create(PublisherEntity, participant, {}, o.publisher);
      if publisher == Null {
        ghost var l, f := log, Fields();
        Cleanup();
        if orderly {
          CleanupTracked(l, f, nextId, clean, p);
          TracksMeans(log, Fields(), nextId, clean, p);
        }
        return false;
      }
      if orderly {
        WriterTracked(log, Fields(), nextId, clean, p);
      }
      writer := Create(WriterEntity, publisher, {topic.id}, o.writer);
      if writer == Null {
        ghost var l, f := log, Fields();
        Cleanup();
        if orderly {
          CleanupTracked(l, f, nextId, clean, p);
          TracksMeans(log, Fields(), nextId, clean, p);
        }
        return false;
      }
      if orderly {
        TracksMeans(log, Fields(), nextId, clean, p);
      }
      return true;
    }
  }
}
