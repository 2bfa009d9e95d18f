/**
 * The waiting room of a high-demand event: a queue ordered by arrival, a release
 * tick that admits a batch from its front, and a lock that lets one replica run
 * each tick. Times are milliseconds; a session stands for its id, compared as
 * Redis compares the members of a sorted set.
 */
module WaitingRoom {
  import opened Common

  type Session = nat

  const ADMITTED_TTL_MS := 600000
  const RELEASE_LOCK_TTL_MS := 4000

  datatype Entry = Entry(score: int, session: Session)

  type Queue = seq<Entry>

  type Capacity = EventId -> Option<nat>

  datatype Config = Config(batch: nat, maxQueueMultiplier: nat)

  /** `admitted` maps a session to when its admission lapses; `lockUntil` is the release lock. */
  datatype Room = Room(
    queues: map<EventId, Queue>, admitted: map<(EventId, Session), int>,
    highDemand: set<EventId>, lockUntil: Option<int>)

  /** (score, member) order of a sorted set. */
  predicate Ahead(a: Entry, b: Entry) {
    a.score < b.score || (a.score == b.score && a.session < b.session)
  }

  function QueueOf(queues: map<EventId, Queue>, event: EventId): Queue {
    if event in queues then queues[event] else []
  }

  predicate Waits(q: Queue, session: Session) {
    exists k :: 0 <= k < |q| && q[k].session == session
  }

  /** Insertion at the place the order gives. */
  function Placed(q: Queue, entry: Entry): Queue {
    if q == [] || Ahead(entry, q[0]) then [entry] + q else [q[0]] + Placed(q[1..], entry)
  }

  lemma {:induction false} PlacedWaits(q: Queue, entry: Entry)
    ensures Waits(Placed(q, entry), entry.session)
  {
    if q == [] || Ahead(entry, q[0]) {
      assert Placed(q, entry)[0] == entry;
    } else {
      PlacedWaits(q[1..], entry);
      var k :| 0 <= k < |Placed(q[1..], entry)| && Placed(q[1..], entry)[k].session == entry.session;
      assert Placed(q, entry)[k + 1].session == entry.session;
    }
  }

  /** `entry` stands at place `n`, behind all it is not ahead of up to the first it is ahead of. */
  ghost predicate InsertedAt(before: Queue, after: Queue, entry: Entry, n: nat) {
    && n <= |before| && after == before[..n] + [entry] + before[n..]
    && (forall k :: 0 <= k < n ==> !Ahead(entry, before[k])) && (n < |before| ==> Ahead(entry, before[n]))
  }

  ghost predicate InsertedInOrder(before: Queue, after: Queue, entry: Entry) {
    exists n: nat :: InsertedAt(before, after, entry, n)
  }

  lemma {:induction false} PlacedInOrder(q: Queue, entry: Entry)
    ensures InsertedInOrder(q, Placed(q, entry), entry)
  {
    if q == [] || Ahead(entry, q[0]) {
      assert InsertedAt(q, Placed(q, entry), entry, 0);
    } else {
      PlacedInOrder(q[1..], entry);
      var n: nat :| InsertedAt(q[1..], Placed(q[1..], entry), entry, n);
      InsertedBehind(q, Placed(q[1..], entry), entry, n);
      assert InsertedAt(q, Placed(q, entry), entry, n + 1);
    }
  }

  lemma InsertedBehind(q: Queue, after: Queue, entry: Entry, n: nat)
    requires q != [] && !Ahead(entry, q[0]) && InsertedAt(q[1..], after, entry, n)
    ensures InsertedAt(q, [q[0]] + after, entry, n + 1)
  {
    assert [q[0]] + after == q[..n + 1] + [entry] + q[n + 1..];
    hide Ahead;
    forall k | 0 <= k < n + 1
      ensures !Ahead(entry, q[k])
    {
      assert k > 0 ==> q[k] == q[1..][k - 1];
    }
  }

  /** ZADD NX: a session that waits already keeps its score. */
  function Enqueued(q: Queue, session: Session, now: int): Queue {
    if Waits(q, session) then q else Placed(q, Entry(now, session))
  }

  predicate IsAdmitted(room: Room, event: EventId, session: Session, now: int) {
    (event, session) in room.admitted && now < room.admitted[(event, session)]
  }

  datatype JoinAnswer = Welcome | Rejected | Queued

  function JoinOutcome(c: Config, room: Room, event: EventId, session: Session, hint: Option<nat>, now: int): JoinAnswer {
    if IsAdmitted(room, event, session, now) then Welcome
    else if hint.Some? && hint.value > 0 && |QueueOf(room.queues, event)| >= hint.value * c.maxQueueMultiplier then Rejected
    else Queued
  }

  function AfterJoin(c: Config, room: Room, event: EventId, session: Session, hint: Option<nat>, now: int): Room {
    if JoinOutcome(c, room, event, session, hint, now) != Queued then room
    else room.(queues := room.queues[event := Enqueued(QueueOf(room.queues, event), session, now)],
               highDemand := room.highDemand + {event})
  }

  /** Never more than what is left to sell; an unknown event falls back to the fixed batch. */
  function BatchSize(c: Config, capacity: Option<nat>): nat {
    if capacity.None? || c.batch <= capacity.value then c.batch else capacity.value
  }

  function Batch(c: Config, room: Room, event: EventId, capacity: Capacity): Queue {
    var q := QueueOf(room.queues, event);
    if event in room.highDemand then q[..Min(BatchSize(c, capacity(event)), |q|)] else []
  }

  predicate Wins(room: Room, now: int) {
    room.lockUntil.Some? ==> room.lockUntil.value <= now
  }

  /** The keys a batch per event of `done` admits. */
  function AdmittedKeys(c: Config, room: Room, done: set<EventId>, capacity: Capacity): set<(EventId, Session)> {
    set e, k | e in done && 0 <= k < |Batch(c, room, e, capacity)| :: (e, Batch(c, room, e, capacity)[k].session)
  }

  function Admitting(admitted: map<(EventId, Session), int>, keys: set<(EventId, Session)>, now: int): map<(EventId, Session), int> {
    map x | x in admitted.Keys + keys :: if x in keys then now + ADMITTED_TTL_MS else admitted[x]
  }

  function Shortened(c: Config, room: Room, done: set<EventId>, capacity: Capacity): map<EventId, Queue> {
    map e | e in room.queues ::
      if e in done then room.queues[e][|Batch(c, room, e, capacity)|..] else room.queues[e]
  }

  function Busy(room: Room, done: set<EventId>): set<EventId> {
    set e | e in done && QueueOf(room.queues, e) != []
  }

  /** One tick: the replica that gets the lock admits a batch for each event of the set, and drops idle events from it. */
  function AfterRelease(c: Config, room: Room, capacity: Capacity, now: int): Room {
    if !Wins(room, now) then room
    else Room(Shortened(c, room, room.highDemand, capacity),
              Admitting(room.admitted, AdmittedKeys(c, room, room.highDemand, capacity), now),
              Busy(room, room.highDemand),
              Some(now + RELEASE_LOCK_TTL_MS))
  }

  /** How many from the front of its queue a tick admits to an event: its batch, but no more than are left to sell. */
  ghost function Admits(c: Config, room: Room, event: EventId, capacity: Capacity): (n: nat)
    ensures n <= |QueueOf(room.queues, event)|
  {
    var cap := if capacity(event).Some? && capacity(event).value < c.batch then capacity(event).value else c.batch;
    if event !in room.highDemand then 0 else if cap < |QueueOf(room.queues, event)| then cap else |QueueOf(room.queues, event)|
  }

  /** A tick admitted those in front, for ten minutes, and holds the release lock for four seconds; events nobody waited for are dropped. */
  ghost predicate Ticked(c: Config, before: Room, after: Room, capacity: Capacity, now: int) {
    && after.lockUntil == Some(now + 4_000)
    && after.highDemand == (set e | e in before.highDemand && QueueOf(before.queues, e) != [])
    && (forall e :: QueueOf(after.queues, e) == QueueOf(before.queues, e)[Admits(c, before, e, capacity)..])
    && (forall e: EventId, session: Session :: (e, session) in after.admitted <==>
          (e, session) in before.admitted || Waits(QueueOf(before.queues, e)[..Admits(c, before, e, capacity)], session))
    && (forall e: EventId, session: Session :: (e, session) in after.admitted ==>
          after.admitted[(e, session)] == if Waits(QueueOf(before.queues, e)[..Admits(c, before, e, capacity)], session)
                                          then now + 600_000 else before.admitted[(e, session)])
  }

  lemma TickAsPromised(c: Config, room: Room, capacity: Capacity, now: int)
    requires Wins(room, now)
    ensures Ticked(c, room, AfterRelease(c, room, capacity, now), capacity, now)
  {
    forall e
      ensures Batch(c, room, e, capacity) == QueueOf(room.queues, e)[..Admits(c, room, e, capacity)]
    {
    }
    hide BatchSize;
    hide Batch;
    hide Admits;
    forall e: EventId, session: Session
      ensures (e, session) in AdmittedKeys(c, room, room.highDemand, capacity) <==>
                e in room.highDemand && Waits(Batch(c, room, e, capacity), session)
    {
    }
    forall e | e !in room.highDemand
      ensures Admits(c, room, e, capacity) == 0
    {
      AdmitsOfIdle(c, room, e, capacity);
    }
    hide AdmittedKeys;
  }

  lemma AdmitsOfIdle(c: Config, room: Room, e: EventId, capacity: Capacity)
    requires e !in room.highDemand
    ensures Admits(c, room, e, capacity) == 0
  {
  }

  class WaitingRoomService {
    const config: Config
    var queues: map<EventId, Queue>
    var admitted: map<(EventId, Session), int>
    var highDemand: set<EventId>
    var lockUntil: Option<int>

    ghost function State(): Room
      reads this
    {
      Room(queues, admitted, highDemand, lockUntil)
    }

    constructor (config: Config)
      ensures this.config == config && State() == Room(map[], map[], {}, None)
    {
      this.config := config;
      queues, admitted, highDemand, lockUntil := map[], map[], {}, None;
    }

    method Join(event: EventId, session: Session, hint: Option<nat>, now: int) returns (answer: JoinAnswer)
      modifies this
      ensures answer == JoinOutcome(config, old(State()), event, session, hint, now)
      ensures State() == AfterJoin(config, old(State()), event, session, hint, now)
      ensures answer == Welcome <==> (event, session) in old(admitted) && now < old(admitted)[(event, session)]
      ensures answer == Rejected ==> exists left :: hint == Some(left) && 0 < left && left * config.maxQueueMultiplier <= |QueueOf(old(queues), event)|
      ensures answer == Queued ==> forall left :: hint == Some(left) && 0 < left ==> |QueueOf(old(queues), event)| < left * config.maxQueueMultiplier
      ensures if answer != Queued then State() == old(State())
              else
                && Waits(QueueOf(queues, event), session) && highDemand == old(highDemand) + {event}
                && (forall e :: e != event ==> QueueOf(queues, e) == QueueOf(old(queues), e))
                && admitted == old(admitted) && lockUntil == old(lockUntil)
                && if Waits(QueueOf(old(queues), event), session) then QueueOf(queues, event) == QueueOf(old(queues), event)
                   else InsertedInOrder(QueueOf(old(queues), event), QueueOf(queues, event), Entry(now, session))
    {
      if (event, session) in admitted && now < admitted[(event, session)] {
        return Welcome;
      }
      var q := QueueOf(queues, event);
      if hint.Some? && hint.value > 0 && |q| >= hint.value * config.maxQueueMultiplier {
        return Rejected;
      }
      PlacedWaits(q, Entry(now, session));
      PlacedInOrder(q, Entry(now, session));
      hide Placed;
      hide InsertedInOrder;
      queues := queues[event := Enqueued(q, session, now)];
      highDemand := highDemand + {event};
      return Queued;
    }

    /** 1-based place in the queue, None when the session does not wait. */
    method Position(event: EventId, session: Session) returns (p: Option<nat>)
      ensures p.None? <==> !Waits(QueueOf(queues, event), session)
      ensures p.Some? ==>
                var q := QueueOf(queues, event);
                && 0 < p.value <= |q| && q[p.value - 1].session == session
                && forall k :: 0 <= k < p.value - 1 ==> q[k].session != session
    {
      var q := QueueOf(queues, event);
      for k := 0 to |q|
        invariant forall j :: 0 <= j < k ==> q[j].session != session
      {
        if q[k].session == session {
          return Some(k + 1);
        }
      }
      return None;
    }

    method Release(capacity: Capacity, now: int)
      modifies this
      ensures State() == AfterRelease(config, old(State()), capacity, now)
      ensures old(lockUntil).Some? && now < old(lockUntil).value ==> State() == old(State())
      ensures old(lockUntil).None? || old(lockUntil).value <= now ==>
                Ticked(config, old(State()), State(), capacity, now)
    {
      if lockUntil.Some? && now < lockUntil.value {
        return;
      }
      TickAsPromised(config, State(), capacity, now);
      hide Ticked;
      hide Shortened;
      hide AdmittedKeys;
      hide Admitting;
      lockUntil := Some(now + RELEASE_LOCK_TTL_MS);
      var busy := TickEvents(old(State()), capacity, now);
      highDemand := busy;
    }

    /** Admits a batch of every event of the set, and returns those that had somebody waiting. */
    method TickEvents(ghost room: Room, capacity: Capacity, now: int) returns (busy: set<EventId>)
      requires room.queues == queues && room.admitted == admitted && room.highDemand == highDemand
      modifies this`queues, this`admitted
      ensures && busy == Busy(room, room.highDemand)
              && queues == Shortened(config, room, room.highDemand, capacity)
              && admitted == Admitting(room.admitted, AdmittedKeys(config, room, room.highDemand, capacity), now)
    {
      hide Shortened;
      hide AdmittedKeys;
      hide Admitting;
      hide Batch;
      hide BatchSize;
      hide KeysOf;
      hide QueueOf;
      hide Busy;
      var left := highDemand;
      ghost var done: set<EventId> := {};
      busy := {};
      NothingDone(config, room, capacity, now);
      while left != {}
        invariant done + left == room.highDemand && done !! left
        invariant busy == Busy(room, done)
        invariant queues == Shortened(config, room, done, capacity)
        invariant admitted == Admitting(room.admitted, AdmittedKeys(config, room, done, capacity), now)
        decreases |left|
      {
        var event :| event in left;
        OneMoreDone(config, room, done, event, capacity, now);
        OneMoreAdmitted(config, room, done, event, capacity, now);
        var waiting := ReleaseEvent(event, capacity(event), now);
        if waiting {
          busy := busy + {event};
        }
        done := done + {event};
        left := left - {event};
      }
      assert done == room.highDemand;
    }

    method ReleaseEvent(event: EventId, capacity: Option<nat>, now: int) returns (waiting: bool)
      modifies this`queues, this`admitted
      ensures var q := QueueOf(old(queues), event);
              var n := Min(BatchSize(config, capacity), |q|);
              && waiting == (q != [])
              && queues == (if q != [] then old(queues)[event := q[n..]] else old(queues))
              && admitted == Admitting(old(admitted), KeysOf(event, q[..n]), now)
    {
      var q := QueueOf(queues, event);
      waiting := q != [];
      var batch := q[..Min(BatchSize(config, capacity), |q|)];
      AdmitAll(event, batch, now);
      if waiting {
        queues := queues[event := q[|batch|..]];
      }
    }

    method AdmitAll(event: EventId, batch: Queue, now: int)
      modifies this`admitted
      ensures admitted == Admitting(old(admitted), KeysOf(event, batch), now)
    {
      for k := 0 to |batch|
        invariant admitted == Admitting(old(admitted), KeysOf(event, batch[..k]), now)
      {
        assert batch[..k + 1] == batch[..k] + [batch[k]];
        assert KeysOf(event, batch[..k + 1]) == KeysOf(event, batch[..k]) + {(event, batch[k].session)} by { KeysOfOneMore(event, batch[..k], batch[k]); }
        admitted := admitted[(event, batch[k].session) := now + ADMITTED_TTL_MS];
      }
      assert batch[..|batch|] == batch;
    }
  }

  function KeysOf(event: EventId, batch: Queue): set<(EventId, Session)> {
    set k | 0 <= k < |batch| :: (event, batch[k].session)
  }

  lemma KeysOfOneMore(event: EventId, batch: Queue, entry: Entry)
    ensures KeysOf(event, batch + [entry]) == KeysOf(event, batch) + {(event, entry.session)}
  {
    var more := batch + [entry];
    forall x
      ensures x in KeysOf(event, more) <==> x in KeysOf(event, batch) || x == (event, entry.session)
    {
      if x in KeysOf(event, batch) {
        var k :| 0 <= k < |batch| && x == (event, batch[k].session);
        assert more[k] == batch[k];
      }
      if x == (event, entry.session) {
        assert more[|batch|] == entry;
      }
    }
  }

  lemma NothingDone(c: Config, room: Room, capacity: Capacity, now: int)
    ensures Busy(room, {}) == {}
    ensures Shortened(c, room, {}, capacity) == room.queues
    ensures Admitting(room.admitted, AdmittedKeys(c, room, {}, capacity), now) == room.admitted
  {
  }

  /** The tick handles one more event of the set. */
  lemma OneMoreDone(c: Config, room: Room, done: set<EventId>, event: EventId, capacity: Capacity, now: int)
    requires event in room.highDemand && event !in done
    ensures var batch := Batch(c, room, event, capacity);
            var q := QueueOf(room.queues, event);
            var queues := Shortened(c, room, done, capacity);
            && QueueOf(queues, event) == q
            && batch == q[..Min(BatchSize(c, capacity(event)), |q|)]
            && Shortened(c, room, done + {event}, capacity) == (if q != [] then queues[event := q[|batch|..]] else queues)
            && Busy(room, done + {event}) == (if q != [] then Busy(room, done) + {event} else Busy(room, done))
  {
    hide BatchSize;
  }

  lemma OneMoreAdmitted(c: Config, room: Room, done: set<EventId>, event: EventId, capacity: Capacity, now: int)
    ensures Admitting(Admitting(room.admitted, AdmittedKeys(c, room, done, capacity), now), KeysOf(event, Batch(c, room, event, capacity)), now)
            == Admitting(room.admitted, AdmittedKeys(c, room, done + {event}, capacity), now)
  {
    var keys := AdmittedKeys(c, room, done, capacity);
    var more := KeysOf(event, Batch(c, room, event, capacity));
    assert AdmittedKeys(c, room, done + {event}, capacity) == keys + more by { hide Batch; }
    hide AdmittedKeys;
    hide KeysOf;
  }
}
