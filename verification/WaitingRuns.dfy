/**
 * The waiting room over whole runs of joins and release ticks by any number of
 * replicas: first come first served, with a bound on the wait.
 */
module WaitingRuns {
  import opened Common
  import opened WaitingRoom

  datatype Step =
    | Join(event: EventId, session: Session, hint: Option<nat>, now: int)
    | Release(capacity: Capacity, now: int)

  function Next(c: Config, room: Room, step: Step): Room {
    match step
    case Join(event, session, hint, now) => AfterJoin(c, room, event, session, hint, now)
    case Release(capacity, now) => AfterRelease(c, room, capacity, now)
  }

  function After(c: Config, room: Room, steps: seq<Step>): Room
    decreases |steps|
  {
    if steps == [] then room else After(c, Next(c, room, steps[0]), steps[1..])
  }

  /** Who a step admits to the event, in order. */
  function AdmittedBy(c: Config, room: Room, event: EventId, step: Step): Queue {
    if step.Release? && Wins(room, step.now) then Batch(c, room, event, step.capacity) else []
  }

  function Admissions(c: Config, room: Room, event: EventId, steps: seq<Step>): Queue
    decreases |steps|
  {
    if steps == [] then []
    else AdmittedBy(c, room, event, steps[0]) + Admissions(c, Next(c, room, steps[0]), event, steps[1..])
  }

  // ------------------------------------------------------- what holds always

  predicate InOrder(q: Queue) {
    && (forall i, j :: 0 <= i < j < |q| ==> Ahead(q[i], q[j]))
    && (forall i, j :: 0 <= i < j < |q| ==> q[i].session != q[j].session)
  }

  /** The queue is in order, and an event with somebody waiting is on the release worker's list. */
  ghost predicate RoomOk(room: Room, event: EventId) {
    InOrder(QueueOf(room.queues, event)) && (QueueOf(room.queues, event) != [] ==> event in room.highDemand)
  }

  lemma {:induction false} PlacedKeepsOrder(q: Queue, entry: Entry)
    requires InOrder(q) && !Waits(q, entry.session)
    ensures InOrder(Placed(q, entry))
    ensures forall e :: e in Placed(q, entry) <==> e in q || e == entry
  {
    if q != [] {
      var rest := q[1..];
      assert q[0].session != entry.session;
      assert forall k :: 0 <= k < |rest| ==> rest[k] == q[k + 1];
      if Ahead(entry, q[0]) {
        assert forall k :: 0 <= k < |q| ==> Ahead(entry, q[k]) && q[k].session != entry.session;
      } else {
        PlacedKeepsOrder(rest, entry);
        var placed := Placed(rest, entry);
        forall k | 0 <= k < |placed|
          ensures Ahead(q[0], placed[k]) && q[0].session != placed[k].session
        {
          assert placed[k] in placed;
          assert placed[k] in rest || placed[k] == entry;
        }
      }
    }
  }

  /** A newcomer moves an entry back by one place if it goes ahead of it, and not at all otherwise. */
  lemma {:induction false} PlacedShifts(q: Queue, entry: Entry, i: nat)
    requires InOrder(q) && !Waits(q, entry.session) && i < |q|
    ensures var shifted := if Ahead(entry, q[i]) then i + 1 else i;
            shifted < |Placed(q, entry)| && Placed(q, entry)[shifted] == q[i]
  {
    assert q[0].session != entry.session;
    if Ahead(entry, q[0]) {
      assert i > 0 ==> Ahead(q[0], q[i]);
    } else if i > 0 {
      assert forall k :: 0 <= k < |q[1..]| ==> q[1..][k] == q[k + 1];
      PlacedShifts(q[1..], entry, i - 1);
    }
  }

  /** What a step does to the queue of an event. */
  lemma QueueAfter(c: Config, room: Room, event: EventId, step: Step)
    ensures var q := QueueOf(room.queues, event);
            var after := QueueOf(Next(c, room, step).queues, event);
            match step
            case Join(e, session, _, now) => after == q || (e == event && after == Enqueued(q, session, now))
            case Release(_, _) =>
              var batch := AdmittedBy(c, room, event, step);
              |batch| <= |q| && batch == q[..|batch|] && after == q[|batch|..]
  {
  }

  lemma StepKeepsRoom(c: Config, room: Room, event: EventId, step: Step)
    requires RoomOk(room, event)
    ensures RoomOk(Next(c, room, step), event)
  {
    var q := QueueOf(room.queues, event);
    QueueAfter(c, room, event, step);
    if step.Join? && !Waits(q, step.session) {
      PlacedKeepsOrder(q, Entry(step.now, step.session));
    }
    hide Placed;
    hide Batch;
  }

  lemma {:induction false} RunKeepsRoom(c: Config, room: Room, event: EventId, steps: seq<Step>)
    requires RoomOk(room, event)
    ensures RoomOk(After(c, room, steps), event)
    decreases |steps|
  {
    hide RoomOk;
    hide Next;
    if steps != [] {
      StepKeepsRoom(c, room, event, steps[0]);
      RunKeepsRoom(c, Next(c, room, steps[0]), event, steps[1..]);
    }
  }

  // ----------------------------------------------------- first come first served

  predicate AheadOf(q: Queue, x: Entry, y: Entry) {
    exists i, j :: 0 <= i < j < |q| && q[i] == x && q[j] == y
  }

  /** Whenever `y` is admitted, `x` was admitted before. */
  ghost predicate XFirst(admissions: Queue, x: Entry, y: Entry) {
    forall p :: 0 <= p < |admissions| && admissions[p] == y ==> exists r :: 0 <= r < p && admissions[r] == x
  }

  lemma JoinKeepsAhead(q: Queue, session: Session, now: int, x: Entry, y: Entry)
    requires InOrder(q) && AheadOf(q, x, y)
    ensures AheadOf(Enqueued(q, session, now), x, y)
  {
    if !Waits(q, session) {
      var i, j :| 0 <= i < j < |q| && q[i] == x && q[j] == y;
      PlacedShifts(q, Entry(now, session), i);
      PlacedShifts(q, Entry(now, session), j);
      assert Ahead(x, y);
    }
  }

  /** Cutting a batch off the front leaves both waiting, or takes `x` first. */
  lemma BatchTakesFrontFirst(q: Queue, n: nat, x: Entry, y: Entry)
    requires InOrder(q) && AheadOf(q, x, y) && n <= |q|
    ensures if x in q[..n] then XFirst(q[..n], x, y) else y !in q[..n] && AheadOf(q[n..], x, y)
  {
    var i, j :| 0 <= i < j < |q| && q[i] == x && q[j] == y;
    if i < n {
      assert q[..n][i] == x;
      forall p | 0 <= p < n && q[..n][p] == y
        ensures exists r :: 0 <= r < p && q[..n][r] == x
      {
        assert q[p].session == q[j].session;
        assert q[..n][i] == x;
      }
    } else {
      assert q[n..][i - n] == x && q[n..][j - n] == y;
      forall p | 0 <= p < n
        ensures q[p] != y && q[p] != x
      {
        assert Ahead(q[p], q[i]) && Ahead(q[p], q[j]);
      }
    }
  }

  lemma FirstThenRest(batch: Queue, rest: Queue, x: Entry, y: Entry)
    requires (x in batch && XFirst(batch, x, y)) || (y !in batch && XFirst(rest, x, y))
    ensures XFirst(batch + rest, x, y)
  {
    var all := batch + rest;
    forall p | 0 <= p < |all| && all[p] == y
      ensures exists r :: 0 <= r < p && all[r] == x
    {
      if x in batch && XFirst(batch, x, y) {
        if p < |batch| {
          var r :| 0 <= r < p && batch[r] == x;
          assert all[r] == x;
        } else {
          var r :| 0 <= r < |batch| && batch[r] == x;
          assert all[r] == x;
        }
      } else {
        assert forall k :: 0 <= k < |batch| ==> batch[k] != y;
        var r :| 0 <= r < p - |batch| && rest[r] == x;
        assert all[r + |batch|] == x;
      }
    }
  }

  lemma {:induction false} OrderIsKept(c: Config, room: Room, event: EventId, steps: seq<Step>, x: Entry, y: Entry)
    requires RoomOk(room, event) && AheadOf(QueueOf(room.queues, event), x, y)
    ensures XFirst(Admissions(c, room, event, steps), x, y)
    decreases |steps|
  {
    if steps != [] {
      var q := QueueOf(room.queues, event);
      var batch := AdmittedBy(c, room, event, steps[0]);
      var next := Next(c, room, steps[0]);
      QueueAfter(c, room, event, steps[0]);
      StepKeepsRoom(c, room, event, steps[0]);
      if steps[0].Join? {
        JoinKeepsAhead(q, steps[0].session, steps[0].now, x, y);
      } else {
        BatchTakesFrontFirst(q, |batch|, x, y);
      }
      hide RoomOk;
      hide AheadOf;
      hide Next;
      hide AdmittedBy;
      if x !in batch {
        OrderIsKept(c, next, event, steps[1..], x, y);
      }
      FirstThenRest(batch, Admissions(c, next, event, steps[1..]), x, y);
    }
  }

  const EMPTY_ROOM := Room(map[], map[], {}, None)

  lemma ReachableRoom(c: Config, event: EventId, before: seq<Step>)
    ensures RoomOk(After(c, EMPTY_ROOM, before), event)
  {
    RunKeepsRoom(c, EMPTY_ROOM, event, before);
  }

  /** Nobody overtakes: in every reachable state and over every run from it, whoever waits ahead of `y` is admitted before `y` is. */
  lemma NobodyOvertakes(c: Config, event: EventId, before: seq<Step>, steps: seq<Step>, x: Entry, y: Entry)
    requires AheadOf(QueueOf(After(c, EMPTY_ROOM, before).queues, event), x, y)
    ensures XFirst(Admissions(c, After(c, EMPTY_ROOM, before), event, steps), x, y)
  {
    ReachableRoom(c, event, before);
    OrderIsKept(c, After(c, EMPTY_ROOM, before), event, steps, x, y);
  }

  // ------------------------------------------------------------ the wait is bounded

  /** Everybody who joins does so at a later millisecond. */
  predicate JoinsLater(steps: seq<Step>, score: int) {
    forall k :: 0 <= k < |steps| ==> steps[k].Join? ==> score < steps[k].now
  }

  predicate At(q: Queue, i: nat, x: Entry) {
    i < |q| && q[i] == x
  }

  /** The entry waits at place `i` or nearer to the front. */
  predicate NoFurther(q: Queue, i: nat, x: Entry) {
    exists j: nat :: j <= i && At(q, j, x)
  }

  /** One step: the entry is admitted, or comes nearer by the size of the batch. */
  lemma StepBringsNearer(c: Config, room: Room, event: EventId, step: Step, x: Entry, i: nat)
    requires RoomOk(room, event) && At(QueueOf(room.queues, event), i, x) && (step.Join? ==> x.score < step.now)
    ensures var n := |AdmittedBy(c, room, event, step)|;
            if i < n then x in AdmittedBy(c, room, event, step)
            else At(QueueOf(Next(c, room, step).queues, event), i - n, x)
  {
    var q := QueueOf(room.queues, event);
    QueueAfter(c, room, event, step);
    if step.Join? && !Waits(q, step.session) {
      PlacedShifts(q, Entry(step.now, step.session), i);
    }
    hide Placed;
    hide Next;
    var batch := AdmittedBy(c, room, event, step);
    if i < |batch| {
      assert batch[i] == x;
    }
  }

  /** Ticks won with a batch of at least `b` for the event. */
  function GoodTicks(c: Config, room: Room, event: EventId, steps: seq<Step>, b: nat): nat
    decreases |steps|
  {
    if steps == [] then 0
    else
      GoodTicks(c, Next(c, room, steps[0]), event, steps[1..], b) + if IsGood(c, room, event, steps[0], b) then 1 else 0
  }

  predicate IsGood(c: Config, room: Room, event: EventId, step: Step, b: nat) {
    step.Release? && Wins(room, step.now) && BatchSize(c, step.capacity(event)) >= b
  }

  function Served(ticks: nat, b: nat): nat {
    ticks * b
  }

  lemma OneMoreServed(ticks: nat, b: nat)
    ensures Served(ticks + 1, b) == Served(ticks, b) + b && Served(0, b) == 0
  {
  }

  lemma GoodTickServes(c: Config, room: Room, event: EventId, step: Step, b: nat)
    requires RoomOk(room, event)
    requires IsGood(c, room, event, step, b)
    ensures |AdmittedBy(c, room, event, step)| >= Min(b, |QueueOf(room.queues, event)|)
  {
  }

  /** From one step to the whole run, on plain numbers of ticks. */
  lemma NearerAndServed(i: nat, n: nat, size: nat, good: bool, ticks: nat, b: nat)
    requires n <= i < size && (good ==> n >= Min(b, size))
    ensures i < Served(ticks + if good then 1 else 0, b) ==> i - n < Served(ticks, b)
  {
    OneMoreServed(ticks, b);
  }

  lemma {:induction false} WaitShrinks(c: Config, room: Room, event: EventId, steps: seq<Step>, x: Entry, i: nat, b: nat)
    requires RoomOk(room, event) && At(QueueOf(room.queues, event), i, x) && JoinsLater(steps, x.score)
    ensures i < Served(GoodTicks(c, room, event, steps, b), b) ==> x in Admissions(c, room, event, steps)
    ensures x in Admissions(c, room, event, steps) || NoFurther(QueueOf(After(c, room, steps).queues, event), i, x)
    decreases |steps|
  {
    hide Served;
    hide RoomOk;
    hide Next;
    hide AdmittedBy;
    if steps == [] {
      OneMoreServed(0, b);
      assert NoFurther(QueueOf(room.queues, event), i, x);
    } else {
      var step := steps[0];
      var next := Next(c, room, step);
      var n := |AdmittedBy(c, room, event, step)|;
      assert step in steps;
      StepBringsNearer(c, room, event, step, x, i);
      StepKeepsRoom(c, room, event, step);
      JoinsLaterStill(steps, x.score);
      hide JoinsLater;
      hide QueueOf;
      if i >= n {
        WaitShrinks(c, next, event, steps[1..], x, i - n, b);
        var good := IsGood(c, room, event, step, b);
        if good {
          GoodTickServes(c, room, event, step, b);
        }
        NearerAndServed(i, n, |QueueOf(room.queues, event)|, good, GoodTicks(c, next, event, steps[1..], b), b);
        hide IsGood;
        assert x in Admissions(c, next, event, steps[1..]) || NoFurther(QueueOf(After(c, next, steps[1..]).queues, event), i, x);
      }
    }
  }

  lemma JoinsLaterStill(steps: seq<Step>, score: int)
    requires JoinsLater(steps, score) && steps != []
    ensures JoinsLater(steps[1..], score)
  {
    assert forall k :: 0 <= k < |steps[1..]| ==> steps[1..][k] == steps[k + 1];
  }

  /**
   * In every reachable state: a session waiting at place i + 1 is admitted once the ticks
   * won, each with room for at least `b`, cover that place, that is within
   * ceil((i + 1) / b) of them. Until then its place never gets worse.
   */
  lemma WaitIsBounded(c: Config, event: EventId, before: seq<Step>, steps: seq<Step>, x: Entry, i: nat, b: nat)
    requires At(QueueOf(After(c, EMPTY_ROOM, before).queues, event), i, x) && JoinsLater(steps, x.score)
    ensures var room := After(c, EMPTY_ROOM, before);
            && (i < Served(GoodTicks(c, room, event, steps, b), b) ==> x in Admissions(c, room, event, steps))
            && (x in Admissions(c, room, event, steps) || NoFurther(QueueOf(After(c, room, steps).queues, event), i, x))
  {
    ReachableRoom(c, event, before);
    WaitShrinks(c, After(c, EMPTY_ROOM, before), event, steps, x, i, b);
  }

  // --------------------------------------------------------------- the ticks

  /** However many replicas tick, two ticks that admit anybody lie at least the lock's four seconds apart. */
  lemma {:induction false} TicksAreSpaced(c: Config, room: Room, capacity: Capacity, first: int, steps: seq<Step>, second: int)
    requires Wins(room, first) && Wins(After(c, AfterRelease(c, room, capacity, first), steps), second)
    ensures second >= first + RELEASE_LOCK_TTL_MS
  {
    LockOnlyMovesOn(c, AfterRelease(c, room, capacity, first), steps, first + RELEASE_LOCK_TTL_MS);
  }

  lemma {:induction false} LockOnlyMovesOn(c: Config, room: Room, steps: seq<Step>, until: int)
    requires room.lockUntil.Some? && room.lockUntil.value >= until
    ensures After(c, room, steps).lockUntil.Some? && After(c, room, steps).lockUntil.value >= until
    decreases |steps|
  {
    if steps != [] {
      LockOnlyMovesOn(c, Next(c, room, steps[0]), steps[1..], until);
    }
  }

  /** A tick admits no more than the batch and what is left to sell, and whoever it admits gets in for the whole TTL. */
  lemma TickAdmitsWithinCapacity(c: Config, room: Room, event: EventId, capacity: Capacity, now: int, k: nat, at: int)
    requires Wins(room, now) && k < |Batch(c, room, event, capacity)| && at < now + ADMITTED_TTL_MS
    ensures |Batch(c, room, event, capacity)| <= c.batch
    ensures capacity(event).Some? ==> |Batch(c, room, event, capacity)| <= capacity(event).value
    ensures IsAdmitted(AfterRelease(c, room, capacity, now), event, Batch(c, room, event, capacity)[k].session, at)
  {
    assert event in room.highDemand;
    assert (event, Batch(c, room, event, capacity)[k].session) in AdmittedKeys(c, room, room.highDemand, capacity);
  }
}
