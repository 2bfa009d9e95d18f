/**
 * Seat holds of event-service: a seat's status in Postgres beside its lock in
 * Redis, and per user and event the set of seats counted against the hold limit.
 * Every handler is a function on the hall and the method of HoldsService (or
 * SeatMapService) that the function specifies.
 */
module SeatHolds {
  import opened Common
  import opened Inventory
  import opened SeatLocks

  datatype SeatStatus = Available | Held | Booked | Blocked

  datatype Seat = Seat(event: EventId, status: SeatStatus, price: nat)

  type Seats = map<SeatId, Seat>
  type HoldSets = map<(UserId, EventId), set<SeatId>>

  datatype Hall = Hall(seats: Seats, locks: Locks, holds: HoldSets, now: int)

  datatype Config = Config(ttl: nat, maxPerUser: nat)

  function HoldSet(holds: HoldSets, user: UserId, event: EventId): set<SeatId> {
    if (user, event) in holds then holds[(user, event)] else {}
  }

  function Added(holds: HoldSets, user: UserId, event: EventId, ids: seq<SeatId>): HoldSets {
    holds[(user, event) := HoldSet(holds, user, event) + KeySet(ids)]
  }

  function Removed(holds: HoldSets, user: UserId, event: EventId, seat: SeatId): HoldSets {
    holds[(user, event) := HoldSet(holds, user, event) - {seat}]
  }

  function WithStatus(seats: Seats, seat: SeatId, status: SeatStatus): Seats
    requires seat in seats
  {
    seats[seat := seats[seat].(status := status)]
  }

  function AllHeld(seats: Seats, ids: seq<SeatId>): Seats {
    map s | s in seats :: if s in ids then seats[s].(status := Held) else seats[s]
  }

  // -------------------------------------------------------------------- hold

  /** The checks made before any lock is touched, in their order. */
  function HoldRefusal(c: Config, h: Hall, ids: seq<SeatId>, user: UserId): Option<Error> {
    if ids == [] then Some(BadRequest)
    else if !Distinct(ids) || exists s :: s in ids && s !in h.seats then Some(NotFound)
    else if exists s :: s in ids && h.seats[s].event != h.seats[ids[0]].event then Some(BadRequest)
    else if exists s :: s in ids && h.seats[s].status == Blocked then Some(BadRequest)
    else if exists s :: s in ids && h.seats[s].status == Booked then Some(Conflict)
    else if |HoldSet(h.holds, user, h.seats[ids[0]].event)| + |ids| > c.maxPerUser then Some(BadRequest)
    else None
  }

  function AfterHoldBatch(c: Config, h: Hall, ids: seq<SeatId>, order: OrderId, user: UserId): Result<Hall> {
    match HoldRefusal(c, h, ids, user)
    case Some(e) => Err(e)
    case None =>
      match Acquired(h.locks, ids, Lock(order, h.now + c.ttl))
      case None => Err(Conflict)
      case Some(locks) =>
        Ok(Hall(AllHeld(h.seats, ids), locks, Added(h.holds, user, h.seats[ids[0]].event, ids), h.now))
  }

  // ---------------------------------------------- release, confirm, extend

  /**
   * A BOOKED seat is released whoever asks, since its lock is gone; any other seat
   * only by the order that owns its lock, and otherwise nothing happens.
   */
  function AfterRelease(h: Hall, seat: SeatId, order: OrderId, user: UserId): Result<Hall> {
    if seat !in h.seats then Err(NotFound)
    else if h.seats[seat].status != Booked && !Owns(h.locks, seat, order) then Ok(h)
    else
      Ok(Hall(WithStatus(h.seats, seat, Available),
              if h.seats[seat].status != Booked then h.locks - {seat} else h.locks,
              Removed(h.holds, user, h.seats[seat].event, seat), h.now))
  }

  function AfterConfirm(h: Hall, seat: SeatId, order: OrderId, user: UserId): Result<Hall> {
    if seat !in h.seats then Err(NotFound)
    else if h.seats[seat].status == Booked then Err(Conflict)
    else if !Owns(h.locks, seat, order) then Err(Conflict)
    else
      Ok(Hall(WithStatus(h.seats, seat, Booked), h.locks - {seat},
              Removed(h.holds, user, h.seats[seat].event, seat), h.now))
  }

  function AfterExtend(c: Config, h: Hall, seat: SeatId, order: OrderId): Result<Hall> {
    if Owns(h.locks, seat, order) then Ok(h.(locks := h.locks[seat := Lock(order, h.now + c.ttl)])) else Err(Conflict)
  }

  // ------------------------------------------------------- block, heal, time

  function AfterBlock(h: Hall, seat: SeatId): Result<Hall> {
    if seat !in h.seats then Err(NotFound)
    else if h.seats[seat].status == Held || h.seats[seat].status == Booked then Err(BadRequest)
    else Ok(h.(seats := WithStatus(h.seats, seat, Blocked)))
  }

  /** Every snapshot rebuild corrects the seats that still say HELD though their lock lapsed. */
  function AfterHeal(h: Hall, event: EventId): Hall {
    h.(seats := map s | s in h.seats ::
         if h.seats[s].event == event && h.seats[s].status == Held && s !in h.locks
         then h.seats[s].(status := Available) else h.seats[s])
  }

  function AfterTick(h: Hall, to: int): Hall {
    h.(locks := Unexpired(h.locks, to), now := to)
  }

  // ----------------------------------------------------------- cart rollback

  /** What a failed cart does with its seats: release each, whether or not the batch had been held. */
  function AfterRollback(h: Hall, ids: seq<SeatId>, order: OrderId, user: UserId): Hall {
    if ids == [] then h
    else
      var before := AfterRollback(h, ids[..|ids| - 1], order, user);
      var after := AfterRelease(before, ids[|ids| - 1], order, user);
      if after.Ok? then after.value else before
  }

  // ---------------------------------------------- what the services promise

  /** Distinct seats of one event, none blocked or booked, within the user's limit. */
  ghost predicate MayHold(c: Config, h: Hall, ids: seq<SeatId>, user: UserId) {
    && ids != [] && (forall i, j :: 0 <= i < j < |ids| ==> ids[i] != ids[j])
    && (forall s :: s in ids ==>
          && s in h.seats && ids[0] in h.seats && h.seats[s].event == h.seats[ids[0]].event
          && h.seats[s].status in {Available, Held})
    && |HoldSet(h.holds, user, h.seats[ids[0]].event)| + |ids| <= c.maxPerUser
  }

  /** Why a batch is refused that may not be held. */
  ghost predicate RefusedHold(h: Hall, ids: seq<SeatId>, e: Error) {
    if ids == [] then e == BadRequest
    else if (exists i, j :: 0 <= i < j < |ids| && ids[i] == ids[j]) || exists s :: s in ids && s !in h.seats then e == NotFound
    else if exists s :: s in ids && s in h.seats && (h.seats[s].event != h.seats[ids[0]].event || h.seats[s].status == Blocked) then e == BadRequest
    else if exists s :: s in ids && s in h.seats && h.seats[s].status == Booked then e == Conflict
    else e == BadRequest
  }

  lemma HoldRefusalAsPromised(c: Config, h: Hall, ids: seq<SeatId>, user: UserId)
    ensures HoldRefusal(c, h, ids, user).None? <==> MayHold(c, h, ids, user)
    ensures HoldRefusal(c, h, ids, user).Some? ==> RefusedHold(h, ids, HoldRefusal(c, h, ids, user).value)
  {
    assert ids != [] ==> ids[0] in ids;
    hide HoldSet;
  }

  /** The seats are HELD under the order's locks and counted for the user; nothing else changed. */
  ghost predicate NowHeld(c: Config, before: Hall, after: Hall, ids: seq<SeatId>, order: OrderId, user: UserId)
    requires ids != [] && ids[0] in before.seats
  {
    var event := before.seats[ids[0]].event;
    && after.now == before.now
    && after.seats == (map s | s in before.seats :: if s in ids then before.seats[s].(status := Held) else before.seats[s])
    && (forall s :: s in after.locks <==> s in before.locks || s in ids)
    && (forall s :: s in after.locks ==> after.locks[s] == if s in ids then Lock(order, before.now + c.ttl) else before.locks[s])
    && after.holds == before.holds[(user, event) := HoldSet(before.holds, user, event) + set s | s in ids]
  }

  lemma HoldAsPromised(c: Config, h: Hall, ids: seq<SeatId>, order: OrderId, user: UserId)
    ensures var after := AfterHoldBatch(c, h, ids, order, user);
            && (after.Ok? <==> MayHold(c, h, ids, user) && forall s :: s in ids ==> s !in h.locks)
            && (after.Ok? ==> NowHeld(c, h, after.value, ids, order, user))
            && (after.Err? ==> if MayHold(c, h, ids, user) then after.error == Conflict else RefusedHold(h, ids, after.error))
  {
    HoldRefusalAsPromised(c, h, ids, user);
    AcquiredAsPromised(h.locks, ids, Lock(order, h.now + c.ttl));
    assert KeySet(ids) == set s | s in ids;
    hide HoldRefusal;
    hide Acquired;
    hide RefusedHold;
    hide HoldSet;
  }

  // ------------------------------------------------------------- the services

  class HoldsService {
    const config: Config
    const locks: SeatLockService
    var seats: Seats
    var holds: HoldSets

    ghost function State(): Hall
      reads this, locks
    {
      Hall(seats, locks.locks, holds, locks.now)
    }

    constructor (config: Config, locks: SeatLockService, seats: Seats)
      ensures this.config == config && this.locks == locks
      ensures State() == Hall(seats, locks.locks, map[], locks.now)
    {
      this.config, this.locks, this.seats, holds := config, locks, seats, map[];
    }

    /** Every check of the batch before its locks. */
    method CheckBatch(ids: seq<SeatId>, user: UserId) returns (refusal: Option<Error>)
      ensures refusal == HoldRefusal(config, State(), ids, user)
      ensures refusal.None? ==> ids != [] && ids[0] in seats
      ensures refusal.None? <==> MayHold(config, State(), ids, user)
      ensures refusal.Some? ==> RefusedHold(State(), ids, refusal.value)
    {
      HoldRefusalAsPromised(config, State(), ids, user);
      hide MayHold;
      hide RefusedHold;
      if ids == [] {
        return Some(BadRequest);
      }
      var found := Found(ids, seats.Keys);
      FoundAllIffDistinctAndKnown(ids, seats.Keys);
      if |found| != |ids| {
        return Some(NotFound);
      }
      var event := seats[ids[0]].event;
      if exists s :: s in ids && seats[s].event != event {
        return Some(BadRequest);
      }
      if exists s :: s in ids && seats[s].status == Blocked {
        return Some(BadRequest);
      }
      if exists s :: s in ids && seats[s].status == Booked {
        return Some(Conflict);
      }
      if |HoldSet(holds, user, event)| + |ids| > config.maxPerUser {
        return Some(BadRequest);
      }
      return None;
    }

    method HoldSeatsBatch(ids: seq<SeatId>, order: OrderId, user: UserId) returns (r: Result<()>)
      modifies this, locks
      ensures var after := AfterHoldBatch(config, old(State()), ids, order, user);
              && State() == (if after.Ok? then after.value else old(State()))
              && r == (if after.Ok? then Ok(()) else Err(after.error))
      ensures r.Ok? <==> MayHold(config, old(State()), ids, user) && forall s :: s in ids ==> s !in old(locks.locks)
      ensures r.Ok? ==> NowHeld(config, old(State()), State(), ids, order, user)
      ensures r.Err? ==>
                && State() == old(State())
                && if MayHold(config, State(), ids, user) then r.error == Conflict else RefusedHold(State(), ids, r.error)
    {
      HoldAsPromised(config, State(), ids, order, user);
      hide MayHold;
      hide RefusedHold;
      hide NowHeld;
      hide HoldRefusal;
      hide Acquired;
      hide Added;
      hide AllHeld;
      var refusal := CheckBatch(ids, user);
      if refusal.Some? {
        return Err(refusal.value);
      }
      var event := seats[ids[0]].event;
      var acquired := locks.TryAcquireAll(ids, order, config.ttl);
      if !acquired {
        return Err(Conflict);
      }
      MarkHeld(ids);
      holds := Added(holds, user, event, ids);
      return Ok(());
    }

    method MarkHeld(ids: seq<SeatId>)
      modifies this`seats
      ensures seats == AllHeld(old(seats), ids)
    {
      seats := map s | s in seats :: if s in ids then seats[s].(status := Held) else seats[s];
    }

    method ReleaseSeat(seat: SeatId, order: OrderId, user: UserId) returns (r: Result<()>)
      modifies this, locks`locks
      ensures var after := AfterRelease(old(State()), seat, order, user);
              && State() == (if after.Ok? then after.value else old(State()))
              && r == (if after.Ok? then Ok(()) else Err(after.error))
      ensures r == if seat in old(seats) then Ok(()) else Err(NotFound)
      ensures if seat in old(seats)
                 && (old(seats)[seat].status == Booked || (seat in old(locks.locks) && old(locks.locks)[seat].order == order))
              then
                var was := old(seats)[seat];
                && seats == old(seats)[seat := was.(status := Available)]
                && locks.locks == (if was.status == Booked then old(locks.locks) else old(locks.locks) - {seat})
                && holds == old(holds)[(user, was.event) := HoldSet(old(holds), user, was.event) - {seat}]
              else State() == old(State())
    {
      if seat !in seats {
        return Err(NotFound);
      }
      var row := seats[seat];
      if row.status != Booked {
        var released := locks.ReleaseIfOwner(seat, order);
        if !released {
          return Ok(());
        }
      }
      holds := Removed(holds, user, row.event, seat);
      seats := seats[seat := row.(status := Available)];
      return Ok(());
    }

    method ConfirmSeat(seat: SeatId, order: OrderId, user: UserId) returns (r: Result<()>)
      modifies this, locks`locks
      ensures var after := AfterConfirm(old(State()), seat, order, user);
              && State() == (if after.Ok? then after.value else old(State()))
              && r == (if after.Ok? then Ok(()) else Err(after.error))
      ensures r.Ok? <==>
                && seat in old(seats) && old(seats)[seat].status != Booked
                && seat in old(locks.locks) && old(locks.locks)[seat].order == order
      ensures r.Ok? ==>
                var was := old(seats)[seat];
                && seats == old(seats)[seat := was.(status := Booked)] && locks.locks == old(locks.locks) - {seat}
                && holds == old(holds)[(user, was.event) := HoldSet(old(holds), user, was.event) - {seat}]
      ensures r.Err? ==> State() == old(State()) && r.error == if seat in seats then Conflict else NotFound
    {
      if seat !in seats {
        return Err(NotFound);
      }
      var row := seats[seat];
      if row.status == Booked {
        return Err(Conflict);
      }
      var released := locks.ReleaseIfOwner(seat, order);
      if !released {
        return Err(Conflict);
      }
      holds := Removed(holds, user, row.event, seat);
      seats := seats[seat := row.(status := Booked)];
      return Ok(());
    }

    method ExtendHold(seat: SeatId, order: OrderId) returns (r: Result<()>)
      modifies locks`locks
      ensures var after := AfterExtend(config, old(State()), seat, order);
              && State() == (if after.Ok? then after.value else old(State()))
              && r == (if after.Ok? then Ok(()) else Err(after.error))
      ensures r == if seat in old(locks.locks) && old(locks.locks)[seat].order == order then Ok(()) else Err(Conflict)
      ensures locks.locks == if r.Ok? then old(locks.locks)[seat := Lock(order, locks.now + config.ttl)] else old(locks.locks)
    {
      var extended := locks.Extend(seat, order, config.ttl);
      return if extended then Ok(()) else Err(Conflict);
    }

    method BlockSeat(seat: SeatId) returns (r: Result<()>)
      modifies this`seats
      ensures var after := AfterBlock(old(State()), seat);
              && State() == (if after.Ok? then after.value else old(State()))
              && r == (if after.Ok? then Ok(()) else Err(after.error))
      ensures r.Ok? <==> seat in old(seats) && old(seats)[seat].status in {Available, Blocked}
      ensures seats == if r.Ok? then old(seats)[seat := old(seats)[seat].(status := Blocked)] else old(seats)
      ensures r.Err? ==> r.error == if seat in seats then BadRequest else NotFound
    {
      if seat !in seats {
        return Err(NotFound);
      }
      if seats[seat].status !in {Available, Blocked} {
        return Err(BadRequest);
      }
      seats := seats[seat := seats[seat].(status := Blocked)];
      return Ok(());
    }

    /** `ids` is how the database lists the seats of the event. */
    method HealStaleHolds(event: EventId, ids: seq<SeatId>)
      requires forall s :: s in ids <==> s in seats && seats[s].event == event
      modifies this`seats
      ensures State() == AfterHeal(old(State()), event)
      ensures seats == map s | s in old(seats) ::
                         if old(seats)[s].event == event && old(seats)[s].status == Held && s !in locks.locks
                         then old(seats)[s].(status := Available) else old(seats)[s]
    {
      var stale: set<SeatId> := {};
      for n := 0 to |ids|
        invariant stale == set s | s in ids[..n] && seats[s].status == Held && s !in locks.locks
      {
        assert ids[..n + 1] == ids[..n] + [ids[n]];
        if seats[ids[n]].status == Held && ids[n] !in locks.locks {
          stale := stale + {ids[n]};
        }
      }
      assert ids[..|ids|] == ids;
      seats := map s | s in seats :: if s in stale then seats[s].(status := Available) else seats[s];
    }

    method Rollback(ids: seq<SeatId>, order: OrderId, user: UserId)
      modifies this, locks`locks
      ensures State() == AfterRollback(old(State()), ids, order, user)
    {
      for n := 0 to |ids|
        invariant State() == AfterRollback(old(State()), ids[..n], order, user)
      {
        assert ids[..n + 1][..n] == ids[..n];
        var _ := ReleaseSeat(ids[n], order, user);
      }
      assert ids[..|ids|] == ids;
    }
  }

  lemma {:induction false} KeySetSize(ids: seq<SeatId>)
    ensures |KeySet(ids)| <= |ids|
    ensures |KeySet(ids)| == |ids| <==> Distinct(ids)
  {
    if ids != [] {
      var last := |ids| - 1;
      KeySetSize(ids[..last]);
      assert ids == ids[..last] + [ids[last]];
      assert KeySet(ids) == KeySet(ids[..last]) + {ids[last]};
      if ids[last] in ids[..last] {
        var j :| 0 <= j < last && ids[j] == ids[last];
        assert KeySet(ids) == KeySet(ids[..last]);
      } else {
        assert Distinct(ids) <==> Distinct(ids[..last]);
      }
    }
  }

  lemma {:induction false} SubsetSize(a: set<SeatId>, b: set<SeatId>)
    requires a <= b
    ensures |a| <= |b| && (|a| == |b| ==> a == b)
    decreases |a|
  {
    if a != {} {
      var x :| x in a;
      SubsetSize(a - {x}, b - {x});
      assert a == (a - {x}) + {x} && b == (b - {x}) + {x};
    }
  }

  function Found(ids: seq<SeatId>, known: set<SeatId>): set<SeatId> {
    set s | s in ids && s in known
  }

  /** Counting the rows found tells missing seats and repeated ids from a clean request. */
  lemma FoundAllIffDistinctAndKnown(ids: seq<SeatId>, known: set<SeatId>)
    ensures |Found(ids, known)| == |ids| <==> Distinct(ids) && forall s :: s in ids ==> s in known
  {
    var found := Found(ids, known);
    KeySetSize(ids);
    SubsetSize(found, KeySet(ids));
    if Distinct(ids) && forall s :: s in ids ==> s in known {
      assert found == KeySet(ids);
    }
    if found == KeySet(ids) {
      forall s | s in ids
        ensures s in known
      {
        assert s in KeySet(ids);
      }
    }
  }
}
