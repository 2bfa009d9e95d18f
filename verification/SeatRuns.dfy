/**
 * The seat protocol over whole runs of hold, extend, confirm, release, block, heal
 * and lapsing locks: a seat is sold to one order at a time, a live lock protects
 * its seat, and no user holds more seats of an event than the limit.
 */
module SeatRuns {
  import opened Common
  import opened Inventory
  import opened SeatLocks
  import opened SeatHolds

  datatype Step =
    | Hold(ids: seq<SeatId>, order: OrderId)
    | Extend(seat: SeatId, order: OrderId)
    | Confirm(seat: SeatId, order: OrderId)
    | Release(seat: SeatId, order: OrderId)
    | Block(seat: SeatId)
    | Heal(event: EventId)
    | Tick(to: int)

  /** A confirmed sale, or the release of a sold seat. */
  datatype Sale = Sold(seat: SeatId, order: OrderId) | Freed(seat: SeatId, order: OrderId)

  /** `booker` remembers which order booked each BOOKED seat, `log` all sales and their releases. */
  datatype World = World(hall: Hall, booker: map<SeatId, OrderId>, log: seq<Sale>)

  /** The site's settings, and which user an order belongs to. */
  datatype Site = Site(config: Config, owner: OrderId -> UserId)

  function Outcome(w: World, r: Result<Hall>): World {
    if r.Ok? then w.(hall := r.value) else w
  }

  function AfterSale(site: Site, w: World, seat: SeatId, order: OrderId): World {
    var r := AfterConfirm(w.hall, seat, order, site.owner(order));
    if r.Ok? then World(r.value, w.booker[seat := order], w.log + [Sold(seat, order)]) else w
  }

  function AfterFreeing(site: Site, w: World, seat: SeatId, order: OrderId): World {
    var r := AfterRelease(w.hall, seat, order, site.owner(order));
    if r.Err? then w
    else if w.hall.seats[seat].status == Booked then World(r.value, w.booker - {seat}, w.log + [Freed(seat, order)])
    else w.(hall := r.value)
  }

  function Next(site: Site, w: World, step: Step): World {
    match step
    case Hold(ids, order) => Outcome(w, AfterHoldBatch(site.config, w.hall, ids, order, site.owner(order)))
    case Extend(seat, order) => Outcome(w, AfterExtend(site.config, w.hall, seat, order))
    case Confirm(seat, order) => AfterSale(site, w, seat, order)
    case Release(seat, order) => AfterFreeing(site, w, seat, order)
    case Block(seat) => Outcome(w, AfterBlock(w.hall, seat))
    case Heal(event) => w.(hall := AfterHeal(w.hall, event))
    case Tick(to) => w.(hall := AfterTick(w.hall, to))
  }

  /** The clock never goes back, and a BOOKED seat is only released by the order that booked it. */
  predicate Allowed(w: World, step: Step) {
    match step
    case Release(seat, order) => seat in w.booker ==> w.booker[seat] == order
    case Tick(to) => w.hall.now <= to
    case _ => true
  }

  predicate Run(site: Site, w: World, steps: seq<Step>)
    decreases |steps|
  {
    steps == [] || (Allowed(w, steps[0]) && Run(site, Next(site, w, steps[0]), steps[1..]))
  }

  function After(site: Site, w: World, steps: seq<Step>): World
    decreases |steps|
  {
    if steps == [] then w else After(site, Next(site, w, steps[0]), steps[1..])
  }

  function Start(seats: Seats, now: int): World {
    World(Hall(seats, map[], map[], now), map[], [])
  }

  // ------------------------------------------------------- what holds always

  /** A live lock means HELD, and lapses within one time to live. */
  ghost predicate LocksMeanHeld(c: Config, h: Hall) {
    forall s :: s in h.locks ==>
      && s in h.seats && h.seats[s].status == Held
      && h.now < h.locks[s].until <= h.now + c.ttl
  }

  ghost predicate BookersKnown(w: World) {
    && (forall s :: s in w.booker ==> s in w.hall.seats)
    && (forall s :: s in w.hall.seats ==> (w.hall.seats[s].status == Booked <==> s in w.booker))
  }

  /** The live locks of a user's orders are among the seats counted for the user. */
  ghost predicate LocksCounted(site: Site, h: Hall) {
    forall s :: s in h.locks && s in h.seats ==> s in HoldSet(h.holds, site.owner(h.locks[s].order), h.seats[s].event)
  }

  ghost predicate WithinLimit(c: Config, holds: HoldSets) {
    forall u, e :: |HoldSet(holds, u, e)| <= c.maxPerUser
  }

  predicate SoldAt(log: seq<Sale>, i: nat, s: SeatId, o: OrderId) {
    i < |log| && log[i] == Sold(s, o)
  }

  /** Sale `i` of seat `s` to `o` was later undone by `o`. */
  ghost predicate FreedAfter(log: seq<Sale>, i: nat, s: SeatId, o: OrderId) {
    exists k :: i < k < |log| && log[k] == Freed(s, o)
  }

  ghost predicate SalesAccounted(w: World) {
    forall i: nat, s: SeatId, o: OrderId :: SoldAt(w.log, i, s, o) ==>
      (s in w.booker && w.booker[s] == o) || FreedAfter(w.log, i, s, o)
  }

  /** A BOOKED seat has a sale to its booker that was not undone since. */
  ghost predicate BookersSold(w: World) {
    forall s :: s in w.booker ==> exists i: nat :: SoldAt(w.log, i, s, w.booker[s]) && !FreedAfter(w.log, i, s, w.booker[s])
  }

  /** Two sales of a seat are separated by a release by the order of the first. */
  ghost predicate SalesSeparated(log: seq<Sale>) {
    forall i: nat, j: nat, s: SeatId, o: OrderId, o': OrderId :: SoldAt(log, i, s, o) && SoldAt(log, j, s, o') && i < j ==>
      FreedAfter(log[..j], i, s, o)
  }

  ghost predicate Sound(site: Site, w: World) {
    && site.config.ttl > 0
    && LocksMeanHeld(site.config, w.hall)
    && BookersKnown(w)
    && LocksCounted(site, w.hall)
    && WithinLimit(site.config, w.hall.holds)
    && SalesAccounted(w)
    && BookersSold(w)
    && SalesSeparated(w.log)
  }

  // ------------------------------------------------------------- each step

  /** Locks, statuses and hold sets, without the log. */
  ghost predicate HallSound(site: Site, w: World) {
    && site.config.ttl > 0
    && LocksMeanHeld(site.config, w.hall)
    && BookersKnown(w)
    && LocksCounted(site, w.hall)
    && WithinLimit(site.config, w.hall.holds)
  }

  lemma RefusalChecks(c: Config, h: Hall, ids: seq<SeatId>, user: UserId)
    requires HoldRefusal(c, h, ids, user) == None
    ensures ids != [] && (forall s :: s in ids ==> s in h.seats)
    ensures var event := h.seats[ids[0]].event;
            && (forall s :: s in ids ==> h.seats[s].event == event && h.seats[s].status != Booked)
            && |HoldSet(h.holds, user, event)| + |ids| <= c.maxPerUser
  {
    hide HoldSet;
    assert forall s :: s in ids ==> s in h.seats;
  }

  /** A batch that succeeded took free seats of one event, within the limit. */
  lemma HoldChecks(c: Config, h: Hall, ids: seq<SeatId>, order: OrderId, user: UserId)
    requires AfterHoldBatch(c, h, ids, order, user).Ok?
    ensures ids != [] && ids[0] in h.seats
    ensures var event := h.seats[ids[0]].event;
            && (forall s :: s in ids ==> s in h.seats && s !in h.locks && h.seats[s].event == event && h.seats[s].status != Booked)
            && |HoldSet(h.holds, user, event)| + |ids| <= c.maxPerUser
            && Acquired(h.locks, ids, Lock(order, h.now + c.ttl)).Some?
            && AfterHoldBatch(c, h, ids, order, user).value
               == Hall(AllHeld(h.seats, ids), Acquired(h.locks, ids, Lock(order, h.now + c.ttl)).value,
                       Added(h.holds, user, event, ids), h.now)
  {
    hide HoldRefusal;
    hide HoldSet;
    hide Added;
    hide AllHeld;
    RefusalChecks(c, h, ids, user);
    AcquiredWereFree(h.locks, ids, Lock(order, h.now + c.ttl));
    hide Acquired;
  }

  lemma AcquiredWereFree(locks: Locks, keys: seq<SeatId>, lock: Lock)
    requires Acquired(locks, keys, lock).Some?
    ensures forall k :: k in keys ==> k !in locks
  {
  }

  lemma AddedWithinLimit(c: Config, holds: HoldSets, user: UserId, event: EventId, ids: seq<SeatId>)
    requires WithinLimit(c, holds) && |HoldSet(holds, user, event)| + |ids| <= c.maxPerUser
    ensures WithinLimit(c, Added(holds, user, event, ids))
  {
    KeySetSize(ids);
    assert |HoldSet(holds, user, event) + KeySet(ids)| <= |HoldSet(holds, user, event)| + |KeySet(ids)|;
    forall u, e
      ensures |HoldSet(Added(holds, user, event, ids), u, e)| <= c.maxPerUser
    {
      assert |HoldSet(holds, u, e)| <= c.maxPerUser;
    }
  }

  lemma HoldKeepsLocks(c: Config, h: Hall, ids: seq<SeatId>, order: OrderId, holds: HoldSets)
    requires LocksMeanHeld(c, h) && c.ttl > 0 && Acquired(h.locks, ids, Lock(order, h.now + c.ttl)).Some?
    requires forall s :: s in ids ==> s in h.seats
    ensures LocksMeanHeld(c, Hall(AllHeld(h.seats, ids), Acquired(h.locks, ids, Lock(order, h.now + c.ttl)).value, holds, h.now))
  {
  }

  lemma HoldIsCounted(site: Site, h: Hall, ids: seq<SeatId>, order: OrderId, event: EventId)
    requires LocksCounted(site, h) && Acquired(h.locks, ids, Lock(order, h.now + site.config.ttl)).Some?
    requires forall s :: s in ids ==> s in h.seats && h.seats[s].event == event
    ensures LocksCounted(site, Hall(AllHeld(h.seats, ids), Acquired(h.locks, ids, Lock(order, h.now + site.config.ttl)).value,
                                    Added(h.holds, site.owner(order), event, ids), h.now))
  {
  }

  lemma HoldKeepsBookers(w: World, ids: seq<SeatId>, hall: Hall)
    requires BookersKnown(w) && hall.seats == AllHeld(w.hall.seats, ids)
    requires forall s :: s in ids ==> s in w.hall.seats && w.hall.seats[s].status != Booked
    ensures BookersKnown(w.(hall := hall))
  {
  }

  lemma HoldIsSound(site: Site, w: World, ids: seq<SeatId>, order: OrderId)
    requires HallSound(site, w)
    ensures HallSound(site, Next(site, w, Hold(ids, order)))
  {
    hide AfterHoldBatch;
    hide Acquired;
    hide Added;
    hide AllHeld;
    hide HoldSet;
    hide WithinLimit;
    hide LocksMeanHeld;
    hide LocksCounted;
    hide BookersKnown;
    var h := w.hall;
    var user := site.owner(order);
    if AfterHoldBatch(site.config, h, ids, order, user).Ok? {
      HoldChecks(site.config, h, ids, order, user);
      var event := h.seats[ids[0]].event;
      AddedWithinLimit(site.config, h.holds, user, event, ids);
      HoldKeepsLocks(site.config, h, ids, order, Added(h.holds, user, event, ids));
      HoldIsCounted(site, h, ids, order, event);
      HoldKeepsBookers(w, ids, AfterHoldBatch(site.config, h, ids, order, user).value);
    }
  }

  lemma RemovedWithinLimit(c: Config, holds: HoldSets, user: UserId, event: EventId, seat: SeatId)
    requires WithinLimit(c, holds)
    ensures WithinLimit(c, Removed(holds, user, event, seat))
  {
    forall u, e
      ensures |HoldSet(Removed(holds, user, event, seat), u, e)| <= c.maxPerUser
    {
      assert |HoldSet(holds, u, e)| <= c.maxPerUser;
    }
  }

  lemma ConfirmIsSound(site: Site, w: World, seat: SeatId, order: OrderId)
    requires HallSound(site, w)
    ensures HallSound(site, Next(site, w, Confirm(seat, order)))
  {
    if seat in w.hall.seats {
      RemovedWithinLimit(site.config, w.hall.holds, site.owner(order), w.hall.seats[seat].event, seat);
    }
    hide WithinLimit;
  }

  lemma ReleaseIsSound(site: Site, w: World, seat: SeatId, order: OrderId)
    requires HallSound(site, w)
    ensures HallSound(site, Next(site, w, Release(seat, order)))
  {
    if seat in w.hall.seats {
      RemovedWithinLimit(site.config, w.hall.holds, site.owner(order), w.hall.seats[seat].event, seat);
    }
    hide WithinLimit;
  }

  lemma StepKeepsHall(site: Site, w: World, step: Step)
    requires HallSound(site, w) && Allowed(w, step)
    ensures HallSound(site, Next(site, w, step))
  {
    match step
    case Hold(ids, order) => HoldIsSound(site, w, ids, order);
    case Confirm(seat, order) => ConfirmIsSound(site, w, seat, order);
    case Release(seat, order) => ReleaseIsSound(site, w, seat, order);
    case _ => hide WithinLimit;
  }

  lemma FreedStays(log: seq<Sale>, more: Sale)
    ensures forall i: nat, s: SeatId, o: OrderId :: FreedAfter(log, i, s, o) ==> FreedAfter(log + [more], i, s, o)
  {
    forall i: nat, s: SeatId, o: OrderId | FreedAfter(log, i, s, o)
      ensures FreedAfter(log + [more], i, s, o)
    {
      var k :| i < k < |log| && log[k] == Freed(s, o);
      assert (log + [more])[k] == Freed(s, o);
    }
  }

  lemma SeparatedStays(log: seq<Sale>, more: Sale)
    requires SalesSeparated(log)
    requires more.Sold? ==> forall i: nat, o: OrderId :: SoldAt(log, i, more.seat, o) ==> FreedAfter(log, i, more.seat, o)
    ensures SalesSeparated(log + [more])
  {
    var longer := log + [more];
    assert longer[..|log|] == log;
    forall i: nat, j: nat, s: SeatId, o: OrderId, o': OrderId | SoldAt(longer, i, s, o) && SoldAt(longer, j, s, o') && i < j
      ensures FreedAfter(longer[..j], i, s, o)
    {
      assert SoldAt(log, i, s, o);
      if j < |log| {
        assert SoldAt(log, j, s, o') && longer[..j] == log[..j];
      }
    }
  }

  lemma StepKeepsLog(site: Site, w: World, step: Step)
    requires HallSound(site, w) && Allowed(w, step) && SalesAccounted(w) && SalesSeparated(w.log)
    ensures SalesAccounted(Next(site, w, step)) && SalesSeparated(Next(site, w, step).log)
  {
    var next := Next(site, w, step);
    if next.log == w.log {
      assert next.booker == w.booker;
    } else {
      var more := next.log[|w.log|];
      assert next.log == w.log + [more];
      FreedStays(w.log, more);
      assert more.Sold? ==> more.seat !in w.booker;
      SeparatedStays(w.log, more);
      forall i: nat, s: SeatId, o: OrderId | SoldAt(next.log, i, s, o)
        ensures (s in next.booker && next.booker[s] == o) || FreedAfter(next.log, i, s, o)
      {
        if i < |w.log| {
          assert SoldAt(w.log, i, s, o);
          if more == Freed(s, o) {
            assert next.log[|w.log|] == Freed(s, o);
          }
        }
      }
    }
  }

  lemma StepKeepsBookers(site: Site, w: World, step: Step)
    requires HallSound(site, w) && Allowed(w, step) && BookersSold(w)
    ensures BookersSold(Next(site, w, step))
  {
    var next := Next(site, w, step);
    if next.log == w.log {
      assert next.booker == w.booker;
    } else {
      var more := next.log[|w.log|];
      assert next.log == w.log + [more];
      forall s | s in next.booker
        ensures exists i: nat :: SoldAt(next.log, i, s, next.booker[s]) && !FreedAfter(next.log, i, s, next.booker[s])
      {
        if more == Sold(s, next.booker[s]) {
          assert SoldAt(next.log, |w.log|, s, next.booker[s]);
        } else {
          assert s in w.booker && next.booker[s] == w.booker[s] && more.seat != s;
          var i: nat :| SoldAt(w.log, i, s, w.booker[s]) && !FreedAfter(w.log, i, s, w.booker[s]);
          assert SoldAt(next.log, i, s, w.booker[s]);
          StaysUnfreed(w.log, more, i, s, w.booker[s]);
        }
      }
    }
  }

  lemma StaysUnfreed(log: seq<Sale>, more: Sale, i: nat, s: SeatId, o: OrderId)
    requires !FreedAfter(log, i, s, o) && more != Freed(s, o)
    ensures !FreedAfter(log + [more], i, s, o)
  {
    assert forall k :: i < k < |log| ==> (log + [more])[k] == log[k];
  }

  lemma StepIsSound(site: Site, w: World, step: Step)
    requires Sound(site, w) && Allowed(w, step)
    ensures Sound(site, Next(site, w, step))
  {
    StepKeepsHall(site, w, step);
    StepKeepsLog(site, w, step);
    StepKeepsBookers(site, w, step);
    hide Next;
  }

  lemma {:induction false} RunIsSound(site: Site, w: World, steps: seq<Step>)
    requires Sound(site, w) && Run(site, w, steps)
    ensures Sound(site, After(site, w, steps))
    decreases |steps|
  {
    hide Sound;
    hide Next;
    if steps != [] {
      StepIsSound(site, w, steps[0]);
      RunIsSound(site, Next(site, w, steps[0]), steps[1..]);
    }
  }

  /** No seat is held or sold yet. */
  ghost predicate Fresh(seats: Seats) {
    forall s :: s in seats ==> seats[s].status == Available || seats[s].status == Blocked
  }

  lemma StartIsSound(site: Site, seats: Seats, now: int)
    requires Fresh(seats) && site.config.ttl > 0
    ensures Sound(site, Start(seats, now))
  {
  }

  // --------------------------------------------------------------- promises

  /** A seat is sold again only after the order that bought it released it, and BOOKED seats carry no lock. */
  lemma SeatsAreSoldOnce(site: Site, seats: Seats, now: int, steps: seq<Step>)
    requires Fresh(seats) && site.config.ttl > 0 && Run(site, Start(seats, now), steps)
    ensures var w := After(site, Start(seats, now), steps);
            && SalesSeparated(w.log)
            && (forall s :: s in w.hall.locks ==> s in w.hall.seats && w.hall.seats[s].status == Held && w.hall.now < w.hall.locks[s].until)
            && (forall s :: s in w.hall.seats && w.hall.seats[s].status == Booked ==> s !in w.hall.locks)
  {
    StartIsSound(site, seats, now);
    RunIsSound(site, Start(seats, now), steps);
  }

  /** The seats of an event whose live locks belong to orders of a user. */
  function LiveLocksOf(site: Site, h: Hall, user: UserId, event: EventId): set<SeatId> {
    set s | s in h.locks && s in h.seats && h.seats[s].event == event && site.owner(h.locks[s].order) == user
  }

  /** The per-user cap: live locks are counted, and the count never passes the limit though it keeps lapsed seats too. */
  lemma UserLimitHolds(site: Site, seats: Seats, now: int, steps: seq<Step>, user: UserId, event: EventId)
    requires Fresh(seats) && site.config.ttl > 0 && Run(site, Start(seats, now), steps)
    ensures var h := After(site, Start(seats, now), steps).hall;
            && LiveLocksOf(site, h, user, event) <= HoldSet(h.holds, user, event)
            && |HoldSet(h.holds, user, event)| <= site.config.maxPerUser
            && |LiveLocksOf(site, h, user, event)| <= site.config.maxPerUser
  {
    StartIsSound(site, seats, now);
    RunIsSound(site, Start(seats, now), steps);
    var h := After(site, Start(seats, now), steps).hall;
    SubsetSize(LiveLocksOf(site, h, user, event), HoldSet(h.holds, user, event));
  }

  predicate ByOwner(step: Step, seat: SeatId, order: OrderId) {
    (step.Confirm? || step.Release?) && step.seat == seat && step.order == order
  }

  lemma ClockOnlyRuns(site: Site, w: World, step: Step)
    requires Allowed(w, step)
    ensures w.hall.now <= Next(site, w, step).hall.now
  {
  }

  lemma {:induction false} ClockOnlyRunsOn(site: Site, w: World, steps: seq<Step>)
    requires Run(site, w, steps)
    ensures w.hall.now <= After(site, w, steps).hall.now
    decreases |steps|
  {
    hide Next;
    if steps != [] {
      ClockOnlyRuns(site, w, steps[0]);
      ClockOnlyRunsOn(site, Next(site, w, steps[0]), steps[1..]);
    }
  }

  /** One step by anybody else leaves a lock that does not lapse, and its seat, alone. */
  lemma StepRespectsLock(site: Site, w: World, step: Step, seat: SeatId)
    requires Sound(site, w) && Allowed(w, step) && seat in w.hall.locks
    requires !ByOwner(step, seat, w.hall.locks[seat].order)
    requires Next(site, w, step).hall.now < w.hall.locks[seat].until
    ensures var h := Next(site, w, step).hall;
            && Owns(h.locks, seat, w.hall.locks[seat].order)
            && w.hall.locks[seat].until <= h.locks[seat].until
  {
    hide SalesAccounted;
    hide SalesSeparated;
    hide WithinLimit;
    hide HoldRefusal;
  }

  lemma {:induction false} LockOutlasts(site: Site, w: World, steps: seq<Step>, seat: SeatId)
    requires Sound(site, w) && Run(site, w, steps) && seat in w.hall.locks
    requires forall k :: 0 <= k < |steps| ==> !ByOwner(steps[k], seat, w.hall.locks[seat].order)
    requires After(site, w, steps).hall.now < w.hall.locks[seat].until
    ensures var h := After(site, w, steps).hall;
            && Owns(h.locks, seat, w.hall.locks[seat].order)
            && seat in h.seats && h.seats[seat].status == Held
    decreases |steps|
  {
    if steps != [] {
      var next := Next(site, w, steps[0]);
      ClockOnlyRunsOn(site, next, steps[1..]);
      StepIsSound(site, w, steps[0]);
      assert !ByOwner(steps[0], seat, w.hall.locks[seat].order);
      StepRespectsLock(site, w, steps[0], seat);
      hide Sound;
      hide Next;
      LockOutlasts(site, next, steps[1..], seat);
    }
  }

  lemma {:induction false} StaysBooked(site: Site, w: World, steps: seq<Step>, seat: SeatId)
    requires Sound(site, w) && Run(site, w, steps) && seat in w.booker
    requires forall k :: 0 <= k < |steps| ==> steps[k] != Release(seat, w.booker[seat])
    ensures var after := After(site, w, steps);
            && seat in after.booker && after.booker[seat] == w.booker[seat]
            && seat in after.hall.seats && after.hall.seats[seat].status == Booked
    decreases |steps|
  {
    if steps != [] {
      var next := Next(site, w, steps[0]);
      StepIsSound(site, w, steps[0]);
      assert steps[0] != Release(seat, w.booker[seat]);
      assert seat in next.booker && next.booker[seat] == w.booker[seat] by {
        hide AfterHoldBatch;
        hide AfterHeal;
        hide AfterBlock;
        hide SalesAccounted;
        hide SalesSeparated;
      }
      hide Sound;
      hide Next;
      StaysBooked(site, next, steps[1..], seat);
    }
  }

  /**
   * In every reachable state and over every run from it: until its lock lapses, a held seat
   * stays HELD by its order, whatever other orders, healing and blocking do. Only the
   * owner's own confirm or release ends a live hold.
   */
  lemma LiveLockProtectsSeat(site: Site, seats: Seats, now: int, before: seq<Step>, steps: seq<Step>, seat: SeatId)
    requires Fresh(seats) && site.config.ttl > 0 && Run(site, Start(seats, now), before)
    requires var w := After(site, Start(seats, now), before);
             && Run(site, w, steps) && seat in w.hall.locks
             && (forall k :: 0 <= k < |steps| ==> !ByOwner(steps[k], seat, w.hall.locks[seat].order))
             && After(site, w, steps).hall.now < w.hall.locks[seat].until
    ensures var w := After(site, Start(seats, now), before);
            var h := After(site, w, steps).hall;
            && Owns(h.locks, seat, w.hall.locks[seat].order)
            && seat in h.seats && h.seats[seat].status == Held
  {
    StartIsSound(site, seats, now);
    RunIsSound(site, Start(seats, now), before);
    LockOutlasts(site, After(site, Start(seats, now), before), steps, seat);
  }

  /** In every reachable state and over every run from it: a BOOKED seat stays booked by its order until that order releases it. */
  lemma BookedUntilReleased(site: Site, seats: Seats, now: int, before: seq<Step>, steps: seq<Step>, seat: SeatId)
    requires Fresh(seats) && site.config.ttl > 0 && Run(site, Start(seats, now), before)
    requires var w := After(site, Start(seats, now), before);
             && Run(site, w, steps) && seat in w.hall.seats && w.hall.seats[seat].status == Booked
             && forall k :: 0 <= k < |steps| && steps[k].Release? && steps[k].seat == seat ==>
                  seat in w.booker && steps[k].order != w.booker[seat]
    ensures var w := After(site, Start(seats, now), before);
            var after := After(site, w, steps);
            && seat in w.booker && seat in after.booker && after.booker[seat] == w.booker[seat]
            && seat in after.hall.seats && after.hall.seats[seat].status == Booked
  {
    StartIsSound(site, seats, now);
    RunIsSound(site, Start(seats, now), before);
    StaysBooked(site, After(site, Start(seats, now), before), steps, seat);
  }
}
