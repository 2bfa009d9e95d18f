/**
 * Where the seat protocol needs its one hypothesis, that a BOOKED seat is only
 * released by the order that booked it: the rollback of a failed cart and the
 * refund of a lost hold do not establish it.
 */
module SeatLimits {
  import opened Common
  import opened Inventory
  import opened SeatLocks
  import opened SeatHolds
  import opened SeatRuns

  ghost predicate LocksOnHeldSeats(h: Hall) {
    forall s :: s in h.locks ==> s in h.seats && h.seats[s].status == Held
  }

  /** The seats a release by `order` would free. */
  predicate Frees(h: Hall, seat: SeatId, order: OrderId) {
    seat in h.seats && (h.seats[seat].status == Booked || Owns(h.locks, seat, order))
  }

  function SeatsFreed(h: Hall, ids: seq<SeatId>, order: OrderId): Seats {
    map s | s in h.seats :: if s in ids && Frees(h, s, order) then h.seats[s].(status := Available) else h.seats[s]
  }

  function LocksFreed(h: Hall, ids: seq<SeatId>, order: OrderId): Locks {
    map s | s in h.locks && !(s in ids && Owns(h.locks, s, order)) :: h.locks[s]
  }

  lemma FreedNothing(h: Hall, order: OrderId)
    ensures SeatsFreed(h, [], order) == h.seats && LocksFreed(h, [], order) == h.locks
  {
  }

  /** Releasing one more seat after a batch frees one more seat of the original hall. */
  lemma FreedOneMore(h: Hall, mid: Hall, ids: seq<SeatId>, seat: SeatId, order: OrderId, user: UserId)
    requires LocksOnHeldSeats(h) && mid.now == h.now
    requires mid.seats == SeatsFreed(h, ids, order) && mid.locks == LocksFreed(h, ids, order)
    ensures var r := AfterRelease(mid, seat, order, user);
            var after := if r.Ok? then r.value else mid;
            && after.seats == SeatsFreed(h, ids + [seat], order)
            && after.locks == LocksFreed(h, ids + [seat], order)
            && after.now == h.now
            && (!Frees(h, seat, order) ==> after == mid)
  {
    var more := ids + [seat];
    assert more[|ids|] == seat;
    assert forall s :: s in more <==> s in ids || s == seat;
    hide HoldSet;
  }

  /** A rollback frees, of the seats it names, the BOOKED ones and those its order has locked. */
  lemma {:induction false} RollbackEffect(h: Hall, ids: seq<SeatId>, order: OrderId, user: UserId)
    requires LocksOnHeldSeats(h)
    ensures var after := AfterRollback(h, ids, order, user);
            && after.seats == SeatsFreed(h, ids, order)
            && after.locks == LocksFreed(h, ids, order)
            && after.now == h.now
            && ((forall s :: s in ids ==> !Frees(h, s, order)) ==> after == h)
  {
    hide AfterRelease;
    hide SeatsFreed;
    hide LocksFreed;
    if ids == [] {
      FreedNothing(h, order);
    } else {
      var front := ids[..|ids| - 1];
      RollbackEffect(h, front, order, user);
      FreedOneMore(h, AfterRollback(h, front, order, user), front, ids[|ids| - 1], order, user);
      assert ids == front + [ids[|ids| - 1]];
    }
  }

  /**
   * A refused batch is rolled back as well, and its order owns no lock: the rollback is
   * the no-op it is meant to be exactly when the cart asked for no BOOKED seat.
   */
  lemma RefusedCartIsHarmlessIff(c: Config, h: Hall, ids: seq<SeatId>, order: OrderId, user: UserId)
    requires LocksOnHeldSeats(h) && (forall s :: !Owns(h.locks, s, order))
    requires AfterHoldBatch(c, h, ids, order, user).Err?
    ensures AfterRollback(h, ids, order, user) == h <==>
            forall s :: s in ids && s in h.seats ==> h.seats[s].status != Booked
  {
    hide AfterHoldBatch;
    RollbackEffect(h, ids, order, user);
    var after := AfterRollback(h, ids, order, user);
    hide AfterRollback;
    if s :| s in ids && s in h.seats && h.seats[s].status == Booked {
      assert after.seats[s].status == Available;
    } else {
      assert forall s :: s in ids ==> !Frees(h, s, order);
    }
  }

  /** Rolling back a batch that was held restores the locks; its seats end AVAILABLE and no other seat changes. */
  lemma RollbackUndoesHold(c: Config, h: Hall, ids: seq<SeatId>, order: OrderId, user: UserId)
    requires LocksOnHeldSeats(h) && (forall s :: !Owns(h.locks, s, order))
    requires AfterHoldBatch(c, h, ids, order, user).Ok?
    ensures var after := AfterRollback(AfterHoldBatch(c, h, ids, order, user).value, ids, order, user);
            && after.locks == h.locks
            && after.seats.Keys == h.seats.Keys
            && forall s :: s in h.seats ==> after.seats[s] == if s in ids then h.seats[s].(status := Available) else h.seats[s]
  {
    HoldChecks(c, h, ids, order, user);
    var held := AfterHoldBatch(c, h, ids, order, user).value;
    hide AfterHoldBatch;
    hide HoldSet;
    hide Added;
    HeldBatch(h, ids, Lock(order, h.now + c.ttl), held);
    RollbackEffect(held, ids, order, user);
    hide AfterRollback;
    hide Acquired;
    hide AllHeld;
  }

  /** What a held batch looks like to its own rollback. */
  lemma HeldBatch(h: Hall, ids: seq<SeatId>, lock: Lock, held: Hall)
    requires LocksOnHeldSeats(h) && (forall s :: !Owns(h.locks, s, lock.order))
    requires Acquired(h.locks, ids, lock).Some? && forall s :: s in ids ==> s in h.seats
    requires held.seats == AllHeld(h.seats, ids) && held.locks == Acquired(h.locks, ids, lock).value
    ensures LocksOnHeldSeats(held) && LocksFreed(held, ids, lock.order) == h.locks
    ensures SeatsFreed(held, ids, lock.order).Keys == h.seats.Keys
    ensures forall s :: s in h.seats ==>
              SeatsFreed(held, ids, lock.order)[s] == if s in ids then h.seats[s].(status := Available) else h.seats[s]
  {
  }

  /**
   * Order `a` lets its hold lapse, `b` takes and books the seat, and the refund of `a`,
   * sent out because its payment came too late, frees the seat of `b` for `c`.
   */
  lemma LostHoldRefundResellsSeat(site: Site, seat: SeatId, event: EventId, price: nat, a: OrderId, b: OrderId, c: OrderId)
    requires site.config.ttl > 0 && site.config.maxPerUser >= 2 && a != b
    ensures var steps := [Hold([seat], a), Tick(site.config.ttl), Hold([seat], b), Confirm(seat, b),
                          Release(seat, a), Hold([seat], c), Confirm(seat, c)];
            var log := After(site, Start(map[seat := Seat(event, Available, price)], 0), steps).log;
            && log == [Sold(seat, b), Freed(seat, a), Sold(seat, c)]
            && !SalesSeparated(log)
  {
    hide Next;
    hide After;
    var w0 := Start(map[seat := Seat(event, Available, price)], 0);
    var w1 := Next(site, w0, Hold([seat], a));
    HoldOne(site, w0, seat, a);
    var w2 := Next(site, w1, Tick(site.config.ttl));
    LapseOne(site, w1, seat);
    var w3 := Next(site, w2, Hold([seat], b));
    HoldOne(site, w2, seat, b);
    var w4 := Next(site, w3, Confirm(seat, b));
    ConfirmOne(site, w3, seat, b);
    var w5 := Next(site, w4, Release(seat, a));
    ReleaseOne(site, w4, seat, a);
    var w6 := Next(site, w5, Hold([seat], c));
    HoldOne(site, w5, seat, c);
    var w7 := Next(site, w6, Confirm(seat, c));
    ConfirmOne(site, w6, seat, c);
    RunsThrough(site, w0, seat, a, b, c);
    ThreeSalesNotSeparated(w7.log, seat, a, b, c);
  }

  lemma ThreeSalesNotSeparated(log: seq<Sale>, seat: SeatId, a: OrderId, b: OrderId, c: OrderId)
    requires log == [Sold(seat, b), Freed(seat, a), Sold(seat, c)] && a != b
    ensures !SalesSeparated(log)
  {
    assert SoldAt(log, 0, seat, b) && SoldAt(log, 2, seat, c);
    assert !FreedAfter(log[..2], 0, seat, b);
  }

  /** A hall in which `seat` is the only one ever counted against anybody's limit. */
  ghost predicate OnlyCounts(w: World, seat: SeatId) {
    seat in w.hall.seats && forall u, e :: HoldSet(w.hall.holds, u, e) <= {seat}
  }

  lemma OneSeatIsHeld(c: Config, h: Hall, seat: SeatId, order: OrderId, user: UserId)
    requires seat !in h.locks && seat in h.seats
    requires h.seats[seat].status == Available || h.seats[seat].status == Held
    requires |HoldSet(h.holds, user, h.seats[seat].event)| + 1 <= c.maxPerUser
    ensures HoldRefusal(c, h, [seat], user) == None
    ensures AllHeld(h.seats, [seat]) == WithStatus(h.seats, seat, Held)
    ensures Acquired(h.locks, [seat], Lock(order, h.now + c.ttl)) == Some(h.locks[seat := Lock(order, h.now + c.ttl)])
    ensures KeySet([seat]) == {seat}
  {
    assert [seat][0] == seat && forall s :: s in [seat] <==> s == seat;
    assert Acquired(h.locks, [seat], Lock(order, h.now + c.ttl)).value == h.locks[seat := Lock(order, h.now + c.ttl)];
    assert AllHeld(h.seats, [seat]) == WithStatus(h.seats, seat, Held);
  }

  lemma HoldOne(site: Site, w: World, seat: SeatId, order: OrderId)
    requires OnlyCounts(w, seat) && w.hall.locks == map[] && site.config.maxPerUser >= 2
    requires w.hall.seats[seat].status == Available || w.hall.seats[seat].status == Held
    ensures var next := Next(site, w, Hold([seat], order));
            && OnlyCounts(next, seat) && next.hall.seats[seat].status == Held
            && next.hall.locks == map[seat := Lock(order, w.hall.now + site.config.ttl)]
            && next.hall.now == w.hall.now && next.booker == w.booker && next.log == w.log
  {
    var user, event := site.owner(order), w.hall.seats[seat].event;
    SubsetSize(HoldSet(w.hall.holds, user, event), {seat});
    OneSeatIsHeld(site.config, w.hall, seat, order, user);
    hide HoldRefusal;
    hide Acquired;
    hide AllHeld;
    hide KeySet;
    forall u, e
      ensures HoldSet(Next(site, w, Hold([seat], order)).hall.holds, u, e) <= {seat}
    {
      assert HoldSet(w.hall.holds, u, e) <= {seat};
    }
  }

  lemma LapseOne(site: Site, w: World, seat: SeatId)
    requires OnlyCounts(w, seat) && w.hall.locks.Keys == {seat} && w.hall.locks[seat].until <= site.config.ttl
    ensures var next := Next(site, w, Tick(site.config.ttl));
            && next.hall == w.hall.(locks := map[], now := site.config.ttl)
            && next.booker == w.booker && next.log == w.log
  {
    assert Unexpired(w.hall.locks, site.config.ttl) == map[];
  }

  lemma ConfirmOne(site: Site, w: World, seat: SeatId, order: OrderId)
    requires OnlyCounts(w, seat) && w.hall.seats[seat].status == Held
    requires w.hall.locks.Keys == {seat} && w.hall.locks[seat].order == order
    ensures var next := Next(site, w, Confirm(seat, order));
            && OnlyCounts(next, seat) && next.hall.seats[seat].status == Booked
            && next.hall.locks == map[] && next.log == w.log + [Sold(seat, order)]
  {
    assert w.hall.locks - {seat} == map[];
    forall u, e
      ensures HoldSet(Next(site, w, Confirm(seat, order)).hall.holds, u, e) <= {seat}
    {
      assert HoldSet(w.hall.holds, u, e) <= {seat};
    }
  }

  lemma ReleaseOne(site: Site, w: World, seat: SeatId, order: OrderId)
    requires OnlyCounts(w, seat) && w.hall.seats[seat].status == Booked && w.hall.locks == map[]
    ensures var next := Next(site, w, Release(seat, order));
            && OnlyCounts(next, seat) && next.hall.seats[seat].status == Available
            && next.hall.locks == map[] && next.log == w.log + [Freed(seat, order)]
  {
    forall u, e
      ensures HoldSet(Next(site, w, Release(seat, order)).hall.holds, u, e) <= {seat}
    {
      assert HoldSet(w.hall.holds, u, e) <= {seat};
    }
  }

  /** The seven steps in a row. */
  lemma RunsThrough(site: Site, w0: World, seat: SeatId, a: OrderId, b: OrderId, c: OrderId)
    ensures var w3 := Next(site, Next(site, Next(site, w0, Hold([seat], a)), Tick(site.config.ttl)), Hold([seat], b));
            var w5 := Next(site, Next(site, w3, Confirm(seat, b)), Release(seat, a));
            After(site, w0, [Hold([seat], a), Tick(site.config.ttl), Hold([seat], b), Confirm(seat, b),
                             Release(seat, a), Hold([seat], c), Confirm(seat, c)])
            == Next(site, Next(site, w5, Hold([seat], c)), Confirm(seat, c))
  {
    hide Next;
    var w1 := Next(site, w0, Hold([seat], a));
    var w2 := Next(site, w1, Tick(site.config.ttl));
    var w3 := Next(site, w2, Hold([seat], b));
    var w4 := Next(site, w3, Confirm(seat, b));
    var w5 := Next(site, w4, Release(seat, a));
    var steps := [Hold([seat], a), Tick(site.config.ttl), Hold([seat], b), Confirm(seat, b),
                  Release(seat, a), Hold([seat], c), Confirm(seat, c)];
    assert After(site, w0, steps) == After(site, w1, steps[1..]);
    assert After(site, w1, steps[1..]) == After(site, w2, steps[2..]) by { assert steps[1..][1..] == steps[2..]; }
    assert After(site, w2, steps[2..]) == After(site, w3, steps[3..]) by { assert steps[2..][1..] == steps[3..]; }
    assert After(site, w3, steps[3..]) == After(site, w4, steps[4..]) by { assert steps[3..][1..] == steps[4..]; }
    assert After(site, w4, steps[4..]) == After(site, w5, steps[5..]) by { assert steps[4..][1..] == steps[5..]; }
    var w6 := Next(site, w5, Hold([seat], c));
    assert After(site, w5, steps[5..]) == After(site, w6, steps[6..]) by { assert steps[5..][1..] == steps[6..]; }
    var w7 := Next(site, w6, Confirm(seat, c));
    assert After(site, w6, steps[6..]) == After(site, w7, []) by { assert steps[6..][1..] == []; }
  }

  // --------------------------------------------------- the exact condition

  /** Some run from `w` sells a seat again though the order that bought it did not give it back. */
  ghost predicate CanSellTwice(site: Site, w: World) {
    exists steps :: Run(site, w, steps) && !SalesSeparated(After(site, w, steps).log)
  }

  /** A stranger's release of a BOOKED seat, step by step: the seat is free, and nobody else's count grew. */
  lemma FreedByStranger(site: Site, w: World, seat: SeatId, a: OrderId)
    requires Sound(site, w) && seat in w.booker
    ensures var next := Next(site, w, Release(seat, a));
            && seat in next.hall.seats && next.hall.seats[seat].status == Available && seat !in next.hall.locks
            && next.hall.seats[seat].event == w.hall.seats[seat].event
            && seat !in next.booker && next.log == w.log + [Freed(seat, a)]
            && (forall u, e :: HoldSet(next.hall.holds, u, e) <= HoldSet(w.hall.holds, u, e))
  {
    hide SalesAccounted;
    hide SalesSeparated;
    hide BookersSold;
    hide LocksCounted;
    hide WithinLimit;
  }

  lemma HeldAndSold(site: Site, w: World, seat: SeatId, c: OrderId)
    requires seat in w.hall.seats && w.hall.seats[seat].status == Available && seat !in w.hall.locks
    requires |HoldSet(w.hall.holds, site.owner(c), w.hall.seats[seat].event)| < site.config.maxPerUser
    ensures Run(site, w, [Hold([seat], c), Confirm(seat, c)])
    ensures After(site, w, [Hold([seat], c), Confirm(seat, c)]).log == w.log + [Sold(seat, c)]
  {
    OneSeatIsHeld(site.config, w.hall, seat, c, site.owner(c));
    hide HoldRefusal;
    hide Acquired;
    hide AllHeld;
    hide Added;
    var held := Next(site, w, Hold([seat], c));
    assert seat in held.hall.seats && held.hall.seats[seat].status == Held && Owns(held.hall.locks, seat, c);
    var sold := Next(site, held, Confirm(seat, c));
    assert sold.log == w.log + [Sold(seat, c)];
    hide Next;
    var steps := [Hold([seat], c), Confirm(seat, c)];
    assert steps[1..] == [Confirm(seat, c)] && steps[1..][1..] == [];
    assert Run(site, held, steps[1..]) && After(site, held, steps[1..]) == sold;
  }

  lemma SoldOverUnfreedSale(log: seq<Sale>, i: nat, seat: SeatId, a: OrderId, b: OrderId, c: OrderId)
    requires SoldAt(log, i, seat, b) && !FreedAfter(log, i, seat, b) && a != b
    ensures !SalesSeparated(log + [Freed(seat, a)] + [Sold(seat, c)])
  {
    var freed := log + [Freed(seat, a)];
    var sold := freed + [Sold(seat, c)];
    StaysUnfreed(log, Freed(seat, a), i, seat, b);
    assert SoldAt(sold, i, seat, b) && SoldAt(sold, |freed|, seat, c) && sold[..|freed|] == freed;
  }

  /** From every sound state: a seat freed by an order that did not book it can be sold over the head of the one that did. */
  lemma StrangersReleaseResellsSeat(site: Site, w: World, seat: SeatId, a: OrderId, c: OrderId)
    requires Sound(site, w) && seat in w.booker && w.booker[seat] != a
    requires |HoldSet(w.hall.holds, site.owner(c), w.hall.seats[seat].event)| < site.config.maxPerUser
    ensures CanSellTwice(site, Next(site, w, Release(seat, a)))
  {
    var b := w.booker[seat];
    var i: nat :| SoldAt(w.log, i, seat, b) && !FreedAfter(w.log, i, seat, b);
    var freed := Next(site, w, Release(seat, a));
    FreedByStranger(site, w, seat, a);
    hide Next;
    hide Sound;
    var event := freed.hall.seats[seat].event;
    SubsetSize(HoldSet(freed.hall.holds, site.owner(c), event), HoldSet(w.hall.holds, site.owner(c), event));
    HeldAndSold(site, freed, seat, c);
    SoldOverUnfreedSale(w.log, i, seat, a, b, c);
  }

  /**
   * The exact condition of releasing a BOOKED seat, from every sound state in which some
   * user is below the limit: no continuation sells it over anybody's head if and only if
   * the release comes from the order that booked it.
   */
  lemma ReleaseIsSafeIff(site: Site, w: World, seat: SeatId, a: OrderId, c: OrderId)
    requires Sound(site, w) && seat in w.booker
    requires |HoldSet(w.hall.holds, site.owner(c), w.hall.seats[seat].event)| < site.config.maxPerUser
    ensures !CanSellTwice(site, Next(site, w, Release(seat, a))) <==> w.booker[seat] == a
  {
    if w.booker[seat] == a {
      var freed := Next(site, w, Release(seat, a));
      StepIsSound(site, w, Release(seat, a));
      hide Next;
      forall steps | Run(site, freed, steps)
        ensures SalesSeparated(After(site, freed, steps).log)
      {
        RunIsSound(site, freed, steps);
      }
    } else {
      hide CanSellTwice;
      StrangersReleaseResellsSeat(site, w, seat, a, c);
    }
  }
}
