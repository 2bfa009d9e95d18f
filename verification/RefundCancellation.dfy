/**
 * What canceling an event brings about: each of its paid orders is paid back to the
 * last dong, and doing it again, at once or after any run, changes nothing.
 */
module RefundCancellation {
  import opened Common
  import opened RefundPolicy
  import opened Tickets
  import opened Refunds
  import opened RefundWorld
  import opened RefundClaims
  import opened RefundMoney
  import opened RefundPayouts

  lemma FullySettledIsCovered(ledger: Ledger, refunds: seq<Refund>, o: OrderId, live: seq<ItemId>)
    requires o in ledger && FullySettled(refunds, o, live)
    requires forall i :: i in OrderIds(ledger, o) ==> i in live
    ensures Covered(ledger, refunds, o)
  {
    if exists k :: 0 <= k < |refunds| && Settles(refunds[k], o) && refunds[k].items == [] {
      var k :| 0 <= k < |refunds| && Settles(refunds[k], o) && refunds[k].items == [];
      assert Claims(refunds[k], o);
    } else {
      forall i | i in OrderIds(ledger, o) ensures i in ClaimedItems(refunds, o) {
        assert i !in Unclaimed(live, SettledItems(refunds, o));
        var k :| 0 <= k < |refunds| && Settles(refunds[k], o) && i in refunds[k].items;
        assert Claims(refunds[k], o);
      }
    }
  }

  /** Nothing is left to do for the order: paid back in full, or nothing to pay back and no open request. */
  ghost predicate Done(ledger: Ledger, refunds: seq<Refund>, o: OrderId, live: seq<ItemId>) {
    || FullySettled(refunds, o, live)
    || (!Billed(ledger, o) && forall k :: 0 <= k < |refunds| && refunds[k].order == o ==> !Locking(refunds[k].status))
  }

  lemma CanceledOrderIsDone(ledger: Ledger, refunds: seq<Refund>, o: OrderId, live: seq<ItemId>, now: int)
    ensures Done(ledger, AfterCanceledOrder(ledger, refunds, o, live, now), o, live)
    ensures Billed(ledger, o) ==> FullySettled(AfterCanceledOrder(ledger, refunds, o, live, now), o, live)
  {
    var after := AfterCanceledOrder(ledger, refunds, o, live, now);
    if !FullySettled(refunds, o, live) && Billed(ledger, o) {
      var row := after[|refunds|];
      assert after == SupersedeAll(refunds, o) + [row] && Settles(row, o);
      if row.items != [] {
        forall i | i in live ensures i in SettledItems(after, o) {
          SettledItemGained(refunds, after, o, i);
        }
        NothingUnclaimed(live, SettledItems(after, o));
      }
    }
  }

  lemma NothingUnclaimed(live: seq<ItemId>, claimed: set<ItemId>)
    requires forall i :: i in live ==> i in claimed
    ensures Unclaimed(live, claimed) == []
  {
  }

  lemma SettledItemGained(refunds: seq<Refund>, after: seq<Refund>, o: OrderId, i: ItemId)
    requires |after| == |refunds| + 1 && Settles(after[|refunds|], o)
    requires after[..|refunds|] == SupersedeAll(refunds, o)
    requires i in SettledItems(refunds, o) || i in after[|refunds|].items
    ensures i in SettledItems(after, o)
  {
    if i in SettledItems(refunds, o) {
      var k :| 0 <= k < |refunds| && Settles(refunds[k], o) && i in refunds[k].items;
      assert after[k] == after[..|refunds|][k];
      assert Settles(after[k], o) && i in after[k].items;
    }
  }

  lemma DoneMeansUntouched(ledger: Ledger, refunds: seq<Refund>, o: OrderId, live: seq<ItemId>, now: int)
    requires Done(ledger, refunds, o, live)
    ensures AfterCanceledOrder(ledger, refunds, o, live, now) == refunds
  {
    if !FullySettled(refunds, o, live) {
      assert SupersedeAll(refunds, o) == refunds;
    }
  }

  /** Settled rows survive the cancellation of any order, so what is done stays done. */
  lemma DoneStaysDone(ledger: Ledger, refunds: seq<Refund>, o: OrderId, live: seq<ItemId>, other: PaidOrder, now: int)
    requires Done(ledger, refunds, o, live)
    ensures var after := AfterCanceledOrder(ledger, refunds, other.order, other.live, now);
            Done(ledger, after, o, live) && (FullySettled(refunds, o, live) ==> FullySettled(after, o, live))
  {
    if other.order == o && FullySettled(refunds, o, live) && !FullySettled(refunds, o, other.live) {
      SettledRowsSurvive(ledger, refunds, o, live, other, now);
    } else if other.order != o {
      SettledRowsSurvive(ledger, refunds, o, live, other, now);
    } else if !FullySettled(refunds, o, live) {
      assert SupersedeAll(refunds, o) == refunds;
    }
  }

  lemma SettledRowsSurvive(ledger: Ledger, refunds: seq<Refund>, o: OrderId, live: seq<ItemId>, other: PaidOrder, now: int)
    requires Done(ledger, refunds, o, live)
    ensures var after := AfterCanceledOrder(ledger, refunds, other.order, other.live, now);
            Done(ledger, after, o, live) && (FullySettled(refunds, o, live) ==> FullySettled(after, o, live))
  {
    var after := AfterCanceledOrder(ledger, refunds, other.order, other.live, now);
    SettledRowsStay(ledger, refunds, o, other, now);
    if FullySettled(refunds, o, live) {
      if k :| 0 <= k < |refunds| && Settles(refunds[k], o) && refunds[k].items == [] {
        assert Settles(after[k], o) && after[k].items == [];
      } else {
        var k :| 0 <= k < |refunds| && Settles(refunds[k], o);
        assert Settles(after[k], o);
        forall i | i in live ensures i in SettledItems(after, o) {
          assert i !in Unclaimed(live, SettledItems(refunds, o));
          var j :| 0 <= j < |refunds| && Settles(refunds[j], o) && i in refunds[j].items;
          assert Settles(after[j], o) && i in after[j].items;
        }
        NothingUnclaimed(live, SettledItems(after, o));
      }
    }
  }

  lemma SettledRowsStay(ledger: Ledger, refunds: seq<Refund>, o: OrderId, other: PaidOrder, now: int)
    ensures var after := AfterCanceledOrder(ledger, refunds, other.order, other.live, now);
            && |refunds| <= |after|
            && (forall k :: 0 <= k < |refunds| && Settles(refunds[k], o) ==> after[k] == refunds[k])
            && (other.order != o ==> forall k :: 0 <= k < |after| && after[k].order == o ==> k < |refunds| && after[k] == refunds[k])
  {
  }

  lemma {:induction false} CanceledEventIsDone(ledger: Ledger, refunds: seq<Refund>, orders: seq<PaidOrder>, now: int)
    ensures forall p :: p in orders ==>
              var after := AfterCanceledEvent(ledger, refunds, orders, now);
              && Done(ledger, after, p.order, p.live)
              && (Billed(ledger, p.order) ==> FullySettled(after, p.order, p.live))
  {
    hide AfterCanceledOrder;
    hide Done;
    hide FullySettled;
    if orders != [] {
      var init, last := orders[..|orders| - 1], orders[|orders| - 1];
      CanceledEventIsDone(ledger, refunds, init, now);
      CanceledOrderIsDone(ledger, AfterCanceledEvent(ledger, refunds, init, now), last.order, last.live, now);
      forall p | p in init ensures
          var after := AfterCanceledEvent(ledger, refunds, orders, now);
          && Done(ledger, after, p.order, p.live)
          && (Billed(ledger, p.order) ==> FullySettled(after, p.order, p.live))
      {
        DoneStaysDone(ledger, AfterCanceledEvent(ledger, refunds, init, now), p.order, p.live, last, now);
      }
      assert forall p :: p in orders ==> p in init || p == last;
    }
  }

  lemma {:induction false} AllDoneMeansUntouched(ledger: Ledger, refunds: seq<Refund>, orders: seq<PaidOrder>, now: int)
    requires forall p :: p in orders ==> Done(ledger, refunds, p.order, p.live)
    ensures AfterCanceledEvent(ledger, refunds, orders, now) == refunds
  {
    hide Done;
    hide AfterCanceledOrder;
    if orders != [] {
      var init, last := orders[..|orders| - 1], orders[|orders| - 1];
      AllDoneMeansUntouched(ledger, refunds, init, now);
      assert last in orders;
      DoneMeansUntouched(ledger, refunds, last.order, last.live, now);
    }
  }

  /** Running the refunds of an event again at once, whatever rows it started from, creates and changes nothing. */
  lemma CancelingTwiceIsCancelingOnce(ledger: Ledger, refunds: seq<Refund>, orders: seq<PaidOrder>, now: int, later: int)
    ensures var once := AfterCanceledEvent(ledger, refunds, orders, now);
            AfterCanceledEvent(ledger, once, orders, later) == once
  {
    hide Done;
    CanceledEventIsDone(ledger, refunds, orders, now);
    AllDoneMeansUntouched(ledger, AfterCanceledEvent(ledger, refunds, orders, now), orders, later);
  }

  // ------------------------------------------------------ again, after any run

  /** No row is lost or retargeted, and what was decided for the customer stays decided. */
  ghost predicate RowsPersist(before: seq<Refund>, after: seq<Refund>) {
    && |before| <= |after|
    && forall k :: 0 <= k < |before| ==>
         && after[k].order == before[k].order && after[k].items == before[k].items
         && (Settled(before[k].status) ==> Settled(after[k].status))
  }

  /** Refunds exist only for orders with a payment. */
  ghost predicate RowsBilled(ledger: Ledger, refunds: seq<Refund>) {
    forall k :: 0 <= k < |refunds| ==> Billed(ledger, refunds[k].order)
  }

  lemma CanceledOrderPersists(ledger: Ledger, refunds: seq<Refund>, o: OrderId, live: seq<ItemId>, now: int)
    ensures var after := AfterCanceledOrder(ledger, refunds, o, live, now);
            RowsPersist(refunds, after) && (RowsBilled(ledger, refunds) ==> RowsBilled(ledger, after))
  {
    hide FullySettled;
    hide Unclaimed;
  }

  lemma {:induction false} CanceledEventPersists(ledger: Ledger, refunds: seq<Refund>, orders: seq<PaidOrder>, now: int)
    ensures var after := AfterCanceledEvent(ledger, refunds, orders, now);
            RowsPersist(refunds, after) && (RowsBilled(ledger, refunds) ==> RowsBilled(ledger, after))
  {
    hide AfterCanceledOrder;
    hide RowsBilled;
    if orders != [] {
      var init, last := orders[..|orders| - 1], orders[|orders| - 1];
      CanceledEventPersists(ledger, refunds, init, now);
      CanceledOrderPersists(ledger, AfterCanceledEvent(ledger, refunds, init, now), last.order, last.live, now);
    }
  }

  lemma RequestPersists(ledger: Ledger, d: Desk, order: OrderId, status: OrderStatus, requested: seq<ItemId>, event: EventContext, now: int)
    ensures var after := AfterRequest(ledger, d, order, status, requested, event, now);
            after.Ok? ==> RowsPersist(d.refunds, after.value.refunds)
                          && (RowsBilled(ledger, d.refunds) ==> RowsBilled(ledger, after.value.refunds))
  {
    hide LockedForRefund;
    if AfterRequest(ledger, d, order, status, requested, event, now).Ok? {
      PreparedItemsAreOrdered(ledger, d.refunds, order, status, requested, event, now);
    }
    hide Prepare;
  }

  lemma AppealPersists(ledger: Ledger, w: World, step: Step)
    requires step.EscalateRefund?
    ensures var after := Next(ledger, w, step).desk.refunds;
            RowsPersist(w.desk.refunds, after) && (RowsBilled(ledger, w.desk.refunds) ==> RowsBilled(ledger, after))
  {
    hide LockedForRefund;
  }

  lemma StepPersists(ledger: Ledger, w: World, step: Step)
    requires PayoutsSettled(w)
    ensures var after := Next(ledger, w, step).desk.refunds;
            RowsPersist(w.desk.refunds, after) && (RowsBilled(ledger, w.desk.refunds) ==> RowsBilled(ledger, after))
  {
    if step.RequestRefund? {
      hide AfterRequest;
      RequestPersists(ledger, w.desk, step.order, step.status, step.requested, step.event, step.now);
    } else if step.CancelEvent? {
      hide AfterCanceledEvent;
      CanceledEventPersists(ledger, w.desk.refunds, step.orders, step.now);
    } else if IsAppeal(w, step) {
      hide LockedForRefund;
      hide Next;
      AppealPersists(ledger, w, step);
    } else {
      OtherStepsAreTidy(ledger, w, step);
      hide Next;
    }
  }

  lemma {:induction false} RunPersists(ledger: Ledger, w: World, steps: seq<Step>, rule: Rule)
    requires Agrees(w) && Run(ledger, w, steps, rule)
    ensures var after := After(ledger, w, steps).desk.refunds;
            RowsPersist(w.desk.refunds, after) && (RowsBilled(ledger, w.desk.refunds) ==> RowsBilled(ledger, after))
    decreases |steps|
  {
    hide Next;
    hide RowsBilled;
    if steps != [] {
      assert PayoutsSettled(w);
      StepPersists(ledger, w, steps[0]);
      hide Agrees;
      StepAgrees(ledger, w, steps[0]);
      RunPersists(ledger, Next(ledger, w, steps[0]), steps[1..], rule);
    }
  }

  lemma SettledPersists(before: seq<Refund>, after: seq<Refund>, o: OrderId, live: seq<ItemId>, fewer: seq<ItemId>)
    requires RowsPersist(before, after) && FullySettled(before, o, live) && forall i :: i in fewer ==> i in live
    ensures FullySettled(after, o, fewer)
  {
    if k :| 0 <= k < |before| && Settles(before[k], o) && before[k].items == [] {
      assert Settles(after[k], o) && after[k].items == [];
    } else {
      var k :| 0 <= k < |before| && Settles(before[k], o);
      assert Settles(after[k], o);
      forall i | i in fewer
        ensures i in SettledItems(after, o)
      {
        assert i !in Unclaimed(live, SettledItems(before, o));
        var j :| 0 <= j < |before| && Settles(before[j], o) && i in before[j].items;
        assert Settles(after[j], o) && i in after[j].items;
      }
      NothingUnclaimed(fewer, SettledItems(after, o));
    }
  }

  lemma DonePersists(ledger: Ledger, before: seq<Refund>, after: seq<Refund>, p: PaidOrder, q: PaidOrder)
    requires RowsPersist(before, after) && RowsBilled(ledger, after)
    requires Billed(ledger, p.order) ==> FullySettled(before, p.order, p.live)
    requires q.order == p.order && forall i :: i in q.live ==> i in p.live
    ensures Done(ledger, after, q.order, q.live)
  {
    if Billed(ledger, p.order) {
      SettledPersists(before, after, p.order, p.live, q.live);
    }
    hide FullySettled;
  }

  /** `again` lists orders the event's first cancellation listed, perhaps with fewer live items. */
  ghost predicate ListedBefore(orders: seq<PaidOrder>, again: seq<PaidOrder>) {
    forall q :: q in again ==> exists p :: p in orders && p.order == q.order && forall i :: i in q.live ==> i in p.live
  }

  /**
   * A redelivered cancellation creates and changes nothing, whatever happened since the
   * first: payouts, retries, requests, rejections, appeals, other events.
   */
  lemma CancelingAgainChangesNothing(ledger: Ledger, book: Book, steps: seq<Step>, orders: seq<PaidOrder>, now: int,
                                     more: seq<Step>, again: seq<PaidOrder>, later: int)
    requires FreshBook(book) && Run(ledger, Start(book), steps, AnyStep)
    requires var w := After(ledger, Start(book), steps);
             && Allowed(ledger, w, CancelEvent(orders, now))
             && Run(ledger, Next(ledger, w, CancelEvent(orders, now)), more, AnyStep)
    requires ListedBefore(orders, again)
    ensures var refunds := After(ledger, Next(ledger, After(ledger, Start(book), steps), CancelEvent(orders, now)), more).desk.refunds;
            AfterCanceledEvent(ledger, refunds, again, later) == refunds
  {
    var w := After(ledger, Start(book), steps);
    var canceled := Next(ledger, w, CancelEvent(orders, now));
    StartAgrees(book);
    RunAgrees(ledger, Start(book), steps, AnyStep);
    StepAgrees(ledger, w, CancelEvent(orders, now));
    RunPersists(ledger, Start(book), steps, AnyStep);
    CanceledEventPersists(ledger, w.desk.refunds, orders, now);
    CanceledEventIsDone(ledger, w.desk.refunds, orders, now);
    assert canceled.desk.refunds == AfterCanceledEvent(ledger, w.desk.refunds, orders, now);
    hide Agrees;
    hide Next;
    hide AfterCanceledEvent;
    hide Done;
    hide FullySettled;
    RunPersists(ledger, canceled, more, AnyStep);
    var refunds := After(ledger, canceled, more).desk.refunds;
    forall q | q in again
      ensures Done(ledger, refunds, q.order, q.live)
    {
      var p :| p in orders && p.order == q.order && forall i :: i in q.live ==> i in p.live;
      DonePersists(ledger, canceled.desk.refunds, refunds, p, q);
    }
    AllDoneMeansUntouched(ledger, refunds, again, later);
  }

  // ---------------------------------------------------- what the gateway is asked for

  /** What the gateway is asked to send back on an order: the amounts decided in the customer's favour. */
  function Owed(refunds: seq<Refund>, o: OrderId): nat {
    if refunds == [] then 0
    else
      var last := refunds[|refunds| - 1];
      Owed(refunds[..|refunds| - 1], o)
      + if last.order == o && last.status in {Approved, Processing, Failed, Completed} then last.amount else 0
  }

  /** What the fees of those refunds keep back. */
  function Retained(refunds: seq<Refund>, o: OrderId): int {
    if refunds == [] then 0
    else
      var last := refunds[|refunds| - 1];
      Retained(refunds[..|refunds| - 1], o)
      + if last.order == o && last.status in {Approved, Processing, Failed, Completed} then last.fee else 0
  }

  /** The claims of an order are what it is owed and the fees, beside its open requests. */
  lemma {:induction false} ClaimsAreOwedOrRetained(refunds: seq<Refund>, o: OrderId)
    requires AllAddUp(refunds) && forall k :: 0 <= k < |refunds| && refunds[k].order == o ==> !Locking(refunds[k].status)
    ensures ClaimedGross(refunds, o) == Owed(refunds, o) + Retained(refunds, o)
  {
    if refunds != [] {
      ClaimsAreOwedOrRetained(refunds[..|refunds| - 1], o);
      assert AddsUp(refunds[|refunds| - 1]);
      hide AmountForPercent;
    }
  }

  /** Rows that stay as they are for the order keep what it is owed. */
  lemma {:induction false} OwedStays(before: seq<Refund>, after: seq<Refund>, o: OrderId)
    requires |before| <= |after|
    requires forall k :: 0 <= k < |before| ==>
               after[k] == before[k] || ((before[k].order != o || Locking(before[k].status)) && after[k] == before[k].(status := Withdrawn))
    requires forall k :: |before| <= k < |after| ==> after[k].order != o
    ensures Owed(after, o) == Owed(before, o) && Retained(after, o) == Retained(before, o)
    decreases |after|
  {
    if |after| > |before| {
      OwedStays(before, after[..|after| - 1], o);
    } else if after != [] {
      OwedStays(before[..|before| - 1], after[..|after| - 1], o);
    }
  }

  lemma CanceledOrderOwesTheRest(ledger: Ledger, refunds: seq<Refund>, o: OrderId, live: seq<ItemId>, now: int)
    requires Billed(ledger, o) && AllAddUp(refunds) && ClaimedGross(refunds, o) <= ledger[o].payment.value
    ensures var after := AfterCanceledOrder(ledger, refunds, o, live, now);
            && Owed(after, o) == (if FullySettled(refunds, o, live) then Owed(refunds, o)
                                  else ledger[o].payment.value - Retained(refunds, o))
            && Retained(after, o) == Retained(refunds, o)
  {
    var after := AfterCanceledOrder(ledger, refunds, o, live, now);
    CanceledOrderAsPromised(ledger, refunds, o, live, now);
    DecidedIsSettled(refunds, o, live);
    hide AfterCanceledOrder;
    hide PaidInFull;
    hide FullySettled;
    if FullySettled(refunds, o, live) {
      assert after == refunds;
    } else {
      OpenRequestsGiveWay(refunds, after[..|refunds|], o);
      hide ClaimedGross;
      hide Retained;
      hide Owed;
      OwedAppend(after, o);
    }
  }

  /** Once an order's open requests are withdrawn, it is claimed for exactly what is owed and retained. */
  lemma OpenRequestsGiveWay(before: seq<Refund>, after: seq<Refund>, o: OrderId)
    requires AllAddUp(before) && |after| == |before|
    requires forall k :: 0 <= k < |before| ==>
               after[k] == if before[k].order == o && Locking(before[k].status) then before[k].(status := Withdrawn) else before[k]
    ensures ClaimedGross(after, o) == Owed(before, o) + Retained(before, o)
    ensures Owed(after, o) == Owed(before, o) && Retained(after, o) == Retained(before, o)
    ensures ClaimedGross(after, o) <= ClaimedGross(before, o)
  {
    GrossShrinks(before, after, o);
    OwedStays(before, after, o);
    WithdrawingAddsUp(before, after);
    ClaimsAreOwedOrRetained(after, o);
  }

  lemma OwedAppend(refunds: seq<Refund>, o: OrderId)
    requires refunds != [] && refunds[|refunds| - 1].order == o && refunds[|refunds| - 1].status == Approved
    ensures var last := refunds[|refunds| - 1];
            && Owed(refunds, o) == Owed(refunds[..|refunds| - 1], o) + last.amount
            && Retained(refunds, o) == Retained(refunds[..|refunds| - 1], o) + last.fee
  {
  }

  lemma WithdrawingAddsUp(before: seq<Refund>, after: seq<Refund>)
    requires AllAddUp(before) && |after| == |before|
    requires forall k :: 0 <= k < |before| ==> after[k] == before[k] || after[k] == before[k].(status := Withdrawn)
    ensures AllAddUp(after)
  {
    hide AmountForPercent;
  }

  // ------------------------------------------------------------ paid back exactly

  /** Canceling another order touches neither the claims nor the settlement of this one. */
  lemma OtherOrderLeavesAlone(ledger: Ledger, refunds: seq<Refund>, o: OrderId, live: seq<ItemId>, other: PaidOrder, now: int)
    requires other.order != o
    ensures var after := AfterCanceledOrder(ledger, refunds, other.order, other.live, now);
            && ClaimedGross(after, o) == ClaimedGross(refunds, o)
            && (FullySettled(after, o, live) <==> FullySettled(refunds, o, live))
            && Owed(after, o) == Owed(refunds, o) && Retained(after, o) == Retained(refunds, o)
  {
    var after := AfterCanceledOrder(ledger, refunds, other.order, other.live, now);
    OwedStays(refunds, after, o);
    var rows := SupersedeAll(refunds, other.order);
    GrossShrinks(refunds, rows, o);
    if |after| > |refunds| {
      assert after == rows + [after[|refunds|]];
      GrossAppend(rows, after[|refunds|], o);
    }
    SameRowsOf(refunds, after, o, live);
  }

  lemma SameRowsOf(before: seq<Refund>, after: seq<Refund>, o: OrderId, live: seq<ItemId>)
    requires |before| <= |after|
    requires forall k :: 0 <= k < |before| && (before[k].order == o || after[k].order == o) ==> after[k] == before[k]
    requires forall k :: |before| <= k < |after| ==> after[k].order != o
    ensures FullySettled(after, o, live) <==> FullySettled(before, o, live)
  {
    assert forall k :: 0 <= k < |before| && Settles(before[k], o) ==> Settles(after[k], o) && after[k] == before[k];
    assert forall k :: 0 <= k < |after| && Settles(after[k], o) ==> k < |before| && after[k] == before[k];
    forall i
      ensures i in SettledItems(after, o) <==> i in SettledItems(before, o)
    {
      if i in SettledItems(before, o) {
        var k :| 0 <= k < |before| && Settles(before[k], o) && i in before[k].items;
        assert Settles(after[k], o) && i in after[k].items;
      }
      if i in SettledItems(after, o) {
        var k :| 0 <= k < |after| && Settles(after[k], o) && i in after[k].items;
        assert Settles(before[k], o) && i in before[k].items;
      }
    }
    assert SettledItems(after, o) == SettledItems(before, o);
  }

  lemma CanceledOrderClaimsTheRest(ledger: Ledger, refunds: seq<Refund>, o: OrderId, live: seq<ItemId>, now: int)
    requires Billed(ledger, o) && ClaimedGross(refunds, o) <= ledger[o].payment.value
    ensures ClaimedGross(AfterCanceledOrder(ledger, refunds, o, live, now), o)
            == if FullySettled(refunds, o, live) then ClaimedGross(refunds, o) else ledger[o].payment.value
  {
    if !FullySettled(refunds, o, live) {
      var rows := SupersedeAll(refunds, o);
      var after := AfterCanceledOrder(ledger, refunds, o, live, now);
      GrossShrinks(refunds, rows, o);
      assert after == rows + [after[|refunds|]];
      GrossAppend(rows, after[|refunds|], o);
      hide FullySettled;
      hide ClaimedGross;
    }
  }

  lemma {:induction false} UnlistedLeftAlone(ledger: Ledger, refunds: seq<Refund>, orders: seq<PaidOrder>, now: int, o: OrderId, live: seq<ItemId>)
    requires forall q :: q in orders ==> q.order != o
    ensures var after := AfterCanceledEvent(ledger, refunds, orders, now);
            && ClaimedGross(after, o) == ClaimedGross(refunds, o) && (FullySettled(after, o, live) <==> FullySettled(refunds, o, live))
            && Owed(after, o) == Owed(refunds, o) && Retained(after, o) == Retained(refunds, o)
  {
    hide AfterCanceledOrder;
    hide FullySettled;
    hide ClaimedGross;
    hide Owed;
    hide Retained;
    if orders != [] {
      var init, last := orders[..|orders| - 1], orders[|orders| - 1];
      assert last in orders;
      UnlistedLeftAlone(ledger, refunds, init, now, o, live);
      OtherOrderLeavesAlone(ledger, AfterCanceledEvent(ledger, refunds, init, now), o, live, last, now);
    }
  }

  lemma {:induction false} CanceledEventClaimsTheRest(ledger: Ledger, refunds: seq<Refund>, orders: seq<PaidOrder>, now: int, p: PaidOrder)
    requires forall i, j :: 0 <= i < j < |orders| ==> orders[i].order != orders[j].order
    requires p in orders && Billed(ledger, p.order) && ClaimedGross(refunds, p.order) <= ledger[p.order].payment.value
    requires AllAddUp(refunds)
    ensures var after := AfterCanceledEvent(ledger, refunds, orders, now);
            && ClaimedGross(after, p.order)
               == (if FullySettled(refunds, p.order, p.live) then ClaimedGross(refunds, p.order) else ledger[p.order].payment.value)
            && Owed(after, p.order)
               == (if FullySettled(refunds, p.order, p.live) then Owed(refunds, p.order)
                   else ledger[p.order].payment.value - Retained(refunds, p.order))
            && Retained(after, p.order) == Retained(refunds, p.order)
  {
    hide AfterCanceledOrder;
    hide FullySettled;
    hide ClaimedGross;
    hide Owed;
    hide Retained;
    hide AllAddUp;
    var init, last := orders[..|orders| - 1], orders[|orders| - 1];
    assert orders == init + [last];
    var before := AfterCanceledEvent(ledger, refunds, init, now);
    if p == last {
      UnlistedLeftAlone(ledger, refunds, init, now, p.order, p.live);
      CanceledEventAddsUp(ledger, refunds, init, now);
      CanceledOrderClaimsTheRest(ledger, before, p.order, p.live, now);
      CanceledOrderOwesTheRest(ledger, before, p.order, p.live, now);
    } else {
      assert p in init && last.order != p.order;
      CanceledEventClaimsTheRest(ledger, refunds, init, now, p);
      OtherOrderLeavesAlone(ledger, before, p.order, p.live, last, now);
    }
  }

  /**
   * Canceling an event brings every paid order, resold items or not, to exactly what was
   * paid: what the gateway is asked for and the fees of refunds decided before make it up.
   * If the order's live tickets were all settled before, nothing is added.
   */
  lemma CancellationPaysBackTheRest(ledger: Ledger, book: Book, steps: seq<Step>, orders: seq<PaidOrder>, now: int, p: PaidOrder)
    requires FreshBook(book) && Run(ledger, Start(book), steps, FittingAppeals(ledger))
    requires forall i, j :: 0 <= i < j < |orders| ==> orders[i].order != orders[j].order
    requires p in orders && Billed(ledger, p.order)
    ensures var before := After(ledger, Start(book), steps).desk.refunds;
            var after := AfterCanceledEvent(ledger, before, orders, now);
            var paid := ledger[p.order].payment.value;
            && ClaimedGross(after, p.order) == (if PaidInFull(before, p.order, p.live) then ClaimedGross(before, p.order) else paid)
            && Owed(after, p.order) == (if PaidInFull(before, p.order, p.live) then Owed(before, p.order) else paid - Retained(before, p.order))
            && Retained(after, p.order) == Retained(before, p.order)
  {
    var before := After(ledger, Start(book), steps).desk.refunds;
    StartAgrees(book);
    RunBounded(ledger, Start(book), steps, FittingAppeals(ledger));
    RunAddsUp(ledger, Start(book), steps, FittingAppeals(ledger));
    DecidedIsSettled(before, p.order, p.live);
    hide After;
    hide Run;
    hide AllAddUp;
    hide Owed;
    hide Retained;
    hide FullySettled;
    hide PaidInFull;
    CanceledEventClaimsTheRest(ledger, before, orders, now, p);
  }

  /** A fully settled order all of whose items are live has no request open. */
  lemma SettledLeavesNothingOpen(ledger: Ledger, refunds: seq<Refund>, o: OrderId, live: seq<ItemId>)
    requires RowsNamed(ledger, refunds) && Apart(refunds) && Billed(ledger, o) && FullySettled(refunds, o, live)
    requires forall i :: i in OrderIds(ledger, o) ==> i in live
    ensures forall k :: 0 <= k < |refunds| && refunds[k].order == o ==> !Locking(refunds[k].status)
  {
    forall k | 0 <= k < |refunds| && refunds[k].order == o && !Settled(refunds[k].status)
      ensures !Claiming(refunds[k].status)
    {
      assert refunds[k].items[0] in refunds[k].items && refunds[k].items[0] in OrderIds(ledger, o);
      if whole :| 0 <= whole < |refunds| && Settles(refunds[whole], o) && refunds[whole].items == [] {
        assert whole != k;
      } else {
        assert refunds[k].items[0] !in Unclaimed(live, SettledItems(refunds, o));
        var j :| 0 <= j < |refunds| && Settles(refunds[j], o) && refunds[k].items[0] in refunds[j].items;
        assert j != k;
      }
    }
  }

  /**
   * And with appeals that balance, an order none of whose items was resold ends at exactly
   * what was paid in any case: the gateway is asked for all of it but the fees of earlier refunds.
   */
  lemma CancellationPaysBackExactly(ledger: Ledger, book: Book, steps: seq<Step>, orders: seq<PaidOrder>, now: int, p: PaidOrder)
    requires FreshBook(book) && Run(ledger, Start(book), steps, BalancedAppeals(ledger))
    requires forall q :: q in orders ==> q.order in ledger && forall i :: i in q.live ==> i in OrderIds(ledger, q.order)
    requires p in orders && Billed(ledger, p.order) && ledger[p.order].items != []
    requires forall i :: i in OrderIds(ledger, p.order) ==> i in p.live
    ensures var before := After(ledger, Start(book), steps).desk.refunds;
            var after := AfterCanceledEvent(ledger, before, orders, now);
            && ClaimedGross(after, p.order) == ledger[p.order].payment.value
            && Owed(after, p.order) + Retained(after, p.order) == ledger[p.order].payment.value
            && (forall k :: |before| <= k < |after| ==> after[k].amount == after[k].gross && after[k].fee == 0)
  {
    var before := After(ledger, Start(book), steps).desk.refunds;
    var after := AfterCanceledEvent(ledger, before, orders, now);
    NothingToConserve(ledger);
    StartAgrees(book);
    RunConserves(ledger, Start(book), steps, BalancedAppeals(ledger));
    RunAddsUp(ledger, Start(book), steps, BalancedAppeals(ledger));
    hide After;
    hide Run;
    hide AllAddUp;
    CanceledEventConserves(ledger, before, orders, now);
    CanceledEventIsDone(ledger, before, orders, now);
    CanceledEventAddsUp(ledger, before, orders, now);
    NewRowsPayInFull(ledger, before, orders, now);
    hide AfterCanceledEvent;
    FullySettledIsCovered(ledger, after, p.order, p.live);
    SettledLeavesNothingOpen(ledger, after, p.order, p.live);
    ClaimsAreOwedOrRetained(after, p.order);
  }

  /** Whatever a cancellation adds pays all of its gross. */
  lemma {:induction false} NewRowsPayInFull(ledger: Ledger, refunds: seq<Refund>, orders: seq<PaidOrder>, now: int)
    ensures var after := AfterCanceledEvent(ledger, refunds, orders, now);
            && |refunds| <= |after|
            && forall k :: |refunds| <= k < |after| ==> after[k].amount == after[k].gross && after[k].fee == 0 && Settled(after[k].status)
  {
    if orders != [] {
      var init, last := orders[..|orders| - 1], orders[|orders| - 1];
      hide PaidInFull;
      hide Decided;
      hide AnyDecided;
      hide ClaimedGross;
      NewRowsPayInFull(ledger, refunds, init, now);
      CanceledOrderAsPromised(ledger, AfterCanceledEvent(ledger, refunds, init, now), last.order, last.live, now);
      hide AfterCanceledOrder;
    }
  }
}
