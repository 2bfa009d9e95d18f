/**
 * Money conservation: the refunds of an order never claim more than was paid, and all
 * of it once every ticket is claimed. An appeal, which re-claims an old amount, is the
 * one step that can break this, and it does exactly when it does not balance the order.
 */
module RefundMoney {
  import opened Common
  import opened RefundPolicy
  import opened Tickets
  import opened Refunds
  import opened Payouts
  import opened RefundWorld
  import opened RefundClaims

  // ----------------------------------------------------------- the invariant

  predicate SameClaim(a: Refund, b: Refund) {
    a.order == b.order && a.kind == b.kind && a.items == b.items && a.gross == b.gross
  }

  /** The claim stands; a decided refund is not reopened. */
  predicate Keeps(a: Refund, b: Refund) {
    && SameClaim(a, b)
    && (Claiming(a.status) <==> Claiming(b.status))
    && (Settled(a.status) ==> Settled(b.status))
  }

  /** A request still under review gives its claim up. */
  predicate Releases(a: Refund, b: Refund) {
    SameClaim(a, b) && Locking(a.status) && !Claiming(b.status)
  }

  ghost predicate OnlyKeepsOrReleases(before: seq<Refund>, after: seq<Refund>) {
    && |before| == |after|
    && forall k :: 0 <= k < |before| ==> Keeps(before[k], after[k]) || Releases(before[k], after[k])
  }

  function OrderIds(ledger: Ledger, o: OrderId): seq<ItemId>
    requires o in ledger
  {
    ItemIds(ledger[o].items)
  }

  predicate Billed(ledger: Ledger, o: OrderId) {
    o in ledger && ledger[o].payment.Some?
  }

  ghost predicate RowsNamed(ledger: Ledger, refunds: seq<Refund>) {
    forall k :: 0 <= k < |refunds| ==>
      && Billed(ledger, refunds[k].order)
      && (forall i :: i in refunds[k].items ==> i in OrderIds(ledger, refunds[k].order))
      && (ByCustomer(refunds[k]) ==> refunds[k].items != [])
      && (!ByCustomer(refunds[k]) ==> Settled(refunds[k].status))
  }

  ghost predicate WithinPaid(ledger: Ledger, refunds: seq<Refund>) {
    forall o :: Billed(ledger, o) ==> ClaimedGross(refunds, o) <= ledger[o].payment.value
  }

  ghost predicate Apart(refunds: seq<Refund>) {
    forall j, k :: 0 <= j < |refunds| && 0 <= k < |refunds| && j != k
                   && refunds[j].order == refunds[k].order
                   && Claiming(refunds[j].status) && Claiming(refunds[k].status) ==>
      && (refunds[j].items == [] ==> !Locking(refunds[k].status))
      && (forall i :: i in refunds[j].items ==> i !in refunds[k].items)
  }

  /** Every ticket of the order is claimed by some open or completed refund. */
  ghost predicate Covered(ledger: Ledger, refunds: seq<Refund>, o: OrderId)
    requires o in ledger
  {
    WholeOrderClaimed(refunds, o) || forall i :: i in OrderIds(ledger, o) ==> i in ClaimedItems(refunds, o)
  }

  ghost predicate ExactWhenCovered(ledger: Ledger, refunds: seq<Refund>) {
    forall o :: Billed(ledger, o) && ledger[o].items != [] && Covered(ledger, refunds, o) ==>
      ClaimedGross(refunds, o) == ledger[o].payment.value
  }

  ghost predicate Conserved(ledger: Ledger, refunds: seq<Refund>) {
    && RowsNamed(ledger, refunds)
    && WithinPaid(ledger, refunds)
    && Apart(refunds)
    && ExactWhenCovered(ledger, refunds)
  }

  // -------------------------------------------------------------------- sums

  lemma {:induction false} GrossShrinks(before: seq<Refund>, after: seq<Refund>, o: OrderId)
    requires |before| == |after|
    requires forall k :: 0 <= k < |before| ==> GrossClaim(after[k], o) <= GrossClaim(before[k], o)
    ensures ClaimedGross(after, o) <= ClaimedGross(before, o)
    ensures (forall k :: 0 <= k < |before| ==> GrossClaim(after[k], o) == GrossClaim(before[k], o)) ==>
              ClaimedGross(after, o) == ClaimedGross(before, o)
  {
    if before != [] {
      GrossShrinks(before[..|before| - 1], after[..|after| - 1], o);
    }
  }

  lemma {:induction false} GrossUpdate(refunds: seq<Refund>, r: nat, row: Refund, o: OrderId)
    requires r < |refunds|
    ensures ClaimedGross(refunds[r := row], o) == ClaimedGross(refunds, o) - GrossClaim(refunds[r], o) + GrossClaim(row, o)
  {
    var last := |refunds| - 1;
    if r == last {
      assert refunds[r := row][..last] == refunds[..last];
    } else {
      GrossUpdate(refunds[..last], r, row, o);
      assert refunds[r := row][..last] == refunds[..last][r := row];
    }
  }

  lemma GrossAppend(refunds: seq<Refund>, row: Refund, o: OrderId)
    ensures ClaimedGross(refunds + [row], o) == ClaimedGross(refunds, o) + GrossClaim(row, o)
  {
    assert (refunds + [row])[..|refunds|] == refunds;
  }

  // --------------------------------------------------------- keep or release

  lemma TidyWithinPaid(ledger: Ledger, before: seq<Refund>, after: seq<Refund>)
    requires OnlyKeepsOrReleases(before, after)
    ensures WithinPaid(ledger, before) ==> WithinPaid(ledger, after)
    ensures RowsNamed(ledger, before) ==> RowsNamed(ledger, after)
    ensures Apart(before) ==> Apart(after)
  {
    forall o ensures ClaimedGross(after, o) <= ClaimedGross(before, o) {
      GrossShrinks(before, after, o);
    }
  }

  /** A released request leaves one of its tickets unclaimed. */
  lemma ReleasedIsUncovered(ledger: Ledger, before: seq<Refund>, after: seq<Refund>, r: nat)
    requires Conserved(ledger, before) && OnlyKeepsOrReleases(before, after)
    requires r < |before| && Releases(before[r], after[r])
    ensures !Covered(ledger, after, before[r].order)
  {
    var o := before[r].order;
    var i := before[r].items[0];
    assert i in before[r].items;
    forall k | 0 <= k < |after| && Claims(after[k], o)
      ensures k != r && Claims(before[k], o) && i !in after[k].items && after[k].items != []
    {
      assert Keeps(before[k], after[k]);
    }
    assert i in OrderIds(ledger, o) && i !in ClaimedItems(after, o);
  }

  lemma CoveredBefore(ledger: Ledger, before: seq<Refund>, after: seq<Refund>, o: OrderId)
    requires OnlyKeepsOrReleases(before, after) && o in ledger && Covered(ledger, after, o)
    ensures Covered(ledger, before, o)
  {
    if WholeOrderClaimed(after, o) {
      var k :| 0 <= k < |after| && Claims(after[k], o) && after[k].items == [];
      assert Claims(before[k], o) && before[k].items == [];
    } else {
      forall i | i in OrderIds(ledger, o) ensures i in ClaimedItems(before, o) {
        assert i in ClaimedItems(after, o);
        var k :| 0 <= k < |after| && Claims(after[k], o) && i in after[k].items;
        assert Claims(before[k], o) && i in before[k].items;
      }
    }
  }

  lemma TidyConserves(ledger: Ledger, before: seq<Refund>, after: seq<Refund>)
    requires Conserved(ledger, before) && OnlyKeepsOrReleases(before, after)
    ensures Conserved(ledger, after)
  {
    TidyWithinPaid(ledger, before, after);
    forall o | Billed(ledger, o) && ledger[o].items != [] && Covered(ledger, after, o)
      ensures ClaimedGross(after, o) == ledger[o].payment.value
    {
      forall k | 0 <= k < |before| ensures GrossClaim(after[k], o) == GrossClaim(before[k], o) {
        if before[k].order == o && Releases(before[k], after[k]) {
          ReleasedIsUncovered(ledger, before, after, k);
        }
      }
      GrossShrinks(before, after, o);
      CoveredBefore(ledger, before, after, o);
    }
  }

  // ---------------------------------------------------------------- requests

  lemma ClaimedItemsAppend(refunds: seq<Refund>, row: Refund, o: OrderId)
    ensures ClaimedItems(refunds + [row], o) ==
            ClaimedItems(refunds, o) + if Claims(row, o) then IdSet(row.items) else {}
    ensures WholeOrderClaimed(refunds + [row], o) <==>
            WholeOrderClaimed(refunds, o) || (Claims(row, o) && row.items == [])
  {
    var all := refunds + [row];
    forall i | i in ClaimedItems(all, o)
      ensures i in ClaimedItems(refunds, o) || (Claims(row, o) && i in IdSet(row.items))
    {
      var k :| 0 <= k < |all| && Claims(all[k], o) && i in all[k].items;
      assert k < |refunds| ==> all[k] == refunds[k];
    }
    forall i | i in ClaimedItems(refunds, o) ensures i in ClaimedItems(all, o) {
      var k :| 0 <= k < |refunds| && Claims(refunds[k], o) && i in refunds[k].items;
      assert all[k] == refunds[k];
    }
    if Claims(row, o) {
      assert all[|refunds|] == row;
    }
    if WholeOrderClaimed(refunds, o) {
      var k :| 0 <= k < |refunds| && Claims(refunds[k], o) && refunds[k].items == [];
      assert all[k] == refunds[k];
    }
  }

  /** Appending a claim on unclaimed tickets that fits, and is exact if it covers the order. */
  lemma AppendConserves(ledger: Ledger, refunds: seq<Refund>, row: Refund)
    requires Conserved(ledger, refunds) && Claiming(row.status)
    requires Billed(ledger, row.order)
    requires forall i :: i in row.items ==> i in OrderIds(ledger, row.order) && i !in ClaimedItems(refunds, row.order)
    requires ByCustomer(row) ==> row.items != []
    requires !ByCustomer(row) ==> Settled(row.status)
    requires Locking(row.status) ==> !WholeOrderClaimed(refunds, row.order)
    requires row.items == [] ==> forall k :: 0 <= k < |refunds| && Claims(refunds[k], row.order) ==> !Locking(refunds[k].status)
    requires ClaimedGross(refunds, row.order) + row.gross <= ledger[row.order].payment.value
    requires Covered(ledger, refunds + [row], row.order) ==>
               ClaimedGross(refunds, row.order) + row.gross == ledger[row.order].payment.value
    ensures Conserved(ledger, refunds + [row])
  {
    var all := refunds + [row];
    forall o ensures ClaimedGross(all, o) == ClaimedGross(refunds, o) + GrossClaim(row, o) {
      GrossAppend(refunds, row, o);
    }
    forall o | o in ledger && o != row.order ensures Covered(ledger, all, o) <==> Covered(ledger, refunds, o) {
      ClaimedItemsAppend(refunds, row, o);
    }
    assert RowsNamed(ledger, all);
    assert WithinPaid(ledger, all);
    assert ExactWhenCovered(ledger, all);
    AppendApart(refunds, row);
  }

  lemma AppendApart(refunds: seq<Refund>, row: Refund)
    requires Apart(refunds) && Claiming(row.status)
    requires forall i :: i in row.items ==> i !in ClaimedItems(refunds, row.order)
    requires Locking(row.status) ==> !WholeOrderClaimed(refunds, row.order)
    requires row.items == [] ==> forall k :: 0 <= k < |refunds| && Claims(refunds[k], row.order) ==> !Locking(refunds[k].status)
    ensures Apart(refunds + [row])
  {
    forall k, i | 0 <= k < |refunds| && Claims(refunds[k], row.order) && i in refunds[k].items
      ensures i !in row.items
    {
      assert i in ClaimedItems(refunds, row.order);
    }
  }

  lemma RequestConserves(ledger: Ledger, d: Desk, order: OrderId, status: OrderStatus, requested: seq<ItemId>, event: EventContext, now: int)
    requires Conserved(ledger, d.refunds)
    ensures var after := AfterRequest(ledger, d, order, status, requested, event, now);
            after.Ok? ==> Conserved(ledger, after.value.refunds)
  {
    var after := AfterRequest(ledger, d, order, status, requested, event, now);
    if after.Ok? {
      hide GrossForItems;
      hide LockedForRefund;
      hide Conserved;
      PreparedItemsAreOrdered(ledger, d.refunds, order, status, requested, event, now);
      var p := Prepare(ledger, d.refunds, order, status, requested, event, now).value;
      hide Prepare;
      RequestedRowConserves(ledger, d.refunds, NewRequest(order, p, now));
    }
  }

  lemma RequestedRowConserves(ledger: Ledger, refunds: seq<Refund>, row: Refund)
    requires Conserved(ledger, refunds)
    requires Claiming(row.status) && Billed(ledger, row.order) && ByCustomer(row) && row.items != []
    requires !WholeOrderClaimed(refunds, row.order)
    requires forall i :: i in row.items ==> i in OrderIds(ledger, row.order) && i !in ClaimedItems(refunds, row.order)
    requires var claimed := ClaimedItems(refunds, row.order);
             row.gross == GrossForItems(ledger[row.order].items, row.items, Unclaimed(OrderIds(ledger, row.order), claimed),
                                        ledger[row.order].payment.value, ClaimedGross(refunds, row.order))
    ensures Conserved(ledger, refunds + [row])
  {
    hide GrossForItems;
    var o := row.order;
    var remaining := Unclaimed(OrderIds(ledger, o), ClaimedItems(refunds, o));
    assert ClaimedGross(refunds, o) <= ledger[o].payment.value;
    GrossFitsWhatIsLeft(ledger[o].items, row.items, remaining, ledger[o].payment.value, ClaimedGross(refunds, o));
    ClaimedItemsAppend(refunds, row, o);
    assert row.items[0] in remaining;
    if Covered(ledger, refunds + [row], o) {
      forall i | i in remaining ensures i in IdSet(row.items) {
        assert i in OrderIds(ledger, o);
      }
    }
    AppendConserves(ledger, refunds, row);
  }

  // ------------------------------------------------------ event cancellation

  lemma SupersedeIsTidy(refunds: seq<Refund>, o: OrderId)
    ensures OnlyKeepsOrReleases(refunds, SupersedeAll(refunds, o))
    ensures forall k :: 0 <= k < |refunds| ==>
              (Claims(SupersedeAll(refunds, o)[k], o) <==> Settles(refunds[k], o))
  {
  }

  lemma SupersedeLeavesSettled(refunds: seq<Refund>, o: OrderId)
    ensures ClaimedItems(SupersedeAll(refunds, o), o) == SettledItems(refunds, o)
  {
    var rows := SupersedeAll(refunds, o);
    SupersedeIsTidy(refunds, o);
    forall i | i in ClaimedItems(rows, o) ensures i in SettledItems(refunds, o) {
      var k :| 0 <= k < |rows| && Claims(rows[k], o) && i in rows[k].items;
      assert Settles(refunds[k], o) && i in refunds[k].items;
    }
    forall i | i in SettledItems(refunds, o) ensures i in ClaimedItems(rows, o) {
      var k :| 0 <= k < |refunds| && Settles(refunds[k], o) && i in refunds[k].items;
      assert Claims(rows[k], o) && i in rows[k].items;
    }
  }

  lemma CanceledOrderConserves(ledger: Ledger, refunds: seq<Refund>, o: OrderId, live: seq<ItemId>, now: int)
    requires Conserved(ledger, refunds) && o in ledger
    requires forall i :: i in live ==> i in OrderIds(ledger, o)
    ensures Conserved(ledger, AfterCanceledOrder(ledger, refunds, o, live, now))
  {
    if !FullySettled(refunds, o, live) {
      var rows := SupersedeAll(refunds, o);
      SupersedeIsTidy(refunds, o);
      TidyConserves(ledger, refunds, rows);
      if ledger[o].payment.Some? {
        SupersedeLeavesSettled(refunds, o);
        var row := AfterCanceledOrder(ledger, refunds, o, live, now)[|refunds|];
        assert AfterCanceledOrder(ledger, refunds, o, live, now) == rows + [row];
        hide ClaimedGross;
        hide FullySettled;
        AppendConserves(ledger, rows, row);
      }
    }
  }

  lemma {:induction false} CanceledEventConserves(ledger: Ledger, refunds: seq<Refund>, orders: seq<PaidOrder>, now: int)
    requires Conserved(ledger, refunds)
    requires forall p :: p in orders ==> p.order in ledger && forall i :: i in p.live ==> i in OrderIds(ledger, p.order)
    ensures Conserved(ledger, AfterCanceledEvent(ledger, refunds, orders, now))
  {
    hide Conserved;
    hide AfterCanceledOrder;
    if orders != [] {
      var init, last := orders[..|orders| - 1], orders[|orders| - 1];
      CanceledEventConserves(ledger, refunds, init, now);
      CanceledOrderConserves(ledger, AfterCanceledEvent(ledger, refunds, init, now), last.order, last.live, now);
    }
  }

  // ----------------------------------------------------- one step, every run

  /** An appeal against a rejection: the one step that claims again without being priced again. */
  predicate IsAppeal(w: World, step: Step) {
    step.EscalateRefund? && step.r < |w.desk.refunds| && w.desk.refunds[step.r].status == Rejected
  }

  predicate NoAppeal(w: World, step: Step) {
    !IsAppeal(w, step)
  }

  /** What the appeal re-claims still fits into what was paid. */
  predicate StillFits(ledger: Ledger, refunds: seq<Refund>, r: nat) {
    && r < |refunds| && Billed(ledger, refunds[r].order)
    && ClaimedGross(refunds, refunds[r].order) + refunds[r].gross <= ledger[refunds[r].order].payment.value
  }

  predicate AppealsFit(ledger: Ledger, w: World, step: Step) {
    IsAppeal(w, step) ==> StillFits(ledger, w.desk.refunds, step.r)
  }

  lemma OneRowIsTidy(refunds: seq<Refund>, r: nat, after: seq<Refund>)
    requires after == refunds || (r < |refunds| && |after| == |refunds| && after == refunds[r := after[r]]
                                  && (Keeps(refunds[r], after[r]) || Releases(refunds[r], after[r])))
    ensures OnlyKeepsOrReleases(refunds, after)
  {
  }

  lemma ReviewIsTidy(ledger: Ledger, w: World, step: Step)
    requires step.ApproveRefund? || step.RejectRefund? || step.AskForInfo? || step.AnswerInfo? || step.WithdrawRefund?
    ensures OnlyKeepsOrReleases(w.desk.refunds, Next(ledger, w, step).desk.refunds)
  {
    hide LockedForRefund;
    hide AmountForPercent;
    hide UnlockedForRefund;
    hide OnlyKeepsOrReleases;
    OneRowIsTidy(w.desk.refunds, step.r, Next(ledger, w, step).desk.refunds);
  }

  lemma EscalateIsTidy(ledger: Ledger, w: World, step: Step)
    requires step.EscalateRefund? && !IsAppeal(w, step)
    ensures OnlyKeepsOrReleases(w.desk.refunds, Next(ledger, w, step).desk.refunds)
  {
    hide OnlyKeepsOrReleases;
    OneRowIsTidy(w.desk.refunds, step.r, Next(ledger, w, step).desk.refunds);
  }

  lemma PayoutIsTidy(ledger: Ledger, w: World, step: Step)
    requires !AtTheDesk(step) && !step.TicketMoves? && PayoutsSettled(w)
    ensures OnlyKeepsOrReleases(w.desk.refunds, Next(ledger, w, step).desk.refunds)
  {
    hide OnlyKeepsOrReleases;
    var after := Next(ledger, w, step).desk.refunds;
    match step
    case RetryPayout(r) => OneRowIsTidy(w.desk.refunds, r, after);
    case ClaimPayout(_, r) => OneRowIsTidy(w.desk.refunds, r, after);
    case WriteReply(worker) =>
      OneRowIsTidy(w.desk.refunds, if worker in w.workers then w.workers[worker].refund else 0, after);
    case GatewayAnswers(_, _, _) => OneRowIsTidy(w.desk.refunds, 0, after);
    case WorkerDies(_) => OneRowIsTidy(w.desk.refunds, 0, after);
  }

  /** Every step but a request, an event cancellation and an appeal keeps or releases existing claims. */
  lemma OtherStepsAreTidy(ledger: Ledger, w: World, step: Step)
    requires !step.RequestRefund? && !step.CancelEvent? && !IsAppeal(w, step) && PayoutsSettled(w)
    ensures OnlyKeepsOrReleases(w.desk.refunds, Next(ledger, w, step).desk.refunds)
  {
    if step.EscalateRefund? {
      EscalateIsTidy(ledger, w, step);
    } else if AtTheDesk(step) {
      hide Next;
      ReviewIsTidy(ledger, w, step);
    } else if step.TicketMoves? {
      hide AfterTicketStep;
      OneRowIsTidy(w.desk.refunds, 0, Next(ledger, w, step).desk.refunds);
    } else {
      hide Next;
      PayoutIsTidy(ledger, w, step);
    }
  }

  // ----------------------------------------------------------------- appeals

  /** Rows stay named and within what was paid; tickets may be claimed twice across an appeal and an event refund. */
  ghost predicate Bounded(ledger: Ledger, refunds: seq<Refund>) {
    RowsNamed(ledger, refunds) && WithinPaid(ledger, refunds)
  }

  /** The exact condition: an accepted appeal keeps the order within what was paid iff its old amount still fits. */
  lemma AppealIsSafeIffItFits(ledger: Ledger, d: Desk, r: nat, now: int)
    requires Bounded(ledger, d.refunds)
    requires r < |d.refunds| && d.refunds[r].status == Rejected && AfterEscalate(d, r, now).Ok?
    ensures Bounded(ledger, AfterEscalate(d, r, now).value.refunds) <==> StillFits(ledger, d.refunds, r)
  {
    hide LockedForRefund;
    var after := AfterEscalate(d, r, now).value.refunds;
    forall o ensures ClaimedGross(after, o) ==
                     ClaimedGross(d.refunds, o) + if o == d.refunds[r].order then d.refunds[r].gross else 0
    {
      GrossUpdate(d.refunds, r, after[r], o);
    }
    AppealRowNamed(ledger, d.refunds, r, after[r]);
  }

  lemma AppealRowNamed(ledger: Ledger, refunds: seq<Refund>, r: nat, row: Refund)
    requires RowsNamed(ledger, refunds) && r < |refunds| && refunds[r].status == Rejected
    requires row.order == refunds[r].order && row.items == refunds[r].items && row.kind == refunds[r].kind
    ensures RowsNamed(ledger, refunds[r := row])
  {
  }

  /**
   * What the appeal re-claims balances the order: its tickets are free, it still fits, and
   * if it leaves no ticket unclaimed it brings the claims to exactly what was paid.
   */
  ghost predicate Balances(ledger: Ledger, refunds: seq<Refund>, r: nat) {
    && StillFits(ledger, refunds, r)
    && var row := refunds[r];
       var claimed := ClaimedItems(refunds, row.order);
       && !WholeOrderClaimed(refunds, row.order)
       && (forall i :: i in row.items ==> i !in claimed)
       && ((forall i :: i in OrderIds(ledger, row.order) ==> i in claimed || i in row.items) ==>
             ClaimedGross(refunds, row.order) + row.gross == ledger[row.order].payment.value)
  }

  /** The claims of an order after a rejected request is brought back. */
  lemma ClaimedItemsRevived(refunds: seq<Refund>, r: nat, row: Refund, o: OrderId)
    requires r < |refunds| && !Claiming(refunds[r].status) && Claiming(row.status) && row.items != []
    requires row.order == refunds[r].order && row.items == refunds[r].items
    ensures var after := refunds[r := row];
            && ClaimedItems(after, o) == ClaimedItems(refunds, o) + (if row.order == o then IdSet(row.items) else {})
            && (WholeOrderClaimed(after, o) <==> WholeOrderClaimed(refunds, o))
  {
    var after := refunds[r := row];
    forall i | i in ClaimedItems(refunds, o)
      ensures i in ClaimedItems(after, o)
    {
      var k :| 0 <= k < |refunds| && Claims(refunds[k], o) && i in refunds[k].items;
      assert after[k] == refunds[k];
    }
    if row.order == o {
      assert Claims(after[r], o);
    }
    if WholeOrderClaimed(refunds, o) {
      var k :| 0 <= k < |refunds| && Claims(refunds[k], o) && refunds[k].items == [];
      assert after[k] == refunds[k];
    }
  }

  lemma RevivedApart(refunds: seq<Refund>, r: nat, row: Refund)
    requires Apart(refunds) && r < |refunds| && !Claiming(refunds[r].status) && Locking(row.status) && row.items != []
    requires row.order == refunds[r].order && row.items == refunds[r].items
    ensures Apart(refunds[r := row]) <==>
            !WholeOrderClaimed(refunds, row.order) && forall i :: i in row.items ==> i !in ClaimedItems(refunds, row.order)
  {
    var after := refunds[r := row];
    if Apart(after) {
      forall k | 0 <= k < |refunds| && Claims(refunds[k], row.order)
        ensures refunds[k].items != [] && forall i :: i in row.items ==> i !in refunds[k].items
      {
        assert after[k] == refunds[k] && after[r] == row;
      }
    } else if !WholeOrderClaimed(refunds, row.order) && forall i :: i in row.items ==> i !in ClaimedItems(refunds, row.order) {
      assert forall k, i :: 0 <= k < |refunds| && Claims(refunds[k], row.order) && i in refunds[k].items ==> i in ClaimedItems(refunds, row.order);
    }
  }

  /**
   * The exact condition for conservation: an accepted appeal keeps the claims of every order
   * disjoint, within what was paid, and exact once all tickets are claimed, iff it balances.
   */
  lemma AppealConservesIffItBalances(ledger: Ledger, d: Desk, r: nat, now: int)
    requires Conserved(ledger, d.refunds)
    requires r < |d.refunds| && d.refunds[r].status == Rejected && AfterEscalate(d, r, now).Ok?
    ensures Conserved(ledger, AfterEscalate(d, r, now).value.refunds) <==> Balances(ledger, d.refunds, r)
  {
    var refunds, row := d.refunds, AfterEscalate(d, r, now).value.refunds[r];
    assert AfterEscalate(d, r, now).value.refunds == refunds[r := row];
    assert row.items != [] && row.items[0] in OrderIds(ledger, row.order);
    AppealIsSafeIffItFits(ledger, d, r, now);
    RevivedApart(refunds, r, row);
    hide AfterEscalate;
    hide Apart;
    hide RowsNamed;
    hide WithinPaid;
    if !WholeOrderClaimed(refunds, row.order) {
      RevivedIsExactIff(ledger, refunds, r, row);
    }
  }

  lemma RevivedIsExactIff(ledger: Ledger, refunds: seq<Refund>, r: nat, row: Refund)
    requires ExactWhenCovered(ledger, refunds) && r < |refunds| && !Claiming(refunds[r].status) && Claiming(row.status)
    requires row.order == refunds[r].order && row.items == refunds[r].items && row.gross == refunds[r].gross
    requires row.items != [] && Billed(ledger, row.order) && ledger[row.order].items != []
    requires !WholeOrderClaimed(refunds, row.order)
    ensures ExactWhenCovered(ledger, refunds[r := row]) <==>
            ((forall i :: i in OrderIds(ledger, row.order) ==> i in ClaimedItems(refunds, row.order) || i in row.items) ==>
               ClaimedGross(refunds, row.order) + row.gross == ledger[row.order].payment.value)
  {
    var after := refunds[r := row];
    forall o
      ensures ClaimedGross(after, o) == ClaimedGross(refunds, o) + if o == row.order then row.gross else 0
      ensures o in ledger && o != row.order ==> (Covered(ledger, after, o) <==> Covered(ledger, refunds, o))
      ensures o == row.order ==> (Covered(ledger, after, o) <==>
                forall i :: i in OrderIds(ledger, o) ==> i in ClaimedItems(refunds, o) || i in row.items)
    {
      GrossUpdate(refunds, r, row, o);
      ClaimedItemsRevived(refunds, r, row, o);
      assert forall i :: i in IdSet(row.items) <==> i in row.items;
      hide ClaimedItems;
      hide WholeOrderClaimed;
      hide ClaimedGross;
    }
    hide Covered;
    hide ClaimedGross;
  }

  // ------------------------------------------------------ conserved over runs

  /** The rule of a run in which every appeal that goes through balances its order. */
  ghost function BalancedAppeals(ledger: Ledger): Rule {
    (w: World, step: Step) => AppealsBalance(ledger, w, step)
  }

  ghost predicate AppealsBalance(ledger: Ledger, w: World, step: Step) {
    IsAppeal(w, step) && AfterEscalate(w.desk, step.r, step.now).Ok? ==> Balances(ledger, w.desk.refunds, step.r)
  }

  lemma AppealStepConserves(ledger: Ledger, w: World, step: Step)
    requires Conserved(ledger, w.desk.refunds) && IsAppeal(w, step) && AppealsBalance(ledger, w, step)
    ensures Conserved(ledger, Next(ledger, w, step).desk.refunds)
  {
    hide Conserved;
    hide Balances;
    if AfterEscalate(w.desk, step.r, step.now).Ok? {
      AppealConservesIffItBalances(ledger, w.desk, step.r, step.now);
    }
    hide AfterEscalate;
  }

  lemma StepConserves(ledger: Ledger, w: World, step: Step)
    requires Conserved(ledger, w.desk.refunds) && PayoutsSettled(w) && Allowed(ledger, w, step) && AppealsBalance(ledger, w, step)
    ensures Conserved(ledger, Next(ledger, w, step).desk.refunds)
  {
    hide Conserved;
    if IsAppeal(w, step) {
      AppealStepConserves(ledger, w, step);
      return;
    }
    match step
    case RequestRefund(order, status, requested, event, now) =>
      hide AfterRequest;
      RequestConserves(ledger, w.desk, order, status, requested, event, now);
    case CancelEvent(orders, now) =>
      hide AfterCanceledEvent;
      CanceledEventConserves(ledger, w.desk.refunds, orders, now);
    case _ =>
      OtherStepsAreTidy(ledger, w, step);
      hide Next;
      TidyConserves(ledger, w.desk.refunds, Next(ledger, w, step).desk.refunds);
  }

  lemma {:induction false} RunConserves(ledger: Ledger, w: World, steps: seq<Step>, rule: Rule)
    requires Conserved(ledger, w.desk.refunds) && Agrees(w) && Run(ledger, w, steps, rule)
    requires forall v, s :: rule(v, s) ==> AppealsBalance(ledger, v, s)
    ensures Conserved(ledger, After(ledger, w, steps).desk.refunds)
    decreases |steps|
  {
    hide Next;
    hide Conserved;
    if steps != [] {
      assert PayoutsSettled(w);
      StepConserves(ledger, w, steps[0]);
      hide Agrees;
      StepAgrees(ledger, w, steps[0]);
      RunConserves(ledger, Next(ledger, w, steps[0]), steps[1..], rule);
    }
  }

  /**
   * In every state reached without an appeal, or with appeals that balance, the open and
   * completed refunds of an order claim disjoint tickets and at most what was paid, and
   * exactly what was paid once every ticket is claimed.
   */
  lemma ClaimsMatchPayment(ledger: Ledger, book: Book, steps: seq<Step>, o: OrderId)
    requires FreshBook(book) && Billed(ledger, o)
    requires Run(ledger, Start(book), steps, NoAppeal) || Run(ledger, Start(book), steps, BalancedAppeals(ledger))
    ensures var refunds := After(ledger, Start(book), steps).desk.refunds;
            var paid := ledger[o].payment.value;
            && Apart(refunds)
            && ClaimedGross(refunds, o) <= paid
            && (ledger[o].items != [] && Covered(ledger, refunds, o) ==> ClaimedGross(refunds, o) == paid)
  {
    NothingToConserve(ledger);
    StartAgrees(book);
    RunConserves(ledger, Start(book), steps, if Run(ledger, Start(book), steps, NoAppeal) then NoAppeal else BalancedAppeals(ledger));
  }

  lemma NothingToConserve(ledger: Ledger)
    ensures Conserved(ledger, [])
  {
    forall o | Billed(ledger, o) && ledger[o].items != [] ensures !Covered(ledger, [], o) {
      assert OrderIds(ledger, o)[0] in OrderIds(ledger, o);
    }
  }

  // ------------------------------------------------------ within what was paid

  lemma RequestBounded(ledger: Ledger, d: Desk, order: OrderId, status: OrderStatus, requested: seq<ItemId>, event: EventContext, now: int)
    requires Bounded(ledger, d.refunds)
    ensures var after := AfterRequest(ledger, d, order, status, requested, event, now);
            after.Ok? ==> Bounded(ledger, after.value.refunds)
  {
    var after := AfterRequest(ledger, d, order, status, requested, event, now);
    if after.Ok? {
      hide GrossForItems;
      hide LockedForRefund;
      PreparedItemsAreOrdered(ledger, d.refunds, order, status, requested, event, now);
      var p := Prepare(ledger, d.refunds, order, status, requested, event, now).value;
      hide Prepare;
      var remaining := Unclaimed(OrderIds(ledger, order), ClaimedItems(d.refunds, order));
      assert ClaimedGross(d.refunds, order) <= ledger[order].payment.value;
      GrossFitsWhatIsLeft(ledger[order].items, p.items, remaining, ledger[order].payment.value, ClaimedGross(d.refunds, order));
      AppendBounded(ledger, d.refunds, NewRequest(order, p, now));
    }
  }

  lemma AppendBounded(ledger: Ledger, refunds: seq<Refund>, row: Refund)
    requires Bounded(ledger, refunds) && Billed(ledger, row.order)
    requires forall i :: i in row.items ==> i in OrderIds(ledger, row.order)
    requires if ByCustomer(row) then row.items != [] else Settled(row.status)
    requires ClaimedGross(refunds, row.order) + row.gross <= ledger[row.order].payment.value
    ensures Bounded(ledger, refunds + [row])
  {
    forall o ensures ClaimedGross(refunds + [row], o) == ClaimedGross(refunds, o) + GrossClaim(row, o) {
      GrossAppend(refunds, row, o);
    }
  }

  lemma CanceledOrderBounded(ledger: Ledger, refunds: seq<Refund>, o: OrderId, live: seq<ItemId>, now: int)
    requires Bounded(ledger, refunds) && o in ledger
    requires forall i :: i in live ==> i in OrderIds(ledger, o)
    ensures Bounded(ledger, AfterCanceledOrder(ledger, refunds, o, live, now))
  {
    if !FullySettled(refunds, o, live) {
      var rows := SupersedeAll(refunds, o);
      SupersedeIsTidy(refunds, o);
      TidyWithinPaid(ledger, refunds, rows);
      if ledger[o].payment.Some? {
        var row := AfterCanceledOrder(ledger, refunds, o, live, now)[|refunds|];
        assert AfterCanceledOrder(ledger, refunds, o, live, now) == rows + [row];
        AppendBounded(ledger, rows, row);
      }
    }
  }

  lemma {:induction false} CanceledEventBounded(ledger: Ledger, refunds: seq<Refund>, orders: seq<PaidOrder>, now: int)
    requires Bounded(ledger, refunds)
    requires forall p :: p in orders ==> p.order in ledger && forall i :: i in p.live ==> i in OrderIds(ledger, p.order)
    ensures Bounded(ledger, AfterCanceledEvent(ledger, refunds, orders, now))
  {
    hide Bounded;
    hide AfterCanceledOrder;
    if orders != [] {
      var init, last := orders[..|orders| - 1], orders[|orders| - 1];
      CanceledEventBounded(ledger, refunds, init, now);
      CanceledOrderBounded(ledger, AfterCanceledEvent(ledger, refunds, init, now), last.order, last.live, now);
    }
  }

  lemma StepBounded(ledger: Ledger, w: World, step: Step)
    requires Bounded(ledger, w.desk.refunds) && PayoutsSettled(w) && Allowed(ledger, w, step) && AppealsFit(ledger, w, step)
    ensures Bounded(ledger, Next(ledger, w, step).desk.refunds)
  {
    hide Bounded;
    if IsAppeal(w, step) {
      if AfterEscalate(w.desk, step.r, step.now).Ok? {
        AppealIsSafeIffItFits(ledger, w.desk, step.r, step.now);
      }
    } else if step.RequestRefund? {
      hide AfterRequest;
      RequestBounded(ledger, w.desk, step.order, step.status, step.requested, step.event, step.now);
    } else if step.CancelEvent? {
      hide AfterCanceledEvent;
      CanceledEventBounded(ledger, w.desk.refunds, step.orders, step.now);
    } else {
      OtherStepsAreTidy(ledger, w, step);
      TidyBounded(ledger, w.desk.refunds, Next(ledger, w, step).desk.refunds);
    }
  }

  lemma TidyBounded(ledger: Ledger, before: seq<Refund>, after: seq<Refund>)
    requires Bounded(ledger, before) && OnlyKeepsOrReleases(before, after)
    ensures Bounded(ledger, after)
  {
    TidyWithinPaid(ledger, before, after);
  }

  /** The rule of a run in which every appeal still fits. */
  ghost function FittingAppeals(ledger: Ledger): Rule {
    (w: World, step: Step) => AppealsFit(ledger, w, step)
  }

  lemma {:induction false} RunBounded(ledger: Ledger, w: World, steps: seq<Step>, rule: Rule)
    requires Bounded(ledger, w.desk.refunds) && Agrees(w) && Run(ledger, w, steps, rule)
    requires forall v, s :: rule(v, s) ==> AppealsFit(ledger, v, s)
    ensures Bounded(ledger, After(ledger, w, steps).desk.refunds)
    decreases |steps|
  {
    hide Next;
    hide Bounded;
    if steps != [] {
      assert PayoutsSettled(w);
      StepBounded(ledger, w, steps[0]);
      hide Agrees;
      StepAgrees(ledger, w, steps[0]);
      RunBounded(ledger, Next(ledger, w, steps[0]), steps[1..], rule);
    }
  }

  /** With appeals that fit, no order's refunds ever claim more than was paid. */
  lemma ClaimsNeverExceedPayment(ledger: Ledger, book: Book, steps: seq<Step>, o: OrderId)
    requires FreshBook(book) && Run(ledger, Start(book), steps, FittingAppeals(ledger)) && Billed(ledger, o)
    ensures ClaimedGross(After(ledger, Start(book), steps).desk.refunds, o) <= ledger[o].payment.value
  {
    StartAgrees(book);
    RunBounded(ledger, Start(book), steps, FittingAppeals(ledger));
  }
}
