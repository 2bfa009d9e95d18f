/**
 * At-most-once payout under any interleaving of workers, refusals, timeouts of
 * unknown outcome and crashes, as long as an admin retries a PROCESSING refund
 * only after checking that nobody is still calling and no money moved.
 */
module RefundPayouts {
  import opened Common
  import opened RefundPolicy
  import opened Tickets
  import opened Refunds
  import opened Payouts
  import opened RefundWorld
  import opened RefundClaims
  import opened RefundMoney

  // ------------------------------------------------------- amounts of a row

  /** Every row pays its percent of the gross, all of it unless a customer just wants out, and the fee is the rest. */
  ghost predicate AddsUp(r: Refund) {
    && r.percent <= 100
    && (r.kind != CustomerRequest ==> r.percent == 100)
    && r.amount == AmountForPercent(r.gross, r.percent)
    && r.amount + r.fee == r.gross
    && 0 <= r.fee
  }

  ghost predicate AllAddUp(refunds: seq<Refund>) {
    forall k :: 0 <= k < |refunds| ==> AddsUp(refunds[k])
  }

  lemma QuoteAddsUp(event: EventContext, gross: nat, now: int)
    ensures var q := QuoteRefund(event, gross, now);
            q.Eligible? ==>
              q.amount == AmountForPercent(q.gross, q.percent) && q.amount <= q.gross && (q.kind != CustomerRequest ==> q.percent == 100)
  {
    hide SortTiers;
    hide ParsePolicy;
  }

  lemma ApprovedAddsUp(d: Desk, r: nat, admin: bool, raise: Option<nat>, now: int)
    requires AllAddUp(d.refunds) && (raise.Some? ==> raise.value <= 100)
    ensures var after := AfterApprove(d, r, admin, raise, now);
            after.Ok? ==> AllAddUp(after.value.refunds)
  {
    hide LockedForRefund;
    var after := AfterApprove(d, r, admin, raise, now);
    if after.Ok? {
      AmountAndFee(d.refunds[r].gross, after.value.refunds[r].percent);
      hide AmountForPercent;
    }
  }

  lemma RequestAddsUp(ledger: Ledger, d: Desk, order: OrderId, status: OrderStatus, requested: seq<ItemId>, event: EventContext, now: int)
    requires AllAddUp(d.refunds)
    ensures var after := AfterRequest(ledger, d, order, status, requested, event, now);
            after.Ok? ==> AllAddUp(after.value.refunds)
  {
    hide LockedForRefund;
    hide QuoteRefund;
    hide GrossForItems;
    hide AmountForPercent;
    var after := AfterRequest(ledger, d, order, status, requested, event, now);
    if after.Ok? {
      var q := Prepare(ledger, d.refunds, order, status, requested, event, now).value.quote;
      QuoteAddsUp(event, q.gross, now);
      PreparedQuote(ledger, d.refunds, order, status, requested, event, now);
    }
  }

  lemma PreparedQuote(ledger: Ledger, refunds: seq<Refund>, order: OrderId, status: OrderStatus, requested: seq<ItemId>, event: EventContext, now: int)
    requires Prepare(ledger, refunds, order, status, requested, event, now).Ok?
    ensures var q := Prepare(ledger, refunds, order, status, requested, event, now).value.quote;
            q.Eligible? ==> q == QuoteRefund(event, q.gross, now)
  {
    hide GrossForItems;
    hide AmountForPercent;
    hide SortTiers;
    hide ParsePolicy;
  }

  lemma CanceledOrderAddsUp(ledger: Ledger, refunds: seq<Refund>, o: OrderId, live: seq<ItemId>, now: int)
    requires AllAddUp(refunds)
    ensures AllAddUp(AfterCanceledOrder(ledger, refunds, o, live, now))
  {
    hide FullySettled;
    hide Unclaimed;
    var after := AfterCanceledOrder(ledger, refunds, o, live, now);
    if |after| > |refunds| {
      AmountAndFee(after[|refunds|].gross, 100);
    }
    hide AmountForPercent;
  }

  lemma {:induction false} CanceledEventAddsUp(ledger: Ledger, refunds: seq<Refund>, orders: seq<PaidOrder>, now: int)
    requires AllAddUp(refunds)
    ensures AllAddUp(AfterCanceledEvent(ledger, refunds, orders, now))
  {
    hide AfterCanceledOrder;
    hide AllAddUp;
    if orders != [] {
      var init, last := orders[..|orders| - 1], orders[|orders| - 1];
      CanceledEventAddsUp(ledger, refunds, init, now);
      CanceledOrderAddsUp(ledger, AfterCanceledEvent(ledger, refunds, init, now), last.order, last.live, now);
    }
  }

  /** Only requesting, approving and canceling an event set money on a row. */
  lemma OtherStepsKeepAmounts(ledger: Ledger, w: World, step: Step)
    requires !step.RequestRefund? && !step.CancelEvent? && !step.ApproveRefund?
    ensures var after := Next(ledger, w, step).desk.refunds;
            && |after| == |w.desk.refunds|
            && (forall k :: 0 <= k < |after| ==>
                  && after[k].gross == w.desk.refunds[k].gross && after[k].percent == w.desk.refunds[k].percent
                  && after[k].amount == w.desk.refunds[k].amount && after[k].fee == w.desk.refunds[k].fee
                  && after[k].order == w.desk.refunds[k].order && after[k].kind == w.desk.refunds[k].kind)
  {
    hide LockedForRefund;
    hide UnlockedForRefund;
    hide AfterTicketStep;
  }

  lemma StepAddsUp(ledger: Ledger, w: World, step: Step)
    requires AllAddUp(w.desk.refunds) && Allowed(ledger, w, step)
    ensures AllAddUp(Next(ledger, w, step).desk.refunds)
  {
    hide AmountForPercent;
    if step.RequestRefund? {
      hide AfterRequest;
      RequestAddsUp(ledger, w.desk, step.order, step.status, step.requested, step.event, step.now);
    } else if step.ApproveRefund? {
      hide AfterApprove;
      ApprovedAddsUp(w.desk, step.r, step.admin, step.raise, step.now);
    } else if step.CancelEvent? {
      hide AfterCanceledEvent;
      CanceledEventAddsUp(ledger, w.desk.refunds, step.orders, step.now);
    } else {
      OtherStepsKeepAmounts(ledger, w, step);
      hide Next;
    }
  }

  lemma {:induction false} RunAddsUp(ledger: Ledger, w: World, steps: seq<Step>, rule: Rule)
    requires AllAddUp(w.desk.refunds) && Run(ledger, w, steps, rule)
    ensures AllAddUp(After(ledger, w, steps).desk.refunds)
    decreases |steps|
  {
    hide AllAddUp;
    hide Next;
    if steps != [] {
      StepAddsUp(ledger, w, steps[0]);
      RunAddsUp(ledger, Next(ledger, w, steps[0]), steps[1..], rule);
    }
  }

  // --------------------------------------------------------- payout invariant

  /** A worker that may still bring about a payment: its call is out, or its refusal is about to reopen the row. */
  predicate Active(worker: Worker) {
    worker.Calling? || worker.reply == Refused
  }

  /** The admin looked before retrying: the gateway never paid, and no worker may still bring a payment about. */
  ghost predicate CheckedRetry(w: World, step: Step) {
    step.RetryPayout? && step.r < |w.desk.refunds| && w.desk.refunds[step.r].status == Processing ==>
      && AccountOf(w, step.r).payments == []
      && forall x :: x in w.workers && w.workers[x].refund == step.r ==> !Active(w.workers[x])
  }

  /** A refusal means that no money moved. */
  predicate RefusalsMeanUnpaid(w: World, step: Step) {
    step.GatewayAnswers? && step.reply == Refused ==> !step.paid
  }

  /** An acceptance means that the money moved. */
  predicate YesMeansPaid(w: World, step: Step) {
    step.GatewayAnswers? && step.reply == Accepted ==> step.paid
  }

  ghost predicate SafePayouts(w: World, step: Step) {
    CheckedRetry(w, step) && RefusalsMeanUnpaid(w, step)
  }

  /** One active worker at most for a refund, whose row cannot be claimed meanwhile. */
  ghost predicate OneCallEach(w: World) {
    && (forall x :: x in w.workers ==> w.workers[x].refund < |w.desk.refunds|)
    && (forall x :: x in w.workers && Active(w.workers[x]) && w.workers[x].refund < |w.desk.refunds| ==>
          w.desk.refunds[w.workers[x].refund].status == Processing || w.desk.refunds[w.workers[x].refund].status == Completed)
    && (forall x, y :: x in w.workers && y in w.workers && x != y && Active(w.workers[x]) && Active(w.workers[y]) ==>
          w.workers[x].refund != w.workers[y].refund)
  }

  /** While a worker is active nothing was paid, and it calls for the amount on the row. */
  ghost predicate UnpaidWhileActive(w: World) {
    forall x :: x in w.workers && Active(w.workers[x]) && w.workers[x].refund < |w.desk.refunds| ==>
      && AccountOf(w, w.workers[x].refund).payments == []
      && (w.workers[x].Calling? ==> w.workers[x].amount == w.desk.refunds[w.workers[x].refund].amount)
  }

  /** Paid at most once, the amount on the row, and only while PROCESSING or COMPLETED. */
  ghost predicate PaidOnce(w: World) {
    forall r :: 0 <= r < |w.desk.refunds| ==>
      var payments := AccountOf(w, r).payments;
      && (payments == [] || payments == [w.desk.refunds[r].amount])
      && (payments != [] ==> w.desk.refunds[r].status == Processing || w.desk.refunds[r].status == Completed)
  }

  ghost predicate AccountsOfRows(w: World) {
    forall r :: r in w.accounts ==> r < |w.desk.refunds|
  }

  ghost predicate Careful(w: World) {
    OneCallEach(w) && UnpaidWhileActive(w) && PaidOnce(w) && AccountsOfRows(w)
  }

  // ------------------------------------------------------------ desk handlers

  /** Desk handlers leave settled rows alone and settle others at most into APPROVED. */
  ghost predicate PayoutRowsStay(before: seq<Refund>, after: seq<Refund>) {
    && |before| <= |after|
    && (forall k :: 0 <= k < |before| && Settled(before[k].status) ==> after[k] == before[k])
    && (forall k :: 0 <= k < |after| && (k >= |before| || !Settled(before[k].status)) ==>
          !Settled(after[k].status) || after[k].status == Approved)
    && (forall k :: 0 <= k < |before| ==> after[k].attempts == before[k].attempts)
    && (forall k :: |before| <= k < |after| ==> after[k].attempts == 0)
  }

  lemma CanceledOrderKeepsPayoutRows(ledger: Ledger, refunds: seq<Refund>, o: OrderId, live: seq<ItemId>, now: int)
    ensures PayoutRowsStay(refunds, AfterCanceledOrder(ledger, refunds, o, live, now))
  {
    hide FullySettled;
    hide Unclaimed;
  }

  lemma {:induction false} CanceledEventKeepsPayoutRows(ledger: Ledger, refunds: seq<Refund>, orders: seq<PaidOrder>, now: int)
    ensures PayoutRowsStay(refunds, AfterCanceledEvent(ledger, refunds, orders, now))
  {
    hide AfterCanceledOrder;
    if orders != [] {
      var init, last := orders[..|orders| - 1], orders[|orders| - 1];
      CanceledEventKeepsPayoutRows(ledger, refunds, init, now);
      CanceledOrderKeepsPayoutRows(ledger, AfterCanceledEvent(ledger, refunds, init, now), last.order, last.live, now);
    }
  }

  lemma OneRowKeepsPayoutRows(refunds: seq<Refund>, r: nat, after: seq<Refund>)
    requires after == refunds || (r < |refunds| && |after| == |refunds| && after == refunds[r := after[r]]
                                  && !Settled(refunds[r].status)
                                  && (!Settled(after[r].status) || after[r].status == Approved)
                                  && after[r].attempts == refunds[r].attempts)
    ensures PayoutRowsStay(refunds, after)
  {
  }

  lemma ReviewKeepsPayoutRows(ledger: Ledger, w: World, step: Step)
    requires step.ApproveRefund? || step.RejectRefund? || step.AskForInfo? || step.AnswerInfo?
             || step.WithdrawRefund? || step.EscalateRefund?
    ensures PayoutRowsStay(w.desk.refunds, Next(ledger, w, step).desk.refunds)
  {
    hide LockedForRefund;
    hide UnlockedForRefund;
    hide AmountForPercent;
    hide PayoutRowsStay;
    OneRowKeepsPayoutRows(w.desk.refunds, step.r, Next(ledger, w, step).desk.refunds);
  }

  lemma RequestKeepsPayoutRows(ledger: Ledger, d: Desk, order: OrderId, status: OrderStatus, requested: seq<ItemId>, event: EventContext, now: int)
    ensures var after := AfterRequest(ledger, d, order, status, requested, event, now);
            after.Ok? ==> PayoutRowsStay(d.refunds, after.value.refunds)
  {
    hide LockedForRefund;
    hide Prepare;
  }

  lemma DeskStepKeepsPayoutRows(ledger: Ledger, w: World, step: Step)
    requires AtTheDesk(step)
    ensures var after := Next(ledger, w, step);
            after == w.(desk := after.desk) && PayoutRowsStay(w.desk.refunds, after.desk.refunds)
  {
    hide PayoutRowsStay;
    hide AfterRequest;
    hide AfterApprove;
    hide AfterReject;
    hide AfterRequestInfo;
    hide AfterRespond;
    hide AfterWithdraw;
    hide AfterEscalate;
    hide AfterCanceledEvent;
    if step.CancelEvent? {
      CanceledEventKeepsPayoutRows(ledger, w.desk.refunds, step.orders, step.now);
    } else if step.RequestRefund? {
      RequestKeepsPayoutRows(ledger, w.desk, step.order, step.status, step.requested, step.event, step.now);
      OneRowKeepsPayoutRows(w.desk.refunds, 0, w.desk.refunds);
    } else {
      ReviewKeepsPayoutRows(ledger, w, step);
    }
  }

  lemma DeskStepIsCareful(ledger: Ledger, w: World, step: Step)
    requires Careful(w) && AtTheDesk(step)
    ensures Careful(Next(ledger, w, step))
  {
    DeskStepKeepsPayoutRows(ledger, w, step);
    hide Next;
  }

  // ----------------------------------------------------------------- payouts

  lemma ClaimIsCareful(ledger: Ledger, w: World, worker: nat, r: nat)
    requires Careful(w) && worker !in w.workers
    ensures Careful(AfterPayoutClaim(ledger, w, worker, r))
  {
  }

  lemma GatewayIsCareful(w: World, worker: nat, reply: GatewayReply, paid: bool)
    requires Careful(w) && (reply == Refused ==> !paid)
    ensures Careful(AfterGateway(w, worker, reply, paid))
  {
  }

  lemma WriteIsCareful(w: World, worker: nat)
    requires Careful(w)
    ensures Careful(AfterWrite(w, worker))
  {
  }

  lemma RetryIsCareful(w: World, r: nat)
    requires Careful(w) && CheckedRetry(w, RetryPayout(r))
    ensures Careful(AfterRetryPayout(w, r))
  {
  }

  lemma QuietStepIsCareful(ledger: Ledger, w: World, step: Step)
    requires Careful(w) && (step.TicketMoves? || step.WorkerDies?)
    ensures Careful(Next(ledger, w, step))
  {
    hide AfterTicketStep;
  }

  lemma StepIsCareful(ledger: Ledger, w: World, step: Step)
    requires Careful(w) && Allowed(ledger, w, step) && SafePayouts(w, step)
    ensures Careful(Next(ledger, w, step))
  {
    hide Careful;
    hide AfterPayoutClaim;
    hide AfterGateway;
    hide AfterWrite;
    hide AfterRetryPayout;
    if AtTheDesk(step) {
      DeskStepIsCareful(ledger, w, step);
    } else if step.TicketMoves? || step.WorkerDies? {
      QuietStepIsCareful(ledger, w, step);
    } else {
      match step {
        case RetryPayout(r) => RetryIsCareful(w, r);
        case ClaimPayout(worker, r) => ClaimIsCareful(ledger, w, worker, r);
        case GatewayAnswers(worker, reply, paid) => GatewayIsCareful(w, worker, reply, paid);
        case WriteReply(worker) => WriteIsCareful(w, worker);
      }
    }
  }

  lemma {:induction false} RunIsCareful(ledger: Ledger, w: World, steps: seq<Step>, rule: Rule)
    requires Careful(w) && Run(ledger, w, steps, rule)
    requires forall v, s :: rule(v, s) ==> SafePayouts(v, s)
    ensures Careful(After(ledger, w, steps))
    decreases |steps|
  {
    hide Careful;
    hide Next;
    if steps != [] {
      StepIsCareful(ledger, w, steps[0]);
      RunIsCareful(ledger, Next(ledger, w, steps[0]), steps[1..], rule);
    }
  }

  /**
   * Over every run with checked retries and truthful refusals, whatever else the gateway
   * says or keeps silent about: one call in flight per refund, and one payment per refund.
   */
  lemma PaidAtMostOnce(ledger: Ledger, book: Book, steps: seq<Step>)
    requires Run(ledger, Start(book), steps, SafePayouts)
    ensures var w := After(ledger, Start(book), steps); OneCallEach(w) && PaidOnce(w)
  {
    RunIsCareful(ledger, Start(book), steps, SafePayouts);
  }

  // ------------------------------------------------------- what COMPLETED means

  /** COMPLETED rows were paid, and so was whoever is about to write COMPLETED. */
  ghost predicate YesIsPaid(w: World) {
    && (forall r :: 0 <= r < |w.desk.refunds| && w.desk.refunds[r].status == Completed ==> AccountOf(w, r).payments != [])
    && (forall x :: x in w.workers && w.workers[x].Answered? && w.workers[x].reply == Accepted ==>
          AccountOf(w, w.workers[x].refund).payments != [])
  }

  lemma StepKeepsYes(ledger: Ledger, w: World, step: Step)
    requires YesIsPaid(w) && YesMeansPaid(w, step)
    ensures YesIsPaid(Next(ledger, w, step))
  {
    hide AfterTicketStep;
    if AtTheDesk(step) {
      DeskStepKeepsPayoutRows(ledger, w, step);
      hide Next;
    }
  }

  lemma {:induction false} RunKeepsYes(ledger: Ledger, w: World, steps: seq<Step>)
    requires YesIsPaid(w) && Run(ledger, w, steps, YesMeansPaid)
    ensures YesIsPaid(After(ledger, w, steps))
    decreases |steps|
  {
    hide YesIsPaid;
    hide Next;
    if steps != [] {
      StepKeepsYes(ledger, w, steps[0]);
      RunKeepsYes(ledger, Next(ledger, w, steps[0]), steps[1..]);
    }
  }

  /** If the gateway's yes is true, then over every run a COMPLETED refund was really paid, however it was retried. */
  lemma CompletedMeansPaid(ledger: Ledger, book: Book, steps: seq<Step>, r: nat)
    requires Run(ledger, Start(book), steps, YesMeansPaid)
    requires var refunds := After(ledger, Start(book), steps).desk.refunds; r < |refunds| && refunds[r].status == Completed
    ensures AccountOf(After(ledger, Start(book), steps), r).payments != []
  {
    RunKeepsYes(ledger, Start(book), steps);
  }

  // ------------------------------------------------------------- how many calls

  /** Retries aside, a refund is attempted at most MAX_ATTEMPTS times. */
  ghost predicate CallsBounded(w: World) {
    && AccountsOfRows(w)
    && (forall x :: x in w.workers ==> w.workers[x].refund < |w.desk.refunds|)
    && forall r :: 0 <= r < |w.desk.refunds| ==>
         && w.desk.refunds[r].attempts <= MAX_ATTEMPTS
         && AccountOf(w, r).calls <= MAX_ATTEMPTS * AccountOf(w, r).retries + w.desk.refunds[r].attempts
  }

  lemma StepBoundsCalls(ledger: Ledger, w: World, step: Step)
    requires CallsBounded(w)
    ensures CallsBounded(Next(ledger, w, step))
  {
    hide AfterTicketStep;
    if AtTheDesk(step) {
      DeskStepKeepsPayoutRows(ledger, w, step);
      hide Next;
    }
  }

  lemma {:induction false} RunBoundsCalls(ledger: Ledger, w: World, steps: seq<Step>, rule: Rule)
    requires CallsBounded(w) && Run(ledger, w, steps, rule)
    ensures CallsBounded(After(ledger, w, steps))
    decreases |steps|
  {
    hide CallsBounded;
    hide Next;
    if steps != [] {
      StepBoundsCalls(ledger, w, steps[0]);
      RunBoundsCalls(ledger, Next(ledger, w, steps[0]), steps[1..], rule);
    }
  }

  /** Over every run whatsoever, the gateway is called at most five times per refund and per admin retry. */
  lemma GatewayCallsAreBounded(ledger: Ledger, book: Book, steps: seq<Step>, r: nat)
    requires Run(ledger, Start(book), steps, AnyStep)
    ensures var account := AccountOf(After(ledger, Start(book), steps), r);
            account.calls <= MAX_ATTEMPTS * (1 + account.retries)
  {
    RunBoundsCalls(ledger, Start(book), steps, AnyStep);
  }

  // ------------------------------------------------------------ money that moved

  /** What the gateway really sent back on the refunds of an order. */
  ghost function PaidOut(w: World, o: OrderId, rows: nat): nat
    requires rows <= |w.desk.refunds|
  {
    if rows == 0 then 0
    else PaidOut(w, o, rows - 1)
         + if w.desk.refunds[rows - 1].order == o then Sum(AccountOf(w, rows - 1).payments) else 0
  }

  lemma {:induction false} PaidOutWithinClaims(w: World, o: OrderId, rows: nat)
    requires rows <= |w.desk.refunds| && PaidOnce(w) && AllAddUp(w.desk.refunds)
    ensures PaidOut(w, o, rows) <= ClaimedGross(w.desk.refunds[..rows], o)
  {
    hide AmountForPercent;
    if rows > 0 {
      PaidOutWithinClaims(w, o, rows - 1);
      assert w.desk.refunds[..rows][..rows - 1] == w.desk.refunds[..rows - 1];
      var row := w.desk.refunds[rows - 1];
      assert AddsUp(row);
      assert Sum([row.amount]) == row.amount;
    }
  }

  ghost function SafeSteps(ledger: Ledger): Rule {
    (w: World, step: Step) => AppealsFit(ledger, w, step) && SafePayouts(w, step)
  }

  /** With appeals that fit, checked retries and truthful refusals, the gateway never sends back more on an order than was paid for it. */
  lemma NeverPaysBackMoreThanPaid(ledger: Ledger, book: Book, steps: seq<Step>, o: OrderId)
    requires FreshBook(book) && Run(ledger, Start(book), steps, SafeSteps(ledger)) && Billed(ledger, o)
    ensures var w := After(ledger, Start(book), steps);
            PaidOut(w, o, |w.desk.refunds|) <= ledger[o].payment.value
  {
    var w := After(ledger, Start(book), steps);
    StartAgrees(book);
    RunBounded(ledger, Start(book), steps, SafeSteps(ledger));
    RunIsCareful(ledger, Start(book), steps, SafeSteps(ledger));
    RunAddsUp(ledger, Start(book), steps, SafeSteps(ledger));
    PaidOutWithinClaims(w, o, |w.desk.refunds|);
    assert w.desk.refunds[..|w.desk.refunds|] == w.desk.refunds;
  }

  /** Over every run, the refund of a canceled or postponed event pays all of its gross and keeps no fee. */
  lemma FullRefundsKeepNothing(ledger: Ledger, book: Book, steps: seq<Step>, r: nat)
    requires Run(ledger, Start(book), steps, AnyStep)
    ensures var refunds := After(ledger, Start(book), steps).desk.refunds;
            r < |refunds| && refunds[r].kind in {EventCanceled, EventPostponed} ==>
              refunds[r].percent == 100 && refunds[r].amount == refunds[r].gross && refunds[r].fee == 0
  {
    RunAddsUp(ledger, Start(book), steps, AnyStep);
  }

  /** Over every run, each refund's amount and fee add up to its gross, rounded down to its percent. */
  lemma AmountsAlwaysAddUp(ledger: Ledger, book: Book, steps: seq<Step>)
    requires Run(ledger, Start(book), steps, AnyStep)
    ensures AllAddUp(After(ledger, Start(book), steps).desk.refunds)
  {
    RunAddsUp(ledger, Start(book), steps, AnyStep);
  }
}
