/**
 * The refund protocol from end to end: what the terms offer can be had and is paid, a
 * question and its answer change nothing, and a withdrawn request leaves no trace.
 */
module RefundCycle {
  import opened Common
  import opened RefundPolicy
  import opened Tickets
  import opened Refunds
  import opened Payouts
  import opened RefundWorld
  import opened RefundClaims
  import opened RefundMoney
  import opened RefundPayouts

  // ------------------------------------------------------------ getting paid

  /** A request that can be had goes through, with its tickets locked. */
  lemma RequestGoesThrough(ledger: Ledger, d: Desk, order: OrderId, status: OrderStatus, requested: seq<ItemId>, event: EventContext, now: int)
    requires Askable(ledger, d.refunds, order, status, requested) && Offers(event, now)
    requires Lockable(d.book, AskedItems(ledger, d.refunds, order, requested), |d.refunds|)
    ensures var after := AfterRequest(ledger, d, order, status, requested, event, now);
            && after.Ok? && |after.value.refunds| == |d.refunds| + 1
            && LockedForRefund(after.value.book, after.value.refunds[|d.refunds|].items, |d.refunds|) == Ok(after.value.book)
            && var row := after.value.refunds[|d.refunds|];
               && row.order == order && row.items != [] && row.attempts == 0 && row.status in {Requested, Approved}
               && row.amount == AmountForPercent(row.gross, row.percent) && row.amount + row.fee == row.gross
               && IdSet(row.items) == AskedItems(ledger, d.refunds, order, requested)
               && Priced(ledger, d.refunds, order, IdSet(row.items), row.gross)
               && IsOffer(event, now, row.kind, row.percent, row.gross, row.amount, row.fee, row.status == Approved)
  {
    PreparedAsPromised(ledger, d.refunds, order, status, requested, event, now);
    PreparedQuote(ledger, d.refunds, order, status, requested, event, now);
    var p := Prepare(ledger, d.refunds, order, status, requested, event, now).value;
    QuoteAddsUp(event, p.quote.gross, now);
    LockGoesThrough(d.book, p.items, |d.refunds|);
    hide Askable;
    hide AskedItems;
    hide Offers;
    hide Prepare;
    hide IsOffer;
    hide Priced;
    hide Lockable;
    hide LockedForRefund;
    hide AmountForPercent;
  }

  lemma LockGoesThrough(book: Book, items: seq<ItemId>, refund: nat)
    requires Lockable(book, IdSet(items), refund)
    ensures var locked := LockedForRefund(book, items, refund);
            locked.Ok? && LockedForRefund(locked.value, items, refund) == locked
  {
    var found := IssuedFor(book, items);
    assert forall i :: i in found <==> i in IdSet(items) && i in book;
    var i :| i in IdSet(items) && i in book;
    assert i in found;
    var after := LockedForRefund(book, items, refund).value;
    assert IssuedFor(after, items) == found;
  }

  /** Approving it changes nothing about its money, and does nothing to what was approved at once. */
  lemma ApprovalGoesThrough(d: Desk, r: nat, now: int)
    requires r < |d.refunds| && d.refunds[r].status in {Requested, Approved} && d.refunds[r].items != []
    requires LockedForRefund(d.book, d.refunds[r].items, r) == Ok(d.book)
    requires var row := d.refunds[r]; row.amount == AmountForPercent(row.gross, row.percent) && row.amount + row.fee == row.gross
    ensures var after := AfterApprove(d, r, false, None, now);
            var refunds := if after.Ok? then after.value.refunds else d.refunds;
            && |refunds| == |d.refunds| && refunds[r] == d.refunds[r].(status := Approved, decidedAt := refunds[r].decidedAt)
  {
    hide LockedForRefund;
    hide AmountForPercent;
  }

  lemma AfterFront(ledger: Ledger, w: World, step: Step, rest: seq<Step>)
    ensures After(ledger, w, [step] + rest) == After(ledger, Next(ledger, w, step), rest)
  {
    assert ([step] + rest)[1..] == rest;
    hide Next;
  }

  /** A worker takes the refund, and the gateway accepts and pays. */
  function PayoutSteps(worker: nat, r: nat): seq<Step> {
    [ClaimPayout(worker, r)] + ([GatewayAnswers(worker, Accepted, true)] + ([WriteReply(worker)] + []))
  }

  /** From any state: so an approved refund is paid its amount. */
  lemma ApprovedIsPaid(ledger: Ledger, w: World, r: nat, worker: nat)
    requires Payable(ledger, w.desk.refunds, r) && worker !in w.workers
    ensures var row := w.desk.refunds[r];
            var done := After(ledger, w, PayoutSteps(worker, r));
            && done.desk.refunds == w.desk.refunds[r := row.(status := Completed, attempts := row.attempts + 1)]
            && AccountOf(done, r).payments == AccountOf(w, r).payments + [row.amount]
            && done.workers == w.workers
  {
    var claimed := AfterPayoutClaim(ledger, w, worker, r);
    var answered := AfterGateway(claimed, worker, Accepted, true);
    AfterFront(ledger, w, ClaimPayout(worker, r), [GatewayAnswers(worker, Accepted, true)] + ([WriteReply(worker)] + []));
    AfterFront(ledger, claimed, GatewayAnswers(worker, Accepted, true), [WriteReply(worker)] + []);
    AfterFront(ledger, answered, WriteReply(worker), []);
    assert claimed.workers - {worker} == w.workers;
    assert answered.workers - {worker} == w.workers;
  }

  /** A request is approved, and the refund paid. */
  function RefundSteps(order: OrderId, status: OrderStatus, requested: seq<ItemId>, event: EventContext, now: int, r: nat, worker: nat): seq<Step> {
    [RequestRefund(order, status, requested, event, now)] + ([ApproveRefund(r, false, None, now)] + PayoutSteps(worker, r))
  }

  /** The one new refund was paid, once, for the items asked for, at their price and on the event's terms. */
  ghost predicate PaidAsOffered(ledger: Ledger, before: World, after: World, order: OrderId, requested: seq<ItemId>, event: EventContext, now: int)
    requires order in ledger && ledger[order].payment.Some?
  {
    var r := |before.desk.refunds|;
    && |after.desk.refunds| == r + 1
    && var row := after.desk.refunds[r];
       && row.order == order && row.status == Completed && AccountOf(after, r).payments == [row.amount]
       && IdSet(row.items) == AskedItems(ledger, before.desk.refunds, order, requested)
       && Priced(ledger, before.desk.refunds, order, IdSet(row.items), row.gross)
       && exists auto :: IsOffer(event, now, row.kind, row.percent, row.gross, row.amount, row.fee, auto)
  }

  /**
   * What the protocol is for: from every reachable state, a request for free tickets that the
   * event's terms offer to pay back can be approved and paid, and it pays what the terms offer.
   */
  lemma OfferedRefundsArePaid(
    ledger: Ledger, book: Book, steps: seq<Step>, order: OrderId, status: OrderStatus,
    requested: seq<ItemId>, event: EventContext, now: int, worker: nat)
    requires Run(ledger, Start(book), steps, AnyStep)
    requires var w := After(ledger, Start(book), steps);
             && Askable(ledger, w.desk.refunds, order, status, requested) && !ledger[order].manual && Offers(event, now)
             && Lockable(w.desk.book, AskedItems(ledger, w.desk.refunds, order, requested), |w.desk.refunds|)
             && worker !in w.workers
    ensures var w := After(ledger, Start(book), steps);
            var done := After(ledger, w, RefundSteps(order, status, requested, event, now, |w.desk.refunds|, worker));
            PaidAsOffered(ledger, w, done, order, requested, event, now)
  {
    var w := After(ledger, Start(book), steps);
    RunBoundsCalls(ledger, Start(book), steps, AnyStep);
    assert AccountOf(w, |w.desk.refunds|).payments == [];
    hide After;
    hide CallsBounded;
    hide PaidAsOffered;
    hide RefundSteps;
    hide Run;
    OfferIsPaid(ledger, w, order, status, requested, event, now, worker);
  }

  lemma OfferIsPaid(
    ledger: Ledger, w: World, order: OrderId, status: OrderStatus,
    requested: seq<ItemId>, event: EventContext, now: int, worker: nat)
    requires Askable(ledger, w.desk.refunds, order, status, requested) && !ledger[order].manual && Offers(event, now)
    requires Lockable(w.desk.book, AskedItems(ledger, w.desk.refunds, order, requested), |w.desk.refunds|)
    requires worker !in w.workers && AccountOf(w, |w.desk.refunds|).payments == []
    ensures var done := After(ledger, w, RefundSteps(order, status, requested, event, now, |w.desk.refunds|, worker));
            PaidAsOffered(ledger, w, done, order, requested, event, now)
  {
    var r := |w.desk.refunds|;
    RequestGoesThrough(ledger, w.desk, order, status, requested, event, now);
    RequestThenApproval(ledger, w, order, status, requested, event, now, r, PayoutSteps(worker, r));
    assert RefundSteps(order, status, requested, event, now, r, worker)
        == [RequestRefund(order, status, requested, event, now)] + ([ApproveRefund(r, false, None, now)] + PayoutSteps(worker, r));
    hide Askable;
    hide AskedItems;
    hide Offers;
    hide IsOffer;
    hide Priced;
    hide Lockable;
    hide AfterRequest;
    hide AfterApprove;
    hide AmountForPercent;
    hide LockedForRefund;
    hide PayoutSteps;
    hide After;
    var asked := WithDesk(w, AfterRequest(ledger, w.desk, order, status, requested, event, now));
    ApprovalGoesThrough(asked.desk, r, now);
    var approved := WithDesk(asked, AfterApprove(asked.desk, r, false, None, now));
    hide RefundSteps;
    ApprovedIsPaid(ledger, approved, r, worker);
    hide Payable;
    var row := asked.desk.refunds[r];
    assert IsOffer(event, now, row.kind, row.percent, row.gross, row.amount, row.fee, row.status == Approved);
  }

  lemma RequestThenApproval(
    ledger: Ledger, w: World, order: OrderId, status: OrderStatus, requested: seq<ItemId>, event: EventContext, now: int,
    r: nat, rest: seq<Step>)
    ensures var asked := WithDesk(w, AfterRequest(ledger, w.desk, order, status, requested, event, now));
            After(ledger, w, [RequestRefund(order, status, requested, event, now)] + ([ApproveRefund(r, false, None, now)] + rest))
            == After(ledger, WithDesk(asked, AfterApprove(asked.desk, r, false, None, now)), rest)
  {
    hide AfterRequest;
    hide AfterApprove;
    hide After;
    var asked := WithDesk(w, AfterRequest(ledger, w.desk, order, status, requested, event, now));
    AfterFront(ledger, w, RequestRefund(order, status, requested, event, now), [ApproveRefund(r, false, None, now)] + rest);
    AfterFront(ledger, asked, ApproveRefund(r, false, None, now), rest);
  }

  // ------------------------------------------------------------------ there and back

  /** A question to the customer, and the answer, put a request back where it was. */
  lemma AnswersUndoQuestions(ledger: Ledger, w: World, r: nat)
    requires r < |w.desk.refunds|
    requires var row := w.desk.refunds[r];
             (row.status == Requested && row.escalatedAt == None) || (row.status == Escalated && row.escalatedAt != None)
    ensures After(ledger, w, [AskForInfo(r, true)] + ([AnswerInfo(r)] + [])) == w
  {
    var asked := Next(ledger, w, AskForInfo(r, true));
    AfterFront(ledger, w, AskForInfo(r, true), [AnswerInfo(r)] + []);
    AfterFront(ledger, asked, AnswerInfo(r), []);
    assert Next(ledger, asked, AnswerInfo(r)).desk.refunds == w.desk.refunds;
  }

  /** A row that claims nothing adds nothing to the claims of any order. */
  lemma IdleRowsClaimNothing(refunds: seq<Refund>, row: Refund, o: OrderId)
    requires !Claiming(row.status)
    ensures ClaimedItems(refunds + [row], o) == ClaimedItems(refunds, o)
    ensures WholeOrderClaimed(refunds + [row], o) <==> WholeOrderClaimed(refunds, o)
    ensures ClaimedGross(refunds + [row], o) == ClaimedGross(refunds, o)
  {
    ClaimedItemsAppend(refunds, row, o);
    GrossAppend(refunds, row, o);
  }

  /** What was asked for is prepared again just as before. */
  lemma IdleRowsChangeNoPrice(
    ledger: Ledger, refunds: seq<Refund>, row: Refund, order: OrderId, status: OrderStatus,
    requested: seq<ItemId>, event: EventContext, now: int)
    requires !Claiming(row.status)
    ensures Prepare(ledger, refunds + [row], order, status, requested, event, now) == Prepare(ledger, refunds, order, status, requested, event, now)
  {
    IdleRowsClaimNothing(refunds, row, order);
    hide ClaimedItems;
    hide ClaimedGross;
    hide WholeOrderClaimed;
    hide QuoteRefund;
    hide GrossForItems;
    hide Dedupe;
    hide FirstRefusal;
  }

  /**
   * A request that is reviewed, and withdrawn, leaves no trace but its row: every ticket is
   * as it was, and whatever anybody asks for next is refused, priced and quoted as before.
   */
  lemma WithdrawalUndoesRequest(
    ledger: Ledger, w: World, order: OrderId, status: OrderStatus, requested: seq<ItemId>, event: EventContext, now: int)
    requires var asked := AfterRequest(ledger, w.desk, order, status, requested, event, now);
             asked.Ok? && asked.value.refunds[|w.desk.refunds|].status == Requested
    requires forall i :: i in w.desk.book && w.desk.book[i].status == Issued ==> w.desk.book[i].refundId == None
    requires forall i :: i in w.desk.book ==> !LockedBy(w.desk.book[i], |w.desk.refunds|)
    ensures var r := |w.desk.refunds|;
            var done := After(ledger, w, [RequestRefund(order, status, requested, event, now)] + ([WithdrawRefund(r)] + []));
            && done.desk.book == w.desk.book
            && |done.desk.refunds| == r + 1 && done.desk.refunds[..r] == w.desk.refunds && done.desk.refunds[r].status == Withdrawn
            && forall o: OrderId, s: OrderStatus, items: seq<ItemId>, e: EventContext, at: int ::
                 Prepare(ledger, done.desk.refunds, o, s, items, e, at) == Prepare(ledger, w.desk.refunds, o, s, items, e, at)
  {
    var r := |w.desk.refunds|;
    var done := After(ledger, w, [RequestRefund(order, status, requested, event, now)] + ([WithdrawRefund(r)] + []));
    hide Prepare;
    RequestThenWithdrawal(ledger, w, order, status, requested, event, now);
    hide AfterRequest;
    hide After;
    hide LockedBy;
    forall o: OrderId, s: OrderStatus, ids: seq<ItemId>, e: EventContext, at: int
      ensures Prepare(ledger, done.desk.refunds, o, s, ids, e, at) == Prepare(ledger, w.desk.refunds, o, s, ids, e, at)
    {
      IdleRowsChangeNoPrice(ledger, w.desk.refunds, done.desk.refunds[r], o, s, ids, e, at);
    }
  }

  lemma RequestThenWithdrawal(
    ledger: Ledger, w: World, order: OrderId, status: OrderStatus, requested: seq<ItemId>, event: EventContext, now: int)
    requires var asked := AfterRequest(ledger, w.desk, order, status, requested, event, now);
             asked.Ok? && asked.value.refunds[|w.desk.refunds|].status == Requested
    requires forall i :: i in w.desk.book && w.desk.book[i].status == Issued ==> w.desk.book[i].refundId == None
    requires forall i :: i in w.desk.book ==> !LockedBy(w.desk.book[i], |w.desk.refunds|)
    ensures var r := |w.desk.refunds|;
            var done := After(ledger, w, [RequestRefund(order, status, requested, event, now)] + ([WithdrawRefund(r)] + []));
            && done.desk.book == w.desk.book && |done.desk.refunds| == r + 1
            && done.desk.refunds == w.desk.refunds + [done.desk.refunds[r]] && done.desk.refunds[r].status == Withdrawn
  {
    var r := |w.desk.refunds|;
    hide Prepare;
    var asked := AfterRequest(ledger, w.desk, order, status, requested, event, now).value;
    assert LockedForRefund(w.desk.book, asked.refunds[r].items, r) == Ok(asked.book) && asked.refunds[..r] == w.desk.refunds;
    UnlockUndoesLock(w.desk.book, asked.refunds[r].items, r);
    hide AfterRequest;
    hide LockedForRefund;
    hide UnlockedForRefund;
    var first := w.(desk := asked);
    AfterFront(ledger, w, RequestRefund(order, status, requested, event, now), [WithdrawRefund(r)] + []);
    AfterFront(ledger, first, WithdrawRefund(r), []);
  }

  /** From any state: an ISSUED ticket scanned with its own code for its own event lets its holder in, and counts as checked in. */
  lemma ValidTicketsGetIn(ledger: Ledger, w: World, i: ItemId)
    requires i in w.desk.book && w.desk.book[i].status == Issued
    ensures var t := w.desk.book[i];
            var done := Next(ledger, w, TicketMoves(CheckIn(i, t.event, t.qrVersion)));
            && done.desk == w.desk.(book := w.desk.book[i := t.(status := Used)])
            && done.scanned == w.scanned + {i} && done.soldOn == w.soldOn
  {
  }
}
