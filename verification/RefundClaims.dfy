/**
 * Claims and ticket locks agree over every run: no ticket is ever claimed by two
 * open or completed customer refunds, a claimed ticket is locked by its refund
 * or dead, and a ticket is checked in, resold or paid back, never two of these.
 */
module RefundClaims {
  import opened Common
  import opened RefundPolicy
  import opened Tickets
  import opened Refunds
  import opened Payouts
  import opened RefundWorld

  /** Asked for by a customer, as opposed to created for a canceled event. */
  predicate ByCustomer(r: Refund) {
    r.kind != EventCanceled
  }

  /** The ticket is locked by refund `r`, or dead without having been resold. */
  predicate Held(t: Ticket, r: nat) {
    LockedBy(t, r) || (t.status == Canceled && t.reason != Some(Resold))
  }

  ghost predicate ClaimsHeld(d: Desk) {
    forall k, i :: 0 <= k < |d.refunds| && ByCustomer(d.refunds[k]) && i in d.refunds[k].items ==>
      i in d.book && (Claiming(d.refunds[k].status) ==> Held(d.book[i], k))
  }

  ghost predicate ClaimsDisjoint(refunds: seq<Refund>) {
    forall j, k :: 0 <= j < |refunds| && 0 <= k < |refunds| && j != k
                   && ByCustomer(refunds[j]) && ByCustomer(refunds[k])
                   && Claiming(refunds[j].status) && Claiming(refunds[k].status) ==>
      forall i :: i in refunds[j].items ==> i !in refunds[k].items
  }

  /** Only dead tickets carry a reason. */
  ghost predicate ReasonsOnlyOnCanceled(book: Book) {
    forall i :: i in book && book[i].status != Canceled ==> book[i].reason == None
  }

  /** Event refunds are born approved, so they are never under review nor turned down. */
  ghost predicate EventRefundsSettled(refunds: seq<Refund>) {
    forall k :: 0 <= k < |refunds| && !ByCustomer(refunds[k]) ==> Settled(refunds[k].status)
  }

  ghost predicate DeskAgrees(d: Desk) {
    && ClaimsHeld(d)
    && ClaimsDisjoint(d.refunds)
    && ReasonsOnlyOnCanceled(d.book)
    && EventRefundsSettled(d.refunds)
  }

  /** Whoever was paid, or is about to be, was decided in the customer's favour. */
  ghost predicate PayoutsSettled(w: World) {
    && (forall r :: r in w.accounts && w.accounts[r].payments != [] ==>
          r < |w.desk.refunds| && Settled(w.desk.refunds[r].status))
    && (forall x :: x in w.workers ==>
          w.workers[x].refund < |w.desk.refunds| && Settled(w.desk.refunds[w.workers[x].refund].status))
  }

  ghost predicate HistoryShows(w: World) {
    && (forall i :: i in w.scanned <==> i in w.desk.book && w.desk.book[i].status == Used)
    && (forall i :: i in w.soldOn <==> i in w.desk.book && IsResold(w.desk.book[i]))
  }

  ghost predicate Agrees(w: World) {
    DeskAgrees(w.desk) && PayoutsSettled(w) && HistoryShows(w)
  }

  // ------------------------------------------------------ one refund changes

  /** A row changes without claiming anew; the tickets stay as they are. */
  lemma UpdateAgrees(d: Desk, r: nat, row: Refund)
    requires DeskAgrees(d) && r < |d.refunds|
    requires row.items == d.refunds[r].items && row.kind == d.refunds[r].kind
    requires Claiming(row.status) ==> Claiming(d.refunds[r].status)
    requires Settled(d.refunds[r].status) ==> Settled(row.status)
    ensures DeskAgrees(d.(refunds := d.refunds[r := row]))
  {
  }

  /** A claim is given up and its tickets unlocked. */
  lemma ReleaseAgrees(d: Desk, r: nat, row: Refund)
    requires DeskAgrees(d) && r < |d.refunds|
    requires row.items == d.refunds[r].items && row.kind == d.refunds[r].kind
    requires Locking(d.refunds[r].status) && !Claiming(row.status)
    ensures DeskAgrees(Desk(d.refunds[r := row], UnlockedForRefund(d.book, r)))
  {
    UpdateAgrees(d, r, row);
  }

  /** A successful lock cannot touch a ticket another customer refund claims. */
  lemma LockIsExclusive(d: Desk, items: seq<ItemId>, r: nat, k: nat, i: ItemId)
    requires ClaimsHeld(d) && LockedForRefund(d.book, items, r).Ok?
    requires k < |d.refunds| && k != r && ByCustomer(d.refunds[k]) && Claiming(d.refunds[k].status)
    requires i in d.refunds[k].items
    ensures i !in items
  {
    assert Held(d.book[i], k);
    assert i in items <==> i in IssuedFor(d.book, items);
  }

  lemma LockEffect(book: Book, items: seq<ItemId>, r: nat)
    requires LockedForRefund(book, items, r).Ok?
    ensures var after := LockedForRefund(book, items, r).value;
            && after.Keys == book.Keys
            && (forall i :: i in book && i in items ==> LockedBy(after[i], r))
            && (forall i :: i in book && i !in items ==> after[i] == book[i])
            && (forall i :: i in book ==> after[i].reason == book[i].reason)
            && Advances(book, after)
  {
    forall i | i in book && i in items
      ensures LockedBy(LockedForRefund(book, items, r).value[i], r)
    {
      assert i in IssuedFor(book, items);
    }
  }

  /** A row, old or new, claims its items under a fresh lock. */
  lemma LockAgrees(d: Desk, r: nat, row: Refund, refunds: seq<Refund>)
    requires DeskAgrees(d) && r <= |d.refunds|
    requires refunds == if r < |d.refunds| then d.refunds[r := row] else d.refunds + [row]
    requires ByCustomer(row) && (forall i :: i in row.items ==> i in d.book)
    requires LockedForRefund(d.book, row.items, r).Ok?
    ensures DeskAgrees(Desk(refunds, LockedForRefund(d.book, row.items, r).value))
  {
    LockEffect(d.book, row.items, r);
    forall k, i | 0 <= k < |d.refunds| && k != r && ByCustomer(d.refunds[k]) && Claiming(d.refunds[k].status) && i in d.refunds[k].items
      ensures i !in row.items
    {
      LockIsExclusive(d, row.items, r, k, i);
    }
    hide LockedForRefund;
    var book := LockedForRefund(d.book, row.items, r).value;
    assert forall k :: 0 <= k < |refunds| && k != r ==> refunds[k] == d.refunds[k];
    assert ClaimsHeld(Desk(refunds, book)) by {
      forall k, i | 0 <= k < |refunds| && ByCustomer(refunds[k]) && i in refunds[k].items
        ensures i in book && (Claiming(refunds[k].status) ==> Held(book[i], k))
      {
        if k != r {
          assert i in d.refunds[k].items;
        }
      }
    }
    assert ClaimsDisjoint(refunds) by { hide ClaimsHeld; hide ReasonsOnlyOnCanceled; }
    assert ReasonsOnlyOnCanceled(book) by { hide ClaimsHeld; hide ClaimsDisjoint; }
  }

  // ------------------------------------------------------- one desk handler

  /** A handler takes no settled refund back, revives no used or canceled ticket, and uses or resells none. */
  ghost predicate KeepsSettled(before: Desk, after: Desk) {
    && |before.refunds| <= |after.refunds|
    && (forall k :: 0 <= k < |before.refunds| && Settled(before.refunds[k].status) ==> Settled(after.refunds[k].status))
    && Advances(before.book, after.book)
    && (forall i :: i in after.book && (after.book[i].status == Used || IsResold(after.book[i])) ==>
          i in before.book && after.book[i] == before.book[i])
  }

  ghost predicate GoodOutcome(before: Desk, outcome: Result<Desk>) {
    outcome.Ok? ==> DeskAgrees(outcome.value) && KeepsSettled(before, outcome.value)
  }

  lemma RequestAgrees(ledger: Ledger, d: Desk, order: OrderId, status: OrderStatus, requested: seq<ItemId>, event: EventContext, now: int)
    requires DeskAgrees(d)
    requires status == TicketIssued && order in ledger ==>
               forall i :: i in ItemIds(ledger[order].items) ==> i in d.book
    ensures GoodOutcome(d, AfterRequest(ledger, d, order, status, requested, event, now))
  {
    var after := AfterRequest(ledger, d, order, status, requested, event, now);
    if after.Ok? {
      var p := Prepare(ledger, d.refunds, order, status, requested, event, now).value;
      PreparedItemsAreOrdered(ledger, d.refunds, order, status, requested, event, now);
      LockEffect(d.book, p.items, |d.refunds|);
      LockAgrees(d, |d.refunds|, NewRequest(order, p, now), d.refunds + [NewRequest(order, p, now)]);
    }
  }

  /** Whatever a request covers belongs to the order and is unclaimed. */
  lemma PreparedItemsAreOrdered(ledger: Ledger, refunds: seq<Refund>, order: OrderId, status: OrderStatus, requested: seq<ItemId>, event: EventContext, now: int)
    requires Prepare(ledger, refunds, order, status, requested, event, now).Ok?
    ensures status == TicketIssued && order in ledger && ledger[order].payment.Some?
    ensures !WholeOrderClaimed(refunds, order)
    ensures var p := Prepare(ledger, refunds, order, status, requested, event, now).value;
            var orderIds := ItemIds(ledger[order].items);
            var claimed := ClaimedItems(refunds, order);
            && p.items != []
            && (forall i :: i in p.items ==> i in orderIds && i !in claimed)
            && (p.quote.Eligible? ==>
                  && p.quote.kind != EventCanceled
                  && p.quote.percent <= 100
                  && p.quote.amount + p.quote.fee == p.quote.gross
                  && p.quote.gross == GrossForItems(ledger[order].items, p.items, Unclaimed(orderIds, claimed),
                                                    ledger[order].payment.value, ClaimedGross(refunds, order)))
  {
    hide GrossForItems;
    hide ParsePolicy;
    hide SortTiers;
    if requested != [] {
      assert requested[0] in IdSet(requested) && requested[0] in IdSet(Dedupe(requested));
    }
  }

  lemma ApproveAgrees(d: Desk, r: nat, admin: bool, raise: Option<nat>, now: int)
    requires DeskAgrees(d)
    ensures GoodOutcome(d, AfterApprove(d, r, admin, raise, now))
  {
    hide AmountForPercent;
    hide LockedForRefund;
    var after := AfterApprove(d, r, admin, raise, now);
    if after.Ok? {
      var row := after.value.refunds[r];
      assert after.value.refunds == d.refunds[r := row];
      if row.items == [] {
        UpdateAgrees(d, r, row);
      } else {
        LockEffect(d.book, row.items, r);
        LockAgrees(d, r, row, after.value.refunds);
      }
    }
  }

  lemma RejectAgrees(d: Desk, r: nat, admin: bool, now: int)
    requires DeskAgrees(d)
    ensures GoodOutcome(d, AfterReject(d, r, admin, now))
  {
    hide DeskAgrees;
    var after := AfterReject(d, r, admin, now);
    if after.Ok? {
      ReleaseAgrees(d, r, after.value.refunds[r]);
    }
  }

  lemma WithdrawAgrees(d: Desk, r: nat)
    requires DeskAgrees(d)
    ensures GoodOutcome(d, AfterWithdraw(d, r))
  {
    hide DeskAgrees;
    var after := AfterWithdraw(d, r);
    if after.Ok? {
      ReleaseAgrees(d, r, after.value.refunds[r]);
    }
  }

  lemma RequestInfoAgrees(d: Desk, r: nat, admin: bool)
    requires DeskAgrees(d)
    ensures GoodOutcome(d, AfterRequestInfo(d, r, admin))
  {
    hide DeskAgrees;
    var after := AfterRequestInfo(d, r, admin);
    if after.Ok? {
      UpdateAgrees(d, r, after.value.refunds[r]);
    }
  }

  lemma RespondAgrees(d: Desk, r: nat)
    requires DeskAgrees(d)
    ensures GoodOutcome(d, AfterRespond(d, r))
  {
    hide DeskAgrees;
    var after := AfterRespond(d, r);
    if after.Ok? && after.value != d {
      UpdateAgrees(d, r, after.value.refunds[r]);
    }
  }

  lemma RetryAgrees(d: Desk, r: nat)
    requires DeskAgrees(d)
    ensures GoodOutcome(d, AfterRetry(d, r))
  {
    hide DeskAgrees;
    var after := AfterRetry(d, r);
    if after.Ok? {
      UpdateAgrees(d, r, after.value.refunds[r]);
    }
  }

  lemma EscalateAgrees(d: Desk, r: nat, now: int)
    requires DeskAgrees(d)
    ensures GoodOutcome(d, AfterEscalate(d, r, now))
  {
    hide LockedForRefund;
    var after := AfterEscalate(d, r, now);
    if after.Ok? {
      var row := after.value.refunds[r];
      assert after.value.refunds == d.refunds[r := row];
      if d.refunds[r].status == Rejected {
        LockEffect(d.book, row.items, r);
        LockAgrees(d, r, row, after.value.refunds);
      } else {
        UpdateAgrees(d, r, row);
      }
    }
  }

  lemma CanceledOrderAgrees(ledger: Ledger, d: Desk, order: OrderId, live: seq<ItemId>, now: int)
    requires DeskAgrees(d)
    ensures var rows := AfterCanceledOrder(ledger, d.refunds, order, live, now);
            && DeskAgrees(d.(refunds := rows))
            && |rows| >= |d.refunds|
            && (forall k :: 0 <= k < |d.refunds| && Settled(d.refunds[k].status) ==> rows[k] == d.refunds[k])
  {
    hide ClaimedGross;
    hide Unclaimed;
  }

  lemma {:induction false} CanceledEventAgrees(ledger: Ledger, d: Desk, orders: seq<PaidOrder>, now: int)
    requires DeskAgrees(d)
    ensures var rows := AfterCanceledEvent(ledger, d.refunds, orders, now);
            && DeskAgrees(d.(refunds := rows))
            && |rows| >= |d.refunds|
            && (forall k :: 0 <= k < |d.refunds| && Settled(d.refunds[k].status) ==> rows[k] == d.refunds[k])
  {
    hide AfterCanceledOrder;
    if orders != [] {
      var last := orders[|orders| - 1];
      CanceledEventAgrees(ledger, d, orders[..|orders| - 1], now);
      CanceledOrderAgrees(ledger, d.(refunds := AfterCanceledEvent(ledger, d.refunds, orders[..|orders| - 1], now)),
                          last.order, last.live, now);
    }
  }

  // ------------------------------------------------------------- every step

  /** The refund desk's steps, all of which leave workers, accounts and history alone. */
  predicate AtTheDesk(step: Step) {
    !step.TicketMoves? && !step.RetryPayout? && !step.ClaimPayout? && !step.GatewayAnswers?
    && !step.WriteReply? && !step.WorkerDies?
  }

  lemma DeskStepAgrees(ledger: Ledger, w: World, step: Step)
    requires DeskAgrees(w.desk) && AtTheDesk(step) && Allowed(ledger, w, step)
    ensures var after := Next(ledger, w, step);
            && after == w.(desk := after.desk)
            && DeskAgrees(after.desk)
            && KeepsSettled(w.desk, after.desk)
  {
    hide DeskAgrees;
    hide AfterRequest;
    hide AfterApprove;
    hide AfterReject;
    hide AfterRequestInfo;
    hide AfterRespond;
    hide AfterWithdraw;
    hide AfterEscalate;
    hide AfterCanceledEvent;
    match step {
      case RequestRefund(order, status, requested, event, now) =>
        RequestAgrees(ledger, w.desk, order, status, requested, event, now);
      case ApproveRefund(r, admin, raise, now) => ApproveAgrees(w.desk, r, admin, raise, now);
      case RejectRefund(r, admin, now) => RejectAgrees(w.desk, r, admin, now);
      case AskForInfo(r, admin) => RequestInfoAgrees(w.desk, r, admin);
      case AnswerInfo(r) => RespondAgrees(w.desk, r);
      case WithdrawRefund(r) => WithdrawAgrees(w.desk, r);
      case EscalateRefund(r, now) => EscalateAgrees(w.desk, r, now);
      case CancelEvent(orders, now) => CanceledEventAgrees(ledger, w.desk, orders, now);
    }
  }

  /** What no ticket-service step does: free or resell a ticket held by a refund, or revive a dead one. */
  ghost predicate Respects(before: Book, after: Book) {
    && (forall i :: i in before ==> i in after)
    && (forall i :: i in after && i !in before ==> after[i].status == Issued)
    && (forall i :: i in before && before[i].status == RefundPending ==>
          after[i] == before[i] || (after[i].status == Canceled && after[i].reason != Some(Resold)))
    && Advances(before, after)
    && ReasonsOnlyOnCanceled(after)
  }

  lemma MoveRespects(book: Book, move: TicketStep)
    requires ReasonsOnlyOnCanceled(book) && !move.LockForRefund? && !move.UnlockForRefund?
    ensures Respects(book, AfterTicketStep(book, move))
  {
  }

  lemma RespectfulMoveAgrees(d: Desk, book: Book)
    requires DeskAgrees(d) && Respects(d.book, book)
    ensures DeskAgrees(d.(book := book))
  {
    forall k, i | 0 <= k < |d.refunds| && ByCustomer(d.refunds[k]) && i in d.refunds[k].items
      ensures i in book && (Claiming(d.refunds[k].status) ==> Held(book[i], k))
    {
      assert i in d.book;
    }
  }

  lemma MoveAgrees(w: World, move: TicketStep)
    requires Agrees(w) && !move.LockForRefund? && !move.UnlockForRefund?
    ensures Agrees(AfterMove(w, move))
  {
    hide AfterTicketStep;
    var book := AfterTicketStep(w.desk.book, move);
    MoveRespects(w.desk.book, move);
    RespectfulMoveAgrees(w.desk, book);
    hide DeskAgrees;
    hide ReasonsOnlyOnCanceled;
  }

  /** Rows move among the settled statuses; workers and payments keep pointing at settled rows. */
  lemma SettledStaySettled(w: World, refunds: seq<Refund>, workers: map<nat, Worker>, accounts: map<nat, Account>)
    requires Agrees(w) && KeepsSettled(w.desk, w.desk.(refunds := refunds)) && DeskAgrees(w.desk.(refunds := refunds))
    requires forall x :: x in workers ==>
               (x in w.workers && workers[x].refund == w.workers[x].refund)
               || (workers[x].refund < |refunds| && Settled(refunds[workers[x].refund].status))
    requires forall r :: r in accounts && accounts[r].payments != [] ==>
               (r in w.accounts && w.accounts[r].payments != []) || (r < |refunds| && Settled(refunds[r].status))
    ensures Agrees(w.(desk := w.desk.(refunds := refunds), workers := workers, accounts := accounts))
  {
    hide DeskAgrees;
  }

  lemma RetryPayoutAgrees(w: World, r: nat)
    requires Agrees(w)
    ensures Agrees(AfterRetryPayout(w, r))
  {
    hide DeskAgrees;
    RetryAgrees(w.desk, r);
    var after := AfterRetryPayout(w, r);
    SettledStaySettled(w, after.desk.refunds, after.workers, after.accounts);
  }

  lemma PayoutClaimAgrees(ledger: Ledger, w: World, worker: nat, r: nat)
    requires Agrees(w)
    ensures Agrees(AfterPayoutClaim(ledger, w, worker, r))
  {
    hide DeskAgrees;
    if Payable(ledger, w.desk.refunds, r) {
      UpdateAgrees(w.desk, r, AfterClaim(w.desk.refunds, r)[r]);
      var after := AfterPayoutClaim(ledger, w, worker, r);
      SettledStaySettled(w, after.desk.refunds, after.workers, after.accounts);
    }
  }

  lemma GatewayAgrees(w: World, worker: nat, reply: GatewayReply, paid: bool)
    requires Agrees(w)
    ensures Agrees(AfterGateway(w, worker, reply, paid))
  {
    hide DeskAgrees;
    var after := AfterGateway(w, worker, reply, paid);
    SettledStaySettled(w, after.desk.refunds, after.workers, after.accounts);
  }

  lemma WriteAgrees(w: World, worker: nat)
    requires Agrees(w)
    ensures Agrees(AfterWrite(w, worker))
  {
    hide DeskAgrees;
    if worker in w.workers && w.workers[worker].Answered? {
      var r := w.workers[worker].refund;
      var after := AfterWrite(w, worker);
      assert after.desk.refunds == w.desk.refunds[r := after.desk.refunds[r]];
      UpdateAgrees(w.desk, r, after.desk.refunds[r]);
      SettledStaySettled(w, after.desk.refunds, after.workers, after.accounts);
    }
  }

  /** Retry, claim, gateway call, write and crash. */
  lemma PayoutStepAgrees(ledger: Ledger, w: World, step: Step)
    requires Agrees(w) && Allowed(ledger, w, step) && !AtTheDesk(step) && !step.TicketMoves?
    ensures Agrees(Next(ledger, w, step))
  {
    hide DeskAgrees;
    hide AfterRetryPayout;
    hide AfterPayoutClaim;
    hide AfterGateway;
    hide AfterWrite;
    match step {
      case RetryPayout(r) => RetryPayoutAgrees(w, r);
      case ClaimPayout(worker, r) => PayoutClaimAgrees(ledger, w, worker, r);
      case GatewayAnswers(worker, reply, paid) => GatewayAgrees(w, worker, reply, paid);
      case WriteReply(worker) => WriteAgrees(w, worker);
      case WorkerDies(worker) =>
        SettledStaySettled(w, w.desk.refunds, w.workers - {worker}, w.accounts);
    }
  }

  lemma MoveIsAMove(ledger: Ledger, w: World, step: Step)
    requires step.TicketMoves?
    ensures Next(ledger, w, step) == AfterMove(w, step.move)
  {
  }

  lemma StepAgrees(ledger: Ledger, w: World, step: Step)
    requires Agrees(w) && Allowed(ledger, w, step)
    ensures Agrees(Next(ledger, w, step))
  {
    hide Next;
    hide DeskAgrees;
    if AtTheDesk(step) {
      DeskStepAgrees(ledger, w, step);
    } else if step.TicketMoves? {
      assert Next(ledger, w, step) == AfterMove(w, step.move) by { MoveIsAMove(ledger, w, step); }
      MoveAgrees(w, step.move);
    } else {
      PayoutStepAgrees(ledger, w, step);
    }
  }

  lemma {:induction false} RunAgrees(ledger: Ledger, w: World, steps: seq<Step>, rule: Rule)
    requires Agrees(w) && Run(ledger, w, steps, rule)
    ensures Agrees(After(ledger, w, steps))
    decreases |steps|
  {
    if steps != [] {
      StepAgrees(ledger, w, steps[0]);
      RunAgrees(ledger, Next(ledger, w, steps[0]), steps[1..], rule);
    }
  }

  // ------------------------------------------------------------ what it means

  /** The items of customer refunds that the gateway really paid. */
  ghost function PaidBack(w: World): set<ItemId> {
    set r, i | r in w.accounts && w.accounts[r].payments != [] && r < |w.desk.refunds|
               && ByCustomer(w.desk.refunds[r]) && i in w.desk.refunds[r].items :: i
  }

  ghost predicate FreshBook(book: Book) {
    forall i :: i in book ==> book[i].status == Issued && book[i].refundId == None && book[i].reason == None
  }

  lemma SpentOnce(w: World)
    requires Agrees(w)
    ensures HistoryShows(w) && w.scanned !! w.soldOn
    ensures forall i :: i in PaidBack(w) ==> i !in w.scanned && i !in w.soldOn
  {
    forall i | i in PaidBack(w) ensures i !in w.scanned && i !in w.soldOn {
      var r :| r in w.accounts && w.accounts[r].payments != [] && r < |w.desk.refunds|
               && ByCustomer(w.desk.refunds[r]) && i in w.desk.refunds[r].items;
      assert Held(w.desk.book[i], r);
    }
  }

  lemma StartAgrees(book: Book)
    requires FreshBook(book)
    ensures Agrees(Start(book))
  {
  }

  /** Over every run, no ticket is both checked in and paid back, or resold and either. */
  lemma EachTicketIsSpentOnce(ledger: Ledger, book: Book, steps: seq<Step>)
    requires FreshBook(book) && Run(ledger, Start(book), steps, AnyStep)
    ensures var w := After(ledger, Start(book), steps);
            && (forall i :: i in w.scanned <==> i in w.desk.book && w.desk.book[i].status == Used)
            && (forall i :: i in w.soldOn <==> i in w.desk.book && IsResold(w.desk.book[i]))
            && w.scanned !! w.soldOn
            && w.scanned !! PaidBack(w)
            && w.soldOn !! PaidBack(w)
  {
    hide Agrees;
    StartAgrees(book);
    RunAgrees(ledger, Start(book), steps, AnyStep);
    hide Run;
    hide After;
    SpentOnce(After(ledger, Start(book), steps));
  }

  /** Over every run, appeals after a rejection included: claims are disjoint and their tickets locked or dead. */
  lemma ClaimsAndLocksAgree(ledger: Ledger, book: Book, steps: seq<Step>)
    requires FreshBook(book) && Run(ledger, Start(book), steps, AnyStep)
    ensures var d := After(ledger, Start(book), steps).desk;
            ClaimsHeld(d) && ClaimsDisjoint(d.refunds)
  {
    StartAgrees(book);
    RunAgrees(ledger, Start(book), steps, AnyStep);
  }

  lemma {:induction false} RunAdvances(ledger: Ledger, w: World, steps: seq<Step>, rule: Rule)
    requires Agrees(w) && Run(ledger, w, steps, rule)
    ensures Advances(w.desk.book, After(ledger, w, steps).desk.book)
    decreases |steps|
  {
    if steps != [] {
      var next := Next(ledger, w, steps[0]);
      StepAgrees(ledger, w, steps[0]);
      StepAdvances(ledger, w, steps[0]);
      RunAdvances(ledger, next, steps[1..], rule);
    }
  }

  /** From every reachable state, check-in, resale and cancellation are final over every run of the whole protocol. */
  lemma UsedAndCanceledStay(ledger: Ledger, book: Book, before: seq<Step>, steps: seq<Step>)
    requires FreshBook(book) && Run(ledger, Start(book), before, AnyStep)
    requires Run(ledger, After(ledger, Start(book), before), steps, AnyStep)
    ensures var w := After(ledger, Start(book), before); Advances(w.desk.book, After(ledger, w, steps).desk.book)
  {
    StartAgrees(book);
    RunAgrees(ledger, Start(book), before, AnyStep);
    RunAdvances(ledger, After(ledger, Start(book), before), steps, AnyStep);
  }

  lemma StepAdvances(ledger: Ledger, w: World, step: Step)
    requires Agrees(w) && Allowed(ledger, w, step)
    ensures Advances(w.desk.book, Next(ledger, w, step).desk.book)
  {
    if AtTheDesk(step) {
      hide Next;
      DeskStepAgrees(ledger, w, step);
    } else if step.TicketMoves? {
      assert AfterTicketSteps(w.desk.book, [step.move]) == AfterTicketStep(w.desk.book, step.move);
      UsedAndCanceledAreAbsorbing(w.desk.book, [step.move]);
    }
  }
}
