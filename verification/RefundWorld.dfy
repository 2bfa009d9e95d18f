/**
 * The refund protocol as a state machine: the refund desk and the ticket
 * service, any number of payout workers, and the gateway. Each request handler
 * is one step; a payout is split into claim, gateway call, write, and crash.
 */
module RefundWorld {
  import opened Common
  import opened RefundPolicy
  import opened Tickets
  import opened Refunds
  import opened Payouts

  /** Where a payout worker stands between its claim and its write. */
  datatype Worker =
    | Calling(refund: nat, amount: nat)
    | Answered(refund: nat, reply: GatewayReply)

  /** What happened to one refund at the gateway: calls made, admin retries, and the amounts that really moved. */
  datatype Account = Account(calls: nat, retries: nat, payments: seq<nat>)

  /** `scanned` and `soldOn` remember the items that were checked in and resold over the run. */
  datatype World = World(
    desk: Desk, workers: map<nat, Worker>, accounts: map<nat, Account>,
    scanned: set<ItemId>, soldOn: set<ItemId>)

  datatype Step =
    | TicketMoves(move: TicketStep)
    | RequestRefund(order: OrderId, status: OrderStatus, requested: seq<ItemId>, event: EventContext, now: int)
    | ApproveRefund(r: nat, admin: bool, raise: Option<nat>, now: int)
    | RejectRefund(r: nat, admin: bool, now: int)
    | AskForInfo(r: nat, admin: bool)
    | AnswerInfo(r: nat)
    | WithdrawRefund(r: nat)
    | EscalateRefund(r: nat, now: int)
    | RetryPayout(r: nat)
    | CancelEvent(orders: seq<PaidOrder>, now: int)
    | ClaimPayout(worker: nat, r: nat)
    | GatewayAnswers(worker: nat, reply: GatewayReply, paid: bool)
    | WriteReply(worker: nat)
    | WorkerDies(worker: nat)

  const NEW_ACCOUNT := Account(0, 0, [])

  function Start(book: Book): World {
    World(Desk([], book), map[], map[], {}, {})
  }

  /** Items that turned from unused to used between two states of the book. */
  function Scanned(before: Book, after: Book): set<ItemId> {
    set i | i in before && i in after && before[i].status != Used && after[i].status == Used
  }

  function SoldOn(before: Book, after: Book): set<ItemId> {
    set i | i in before && i in after && !IsResold(before[i]) && IsResold(after[i])
  }

  function AccountOf(w: World, r: nat): Account {
    if r in w.accounts then w.accounts[r] else NEW_ACCOUNT
  }

  function WithDesk(w: World, outcome: Result<Desk>): World {
    if outcome.Ok? then w.(desk := outcome.value) else w
  }

  function AfterMove(w: World, move: TicketStep): World {
    var book := AfterTicketStep(w.desk.book, move);
    w.(desk := w.desk.(book := book),
       scanned := w.scanned + Scanned(w.desk.book, book),
       soldOn := w.soldOn + SoldOn(w.desk.book, book))
  }

  function AfterPayoutClaim(ledger: Ledger, w: World, worker: nat, r: nat): World {
    if Payable(ledger, w.desk.refunds, r) then
      var account := AccountOf(w, r);
      w.(desk := w.desk.(refunds := AfterClaim(w.desk.refunds, r)),
         workers := w.workers[worker := Calling(r, w.desk.refunds[r].amount)],
         accounts := w.accounts[r := account.(calls := account.calls + 1)])
    else w
  }

  function AfterGateway(w: World, worker: nat, reply: GatewayReply, paid: bool): World {
    if worker in w.workers && w.workers[worker].Calling? then
      var call := w.workers[worker];
      var account := AccountOf(w, call.refund);
      w.(workers := w.workers[worker := Answered(call.refund, reply)],
         accounts := if paid then w.accounts[call.refund := account.(payments := account.payments + [call.amount])]
                     else w.accounts)
    else w
  }

  function AfterWrite(w: World, worker: nat): World {
    if worker in w.workers && w.workers[worker].Answered? && w.workers[worker].refund < |w.desk.refunds| then
      var done := w.workers[worker];
      w.(desk := w.desk.(refunds := AfterReply(w.desk.refunds, done.refund, done.reply)),
         workers := w.workers - {worker})
    else w
  }

  function AfterRetryPayout(w: World, r: nat): World {
    var outcome := AfterRetry(w.desk, r);
    var account := AccountOf(w, r);
    if outcome.Ok? then
      w.(desk := outcome.value, accounts := w.accounts[r := account.(retries := account.retries + 1)])
    else w
  }

  function Next(ledger: Ledger, w: World, step: Step): World {
    match step
    case TicketMoves(move) => AfterMove(w, move)
    case RequestRefund(order, status, requested, event, now) =>
      WithDesk(w, AfterRequest(ledger, w.desk, order, status, requested, event, now))
    case ApproveRefund(r, admin, raise, now) => WithDesk(w, AfterApprove(w.desk, r, admin, raise, now))
    case RejectRefund(r, admin, now) => WithDesk(w, AfterReject(w.desk, r, admin, now))
    case AskForInfo(r, admin) => WithDesk(w, AfterRequestInfo(w.desk, r, admin))
    case AnswerInfo(r) => WithDesk(w, AfterRespond(w.desk, r))
    case WithdrawRefund(r) => WithDesk(w, AfterWithdraw(w.desk, r))
    case EscalateRefund(r, now) => WithDesk(w, AfterEscalate(w.desk, r, now))
    case RetryPayout(r) => AfterRetryPayout(w, r)
    case CancelEvent(orders, now) => WithDesk(w, Ok(w.desk.(refunds := AfterCanceledEvent(ledger, w.desk.refunds, orders, now))))
    case ClaimPayout(worker, r) => AfterPayoutClaim(ledger, w, worker, r)
    case GatewayAnswers(worker, reply, paid) => AfterGateway(w, worker, reply, paid)
    case WriteReply(worker) => AfterWrite(w, worker)
    case WorkerDies(worker) => w.(workers := w.workers - {worker})
  }

  /**
   * What the protocol takes for granted: only the refund desk locks tickets for
   * refunds, an order with issued tickets has one per item, an approver's percent is at
   * most 100, booking lists live items of the order, and worker ids are fresh. A gateway
   * may pay or not whatever it answers; what it must not do is a rule of its own.
   */
  ghost predicate Allowed(ledger: Ledger, w: World, step: Step) {
    match step
    case TicketMoves(move) => !move.LockForRefund? && !move.UnlockForRefund?
    case RequestRefund(order, status, _, _, _) =>
      status == TicketIssued && order in ledger ==>
        forall i :: i in ItemIds(ledger[order].items) ==> i in w.desk.book
    case ApproveRefund(_, _, raise, _) => raise.Some? ==> raise.value <= 100
    case CancelEvent(orders, _) =>
      forall p :: p in orders ==>
        p.order in ledger && forall i :: i in p.live ==> i in ItemIds(ledger[p.order].items)
    case ClaimPayout(worker, _) => worker !in w.workers
    case _ => true
  }

  /** A further discipline some guarantees need of the steps of a run. */
  type Rule = (World, Step) -> bool

  ghost predicate AnyStep(w: World, step: Step) {
    true
  }

  ghost predicate Run(ledger: Ledger, w: World, steps: seq<Step>, rule: Rule)
    decreases |steps|
  {
    steps == [] ||
    (Allowed(ledger, w, steps[0]) && rule(w, steps[0]) && Run(ledger, Next(ledger, w, steps[0]), steps[1..], rule))
  }

  function After(ledger: Ledger, w: World, steps: seq<Step>): World
    decreases |steps|
  {
    if steps == [] then w else After(ledger, Next(ledger, w, steps[0]), steps[1..])
  }
}
