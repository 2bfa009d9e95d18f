/**
 * The refund desk of payment-service: refund rows, the order items they claim,
 * and the ticket locks they hold. A refund's id is its position in the table.
 *
 * Every handler is given twice: as a function on the desk's state, and as the
 * method of RefundsService that the function specifies.
 */
module Refunds {
  import opened Common
  import opened RefundPolicy
  import opened Tickets

  datatype RefundStatus =
    | Requested | NeedInfo | Escalated
    | Approved | Processing | Failed | Completed
    | Rejected | RejectedFinal | Withdrawn

  /** REQUESTED, NEED_INFO and ESCALATED hold ticket locks and can still be decided. */
  predicate Locking(s: RefundStatus) {
    s == Requested || s == NeedInfo || s == Escalated
  }

  /** Decided in the customer's favour: never taken back. */
  predicate Settled(s: RefundStatus) {
    s == Approved || s == Processing || s == Failed || s == Completed
  }

  /** Open or completed: the items of such a refund cannot be asked for again. */
  predicate Claiming(s: RefundStatus) {
    Locking(s) || Settled(s)
  }

  datatype Refund = Refund(
    order: OrderId, kind: RefundKind, items: seq<ItemId>,
    gross: nat, percent: nat, amount: nat, fee: int,
    status: RefundStatus, slaDueAt: Option<int>, decidedAt: Option<int>, escalatedAt: Option<int>,
    attempts: nat)

  /** What booking-service and the payments table say of an order; `payment` is its successful payment. */
  datatype Bill = Bill(items: seq<PricedItem>, payment: Option<nat>, resale: bool, manual: bool)

  type Ledger = map<OrderId, Bill>

  datatype OrderStatus = PendingPayment | Paid | TicketIssued | OrderCanceled

  datatype Desk = Desk(refunds: seq<Refund>, book: Book)

  const REVIEW_SLA_MS := 7 * 24 * HOUR_MS
  const ESCALATION_WINDOW_MS := 7 * 24 * HOUR_MS

  // ------------------------------------------------------------------ claims

  predicate Claims(r: Refund, order: OrderId) {
    r.order == order && Claiming(r.status)
  }

  function ClaimedItems(refunds: seq<Refund>, order: OrderId): set<ItemId> {
    set k, i | 0 <= k < |refunds| && Claims(refunds[k], order) && i in refunds[k].items :: i
  }

  /** A claiming row without item ids covers the whole order. */
  predicate WholeOrderClaimed(refunds: seq<Refund>, order: OrderId) {
    exists k :: 0 <= k < |refunds| && Claims(refunds[k], order) && refunds[k].items == []
  }

  function GrossClaim(r: Refund, order: OrderId): nat {
    if Claims(r, order) then r.gross else 0
  }

  function ClaimedGross(refunds: seq<Refund>, order: OrderId): nat {
    if refunds == [] then 0
    else ClaimedGross(refunds[..|refunds| - 1], order) + GrossClaim(refunds[|refunds| - 1], order)
  }

  // --------------------------------------------------- prepare and request

  function Dedupe(ids: seq<ItemId>): (r: seq<ItemId>)
    ensures IdSet(r) == IdSet(ids)
    ensures forall i, j :: 0 <= i < j < |r| ==> r[i] != r[j]
  {
    if ids == [] then []
    else
      var last := |ids| - 1;
      var r := Dedupe(ids[..last]);
      assert ids == ids[..last] + [ids[last]];
      assert IdSet(ids) == IdSet(ids[..last]) + {ids[last]};
      assert forall i :: i in r <==> i in IdSet(r);
      if ids[last] in r then r else r + [ids[last]]
  }

  /** The first requested item that cannot be refunded decides the refusal. */
  function FirstRefusal(ids: seq<ItemId>, orderIds: seq<ItemId>, claimed: set<ItemId>): (e: Option<Error>)
    ensures e.None? <==> forall id :: id in ids ==> id in orderIds && id !in claimed
  {
    if ids == [] then None
    else if ids[0] !in orderIds then Some(BadRequest)
    else if ids[0] in claimed then Some(Conflict)
    else FirstRefusal(ids[1..], orderIds, claimed)
  }

  datatype Prepared = Prepared(items: seq<ItemId>, quote: Quote)

  /** What a request for `requested` (empty: everything left) would be worth now. */
  function Prepare(
    ledger: Ledger, refunds: seq<Refund>, order: OrderId, status: OrderStatus,
    requested: seq<ItemId>, event: EventContext, now: int
  ): Result<Prepared>
  {
    if order !in ledger then Err(NotFound)
    else
      var bill := ledger[order];
      var orderIds := ItemIds(bill.items);
      var claimed := ClaimedItems(refunds, order);
      var remaining := Unclaimed(orderIds, claimed);
      var items := if requested != [] then Dedupe(requested) else remaining;
      if status != TicketIssued then Err(BadRequest)
      else if bill.resale then Err(BadRequest)
      else if bill.payment.None? then Err(BadRequest)
      else if WholeOrderClaimed(refunds, order) then Err(Conflict)
      else if remaining == [] then Err(Conflict)
      else
        match FirstRefusal(items, orderIds, claimed)
        case Some(e) => Err(e)
        case None =>
          var gross := GrossForItems(bill.items, items, remaining, bill.payment.value, ClaimedGross(refunds, order));
          Ok(Prepared(items, QuoteRefund(event, gross, now)))
  }

  function NewRequest(order: OrderId, p: Prepared, now: int): Refund
    requires p.quote.Eligible?
  {
    var q := p.quote;
    Refund(order, q.kind, p.items, q.gross, q.percent, q.amount, q.fee,
           if q.autoApprove then Approved else Requested,
           if q.autoApprove then None else Some(now + REVIEW_SLA_MS),
           if q.autoApprove then Some(now) else None,
           None, 0)
  }

  function AfterRequest(
    ledger: Ledger, d: Desk, order: OrderId, status: OrderStatus,
    requested: seq<ItemId>, event: EventContext, now: int
  ): Result<Desk>
  {
    match Prepare(ledger, d.refunds, order, status, requested, event, now)
    case Err(e) => Err(e)
    case Ok(p) =>
      if p.quote.Ineligible? then Err(BadRequest)
      else
        match LockedForRefund(d.book, p.items, |d.refunds|)
        case Err(e) => Err(e)
        case Ok(book) => Ok(Desk(d.refunds + [NewRequest(order, p, now)], book))
  }

  // ---------------------------------------------------------------- reviewing

  /** Organizers act on their queue; ESCALATED is the admin's. */
  predicate Reviewable(s: RefundStatus, admin: bool) {
    s == Requested || s == NeedInfo || (admin && s == Escalated)
  }

  function Row(d: Desk, r: nat): Result<Refund> {
    if r < |d.refunds| then Ok(d.refunds[r]) else Err(NotFound)
  }

  function AfterApprove(d: Desk, r: nat, admin: bool, raise: Option<nat>, now: int): Result<Desk> {
    match Row(d, r)
    case Err(e) => Err(e)
    case Ok(row) =>
      var percent := if raise.Some? then raise.value else row.percent;
      if !Reviewable(row.status, admin) then Err(BadRequest)
      else if percent < row.percent then Err(BadRequest)
      else
        var amount := AmountForPercent(row.gross, percent);
        var locked := if row.items == [] then Ok(d.book) else LockedForRefund(d.book, row.items, r);
        match locked
        case Err(e) => Err(e)
        case Ok(book) =>
          var approved := row.(status := Approved, percent := percent, amount := amount,
                               fee := row.gross - amount,
                               decidedAt := Some(now));
          Ok(Desk(d.refunds[r := approved], book))
  }

  function AfterReject(d: Desk, r: nat, admin: bool, now: int): Result<Desk> {
    match Row(d, r)
    case Err(e) => Err(e)
    case Ok(row) =>
      if !Reviewable(row.status, admin) then Err(BadRequest)
      else
        var verdict := if row.status == Escalated then RejectedFinal else Rejected;
        Ok(Desk(d.refunds[r := row.(status := verdict, decidedAt := Some(now))], UnlockedForRefund(d.book, r)))
  }

  function AfterRequestInfo(d: Desk, r: nat, admin: bool): Result<Desk> {
    match Row(d, r)
    case Err(e) => Err(e)
    case Ok(row) =>
      if !Reviewable(row.status, admin) then Err(BadRequest)
      else if row.status == NeedInfo then Err(Conflict)
      else Ok(d.(refunds := d.refunds[r := row.(status := NeedInfo)]))
  }

  function AfterRetry(d: Desk, r: nat): Result<Desk> {
    match Row(d, r)
    case Err(e) => Err(e)
    case Ok(row) =>
      if row.status != Failed && row.status != Processing then Err(Conflict)
      else Ok(d.(refunds := d.refunds[r := row.(status := Approved, attempts := 0)]))
  }

  // --------------------------------------------------------------- customer

  function AfterRespond(d: Desk, r: nat): Result<Desk> {
    match Row(d, r)
    case Err(e) => Err(e)
    case Ok(row) =>
      if !Locking(row.status) then Err(BadRequest)
      else if row.status == NeedInfo then
        var backTo := if row.escalatedAt.Some? then Escalated else Requested;
        Ok(d.(refunds := d.refunds[r := row.(status := backTo)]))
      else Ok(d)
  }

  function AfterWithdraw(d: Desk, r: nat): Result<Desk> {
    match Row(d, r)
    case Err(e) => Err(e)
    case Ok(row) =>
      if !Locking(row.status) then Err(BadRequest)
      else Ok(Desk(d.refunds[r := row.(status := Withdrawn)], UnlockedForRefund(d.book, r)))
  }

  predicate RejectedRecently(row: Refund, now: int) {
    row.status == Rejected && row.decidedAt.Some? && now - row.decidedAt.value <= ESCALATION_WINDOW_MS
  }

  predicate Overdue(row: Refund, now: int) {
    (row.status == Requested || row.status == NeedInfo) && row.slaDueAt.Some? && now > row.slaDueAt.value
  }

  function AfterEscalate(d: Desk, r: nat, now: int): Result<Desk> {
    match Row(d, r)
    case Err(e) => Err(e)
    case Ok(row) =>
      if row.escalatedAt.Some? || (!RejectedRecently(row, now) && !Overdue(row, now)) then Err(BadRequest)
      else
        var locked := if row.status == Rejected then LockedForRefund(d.book, row.items, r) else Ok(d.book);
        match locked
        case Err(e) => Err(e)
        case Ok(book) => Ok(Desk(d.refunds[r := row.(status := Escalated, escalatedAt := Some(now))], book))
  }

  // ------------------------------------------------------ event cancellation

  /** An open customer request of the order gives way to the 100% refund. */
  function Supersede(r: Refund, order: OrderId): Refund {
    if r.order == order && Locking(r.status) then r.(status := Withdrawn) else r
  }

  function SupersedeAll(refunds: seq<Refund>, order: OrderId): (s: seq<Refund>)
    ensures |s| == |refunds|
    ensures forall k :: 0 <= k < |refunds| ==> s[k] == Supersede(refunds[k], order)
  {
    seq(|refunds|, k requires 0 <= k < |refunds| => Supersede(refunds[k], order))
  }

  predicate Settles(r: Refund, order: OrderId) {
    r.order == order && Settled(r.status)
  }

  function SettledItems(refunds: seq<Refund>, order: OrderId): set<ItemId> {
    set k, i | 0 <= k < |refunds| && Settles(refunds[k], order) && i in refunds[k].items :: i
  }

  /** Already being, or having been, paid back in full: left alone. */
  predicate FullySettled(refunds: seq<Refund>, order: OrderId, live: seq<ItemId>) {
    || (exists k :: 0 <= k < |refunds| && Settles(refunds[k], order) && refunds[k].items == [])
    || ((exists k :: 0 <= k < |refunds| && Settles(refunds[k], order))
        && Unclaimed(live, SettledItems(refunds, order)) == [])
  }

  function EventRefund(order: OrderId, items: seq<ItemId>, gross: nat, now: int): Refund {
    Refund(order, EventCanceled, items, gross, 100, gross, 0, Approved, None, Some(now), None, 0)
  }

  /** One order of a canceled event; `live` are its item ids that were not resold. */
  function AfterCanceledOrder(ledger: Ledger, refunds: seq<Refund>, order: OrderId, live: seq<ItemId>, now: int): seq<Refund> {
    if FullySettled(refunds, order, live) then refunds
    else
      var rows := SupersedeAll(refunds, order);
      if order !in ledger || ledger[order].payment.None? then rows
      else
        var anySettled := exists k :: 0 <= k < |refunds| && Settles(refunds[k], order);
        var items := if anySettled then Unclaimed(live, SettledItems(refunds, order)) else [];
        var gross := Max(0, ledger[order].payment.value - ClaimedGross(rows, order));
        rows + [EventRefund(order, items, gross, now)]
  }

  /** One paid order of the event as booking-service lists it. */
  datatype PaidOrder = PaidOrder(order: OrderId, live: seq<ItemId>)

  function AfterCanceledEvent(ledger: Ledger, refunds: seq<Refund>, orders: seq<PaidOrder>, now: int): seq<Refund>
  {
    if orders == [] then refunds
    else
      var last := orders[|orders| - 1];
      AfterCanceledOrder(ledger, AfterCanceledEvent(ledger, refunds, orders[..|orders| - 1], now), last.order, last.live, now)
  }

  // ---------------------------------------------- what the service promises

  /** Item `i` belongs to a refund of the order that is open or completed. */
  ghost predicate Taken(refunds: seq<Refund>, order: OrderId, i: ItemId) {
    exists k :: 0 <= k < |refunds| && refunds[k].order == order && i in refunds[k].items
                && refunds[k].status !in {Rejected, RejectedFinal, Withdrawn}
  }

  /** Such a refund without item ids stands for the whole order. */
  ghost predicate TakenWhole(refunds: seq<Refund>, order: OrderId) {
    exists k :: 0 <= k < |refunds| && refunds[k].order == order && refunds[k].items == []
                && refunds[k].status !in {Rejected, RejectedFinal, Withdrawn}
  }

  /** The order's items that can still be asked for. */
  ghost function FreeItems(ledger: Ledger, refunds: seq<Refund>, order: OrderId): set<ItemId>
    requires order in ledger
  {
    set i | i in ItemIds(ledger[order].items) && !Taken(refunds, order, i)
  }

  /** What a request for `requested` is about: those items, or without any all that are free. */
  ghost function AskedItems(ledger: Ledger, refunds: seq<Refund>, order: OrderId, requested: seq<ItemId>): set<ItemId>
    requires order in ledger
  {
    if requested != [] then IdSet(requested) else FreeItems(ledger, refunds, order)
  }

  ghost predicate NamedOnce(items: seq<ItemId>) {
    forall i, j :: 0 <= i < j < |items| ==> items[i] != items[j]
  }

  /** An order with issued tickets, first-hand, paid, with something left, is asked for free items only. */
  ghost predicate Askable(ledger: Ledger, refunds: seq<Refund>, order: OrderId, status: OrderStatus, requested: seq<ItemId>) {
    && order in ledger && status == TicketIssued && !ledger[order].resale && ledger[order].payment.Some?
    && !TakenWhole(refunds, order)
    && FreeItems(ledger, refunds, order) != {}
    && IdSet(requested) <= FreeItems(ledger, refunds, order)
  }

  /** The first of the requested items that cannot be had. */
  ghost predicate FirstBad(ledger: Ledger, refunds: seq<Refund>, order: OrderId, requested: seq<ItemId>, k: nat)
    requires order in ledger
  {
    && k < |requested| && requested[k] !in FreeItems(ledger, refunds, order)
    && forall j :: 0 <= j < k ==> requested[j] in FreeItems(ledger, refunds, order)
  }

  /** Why a request that is not askable is refused. */
  ghost predicate RefusedWith(ledger: Ledger, refunds: seq<Refund>, order: OrderId, status: OrderStatus, requested: seq<ItemId>, e: Error) {
    if order !in ledger then e == NotFound
    else if status != TicketIssued || ledger[order].resale || ledger[order].payment == None then e == BadRequest
    else if TakenWhole(refunds, order) || FreeItems(ledger, refunds, order) == {} then e == Conflict
    else exists k: nat :: FirstBad(ledger, refunds, order, requested, k)
                     && e == if requested[k] in ItemIds(ledger[order].items) then Conflict else BadRequest
  }

  /** The price of `items` next to what other refunds of the order claim. */
  ghost predicate Priced(ledger: Ledger, refunds: seq<Refund>, order: OrderId, items: set<ItemId>, gross: nat)
    requires order in ledger && ledger[order].payment.Some?
  {
    var bill := ledger[order];
    IsPrice(gross, FreeItems(ledger, refunds, order) <= items, bill.payment.value,
            Max(0, bill.payment.value - ClaimedGross(refunds, order)), Worth(bill.items, items), Subtotal(bill.items))
  }

  /** Approved at once, or waiting for a decision within seven days. */
  ghost predicate JustRecorded(row: Refund, now: int) {
    && row.escalatedAt == None && row.attempts == 0
    && (|| (row.status == Approved && row.slaDueAt == None && row.decidedAt == Some(now))
        || (row.status == Requested && row.slaDueAt == Some(now + 604_800_000) && row.decidedAt == None))
  }

  /** An organizer decides what is REQUESTED or NEED_INFO, an admin also what is ESCALATED. */
  ghost predicate Decidable(refunds: seq<Refund>, id: nat, admin: bool) {
    && id < |refunds|
    && (refunds[id].status in {Requested, NeedInfo} || (admin && refunds[id].status == Escalated))
  }

  /** One appeal: within seven days of a rejection, or once a decision is overdue. */
  ghost predicate Appealable(refunds: seq<Refund>, id: nat, now: int) {
    && id < |refunds| && refunds[id].escalatedAt == None
    && (|| (refunds[id].status == Rejected && exists at :: refunds[id].decidedAt == Some(at) && now - at <= 604_800_000)
        || (refunds[id].status in {Requested, NeedInfo} && exists due :: refunds[id].slaDueAt == Some(due) && due < now))
  }

  /** Some refund of the order was decided in the customer's favour, or one that names item `i`. */
  ghost predicate AnyDecided(refunds: seq<Refund>, order: OrderId) {
    exists k :: 0 <= k < |refunds| && refunds[k].order == order && refunds[k].status in {Approved, Processing, Failed, Completed}
  }

  ghost predicate Decided(refunds: seq<Refund>, order: OrderId, i: ItemId) {
    exists k :: 0 <= k < |refunds| && refunds[k].order == order && refunds[k].status in {Approved, Processing, Failed, Completed}
                && i in refunds[k].items
  }

  /** One such refund covers the whole order, or together they name all its live items. */
  ghost predicate PaidInFull(refunds: seq<Refund>, order: OrderId, live: seq<ItemId>) {
    || (exists k :: 0 <= k < |refunds| && refunds[k].order == order && refunds[k].items == []
                    && refunds[k].status in {Approved, Processing, Failed, Completed})
    || (AnyDecided(refunds, order) && forall i :: i in live ==> Decided(refunds, order, i))
  }

  /** The refund of a canceled event: all of its gross, without a fee and without review. */
  ghost predicate PaysInFull(row: Refund, order: OrderId, now: int) {
    && row.order == order && row.kind == EventCanceled && row.status == Approved
    && row.percent == 100 && row.amount == row.gross && row.fee == 0
    && row.decidedAt == Some(now) && row.slaDueAt == None && row.escalatedAt == None && row.attempts == 0
  }

  lemma DecidedIsSettled(refunds: seq<Refund>, order: OrderId, live: seq<ItemId>)
    ensures AnyDecided(refunds, order) <==> exists k :: 0 <= k < |refunds| && Settles(refunds[k], order)
    ensures forall i :: i in SettledItems(refunds, order) <==> Decided(refunds, order, i)
    ensures PaidInFull(refunds, order, live) <==> FullySettled(refunds, order, live)
  {
    var left := Unclaimed(live, SettledItems(refunds, order));
    assert left == [] <==> forall i :: i in live ==> Decided(refunds, order, i) by {
      assert left != [] ==> left[0] in left;
    }
    hide SettledItems;
    hide Decided;
  }

  /**
   * What canceling its event does to the refunds of an order. Unless it was never paid or is
   * paid in full, its open requests give way to one refund of the rest.
   */
  ghost predicate PaidBackInFull(ledger: Ledger, before: seq<Refund>, after: seq<Refund>, order: OrderId, live: seq<ItemId>, now: int) {
    && |after| == |before| + (if order in ledger && ledger[order].payment.Some? && !PaidInFull(before, order, live) then 1 else 0)
    && (forall k :: 0 <= k < |before| ==>
          after[k] == if before[k].order == order && before[k].status in {Requested, NeedInfo, Escalated} && !PaidInFull(before, order, live)
                      then before[k].(status := Withdrawn) else before[k])
    && (|after| > |before| ==>
          var row := after[|before|];
          && PaysInFull(row, order, now)
          && row.gross == Max(0, ledger[order].payment.value - ClaimedGross(after[..|before|], order))
          && if AnyDecided(before, order) then forall i :: i in row.items <==> i in live && !Decided(before, order, i)
             else row.items == [])
  }

  lemma CanceledOrderAsPromised(ledger: Ledger, refunds: seq<Refund>, order: OrderId, live: seq<ItemId>, now: int)
    ensures PaidBackInFull(ledger, refunds, AfterCanceledOrder(ledger, refunds, order, live, now), order, live, now)
  {
    DecidedIsSettled(refunds, order, live);
    hide PaidInFull;
    hide FullySettled;
    hide Decided;
    hide AnyDecided;
    hide SettledItems;
    hide ClaimedGross;
    var after := AfterCanceledOrder(ledger, refunds, order, live, now);
    if |after| > |refunds| {
      assert after[..|refunds|] == SupersedeAll(refunds, order);
    }
  }

  /** Every new row pays a listed order back in full; an older one stays, or was an open request of a listed order. */
  ghost predicate AllPaidBack(before: seq<Refund>, after: seq<Refund>, orders: seq<PaidOrder>, now: int) {
    && |before| <= |after|
    && (forall k :: |before| <= k < |after| ==> exists p :: p in orders && PaysInFull(after[k], p.order, now))
    && (forall k :: 0 <= k < |before| && after[k] != before[k] ==>
          && before[k].status in {Requested, NeedInfo, Escalated} && after[k] == before[k].(status := Withdrawn)
          && exists p :: p in orders && p.order == before[k].order)
  }

  lemma OneMorePaidBack(ledger: Ledger, start: seq<Refund>, before: seq<Refund>, after: seq<Refund>, orders: seq<PaidOrder>, p: PaidOrder, now: int)
    requires AllPaidBack(start, before, orders, now) && PaidBackInFull(ledger, before, after, p.order, p.live, now)
    ensures AllPaidBack(start, after, orders + [p], now)
  {
    hide PaidInFull;
    hide Decided;
    hide AnyDecided;
    hide ClaimedGross;
    assert p in orders + [p] && forall q :: q in orders ==> q in orders + [p];
    forall k | |start| <= k < |after|
      ensures exists q :: q in orders + [p] && PaysInFull(after[k], q.order, now)
    {
      if k < |before| {
        var q :| q in orders && PaysInFull(before[k], q.order, now);
        assert q in orders + [p] && PaysInFull(after[k], q.order, now);
      } else {
        assert PaysInFull(after[k], p.order, now);
      }
    }
  }

  lemma TakenIsClaimed(refunds: seq<Refund>, order: OrderId)
    ensures WholeOrderClaimed(refunds, order) <==> TakenWhole(refunds, order)
    ensures forall i :: i in ClaimedItems(refunds, order) <==> Taken(refunds, order, i)
  {
    assert forall r: Refund :: Claiming(r.status) <==> r.status !in {Rejected, RejectedFinal, Withdrawn};
  }

  lemma {:induction false} FirstRefusalAppend(ids: seq<ItemId>, id: ItemId, orderIds: seq<ItemId>, claimed: set<ItemId>)
    ensures FirstRefusal(ids + [id], orderIds, claimed) ==
            if FirstRefusal(ids, orderIds, claimed).Some? then FirstRefusal(ids, orderIds, claimed)
            else if id !in orderIds then Some(BadRequest) else if id in claimed then Some(Conflict) else None
  {
    if ids != [] {
      assert (ids + [id])[1..] == ids[1..] + [id];
      FirstRefusalAppend(ids[1..], id, orderIds, claimed);
    }
  }

  /** Asking for an item twice changes nothing about the refusal. */
  lemma {:induction false} DedupeKeepsRefusal(ids: seq<ItemId>, orderIds: seq<ItemId>, claimed: set<ItemId>)
    ensures FirstRefusal(Dedupe(ids), orderIds, claimed) == FirstRefusal(ids, orderIds, claimed)
  {
    if ids != [] {
      var last := |ids| - 1;
      DedupeKeepsRefusal(ids[..last], orderIds, claimed);
      FirstRefusalAppend(ids[..last], ids[last], orderIds, claimed);
      FirstRefusalAppend(Dedupe(ids[..last]), ids[last], orderIds, claimed);
      assert ids == ids[..last] + [ids[last]];
      if ids[last] in Dedupe(ids[..last]) {
        assert ids[last] in IdSet(ids[..last]);
      }
    }
  }

  /** The refusal is that of the first bad item. */
  lemma {:induction false} RefusalIsFirstBad(ids: seq<ItemId>, orderIds: seq<ItemId>, claimed: set<ItemId>, k: nat)
    requires k < |ids| && (ids[k] !in orderIds || ids[k] in claimed)
    requires forall j :: 0 <= j < k ==> ids[j] in orderIds && ids[j] !in claimed
    ensures FirstRefusal(ids, orderIds, claimed) == Some(if ids[k] in orderIds then Conflict else BadRequest)
  {
    if k > 0 {
      RefusalIsFirstBad(ids[1..], orderIds, claimed, k - 1);
    }
  }

  /** What was asked for, each item once, with its price and the event's offer, if there is one. */
  ghost predicate PreparedFor(
    ledger: Ledger, refunds: seq<Refund>, order: OrderId, requested: seq<ItemId>, event: EventContext, now: int, p: Prepared)
    requires order in ledger && ledger[order].payment.Some?
  {
    var asked, q := AskedItems(ledger, refunds, order, requested), p.quote;
    && IdSet(p.items) == asked && p.items != [] && (requested != [] ==> NamedOnce(p.items))
    && (q.Eligible? <==> Offers(event, now))
    && (q.Eligible? ==>
          && Priced(ledger, refunds, order, asked, q.gross)
          && IsOffer(event, now, q.kind, q.percent, q.gross, q.amount, q.fee, q.autoApprove))
  }

  lemma DedupeNamesOnce(ids: seq<ItemId>)
    ensures NamedOnce(Dedupe(ids))
  {
  }

  /** A request can be prepared exactly if it is askable, and is then priced and offered on the event's terms. */
  lemma PreparedAsPromised(
    ledger: Ledger, refunds: seq<Refund>, order: OrderId, status: OrderStatus,
    requested: seq<ItemId>, event: EventContext, now: int)
    ensures var p := Prepare(ledger, refunds, order, status, requested, event, now);
            && (p.Ok? <==> Askable(ledger, refunds, order, status, requested))
            && (p.Ok? ==> order in ledger && ledger[order].payment.Some? && PreparedFor(ledger, refunds, order, requested, event, now, p.value))
  {
    hide NamedOnce;
    DedupeNamesOnce(requested);
    var p := Prepare(ledger, refunds, order, status, requested, event, now);
    if order in ledger && ledger[order].payment.Some? {
      var bill := ledger[order];
      var orderIds, claimed := ItemIds(bill.items), ClaimedItems(refunds, order);
      var remaining := Unclaimed(orderIds, claimed);
      var items := if requested != [] then Dedupe(requested) else remaining;
      TakenIsClaimed(refunds, order);
      assert IdSet(remaining) == FreeItems(ledger, refunds, order);
      assert remaining != [] <==> FreeItems(ledger, refunds, order) != {} by {
        assert remaining != [] ==> remaining[0] in IdSet(remaining);
      }
      assert IdSet(items) == AskedItems(ledger, refunds, order, requested);
      assert forall i :: i in items <==> i in IdSet(items);
      assert requested != [] ==> requested[0] in IdSet(requested);
      GrossIsPrice(bill.items, items, remaining, bill.payment.value, ClaimedGross(refunds, order));
      QuoteFollowsGoverningTier(event, GrossForItems(bill.items, items, remaining, bill.payment.value, ClaimedGross(refunds, order)), now);
      hide ClaimedItems;
      hide WholeOrderClaimed;
      hide Taken;
      hide TakenWhole;
      hide GrossForItems;
      hide QuoteRefund;
      hide IsPrice;
      hide IsOffer;
      hide Offers;
      hide Dedupe;
    }
  }

  lemma RefusedAsPromised(
    ledger: Ledger, refunds: seq<Refund>, order: OrderId, status: OrderStatus,
    requested: seq<ItemId>, event: EventContext, now: int)
    ensures var p := Prepare(ledger, refunds, order, status, requested, event, now);
            p.Err? ==> RefusedWith(ledger, refunds, order, status, requested, p.error)
  {
    var p := Prepare(ledger, refunds, order, status, requested, event, now);
    if order in ledger && ledger[order].payment.Some? {
      var orderIds, claimed := ItemIds(ledger[order].items), ClaimedItems(refunds, order);
      var remaining := Unclaimed(orderIds, claimed);
      TakenIsClaimed(refunds, order);
      assert IdSet(remaining) == FreeItems(ledger, refunds, order);
      assert remaining == [] <==> FreeItems(ledger, refunds, order) == {} by {
        assert remaining != [] ==> remaining[0] in IdSet(remaining);
      }
      DedupeKeepsRefusal(requested, orderIds, claimed);
      if FirstRefusal(requested, orderIds, claimed).Some? {
        var bad: nat :| bad < |requested| && requested[bad] !in FreeItems(ledger, refunds, order);
        SomeFirstBad(ledger, refunds, order, requested, bad);
        var k: nat :| FirstBad(ledger, refunds, order, requested, k);
        RefusalIsFirstBad(requested, orderIds, claimed, k);
      }
      hide Dedupe;
      hide GrossForItems;
      hide QuoteRefund;
    }
  }

  lemma {:induction false} SomeFirstBad(ledger: Ledger, refunds: seq<Refund>, order: OrderId, requested: seq<ItemId>, k: nat)
    requires order in ledger && k < |requested| && requested[k] !in FreeItems(ledger, refunds, order)
    ensures exists j: nat :: FirstBad(ledger, refunds, order, requested, j)
  {
    if j: nat :| j < k && requested[j] !in FreeItems(ledger, refunds, order) {
      SomeFirstBad(ledger, refunds, order, requested, j);
    } else {
      assert FirstBad(ledger, refunds, order, requested, k);
    }
  }

  // ------------------------------------------------------------- the service

  class RefundsService {
    const ledger: Ledger
    const tickets: TicketService
    var refunds: seq<Refund>

    function State(): Desk
      reads this, tickets
    {
      Desk(refunds, tickets.book)
    }

    ghost predicate Answers(before: Desk, outcome: Result<Desk>, ok: bool, error: Error)
      reads this, tickets
    {
      match outcome
      case Ok(d) => ok && State() == d
      case Err(e) => !ok && error == e && State() == before
    }

    constructor (ledger: Ledger, tickets: TicketService)
      ensures this.ledger == ledger && this.tickets == tickets && refunds == []
    {
      this.ledger := ledger;
      this.tickets := tickets;
      refunds := [];
    }

    method PrepareRequest(order: OrderId, status: OrderStatus, requested: seq<ItemId>, event: EventContext, now: int)
      returns (p: Result<Prepared>)
      ensures p == Prepare(ledger, refunds, order, status, requested, event, now)
      ensures p.Ok? <==> Askable(ledger, refunds, order, status, requested)
      ensures p.Ok? ==> PreparedFor(ledger, refunds, order, requested, event, now, p.value)
      ensures p.Err? ==> RefusedWith(ledger, refunds, order, status, requested, p.error)
    {
      PreparedAsPromised(ledger, refunds, order, status, requested, event, now);
      RefusedAsPromised(ledger, refunds, order, status, requested, event, now);
      hide PreparedFor;
      hide Askable;
      hide RefusedWith;
      hide FirstRefusal;
      hide Dedupe;
      hide ClaimedItems;
      hide WholeOrderClaimed;
      hide GrossForItems;
      hide QuoteRefund;
      hide IdSet;
      hide ItemIds;
      hide Unclaimed;
      if order !in ledger {
        return Err(NotFound);
      }
      var bill := ledger[order];
      if status != TicketIssued || bill.resale || bill.payment.None? {
        return Err(BadRequest);
      }
      if WholeOrderClaimed(refunds, order) {
        return Err(Conflict);
      }
      var orderIds := ItemIds(bill.items);
      var claimed := ClaimedItems(refunds, order);
      var remaining := Unclaimed(orderIds, claimed);
      if remaining == [] {
        return Err(Conflict);
      }
      var items := if requested != [] then Dedupe(requested) else remaining;
      var refusal := CheckItems(items, orderIds, claimed);
      if refusal.Some? {
        return Err(refusal.value);
      }
      var gross := GrossForItems(bill.items, items, remaining, bill.payment.value, ClaimedGross(refunds, order));
      return Ok(Prepared(items, QuoteRefund(event, gross, now)));
    }

    /** The refusal of the first item that is not of the order, or claimed. */
    method CheckItems(items: seq<ItemId>, orderIds: seq<ItemId>, claimed: set<ItemId>) returns (refusal: Option<Error>)
      ensures refusal == FirstRefusal(items, orderIds, claimed)
    {
      for n := 0 to |items|
        invariant FirstRefusal(items, orderIds, claimed) == FirstRefusal(items[n..], orderIds, claimed)
      {
        if items[n] !in orderIds {
          return Some(BadRequest);
        }
        if items[n] in claimed {
          return Some(Conflict);
        }
        assert items[n..][1..] == items[n + 1..];
      }
      return None;
    }

    method Request(order: OrderId, status: OrderStatus, requested: seq<ItemId>, event: EventContext, now: int)
      returns (r: Result<nat>)
      modifies this, tickets
      ensures Answers(old(State()), AfterRequest(ledger, old(State()), order, status, requested, event, now),
                      r.Ok?, if r.Err? then r.error else BadRequest)
      ensures r.Ok? <==>
                && Askable(ledger, old(refunds), order, status, requested) && Offers(event, now)
                && Lockable(old(tickets.book), AskedItems(ledger, old(refunds), order, requested), old(|refunds|))
      ensures r.Ok? ==>
                && r.value == old(|refunds|) && |refunds| == old(|refunds|) + 1 && refunds[..r.value] == old(refunds)
                && refunds[r.value].order == order && JustRecorded(refunds[r.value], now)
                && IdSet(refunds[r.value].items) == AskedItems(ledger, old(refunds), order, requested)
                && (requested != [] ==> NamedOnce(refunds[r.value].items))
                && NowLocked(old(tickets.book), tickets.book, IdSet(refunds[r.value].items), r.value)
      ensures r.Ok? ==>
                var row := refunds[r.value];
                && Priced(ledger, old(refunds), order, IdSet(row.items), row.gross)
                && IsOffer(event, now, row.kind, row.percent, row.gross, row.amount, row.fee, row.status == Approved)
      ensures r.Err? ==>
                && State() == old(State())
                && if !Askable(ledger, old(refunds), order, status, requested) then RefusedWith(ledger, old(refunds), order, status, requested, r.error)
                   else r.error == if Offers(event, now) then Conflict else BadRequest
    {
      hide NamedOnce;
      hide Askable;
      hide RefusedWith;
      hide AskedItems;
      hide Priced;
      hide IsOffer;
      hide Offers;
      hide Lockable;
      hide NowLocked;
      hide Prepare;
      var prepared := PrepareRequest(order, status, requested, event, now);
      if prepared.Err? {
        return Err(prepared.error);
      }
      var p := prepared.value;
      if p.quote.Ineligible? {
        return Err(BadRequest);
      }
      var refundId := |refunds|;
      var lock := tickets.LockForRefund(p.items, refundId);
      if lock.Err? {
        return Err(lock.error);
      }
      refunds := refunds + [NewRequest(order, p, now)];
      return Ok(refundId);
    }

    method Approve(id: nat, admin: bool, raise: Option<nat>, now: int) returns (r: Result<()>)
      modifies this, tickets
      ensures Answers(old(State()), AfterApprove(old(State()), id, admin, raise, now),
                      r.Ok?, if r.Err? then r.error else BadRequest)
      ensures r.Ok? <==>
                && Decidable(old(refunds), id, admin) && (raise.Some? ==> old(refunds)[id].percent <= raise.value)
                && (old(refunds)[id].items != [] ==> Lockable(old(tickets.book), IdSet(old(refunds)[id].items), id))
      ensures r.Ok? ==>
                var was, amount := old(refunds)[id], refunds[id].amount;
                var percent := if raise.Some? then raise.value else was.percent;
                && amount * 100 <= was.gross * percent < amount * 100 + 100
                && refunds == old(refunds)[id := was.(status := Approved, percent := percent, amount := amount,
                                                      fee := was.gross - amount, decidedAt := Some(now))]
                && if was.items == [] then tickets.book == old(tickets.book)
                   else NowLocked(old(tickets.book), tickets.book, IdSet(was.items), id)
      ensures r.Err? ==>
                && State() == old(State())
                && r.error == (if id >= |refunds| then NotFound
                               else if Decidable(refunds, id, admin) && (raise.Some? ==> refunds[id].percent <= raise.value) then Conflict
                               else BadRequest)
    {
      if id >= |refunds| {
        return Err(NotFound);
      }
      var refund := refunds[id];
      if !Reviewable(refund.status, admin) {
        return Err(BadRequest);
      }
      var percent := if raise.Some? then raise.value else refund.percent;
      if percent < refund.percent {
        return Err(BadRequest);
      }
      var amount := AmountForPercent(refund.gross, percent);
      if |refund.items| > 0 {
        var lock := tickets.LockForRefund(refund.items, id);
        if lock.Err? {
          return Err(lock.error);
        }
      }
      refunds := refunds[id := refund.(status := Approved, percent := percent, amount := amount,
                                       fee := refund.gross - amount, decidedAt := Some(now))];
      return Ok(());
    }

    method Reject(id: nat, admin: bool, now: int) returns (r: Result<()>)
      modifies this, tickets
      ensures Answers(old(State()), AfterReject(old(State()), id, admin, now),
                      r.Ok?, if r.Err? then r.error else BadRequest)
      ensures r.Ok? <==> Decidable(old(refunds), id, admin)
      ensures r.Ok? ==>
                var was := old(refunds)[id];
                && refunds == old(refunds)[id := was.(status := if was.status == Escalated then RejectedFinal else Rejected, decidedAt := Some(now))]
                && NowUnlocked(old(tickets.book), tickets.book, id)
      ensures r.Err? ==> State() == old(State()) && r.error == if id >= |refunds| then NotFound else BadRequest
    {
      if id >= |refunds| {
        return Err(NotFound);
      }
      var refund := refunds[id];
      if !Reviewable(refund.status, admin) {
        return Err(BadRequest);
      }
      tickets.UnlockForRefund(id);
      var verdict := if refund.status == Escalated then RejectedFinal else Rejected;
      refunds := refunds[id := refund.(status := verdict, decidedAt := Some(now))];
      return Ok(());
    }

    method RequestInfo(id: nat, admin: bool) returns (r: Result<()>)
      modifies this
      ensures Answers(old(State()), AfterRequestInfo(old(State()), id, admin),
                      r.Ok?, if r.Err? then r.error else BadRequest)
      ensures r.Ok? <==> Decidable(old(refunds), id, admin) && old(refunds)[id].status != NeedInfo
      ensures r.Ok? ==> refunds == old(refunds)[id := old(refunds)[id].(status := NeedInfo)]
      ensures r.Err? ==>
                && State() == old(State())
                && r.error == if id >= |refunds| then NotFound else if refunds[id].status == NeedInfo then Conflict else BadRequest
    {
      if id >= |refunds| {
        return Err(NotFound);
      }
      if !Reviewable(refunds[id].status, admin) {
        return Err(BadRequest);
      }
      r := Transition(id, {Requested, Escalated}, NeedInfo);
    }

    /** The conditional status change every handler goes through. */
    method Transition(id: nat, from: set<RefundStatus>, to: RefundStatus) returns (r: Result<()>)
      requires id < |refunds|
      modifies this
      ensures old(refunds[id].status) in from ==>
                r == Ok(()) && refunds == old(refunds)[id := old(refunds[id]).(status := to)]
      ensures old(refunds[id].status) !in from ==> r == Err(Conflict) && refunds == old(refunds)
    {
      if refunds[id].status !in from {
        return Err(Conflict);
      }
      refunds := refunds[id := refunds[id].(status := to)];
      return Ok(());
    }

    method Retry(id: nat) returns (r: Result<()>)
      modifies this
      ensures Answers(old(State()), AfterRetry(old(State()), id),
                      r.Ok?, if r.Err? then r.error else BadRequest)
      ensures r.Ok? <==> id < |refunds| && old(refunds)[id].status in {Failed, Processing}
      ensures r.Ok? ==> refunds == old(refunds)[id := old(refunds)[id].(status := Approved, attempts := 0)]
      ensures r.Err? ==> State() == old(State()) && r.error == if id >= |refunds| then NotFound else Conflict
    {
      if id >= |refunds| {
        return Err(NotFound);
      }
      r := Transition(id, {Failed, Processing}, Approved);
      if r.Ok? {
        refunds := refunds[id := refunds[id].(attempts := 0)];
      }
    }

    method Respond(id: nat) returns (r: Result<()>)
      modifies this
      ensures Answers(old(State()), AfterRespond(old(State()), id),
                      r.Ok?, if r.Err? then r.error else BadRequest)
      ensures r.Ok? <==> id < |refunds| && old(refunds)[id].status in {Requested, NeedInfo, Escalated}
      ensures r.Ok? && old(refunds)[id].status == NeedInfo ==>
                var was := old(refunds)[id];
                refunds == old(refunds)[id := was.(status := if was.escalatedAt == None then Requested else Escalated)]
      ensures r.Ok? && old(refunds)[id].status != NeedInfo ==> State() == old(State())
      ensures r.Err? ==> State() == old(State()) && r.error == if id >= |refunds| then NotFound else BadRequest
    {
      if id >= |refunds| {
        return Err(NotFound);
      }
      var refund := refunds[id];
      if refund.status != NeedInfo && refund.status != Requested && refund.status != Escalated {
        return Err(BadRequest);
      }
      if refund.status == NeedInfo {
        var backTo := if refund.escalatedAt.Some? then Escalated else Requested;
        r := Transition(id, {NeedInfo}, backTo);
        return;
      }
      return Ok(());
    }

    method Withdraw(id: nat) returns (r: Result<()>)
      modifies this, tickets
      ensures Answers(old(State()), AfterWithdraw(old(State()), id),
                      r.Ok?, if r.Err? then r.error else BadRequest)
      ensures r.Ok? <==> id < |refunds| && old(refunds)[id].status in {Requested, NeedInfo, Escalated}
      ensures r.Ok? ==>
                && refunds == old(refunds)[id := old(refunds)[id].(status := Withdrawn)]
                && NowUnlocked(old(tickets.book), tickets.book, id)
      ensures r.Err? ==> State() == old(State()) && r.error == if id >= |refunds| then NotFound else BadRequest
    {
      if id >= |refunds| {
        return Err(NotFound);
      }
      if refunds[id].status !in {Requested, NeedInfo, Escalated} {
        return Err(BadRequest);
      }
      tickets.UnlockForRefund(id);
      r := Transition(id, {Requested, NeedInfo, Escalated}, Withdrawn);
    }

    method Escalate(id: nat, now: int) returns (r: Result<()>)
      modifies this, tickets
      ensures Answers(old(State()), AfterEscalate(old(State()), id, now),
                      r.Ok?, if r.Err? then r.error else BadRequest)
      ensures r.Ok? <==>
                && Appealable(old(refunds), id, now)
                && (old(refunds)[id].status == Rejected ==> Lockable(old(tickets.book), IdSet(old(refunds)[id].items), id))
      ensures r.Ok? ==>
                var was := old(refunds)[id];
                && refunds == old(refunds)[id := was.(status := Escalated, escalatedAt := Some(now))]
                && if was.status == Rejected then NowLocked(old(tickets.book), tickets.book, IdSet(was.items), id)
                   else tickets.book == old(tickets.book)
      ensures r.Err? ==>
                && State() == old(State())
                && r.error == (if id >= |refunds| then NotFound else if Appealable(refunds, id, now) then Conflict else BadRequest)
    {
      if id >= |refunds| {
        return Err(NotFound);
      }
      var refund := refunds[id];
      if refund.escalatedAt.Some? || (!RejectedRecently(refund, now) && !Overdue(refund, now)) {
        return Err(BadRequest);
      }
      if refund.status == Rejected {
        var lock := tickets.LockForRefund(refund.items, id);
        if lock.Err? {
          return Err(lock.error);
        }
      }
      r := Transition(id, {refund.status}, Escalated);
      refunds := refunds[id := refunds[id].(escalatedAt := Some(now))];
    }

    /** Withdraws every open customer request of the order. */
    method SupersedeRequests(order: OrderId)
      modifies this
      ensures refunds == SupersedeAll(old(refunds), order)
    {
      ghost var before := refunds;
      for k := 0 to |refunds|
        invariant |refunds| == |before|
        invariant forall j :: 0 <= j < k ==> refunds[j] == Supersede(before[j], order)
        invariant forall j :: k <= j < |before| ==> refunds[j] == before[j]
      {
        if refunds[k].order == order && Locking(refunds[k].status) {
          var _ := Transition(k, {Requested, NeedInfo, Escalated}, Withdrawn);
        }
      }
    }

    method RefundCanceledOrder(order: OrderId, live: seq<ItemId>, now: int) returns (created: bool)
      modifies this
      ensures refunds == AfterCanceledOrder(ledger, old(refunds), order, live, now)
      ensures PaidBackInFull(ledger, old(refunds), refunds, order, live, now)
      ensures |refunds| == old(|refunds|) + if created then 1 else 0
    {
      CanceledOrderAsPromised(ledger, refunds, order, live, now);
      hide PaidBackInFull;
      hide SettledItems;
      hide ClaimedGross;
      if exists k :: 0 <= k < |refunds| && Settles(refunds[k], order) && refunds[k].items == [] {
        return false;
      }
      var anySettled := exists k :: 0 <= k < |refunds| && Settles(refunds[k], order);
      var remaining := Unclaimed(live, SettledItems(refunds, order));
      if anySettled && remaining == [] {
        return false;
      }
      SupersedeRequests(order);
      if order !in ledger || ledger[order].payment.None? {
        return false;
      }
      var gross := Max(0, ledger[order].payment.value - ClaimedGross(refunds, order));
      refunds := refunds + [EventRefund(order, if anySettled then remaining else [], gross, now)];
      return true;
    }

    /** Queues the 100% refunds of a canceled event; returns how many rows it created. */
    method RefundCanceledEvent(orders: seq<PaidOrder>, now: int) returns (created: nat)
      modifies this
      ensures refunds == AfterCanceledEvent(ledger, old(refunds), orders, now)
      ensures |refunds| == old(|refunds|) + created
      ensures AllPaidBack(old(refunds), refunds, orders, now)
    {
      created := 0;
      for n := 0 to |orders|
        invariant refunds == AfterCanceledEvent(ledger, old(refunds), orders[..n], now)
        invariant |refunds| == old(|refunds|) + created
        invariant AllPaidBack(old(refunds), refunds, orders[..n], now)
      {
        hide AfterCanceledOrder;
        hide AllPaidBack;
        hide PaidBackInFull;
        assert orders[..n + 1] == orders[..n] + [orders[n]] && orders[..n + 1][..n] == orders[..n];
        ghost var before := refunds;
        var one := RefundCanceledOrder(orders[n].order, orders[n].live, now);
        OneMorePaidBack(ledger, old(refunds), before, refunds, orders[..n], orders[n], now);
        if one {
          created := created + 1;
        }
      }
      assert orders[..|orders|] == orders;
    }
  }
}
