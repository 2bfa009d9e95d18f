/** The promises of the booking saga, for every run from an empty order table. */
module BookingSaga {
  import opened Common
  import opened Inventory
  import opened Orders
  import opened Carts
  import opened BookingWorld
  import opened BookingStock
  import opened BookingRuns

  ghost predicate ShopOk(s: Shop) {
    BookingOk(s.booking, s.restocked) && TicketsOk(s.booking, s.issuer)
  }

  // ----------------------------------------------------------------- tickets

  lemma TicketsAdvance(b: Booking, after: Booking, issuer: Issuer)
    requires TicketsOk(b, issuer) && Advances(b.orders, after.orders) && NoneIssued(b.orders, after.orders)
    requires PaidKept(after.orders, after.paid)
    ensures TicketsOk(after, issuer)
  {
    assert IssuedTicketed(after.orders, issuer) by {
      forall j | 0 <= j < |issuer.issued|
        ensures Live(after.orders, issuer.issued[j]) && after.orders[issuer.issued[j]].value.status != Pending
        ensures FullyTicketed(issuer.tickets, issuer.issued[j], |after.orders[issuer.issued[j]].value.items|)
      {
        var id := issuer.issued[j];
        assert Onward(b.orders[id].value, after.orders[id].value);
      }
    }
    assert StatusTicketed(after.orders, issuer.tickets) by {
      forall id: OrderId | Live(after.orders, id) && after.orders[id].value.status == TicketIssued
        ensures FullyTicketed(issuer.tickets, id, |after.orders[id].value.items|)
      {
        assert Onward(b.orders[id].value, after.orders[id].value);
      }
    }
    assert RowsKept(after.orders, issuer.tickets) by {
      forall row | row in issuer.tickets
        ensures Live(after.orders, row.order) && after.orders[row.order].value.status != Pending
        ensures row.item < |after.orders[row.order].value.items|
      {
        assert Onward(b.orders[row.order].value, after.orders[row.order].value);
      }
    }
  }

  lemma {:induction false} IssuingAddsRows(tickets: seq<TicketRow>, order: OrderId, items: nat)
    requires OneTicketEach(tickets)
    ensures var after := Issued(tickets, order, items);
            && OneTicketEach(after)
            && FullyTicketed(after, order, items)
            && (forall row :: row in tickets ==> row in after)
            && (forall row :: row in after && row !in tickets ==> row.order == order && row.item < items)
  {
    if items > 0 {
      var before := Issued(tickets, order, items - 1);
      var after := Issued(tickets, order, items);
      IssuingAddsRows(tickets, order, items - 1);
      forall k: nat | k < items
        ensures HasTicket(after, order, k)
      {
        assert k < items - 1 ==> HasTicket(before, order, k);
      }
    }
  }

  lemma OrderPaidDelivered(s: Shop, message: nat)
    requires ShopOk(s) && message < |s.booking.paid|
    ensures TicketsOk(s.booking, AfterOrderPaid(s.issuer, message, s.booking.paid[message]))
  {
    var paid := s.booking.paid[message];
    var orders := s.booking.orders;
    var after := AfterOrderPaid(s.issuer, message, paid);
    assert Kept(orders, paid.order, paid.items);
    IssuingAddsRows(s.issuer.tickets, paid.order, paid.items);
    hide BookingOk;
    hide Issued;
    assert forall row :: row in s.issuer.tickets ==> row in after.tickets;
    assert forall id: OrderId, n: nat :: FullyTicketed(s.issuer.tickets, id, n) ==> FullyTicketed(after.tickets, id, n) by {
      MoreRowsTicketMore(s.issuer.tickets, after.tickets);
    }
    hide FullyTicketed;
    assert forall j :: 0 <= j < |s.issuer.issued| ==> after.issued[j] == s.issuer.issued[j];
  }

  lemma MoreRowsTicketMore(tickets: seq<TicketRow>, after: seq<TicketRow>)
    requires forall row :: row in tickets ==> row in after
    ensures forall id: OrderId, n: nat :: FullyTicketed(tickets, id, n) ==> FullyTicketed(after, id, n)
  {
    forall id: OrderId, n: nat, k: nat | FullyTicketed(tickets, id, n) && k < n
      ensures HasTicket(after, id, k)
    {
      assert HasTicket(tickets, id, k);
    }
  }

  lemma TicketIssuedDelivered(s: Shop, message: nat)
    requires ShopOk(s) && message < |s.issuer.issued|
    ensures TicketsOk(AfterTicketIssued(s.booking, s.issuer.issued[message]), s.issuer)
  {
    hide BookingOk;
    var orders := s.booking.orders;
    var id := s.issuer.issued[message];
    assert FullyTicketed(s.issuer.tickets, id, |orders[id].value.items|);
    hide FullyTicketed;
    hide OneTicketEach;
  }

  // -------------------------------------------------------------------- steps

  lemma RestockIsFine(s: Shop, message: nat)
    requires ShopOk(s) && message !in s.restocked
    ensures ShopOk(AfterRestock(s, message)) && AfterRestock(s, message).booking.stock.Keys == s.booking.stock.Keys
  {
    var b := s.booking;
    if message < |b.canceled| {
      RestockBalanced(b.orders, b.stock, b.canceled, s.restocked, message);
      RestockGivesBack(b.stock, b.canceled[message].lines);
      hide Balanced;
      hide Traced;
      hide OrdersOk;
      hide Restocked;
      hide TicketsOk;
      assert TicketsOk(AfterRestock(s, message).booking, s.issuer) by { TicketsSeeOrdersOnly(b, AfterRestock(s, message).booking, s.issuer); }
    }
  }

  lemma TicketsSeeOrdersOnly(b: Booking, after: Booking, issuer: Issuer)
    requires TicketsOk(b, issuer) && after.orders == b.orders && after.paid == b.paid
    ensures TicketsOk(after, issuer)
  {
  }

  /** What the booking side of any step leaves behind. */
  lemma BookingStepIsFine(s: Shop, step: Step)
    requires ShopOk(s) && Allowed(s, step)
    requires !step.DeliverOrderPaid? && !step.DeliverTicketIssued? && !step.DeliverOrderCanceled?
    ensures Fine(s.booking, Next(s, step).booking, s.restocked) && NoneIssued(s.booking.orders, Next(s, step).booking.orders)
    ensures Next(s, step).restocked == s.restocked && Next(s, step).issuer == s.issuer
  {
    var b := s.booking;
    var restocked := s.restocked;
    NothingIsFine(b, restocked);
    hide Fine;
    hide NoneIssued;
    hide TicketsOk;
    hide BookingOk;
    match step
    case HoldCart(cart, now) =>
      if AfterHold(b, cart, now).Ok? {
        HoldIsFine(b, restocked, cart, now);
      }
    case ApplyDiscount(id, user, worth) =>
      if AfterApplyDiscount(b, id, user, worth).Ok? {
        ApplyDiscountIsFine(b, restocked, id, user, worth);
      }
    case StartPayment(id, user, now) =>
      if AfterStartPayment(b, id, user, now).Ok? {
        StartPaymentIsFine(b, restocked, id, user, now);
      }
    case CancelOrder(id, user) =>
      if AfterCancel(b, id, user).Ok? {
        CancelIsFine(b, restocked, id, user);
      }
    case ConfirmFree(id, user, lost, now) =>
      if AfterConfirmFree(b, id, user, lost, now).Ok? {
        ConfirmFreeIsFine(b, restocked, id, user, lost, now);
      }
    case Sweep(batch, now) => SweepIsFine(b, restocked, batch, now);
    case PaymentSucceeded(envelope, id, lost) => PaymentSucceededIsFine(b, restocked, envelope, id, lost);
    case PaymentFailed(envelope, id) => PaymentFailedIsFine(b, restocked, envelope, id);
    case EventCanceled(envelope, event) => EventCanceledIsFine(b, restocked, envelope, event);
    case RefundApproved(envelope, id, requested, amount) => RefundApprovedIsFine(b, restocked, envelope, id, requested, amount);
  }

  lemma NothingIsFine(b: Booking, restocked: set<nat>)
    requires BookingOk(b, restocked)
    ensures Fine(b, b, restocked) && NoneIssued(b.orders, b.orders)
  {
    hide BookingOk;
  }

  ghost predicate StepFine(s: Shop, next: Shop) {
    ShopOk(next) && Advances(s.booking.orders, next.booking.orders) && next.booking.stock.Keys == s.booking.stock.Keys
  }

  lemma StepIsFine(s: Shop, step: Step)
    requires ShopOk(s) && Allowed(s, step)
    ensures StepFine(s, Next(s, step))
  {
    hide TicketsOk;
    match step
    case DeliverOrderPaid(message) =>
      if message < |s.booking.paid| {
        OrderPaidDelivered(s, message);
      }
      hide BookingOk;
    case DeliverTicketIssued(message) =>
      if message < |s.issuer.issued| {
        TicketIssuedDelivered(s, message);
        TicketIssuedIsFine(s.booking, s.restocked, s.issuer.issued[message]);
      }
      hide BookingOk;
    case DeliverOrderCanceled(message) =>
      RestockIsFine(s, message);
      hide BookingOk;
    case _ =>
      BookingStepIsFine(s, step);
      hide Next;
      assert PaidKept(Next(s, step).booking.orders, Next(s, step).booking.paid);
      hide BookingOk;
      TicketsAdvance(s.booking, Next(s, step).booking, s.issuer);
  }

  lemma {:induction false} RunIsFine(s: Shop, steps: seq<Step>)
    requires ShopOk(s) && Run(s, steps)
    ensures StepFine(s, After(s, steps))
    decreases |steps|
  {
    hide ShopOk;
    hide Next;
    if steps != [] {
      StepIsFine(s, steps[0]);
      RunIsFine(Next(s, steps[0]), steps[1..]);
      AdvancesTransitive(s.booking.orders, Next(s, steps[0]).booking.orders, After(s, steps).booking.orders);
    }
    hide Advances;
  }

  lemma StartIsFine(stock: Stock)
    requires forall t :: t in stock ==> stock[t].sold == 0
    ensures ShopOk(Start(stock))
  {
  }

  // ----------------------------------------------------------------- promises

  /** No tier was sold yet when the shop opened. */
  ghost predicate Unsold(stock: Stock) {
    forall t :: t in stock ==> stock[t].sold == 0
  }

  /**
   * In every reachable state each tier's sold count is what unreleased orders hold
   * plus what is in flight, and never passes the total: cancel, sweep, failed
   * payment, canceled event and refund together return each unit at most once.
   */
  lemma StockIsConserved(stock: Stock, steps: seq<Step>)
    requires Unsold(stock) && Run(Start(stock), steps)
    ensures var s := After(Start(stock), steps);
            var b := s.booking;
            && b.stock.Keys == stock.Keys
            && forall t :: t in b.stock ==>
                 && b.stock[t].sold == Held(b.orders, t) + InFlight(b.canceled, s.restocked, |b.canceled|, t)
                 && b.stock[t].sold <= b.stock[t].total
  {
    StartIsFine(stock);
    RunIsFine(Start(stock), steps);
    var s := After(Start(stock), steps);
    hide Traced;
    hide TicketsOk;
    hide Held;
    hide InFlight;
    assert forall t :: t in s.booking.stock ==> TierBalanced(s.booking.orders, s.booking.stock, s.booking.canceled, s.restocked, t);
  }

  /** So the floor at zero of a release never clips, for any pending order and any message still to come. */
  lemma ReleasesNeverClip(stock: Stock, steps: seq<Step>, t: TierId)
    requires Unsold(stock) && Run(Start(stock), steps) && t in After(Start(stock), steps).booking.stock
    ensures var s := After(Start(stock), steps);
            var b := s.booking;
            && (forall id: OrderId :: IsPending(b.orders, id) ==>
                  Units(Lines(b.orders[id].value.items, AllOf(b.orders[id].value.items)), t) <= b.stock[t].sold)
            && (forall m: nat :: m < |b.canceled| && m !in s.restocked ==> Units(b.canceled[m].lines, t) <= b.stock[t].sold)
  {
    StockIsConserved(stock, steps);
    StartIsFine(stock);
    RunIsFine(Start(stock), steps);
    var s := After(Start(stock), steps);
    var b := s.booking;
    forall id: OrderId | IsPending(b.orders, id)
      ensures Units(Lines(b.orders[id].value.items, AllOf(b.orders[id].value.items)), t) <= b.stock[t].sold
    {
      assert OrderOk(b.orders[id].value);
      AllLinesGiveBackAll(b.orders[id].value.items, t);
      HeldAtLeast(b.orders, id, t);
    }
    forall m: nat | m < |b.canceled| && m !in s.restocked
      ensures Units(b.canceled[m].lines, t) <= b.stock[t].sold
    {
      InFlightAtLeast(b.canceled, s.restocked, m, |b.canceled|, t);
    }
  }

  /** Refunded items and published OrderCanceled lines correspond one to one, whatever is redelivered. */
  lemma EachRefundedItemIsGivenBackOnce(stock: Stock, steps: seq<Step>)
    requires Unsold(stock) && Run(Start(stock), steps)
    ensures var b := After(Start(stock), steps).booking;
            && NamedOnce(b.canceled)
            && (forall id: OrderId, k: nat :: RefundedItem(b.orders, id, k) <==> exists m: nat, x: nat :: Names(b.canceled, m, x, id, k))
            && (forall m: nat, x: nat, id: OrderId, k: nat :: Names(b.canceled, m, x, id, k) ==>
                  RefundedItem(b.orders, id, k) && b.canceled[m].lines[x] == LineOf(b.orders, id, k))
  {
    StartIsFine(stock);
    RunIsFine(Start(stock), steps);
    hide TicketsOk;
    hide Balanced;
    hide OrdersOk;
    hide Names;
  }

  /** One ticket per item at most, and a TICKET_ISSUED order has them all. */
  lemma EachItemGetsOneTicket(stock: Stock, steps: seq<Step>)
    requires Unsold(stock) && Run(Start(stock), steps)
    ensures var s := After(Start(stock), steps);
            && OneTicketEach(s.issuer.tickets)
            && (forall id: OrderId :: Live(s.booking.orders, id) && s.booking.orders[id].value.status == TicketIssued ==>
                  FullyTicketed(s.issuer.tickets, id, |s.booking.orders[id].value.items|))
            && (forall row :: row in s.issuer.tickets ==>
                  Live(s.booking.orders, row.order) && s.booking.orders[row.order].value.status != Pending)
  {
    StartIsFine(stock);
    RunIsFine(Start(stock), steps);
    hide BookingOk;
  }

  /**
   * An order is CANCELED exactly when its hold was released or its last item refunded, and
   * never both; once OrderPaid went out its hold is never released, so a paid order is
   * CANCELED exactly when its last item is refunded.
   */
  lemma CanceledWhenNothingIsLeft(stock: Stock, steps: seq<Step>, id: OrderId)
    requires Unsold(stock) && Run(Start(stock), steps) && Live(After(Start(stock), steps).booking.orders, id)
    ensures var b := After(Start(stock), steps).booking;
            var o := b.orders[id].value;
            && (o.status == Canceled <==> o.holdReleased || AllRefunded(o.items))
            && (o.holdReleased ==> forall m: nat, x: nat, k: nat :: !Names(b.canceled, m, x, id, k))
            && ((exists j :: 0 <= j < |b.paid| && b.paid[j].order == id) ==>
                  !o.holdReleased && (o.status == Canceled <==> AllRefunded(o.items)))
  {
    StartIsFine(stock);
    RunIsFine(Start(stock), steps);
    var b := After(Start(stock), steps).booking;
    assert OrderOk(b.orders[id].value);
    if j :| 0 <= j < |b.paid| && b.paid[j].order == id {
      assert Kept(b.orders, id, b.paid[j].items);
    }
  }

  /** Over every further run, a CANCELED order stays exactly as it is and a TICKET_ISSUED one can only be canceled. */
  lemma CanceledIsFinal(stock: Stock, steps: seq<Step>, more: seq<Step>, id: OrderId)
    requires Unsold(stock) && Run(Start(stock), steps) && Run(After(Start(stock), steps), more)
    requires Live(After(Start(stock), steps).booking.orders, id)
    ensures var o := After(Start(stock), steps).booking.orders[id].value;
            var orders := After(After(Start(stock), steps), more).booking.orders;
            && (o.status == Canceled ==> id < |orders| && orders[id] == Some(o))
            && (o.status == TicketIssued ==> Live(orders, id) && orders[id].value.status in {TicketIssued, Canceled})
  {
    StartIsFine(stock);
    RunIsFine(Start(stock), steps);
    RunIsFine(After(Start(stock), steps), more);
  }

  // ------------------------------------------------------- the account limit

  lemma {:induction false} SameItemsSameQuantity(before: seq<Item>, after: seq<Item>)
    requires SameItems(before, after)
    ensures Quantity(after) == Quantity(before)
  {
    if before != [] {
      SameItemsSameQuantity(before[..|before| - 1], after[..|after| - 1]);
    }
  }

  lemma {:induction false} LoadOnlyShrinks(before: Orders, after: Orders, user: UserId, event: EventId)
    requires Advances(before, after) && |after| == |before|
    ensures AccountLoad(after, user, event) <= AccountLoad(before, user, event)
  {
    if before != [] {
      var last := |before| - 1;
      LoadOnlyShrinks(before[..last], after[..last], user, event);
      if before[last].Some? && after[last].Some? {
        assert Onward(before[last].value, after[last].value);
        SameItemsSameQuantity(before[last].value.items, after[last].value.items);
      }
    }
  }

  lemma {:induction false} CartQuantity(stock: Stock, items: seq<CartItem>)
    requires forall k :: 0 <= k < |items| ==> WellFormed(items[k])
    ensures Quantity(SeatItems(items)) + Quantity(TierItems(stock, Requests(items))) == Asked(items)
  {
    if items != [] {
      var last := items[|items| - 1];
      var front := items[..|items| - 1];
      CartQuantity(stock, front);
      if last.seat.Some? {
        WorthConcat(SeatItems(front), [Item(None, last.seat, last.seatPrice, 1, false)]);
        assert Requests(items) == Requests(front);
      } else {
        var request := Request(last.tier.value, last.quantity);
        assert SeatItems(items) == SeatItems(front);
        assert Requests(items)[..|Requests(front)|] == Requests(front);
        AdmissionsWorth(request.tier, PriceOf(stock, request.tier), request.quantity);
        WorthConcat(TierItems(stock, Requests(front)), Admissions(request.tier, PriceOf(stock, request.tier), request.quantity));
      }
    }
  }

  predicate Capped(step: Step, event: EventId, cap: nat) {
    step.HoldCart? && step.cart.event == event ==> step.cart.cap == Some(cap)
  }

  lemma HoldKeepsLimit(b: Booking, cart: Cart, now: int, user: UserId, event: EventId, cap: nat)
    requires AfterHold(b, cart, now).Ok? && (cart.event == event ==> cart.cap == Some(cap))
    requires AccountLoad(b.orders, user, event) <= cap
    ensures AccountLoad(AfterHold(b, cart, now).value.orders, user, event) <= cap
  {
    var o := NewOrder(b.stock, cart, now);
    CartQuantity(b.stock, cart.items);
    WorthConcat(SeatItems(cart.items), TierItems(b.stock, Requests(cart.items)));
    assert Quantity(o.items) == Asked(cart.items);
    hide ReservedAll;
    hide Quantity;
    hide Asked;
    assert (b.orders + [Some(o)])[..|b.orders|] == b.orders;
  }

  lemma StepKeepsLimit(s: Shop, step: Step, user: UserId, event: EventId, cap: nat)
    requires ShopOk(s) && Allowed(s, step) && Capped(step, event, cap)
    requires AccountLoad(s.booking.orders, user, event) <= cap
    ensures AccountLoad(Next(s, step).booking.orders, user, event) <= cap
  {
    hide AccountLoad;
    hide ShopOk;
    hide AfterHold;
    if step.HoldCart? && AfterHold(s.booking, step.cart, step.now).Ok? {
      HoldKeepsLimit(s.booking, step.cart, step.now, user, event, cap);
    } else {
      StepIsFine(s, step);
      SameRows(s, step);
      hide Next;
      LoadOnlyShrinks(s.booking.orders, Next(s, step).booking.orders, user, event);
    }
  }

  lemma {:induction false} SweepKeepsRows(b: Booking, batch: seq<OrderId>, now: int)
    ensures |AfterSweep(b, batch, now).orders| == |b.orders| && AfterSweep(b, batch, now).paid == b.paid
  {
    hide Restocked;
    if batch != [] {
      SweepKeepsRows(b, batch[..|batch| - 1], now);
    }
  }

  lemma {:induction false} EventCancelKeepsRows(b: Booking, event: EventId, n: nat)
    ensures |PendingCanceled(b, event, n).orders| == |b.orders| && PendingCanceled(b, event, n).paid == b.paid
  {
    hide Restocked;
    if n > 0 {
      EventCancelKeepsRows(b, event, n - 1);
    }
  }

  /** Only a successful hold adds a row. */
  lemma SameRows(s: Shop, step: Step)
    requires step.HoldCart? ==> AfterHold(s.booking, step.cart, step.now).Err?
    ensures |Next(s, step).booking.orders| == |s.booking.orders|
  {
    hide Restocked;
    hide Lines;
    hide Marked;
    match step
    case Sweep(batch, now) => SweepKeepsRows(s.booking, batch, now);
    case EventCanceled(envelope, event) => EventCancelKeepsRows(Marking(s.booking, envelope), event, |s.booking.orders|);
    case _ =>
  }

  lemma {:induction false} RunKeepsLimit(s: Shop, steps: seq<Step>, user: UserId, event: EventId, cap: nat)
    requires ShopOk(s) && Run(s, steps) && forall k :: 0 <= k < |steps| ==> Capped(steps[k], event, cap)
    requires AccountLoad(s.booking.orders, user, event) <= cap
    ensures AccountLoad(After(s, steps).booking.orders, user, event) <= cap
    decreases |steps|
  {
    if steps != [] {
      assert Capped(steps[0], event, cap);
      StepIsFine(s, steps[0]);
      StepKeepsLimit(s, steps[0], user, event, cap);
      hide ShopOk;
      hide Next;
      hide AccountLoad;
      RunKeepsLimit(Next(s, steps[0]), steps[1..], user, event, cap);
    }
  }

  /** No account ever has more tickets of an event in orders not canceled than the event's limit. */
  lemma AccountLimitHolds(stock: Stock, steps: seq<Step>, user: UserId, event: EventId, cap: nat)
    requires Unsold(stock) && Run(Start(stock), steps) && forall k :: 0 <= k < |steps| ==> Capped(steps[k], event, cap)
    ensures |AccountTickets(After(Start(stock), steps).booking.orders, user, event)| <= cap
  {
    StartIsFine(stock);
    RunKeepsLimit(Start(stock), steps, user, event, cap);
    LoadCountsTickets(After(Start(stock), steps).booking.orders, user, event);
  }

  // -------------------------------------------- why the hypotheses are needed

  ghost predicate Even(s: Shop, t: TierId) {
    t in s.booking.stock && TierBalanced(s.booking.orders, s.booking.stock, s.booking.canceled, s.restocked, t)
  }

  /** Exactly-once delivery to event-service: a second delivery is harmless only where it has nothing to give or to take. */
  lemma RedeliveryIsHarmlessIff(s: Shop, m: nat, t: TierId)
    requires Even(s, t) && m < |s.booking.canceled| && m in s.restocked
    ensures Even(AfterRestock(s, m), t) <==> Units(s.booking.canceled[m].lines, t) == 0 || s.booking.stock[t].sold == 0
  {
    RestockGivesBack(s.booking.stock, s.booking.canceled[m].lines);
    RestockKeepsTotals(s.booking.stock, s.booking.canceled[m].lines, t);
    assert s.restocked + {m} == s.restocked;
    hide Restocked;
    hide Units;
    hide Held;
    hide InFlight;
  }

  lemma {:induction false} RestockKeepsTotals(stock: Stock, lines: seq<Line>, t: TierId)
    requires t in stock
    ensures t in Restocked(stock, lines) && Restocked(stock, lines)[t].total == stock[t].total
  {
    if lines != [] {
      RestockKeepsTotals(stock, lines[..|lines| - 1], t);
    }
  }

  lemma {:induction false} LinesIgnoreRefunds(items: seq<Item>, chosen: set<nat>, keep: set<nat>)
    ensures Lines(Marked(items, chosen), keep) == Lines(items, keep)
  {
    if items != [] {
      var last := |items| - 1;
      assert Marked(items, chosen)[..last] == Marked(items[..last], chosen);
      LinesIgnoreRefunds(items[..last], chosen, keep);
    }
  }

  /** The arithmetic of a release that gives back `u` units too many. */
  lemma OverReleaseIsUneven(orders: Orders, stock: Stock, canceled: seq<OrderCanceled>, restocked: set<nat>,
                            id: OrderId, row: Option<Order>, lines: seq<Line>, t: TierId)
    requires t in stock && TierBalanced(orders, stock, canceled, restocked, t)
    requires id < |orders| && OrderUnits(row, t) == 0
    requires Units(lines, t) > OrderUnits(orders[id], t)
    requires InFlight(canceled, restocked, |canceled|, t) > 0
    ensures t in Restocked(stock, lines) && !TierBalanced(orders[id := row], Restocked(stock, lines), canceled, restocked, t)
  {
    RestockGivesBack(stock, lines);
    HeldUpdate(orders, id, row, t);
    HeldAtLeast(orders, id, t);
    hide Restocked;
    hide Units;
    hide Held;
    hide InFlight;
  }

  /** A refund that leaves something of the order: its row and its message. */
  lemma PartialRefund(b: Booking, id: OrderId, requested: seq<nat>, amount: nat, t: TierId)
    requires IsPending(b.orders, id)
    requires var o := b.orders[id].value;
             && !AllRefunded(Marked(o.items, Chosen(o.items, requested)))
             && Units(Lines(o.items, Chosen(o.items, requested)), t) > 0
    ensures var o := b.orders[id].value;
            var chosen := Chosen(o.items, requested);
            AfterRefund(b, id, requested, amount)
            == b.(orders := b.orders[id := Some(RefundedOrder(o, chosen, amount))],
                  canceled := b.canceled + [OrderCanceled(id, Lines(o.items, chosen), true)])
  {
    var o := b.orders[id].value;
    assert Chosen(o.items, requested) != {} by { NoLinesNoUnits(o.items, t); }
    hide Lines;
    hide Marked;
  }

  /** Canceling a held pending order gives all its lines back. */
  lemma CancelHeld(b: Booking, id: OrderId)
    requires IsPending(b.orders, id) && !b.orders[id].value.holdReleased
    ensures var o := b.orders[id].value;
            AfterCancel(b, id, o.user)
            == Ok(b.(orders := b.orders[id := Some(o.(holdReleased := true, status := Canceled))],
                     stock := Restocked(b.stock, Lines(o.items, AllOf(o.items)))))
  {
    hide Restocked;
    hide Lines;
    var o := b.orders[id].value;
    assert b.orders[id := Some(o.(holdReleased := true))][id := Some(o.(holdReleased := true, status := Canceled))]
           == b.orders[id := Some(o.(holdReleased := true, status := Canceled))];
  }

  /**
   * Refunds of named items must wait for payment: refund some items of a pending order
   * and let it be canceled, and their units come back twice.
   */
  lemma PartialRefundOfPendingLosesStock(b: Booking, restocked: set<nat>, id: OrderId, requested: seq<nat>, amount: nat, t: TierId)
    requires BookingOk(b, restocked) && IsPending(b.orders, id) && t in b.stock
    requires var o := b.orders[id].value;
             && !AllRefunded(Marked(o.items, Chosen(o.items, requested)))
             && Units(Lines(o.items, Chosen(o.items, requested)), t) > 0
    ensures var refunded := AfterRefund(b, id, requested, amount);
            var canceled := AfterCancel(refunded, id, b.orders[id].value.user);
            && canceled.Ok? && t in canceled.value.stock
            && !TierBalanced(canceled.value.orders, canceled.value.stock, canceled.value.canceled, restocked, t)
  {
    hide Restocked;
    hide Lines;
    hide Marked;
    hide Units;
    hide Held;
    hide InFlight;
    hide AfterRefund;
    hide AfterCancel;
    hide Traced;
    hide PaidKept;
    var o := b.orders[id].value;
    var chosen := Chosen(o.items, requested);
    var o' := RefundedOrder(o, chosen, amount);
    var message := OrderCanceled(id, Lines(o.items, chosen), true);
    assert OrderOk(o);
    PartialRefund(b, id, requested, amount, t);
    RefundBalanced(b.orders, b.stock, b.canceled, restocked, id, chosen, amount, true);
    var orders := b.orders[id := Some(o')];
    assert TierBalanced(orders, b.stock, b.canceled + [message], restocked, t);
    hide Balanced;
    hide OrdersOk;
    CancelGivesAllBack(o, chosen, t);
    NewMessageInFlight(b.canceled, restocked, message, t);
    CancelHeld(AfterRefund(b, id, requested, amount), id);
    OverReleaseIsUneven(orders, b.stock, b.canceled + [message], restocked, id,
                        Some(o'.(holdReleased := true, status := Canceled)), Lines(o'.items, AllOf(o'.items)), t);
  }

  lemma NewMessageInFlight(canceled: seq<OrderCanceled>, restocked: set<nat>, message: OrderCanceled, t: TierId)
    requires |canceled| !in restocked
    ensures InFlight(canceled + [message], restocked, |canceled| + 1, t) >= Units(message.lines, t)
  {
    InFlightAtLeast(canceled + [message], restocked, |canceled|, |canceled| + 1, t);
  }

  lemma {:induction false} NoLinesNoUnits(items: seq<Item>, t: TierId)
    ensures Units(Lines(items, {}), t) == 0
  {
    if items != [] {
      NoLinesNoUnits(items[..|items| - 1], t);
      assert Lines(items, {}) == Lines(items[..|items| - 1], {});
    }
  }

  /** Canceling releases every item, refunded or not. */
  lemma CancelGivesAllBack(o: Order, chosen: set<nat>, t: TierId)
    requires OrderOk(o) && o.status == Pending
    requires forall k :: k in chosen ==> k < |o.items|
    ensures var items := Marked(o.items, chosen);
            Units(Lines(items, AllOf(items)), t) == ItemsUnits(items, t) + Units(Lines(o.items, chosen), t)
  {
    var items := Marked(o.items, chosen);
    assert AllOf(items) == AllOf(o.items) by {
      forall k: nat
        ensures k in AllOf(items) <==> k < |items|
        ensures k in AllOf(o.items) <==> k < |o.items|
      {
        assert k < |items| ==> items[k] in items;
        assert k < |o.items| ==> o.items[k] in o.items;
      }
    }
    LinesIgnoreRefunds(o.items, chosen, AllOf(o.items));
    AllLinesGiveBackAll(o.items, t);
    MarkingMovesUnits(o.items, chosen, t);
  }

  /** What releases of some items give back, and what the failed ones keep, make up what the order held. */
  lemma FailedLinesAreMissing(items: seq<Item>, failed: set<nat>, t: TierId)
    requires forall k :: 0 <= k < |items| ==> !items[k].refunded
    ensures ItemsUnits(items, t) == Units(Lines(items, AllOf(items) - failed), t) + Units(Lines(items, failed), t)
  {
    var done := AllOf(items) - failed;
    var marked := Marked(items, done);
    forall k: nat | k < |items|
      ensures k in AllOf(items)
    {
      assert items[k] in items;
    }
    MarkingMovesUnits(items, done, t);
    MarkingMovesUnits(marked, failed, t);
    RefundedHoldNothing(Marked(marked, failed), t);
    LinesIgnoreRefunds(items, done, failed);
  }

  /**
   * A release call that fails is logged and never retried: closing an order whose releases
   * of the items in `failed` failed keeps the stock equation of a tier if and only if those
   * items held none of its units.
   */
  lemma FailedReleaseIsHarmlessIff(orders: Orders, stock: Stock, canceled: seq<OrderCanceled>, restocked: set<nat>,
                                   id: OrderId, row: Option<Order>, failed: set<nat>, t: TierId)
    requires t in stock && TierBalanced(orders, stock, canceled, restocked, t)
    requires IsPending(orders, id) && OrderOk(orders[id].value) && (row.Some? ==> row.value.holdReleased)
    ensures var items := orders[id].value.items;
            var after := Restocked(stock, Lines(items, AllOf(items) - failed));
            t in after && (TierBalanced(orders[id := row], after, canceled, restocked, t) <==> Units(Lines(items, failed), t) == 0)
  {
    var items := orders[id].value.items;
    var lines := Lines(items, AllOf(items) - failed);
    FailedLinesAreMissing(items, failed, t);
    RestockGivesBack(stock, lines);
    RestockKeepsTotals(stock, lines, t);
    HeldUpdate(orders, id, row, t);
    HeldAtLeast(orders, id, t);
    hide Restocked;
    hide Lines;
    hide Units;
    hide Held;
    hide InFlight;
  }
}
