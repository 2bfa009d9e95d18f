/**
 * The saga from end to end, from any reachable state: a payment leads to tickets,
 * and an order that is bought and then refunded leaves the stock as it was.
 */
module BookingCycle {
  import opened Common
  import opened Inventory
  import opened Orders
  import opened Carts
  import opened BookingWorld
  import opened BookingStock
  import opened BookingRuns
  import opened BookingSaga

  // -------------------------------------------------------- payment to tickets

  /** Only published messages were processed. */
  ghost predicate SeenWerePublished(s: Shop) {
    forall m :: m in s.issuer.seen ==> m < |s.booking.paid|
  }

  lemma StepKeepsSeen(s: Shop, step: Step)
    requires SeenWerePublished(s)
    ensures SeenWerePublished(Next(s, step))
  {
    hide Restocked;
    hide Lines;
    hide Marked;
    hide Issued;
    match step
    case Sweep(batch, now) => SweepKeepsRows(s.booking, batch, now);
    case EventCanceled(envelope, event) => EventCancelKeepsRows(Marking(s.booking, envelope), event, |s.booking.orders|);
    case _ =>
  }

  lemma {:induction false} RunKeepsSeen(s: Shop, steps: seq<Step>)
    requires SeenWerePublished(s)
    ensures SeenWerePublished(After(s, steps))
    decreases |steps|
  {
    hide Next;
    if steps != [] {
      StepKeepsSeen(s, steps[0]);
      RunKeepsSeen(Next(s, steps[0]), steps[1..]);
    }
  }

  /** The payment arrives, then OrderPaid at the issuer, then its TicketIssued back at booking-service. */
  function PaymentSteps(s: Shop, envelope: nat, id: OrderId, lost: set<nat>): seq<Step> {
    [PaymentSucceeded(envelope, id, lost)] + ([DeliverOrderPaid(|s.booking.paid|)] + ([DeliverTicketIssued(|s.issuer.issued|)] + []))
  }

  lemma RunFront(s: Shop, step: Step, rest: seq<Step>)
    requires Allowed(s, step)
    ensures After(s, [step] + rest) == After(Next(s, step), rest)
    ensures Run(s, [step] + rest) <==> Run(Next(s, step), rest)
  {
    assert ([step] + rest)[1..] == rest;
    hide Next;
  }

  /**
   * What the saga is for: from every reachable state, a pending order that gets paid while its
   * seats are held ends TICKET_ISSUED, unchanged otherwise, with a ticket for every item.
   */
  lemma PaymentLeadsToTickets(stock: Stock, steps: seq<Step>, envelope: nat, id: OrderId, lost: set<nat>)
    requires Run(Start(stock), steps)
    requires var b := After(Start(stock), steps).booking;
             IsPending(b.orders, id) && envelope !in b.seen && !SeatLost(b.orders[id].value.items, lost)
    ensures var s := After(Start(stock), steps);
            var o := s.booking.orders[id].value;
            var done := After(s, PaymentSteps(s, envelope, id, lost));
            && Run(s, PaymentSteps(s, envelope, id, lost))
            && done.booking.orders == s.booking.orders[id := Some(o.(status := TicketIssued))]
            && FullyTicketed(done.issuer.tickets, id, |o.items|)
  {
    RunKeepsSeen(Start(stock), steps);
    var s := After(Start(stock), steps);
    hide Run;
    hide After;
    TicketsFollowPayment(s, envelope, id, lost);
  }

  lemma TicketsFollowPayment(s: Shop, envelope: nat, id: OrderId, lost: set<nat>)
    requires IsPending(s.booking.orders, id) && envelope !in s.booking.seen && SeenWerePublished(s)
    requires !SeatLost(s.booking.orders[id].value.items, lost)
    ensures var o := s.booking.orders[id].value;
            var done := After(s, PaymentSteps(s, envelope, id, lost));
            && Run(s, PaymentSteps(s, envelope, id, lost))
            && done.booking == s.booking.(orders := s.booking.orders[id := Some(o.(status := TicketIssued))],
                                          paid := s.booking.paid + [OrderPaid(id, |o.items|)], seen := s.booking.seen + {envelope})
            && done.restocked == s.restocked
            && FullyTicketed(done.issuer.tickets, id, |o.items|)
  {
    var o := s.booking.orders[id].value;
    var steps := PaymentSteps(s, envelope, id, lost);
    var paid := Next(s, steps[0]);
    var issued := Next(paid, steps[1]);
    var done := Next(issued, steps[2]);
    assert paid.booking.paid[|s.booking.paid|] == OrderPaid(id, |o.items|);
    assert issued.issuer.issued[|s.issuer.issued|] == id;
    assert done.booking.orders == s.booking.orders[id := Some(o.(status := TicketIssued))];
    assert done.restocked == s.restocked;
    IssuingAdds(s.issuer.tickets, id, |o.items|);
    assert FullyTicketed(done.issuer.tickets, id, |o.items|);
    RunFront(s, steps[0], [steps[1]] + ([steps[2]] + []));
    RunFront(paid, steps[1], [steps[2]] + []);
    RunFront(issued, steps[2], []);
    hide Next;
    hide FullyTicketed;
    assert steps == [steps[0]] + ([steps[1]] + ([steps[2]] + []));
  }

  // ------------------------------------------------------------ bought and refunded

  /** One admission per item, so the units of the items are what the cart wanted. */
  lemma {:induction false} AdmissionsAreUnits(items: seq<Item>, t: TierId)
    requires forall k :: 0 <= k < |items| ==> items[k].quantity == 1
    ensures UnitsOf(items, t) == Admitted(items, t)
  {
    if items != [] {
      AdmissionsAreUnits(items[..|items| - 1], t);
    }
  }

  lemma LinesCarryWanted(stock: Stock, cart: Cart, now: int, keep: set<nat>, t: TierId)
    requires forall k :: 0 <= k < |cart.items| ==> OneKind(cart.items[k])
    requires forall k :: 0 <= k < |NewOrder(stock, cart, now).items| ==> k in keep
    ensures Units(Lines(NewOrder(stock, cart, now).items, keep), t) == Wanted(cart.items, t)
  {
    var items := NewOrder(stock, cart, now).items;
    CartBecomesOrder(stock, cart, now);
    hide NewOrder;
    assert forall k :: 0 <= k < |items| ==> Admission(stock, items[k]);
    LinesCarryUnits(items, keep, t);
    AdmissionsAreUnits(items, t);
  }

  /** Giving back everything an accepted cart took restores the stock. */
  lemma GivingBackUndoesHolding(b: Booking, cart: Cart, now: int, keep: set<nat>)
    requires AfterHold(b, cart, now).Ok? && forall k :: 0 <= k < |cart.items| ==> OneKind(cart.items[k])
    requires forall k :: 0 <= k < |NewOrder(b.stock, cart, now).items| ==> k in keep
    ensures Restocked(AfterHold(b, cart, now).value.stock, Lines(NewOrder(b.stock, cart, now).items, keep)) == b.stock
  {
    ReservingTakesWanted(b.stock, cart.items, now);
    hide CartRefusal;
    var lines := Lines(NewOrder(b.stock, cart, now).items, keep);
    var after := AfterHold(b, cart, now).value.stock;
    RestockGivesBack(after, lines);
    forall t | t in b.stock
      ensures Units(lines, t) == Wanted(cart.items, t)
    {
      LinesCarryWanted(b.stock, cart, now, keep, t);
    }
    hide NewOrder;
    hide AfterHold;
    hide Lines;
    hide Restocked;
    hide ReservedAll;
    hide Wanted;
    hide Units;
    assert forall t :: t in b.stock ==> Restocked(after, lines)[t] == b.stock[t];
  }

  /** The whole order is refunded, and event-service hears of it. */
  function RefundSteps(s: Shop, envelope: nat, id: OrderId, amount: nat): seq<Step> {
    [RefundApproved(envelope, id, [], amount)] + ([DeliverOrderCanceled(|s.booking.canceled|)] + [])
  }

  lemma StockFollowsRefund(s: Shop, envelope: nat, id: OrderId, amount: nat)
    requires Live(s.booking.orders, id) && s.booking.orders[id].value.status != Canceled && envelope !in s.booking.seen
    requires |s.booking.canceled| !in s.restocked
    requires s.booking.orders[id].value.items != []
    requires var items := s.booking.orders[id].value.items; forall k :: 0 <= k < |items| ==> !items[k].refunded
    ensures var o := s.booking.orders[id].value;
            var done := After(s, RefundSteps(s, envelope, id, amount));
            && Run(s, RefundSteps(s, envelope, id, amount))
            && done.booking.stock == Restocked(s.booking.stock, Lines(o.items, Chosen(o.items, [])))
            && Live(done.booking.orders, id) && done.booking.orders == s.booking.orders[id := done.booking.orders[id]]
            && RefundedFor(o, done.booking.orders[id].value, [], amount)
            && done.issuer == s.issuer
  {
    var o := s.booking.orders[id].value;
    var steps := RefundSteps(s, envelope, id, amount);
    RefundAsPromised(id, o, [], amount, s.booking.canceled);
    assert 0 in Chosen(o.items, []);
    hide RefundedFor;
    hide Lines;
    hide Chosen;
    hide Announced;
    hide RefundedOrder;
    var refunded := s.(booking := AfterRefund(Marking(s.booking, envelope), id, [], amount));
    assert refunded.booking.canceled[|s.booking.canceled|].lines == Lines(o.items, Chosen(o.items, []));
    var done := AfterRestock(refunded, |s.booking.canceled|);
    assert Next(s, steps[0]) == refunded && Next(refunded, steps[1]) == done;
    hide Next;
    hide AfterRefund;
    hide Restocked;
    RunFront(s, steps[0], [steps[1]] + []);
    RunFront(refunded, steps[1], []);
    assert steps == [steps[0]] + ([steps[1]] + []);
  }

  /** A cart is held, paid and ticketed, and then the whole order is refunded. */
  function CycleSteps(s: Shop, cart: Cart, now: int, payment: nat, refund: nat, amount: nat): seq<Step> {
    [HoldCart(cart, now)] + (PaymentSteps(s, payment, |s.booking.orders|, {}) + RefundSteps(s, refund, |s.booking.orders|, amount))
  }

  lemma {:induction false} RunBoth(s: Shop, a: seq<Step>, b: seq<Step>)
    requires Run(s, a)
    ensures After(s, a + b) == After(After(s, a), b)
    ensures Run(s, a + b) <==> Run(After(s, a), b)
    decreases |a|
  {
    if a == [] {
      assert a + b == b;
    } else {
      assert (a + b)[1..] == a[1..] + b && (a + b)[0] == a[0];
      RunBoth(Next(s, a[0]), a[1..], b);
      hide Next;
    }
  }

  /** What the cycle leaves behind: the stock as it was, and one more order, canceled and refunded, whose items were ticketed. */
  ghost predicate CameFullCircle(before: Shop, after: Shop, cart: Cart, now: int, amount: nat) {
    var id := |before.booking.orders|;
    && after.booking.stock == before.booking.stock
    && |after.booking.orders| == id + 1 && after.booking.orders[..id] == before.booking.orders && after.booking.orders[id].Some?
    && var o := after.booking.orders[id].value;
       && o.status == Canceled && o.refundedAmount == amount && o.subtotal == CartWorth(before.booking.stock, cart.items)
       && FullyTicketed(after.issuer.tickets, id, |o.items|)
  }

  /**
   * From every reachable state, holding an acceptable cart, paying it, getting its tickets and
   * refunding it in full brings every tier back to exactly the count it had before.
   */
  lemma BuyingAndRefundingRestoresStock(stock: Stock, steps: seq<Step>, cart: Cart, now: int, payment: nat, refund: nat, amount: nat)
    requires Unsold(stock) && Run(Start(stock), steps)
    requires cart.items != [] && forall k :: 0 <= k < |cart.items| ==> cart.items[k].quantity > 0
    requires var b := After(Start(stock), steps).booking;
             Acceptable(b.orders, b.stock, cart, now) && payment !in b.seen && refund !in b.seen && payment != refund
    ensures var s := After(Start(stock), steps);
            && Run(s, CycleSteps(s, cart, now, payment, refund, amount))
            && CameFullCircle(s, After(s, CycleSteps(s, cart, now, payment, refund, amount)), cart, now, amount)
  {
    StartIsFine(stock);
    RunIsFine(Start(stock), steps);
    RunKeepsSeen(Start(stock), steps);
    var s := After(Start(stock), steps);
    assert |s.booking.canceled| !in s.restocked;
    hide Run;
    hide After;
    hide ShopOk;
    CycleRestoresStock(s, cart, now, payment, refund, amount);
  }

  lemma CycleRestoresStock(s: Shop, cart: Cart, now: int, payment: nat, refund: nat, amount: nat)
    requires SeenWerePublished(s) && |s.booking.canceled| !in s.restocked
    requires cart.items != [] && forall k :: 0 <= k < |cart.items| ==> cart.items[k].quantity > 0
    requires Acceptable(s.booking.orders, s.booking.stock, cart, now)
    requires payment !in s.booking.seen && refund !in s.booking.seen && payment != refund
    ensures Run(s, CycleSteps(s, cart, now, payment, refund, amount))
    ensures CameFullCircle(s, After(s, CycleSteps(s, cart, now, payment, refund, amount)), cart, now, amount)
  {
    var id := |s.booking.orders|;
    HoldGoesThrough(s, cart, now);
    var held := Next(s, HoldCart(cart, now));
    var o := held.booking.orders[id].value;
    hide Next;
    hide Acceptable;
    hide Ordered;
    hide Chosen;
    var pay := PaymentSteps(s, payment, id, {});
    TicketsFollowPayment(held, payment, id, {});
    assert pay == PaymentSteps(held, payment, id, {});
    var ticketed := After(held, pay);
    StockFollowsRefund(ticketed, refund, id, amount);
    var back := RefundSteps(s, refund, id, amount);
    assert back == RefundSteps(ticketed, refund, id, amount);
    RunBoth(held, pay, back);
    hide PaymentSteps;
    hide RefundSteps;
    RunFront(s, HoldCart(cart, now), pay + back);
    hide Run;
    hide After;
    hide FullyTicketed;
    assert o.subtotal == CartWorth(s.booking.stock, cart.items);
  }

  lemma HoldGoesThrough(s: Shop, cart: Cart, now: int)
    requires SeenWerePublished(s) && Acceptable(s.booking.orders, s.booking.stock, cart, now)
    requires cart.items != [] && forall k :: 0 <= k < |cart.items| ==> cart.items[k].quantity > 0
    ensures var held := Next(s, HoldCart(cart, now));
            var b := held.booking;
            && SeenWerePublished(held)
            && |b.orders| == |s.booking.orders| + 1 && b.orders[..|s.booking.orders|] == s.booking.orders
            && held == s.(booking := s.booking.(orders := b.orders, stock := b.stock))
            && IsPending(b.orders, |s.booking.orders|)
            && var o := b.orders[|s.booking.orders|].value;
               && o.items != [] && !SeatLost(o.items, {}) && (forall k :: 0 <= k < |o.items| ==> !o.items[k].refunded)
               && o.refundedAmount == 0 && o.subtotal == CartWorth(s.booking.stock, cart.items)
               && Restocked(b.stock, Lines(o.items, Chosen(o.items, []))) == s.booking.stock
  {
    HeldIffAcceptable(s.booking, cart, now);
    CartBecomesOrder(s.booking.stock, cart, now);
    CartBecomesItems(s.booking.stock, cart, now);
    StepKeepsSeen(s, HoldCart(cart, now));
    var o := NewOrder(s.booking.stock, cart, now);
    assert forall k :: 0 <= k < |o.items| ==> k in Chosen(o.items, []);
    GivingBackUndoesHolding(s.booking, cart, now, Chosen(o.items, []));
    hide NewOrder;
    hide CartRefusal;
    hide ReservedAll;
    hide Restocked;
    hide Lines;
    hide Chosen;
    assert Next(s, HoldCart(cart, now)).booking.orders == s.booking.orders + [Some(o)];
  }
}
