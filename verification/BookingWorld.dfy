/**
 * The booking saga as a state machine: booking-service, the stock of
 * event-service, the ticket issuer, and every message published between them.
 * A published message may be delivered any number of times, in any order, or not
 * at all; only the OrderCanceled of event-service must not be delivered twice.
 */
module BookingWorld {
  import opened Common
  import opened Inventory
  import opened Orders

  // ------------------------------------------------------- the ticket issuer

  datatype TicketRow = TicketRow(order: OrderId, item: nat)

  /** Ticket rows in the order they were created, TicketIssued messages, and processed OrderPaid envelopes. */
  datatype Issuer = Issuer(tickets: seq<TicketRow>, issued: seq<OrderId>, seen: set<nat>)

  function Issued(tickets: seq<TicketRow>, order: OrderId, items: nat): seq<TicketRow> {
    if items == 0 then tickets
    else
      var before := Issued(tickets, order, items - 1);
      if TicketRow(order, items - 1) in before then before else before + [TicketRow(order, items - 1)]
  }

  function AfterOrderPaid(s: Issuer, envelope: nat, message: OrderPaid): Issuer {
    if envelope in s.seen then s
    else Issuer(Issued(s.tickets, message.order, message.items), s.issued + [message.order], s.seen + {envelope})
  }

  /** The rows of an order's items were added, those that were missing, behind what was there. */
  ghost predicate Added(before: seq<TicketRow>, after: seq<TicketRow>, order: OrderId, items: nat) {
    && before <= after
    && (forall row :: row in after <==> row in before || (row.order == order && row.item < items))
    && (forall i, j :: |before| <= i < j < |after| ==> after[i].item < after[j].item)
    && (forall i :: |before| <= i < |after| ==> after[i] !in before)
  }

  lemma {:induction false} IssuingAdds(tickets: seq<TicketRow>, order: OrderId, items: nat)
    ensures Added(tickets, Issued(tickets, order, items), order, items)
  {
    hide Added;
    if items == 0 {
      NothingAdded(tickets, order);
    } else {
      IssuingAdds(tickets, order, items - 1);
      AddingOneMore(tickets, Issued(tickets, order, items - 1), order, items - 1);
    }
  }

  lemma NothingAdded(tickets: seq<TicketRow>, order: OrderId)
    ensures Added(tickets, tickets, order, 0)
  {
  }

  lemma AddingOneMore(tickets: seq<TicketRow>, before: seq<TicketRow>, order: OrderId, item: nat)
    requires Added(tickets, before, order, item)
    ensures var row := TicketRow(order, item); Added(tickets, if row in before then before else before + [row], order, item + 1)
  {
    var row := TicketRow(order, item);
    forall i | |tickets| <= i < |before|
      ensures before[i].item < item
    {
      assert before[i] in before;
    }
    if row in before {
      assert row in tickets;
    } else {
      assert forall r :: r in before + [row] <==> r in before || r == row;
    }
  }

  class TicketIssuer {
    var tickets: seq<TicketRow>
    var issued: seq<OrderId>
    var seen: set<nat>

    function State(): Issuer
      reads this
    {
      Issuer(tickets, issued, seen)
    }

    constructor ()
      ensures State() == Issuer([], [], {})
    {
      tickets, issued, seen := [], [], {};
    }

    method OnOrderPaid(envelope: nat, message: OrderPaid)
      modifies this
      ensures State() == AfterOrderPaid(old(State()), envelope, message)
      ensures seen == old(seen) + {envelope}
      ensures if envelope in old(seen) then tickets == old(tickets) && issued == old(issued)
              else issued == old(issued) + [message.order] && Added(old(tickets), tickets, message.order, message.items)
    {
      IssuingAdds(tickets, message.order, message.items);
      if envelope in seen {
        return;
      }
      seen := seen + {envelope};
      for k := 0 to message.items
        invariant tickets == Issued(old(tickets), message.order, k)
        invariant issued == old(issued) && seen == old(seen) + {envelope}
      {
        if TicketRow(message.order, k) !in tickets {
          tickets := tickets + [TicketRow(message.order, k)];
        }
      }
      issued := issued + [message.order];
    }
  }

  // ----------------------------------------------------------- steps and runs

  /** `restocked` are the OrderCanceled messages event-service has received. */
  datatype Shop = Shop(booking: Booking, restocked: set<nat>, issuer: Issuer)

  datatype Step =
    | HoldCart(cart: Cart, now: int)
    | ApplyDiscount(id: OrderId, user: UserId, worth: Option<nat>)
    | StartPayment(id: OrderId, user: UserId, now: int)
    | CancelOrder(id: OrderId, user: UserId)
    | ConfirmFree(id: OrderId, user: UserId, lost: set<nat>, now: int)
    | Sweep(batch: seq<OrderId>, now: int)
    | PaymentSucceeded(envelope: nat, id: OrderId, lost: set<nat>)
    | PaymentFailed(envelope: nat, id: OrderId)
    | EventCanceled(envelope: nat, event: EventId)
    | RefundApproved(envelope: nat, id: OrderId, requested: seq<nat>, amount: nat)
    | DeliverOrderPaid(message: nat)
    | DeliverTicketIssued(message: nat)
    | DeliverOrderCanceled(message: nat)

  function Start(stock: Stock): Shop {
    Shop(Booking([], stock, [], [], {}), {}, Issuer([], [], {}))
  }

  function WithBooking(s: Shop, outcome: Result<Booking>): Shop {
    if outcome.Ok? then s.(booking := outcome.value) else s
  }

  function AfterRestock(s: Shop, message: nat): Shop {
    if message < |s.booking.canceled| then
      s.(booking := s.booking.(stock := Restocked(s.booking.stock, s.booking.canceled[message].lines)),
         restocked := s.restocked + {message})
    else s
  }

  function Next(s: Shop, step: Step): Shop {
    var b := s.booking;
    match step
    case HoldCart(cart, now) => WithBooking(s, AfterHold(b, cart, now))
    case ApplyDiscount(id, user, worth) => WithBooking(s, AfterApplyDiscount(b, id, user, worth))
    case StartPayment(id, user, now) => WithBooking(s, AfterStartPayment(b, id, user, now))
    case CancelOrder(id, user) => WithBooking(s, AfterCancel(b, id, user))
    case ConfirmFree(id, user, lost, now) => WithBooking(s, AfterConfirmFree(b, id, user, lost, now))
    case Sweep(batch, now) => s.(booking := AfterSweep(b, batch, now))
    case PaymentSucceeded(envelope, id, lost) => s.(booking := AfterPaymentSucceeded(b, envelope, id, lost))
    case PaymentFailed(envelope, id) => s.(booking := AfterPaymentFailed(b, envelope, id))
    case EventCanceled(envelope, event) => s.(booking := AfterEventCanceled(b, envelope, event))
    case RefundApproved(envelope, id, requested, amount) =>
      s.(booking := AfterRefundApproved(b, envelope, id, requested, amount))
    case DeliverOrderPaid(message) =>
      if message < |b.paid| then s.(issuer := AfterOrderPaid(s.issuer, message, b.paid[message])) else s
    case DeliverTicketIssued(message) =>
      if message < |s.issuer.issued| then s.(booking := AfterTicketIssued(b, s.issuer.issued[message])) else s
    case DeliverOrderCanceled(message) => AfterRestock(s, message)
  }

  /**
   * A cart has items; a refund of named items is only ever approved for an order that
   * was paid; event-service gets each OrderCanceled once.
   */
  predicate Allowed(s: Shop, step: Step) {
    match step
    case HoldCart(cart, _) => cart.items != [] && forall k :: 0 <= k < |cart.items| ==> cart.items[k].quantity > 0
    case RefundApproved(_, id, requested, _) => requested != [] ==> !IsPending(s.booking.orders, id)
    case DeliverOrderCanceled(message) => message !in s.restocked
    case _ => true
  }

  predicate Run(s: Shop, steps: seq<Step>)
    decreases |steps|
  {
    steps == [] || (Allowed(s, steps[0]) && Run(Next(s, steps[0]), steps[1..]))
  }

  function After(s: Shop, steps: seq<Step>): Shop
    decreases |steps|
  {
    if steps == [] then s else After(Next(s, steps[0]), steps[1..])
  }
}
