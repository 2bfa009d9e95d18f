/**
 * The handlers of booking-service and the ticket issuer, updating their tables in
 * place; each is proved equal to its function in Orders (or Issuing).
 */
module BookingHandlers {
  import opened Common
  import opened Inventory
  import opened Orders
  import opened Carts

  class BookingService {
    const events: InventoryService
    var orders: Orders
    var canceled: seq<OrderCanceled>
    var paid: seq<OrderPaid>
    var seen: set<nat>

    ghost function State(): Booking
      reads this, events
    {
      Booking(orders, events.stock, canceled, paid, seen)
    }

    constructor (events: InventoryService)
      ensures this.events == events
      ensures State() == Booking([], events.stock, [], [], {})
    {
      this.events := events;
      orders, canceled, paid, seen := [], [], [], {};
    }

    // -------------------------------------------------------------- the cart

    /** The cart's seats with their price, its tier requests, and the number of tickets asked for. */
    method Split(items: seq<CartItem>) returns (bad: bool, seats: seq<Item>, worth: nat, requests: seq<Request>, asked: nat)
      ensures bad <==> exists k :: 0 <= k < |items| && !WellFormed(items[k])
      ensures !bad ==>
                seats == SeatItems(items) && worth == Worth(seats) && requests == Requests(items) && asked == Asked(items)
    {
      seats, worth, requests, asked := [], 0, [], 0;
      for n := 0 to |items|
        invariant forall k :: 0 <= k < n ==> WellFormed(items[k])
        invariant seats == SeatItems(items[..n]) && requests == Requests(items[..n]) && asked == Asked(items[..n])
        invariant worth == Worth(seats)
      {
        assert items[..n + 1][..n] == items[..n];
        var item := items[n];
        if item.seat.Some? && item.tier.Some? {
          return true, [], 0, [], 0;
        }
        if item.seat.Some? {
          seats := seats + [Item(None, item.seat, item.seatPrice, 1, false)];
          worth := worth + item.seatPrice;
          asked := asked + 1;
        } else if item.tier.Some? {
          requests := requests + [Request(item.tier.value, item.quantity)];
          asked := asked + item.quantity;
        } else {
          return true, [], 0, [], 0;
        }
      }
      assert items[..|items|] == items;
      bad := false;
    }

    method AlreadyHeld(user: UserId, event: EventId) returns (load: nat)
      ensures load == AccountLoad(orders, user, event)
      ensures load == |AccountTickets(orders, user, event)|
    {
      LoadCountsTickets(orders, user, event);
      load := 0;
      for n := 0 to |orders|
        invariant load == AccountLoad(orders[..n], user, event)
      {
        assert orders[..n + 1][..n] == orders[..n];
        if orders[n].Some? && orders[n].value.user == user && orders[n].value.event == event && orders[n].value.status != Canceled {
          load := load + Quantity(orders[n].value.items);
        }
      }
      assert orders[..|orders|] == orders;
    }

    /** Gives back what a failed cart had acquired so far. */
    method Rollback(acquired: seq<Request>)
      modifies events
      ensures events.stock == Restocked(old(events.stock), Undo(acquired))
    {
      for n := 0 to |acquired|
        invariant events.stock == Restocked(old(events.stock), Undo(acquired[..n]))
      {
        assert acquired[..n + 1][..n] == acquired[..n];
        assert Undo(acquired[..n + 1])[..n] == Undo(acquired[..n]) by { UndoLength(acquired[..n]); }
        events.ReleaseTicketType(acquired[n].tier, acquired[n].quantity);
      }
      assert acquired[..|acquired|] == acquired;
    }

    /** All tiers or none: on the first refusal everything acquired is rolled back. */
    method ReserveAll(requests: seq<Request>, now: int) returns (items: Result<seq<Item>>, worth: nat)
      modifies events
      ensures var after := ReservedAll(old(events.stock), requests, now);
              && events.stock == (if after.Ok? then after.value else old(events.stock))
              && items == (if after.Ok? then Ok(TierItems(old(events.stock), requests)) else Err(after.error))
      ensures items.Ok? ==> worth == Worth(items.value)
      ensures items.Ok? <==> Fits(old(events.stock), requests, now)
      ensures items.Err? ==> events.stock == old(events.stock)
    {
      ReservedAllIffFits(events.stock, requests, now);
      hide Fits;
      hide Restocked;
      hide Undo;
      ghost var start := events.stock;
      var acquired, taken := [], [];
      worth := 0;
      for n := 0 to |requests|
        invariant acquired == requests[..n]
        invariant ReservedAll(start, requests[..n], now) == Ok(events.stock)
        invariant taken == TierItems(start, requests[..n]) && worth == Worth(taken)
      {
        PricesStay(start, acquired, now);
        assert requests[..n + 1][..n] == requests[..n];
        var reserved := events.ReserveTicketType(requests[n].tier, requests[n].quantity, now);
        if reserved.Err? {
          RefusalSticks(start, requests, n + 1, now);
          RollbackRestores(start, acquired, now);
          Rollback(acquired);
          return Err(reserved.error), 0;
        }
        assert reserved.value == PriceOf(start, requests[n].tier);
        acquired := acquired + [requests[n]];
        var admissions := [];
        for k := 0 to requests[n].quantity
          invariant admissions == Admissions(requests[n].tier, reserved.value, k)
        {
          admissions := admissions + [Item(Some(requests[n].tier), None, reserved.value, 1, false)];
        }
        AdmissionsWorth(requests[n].tier, reserved.value, requests[n].quantity);
        WorthConcat(taken, admissions);
        taken := taken + admissions;
        worth := worth + reserved.value * requests[n].quantity;
      }
      assert requests[..|requests|] == requests;
      return Ok(taken), worth;
    }

    method HoldCart(cart: Cart, now: int) returns (r: Result<OrderId>)
      modifies this, events
      ensures var after := AfterHold(old(State()), cart, now);
              && State() == (if after.Ok? then after.value else old(State()))
              && r == (if after.Ok? then Ok(|old(orders)|) else Err(after.error))
      ensures r.Ok? <==> Acceptable(old(orders), old(events.stock), cart, now)
      ensures r.Ok? ==>
                && r.value == |old(orders)| && |orders| == |old(orders)| + 1 && orders[r.value].Some?
                && orders == old(orders) + [orders[r.value]] && Ordered(old(events.stock), cart, now, orders[r.value].value)
                && events.stock == (map t | t in old(events.stock) :: old(events.stock)[t].(sold := old(events.stock)[t].sold + Wanted(cart.items, t)))
                && canceled == old(canceled) && paid == old(paid) && seen == old(seen)
      ensures r.Err? ==> State() == old(State()) && RefusedCart(orders, cart, r.error)
    {
      HeldIffAcceptable(State(), cart, now);
      hide Acceptable;
      hide RefusedCart;
      hide Ordered;
      hide Wanted;
      hide ReservedAll;
      hide TierItems;
      hide SeatItems;
      hide Requests;
      hide Asked;
      hide AccountLoad;
      hide Worth;
      var bad, seats, seatsWorth, requests, asked := Split(cart.items);
      if bad {
        return Err(BadRequest);
      }
      if cart.refusal.Some? {
        return Err(cart.refusal.value);
      }
      if cart.cap.Some? {
        var held := AlreadyHeld(cart.user, cart.event);
        if held + asked > cart.cap.value {
          return Err(BadRequest);
        }
      }
      if cart.window.Some? {
        return Err(cart.window.value);
      }
      if seats != [] && !cart.seatsFree {
        return Err(Conflict);
      }
      ghost var stock := events.stock;
      var items, worth := ReserveAll(requests, now);
      if items.Err? {
        return Err(items.error);
      }
      WorthConcat(seats, items.value);
      var subtotal := seatsWorth + worth;
      var memberDiscount := subtotal * cart.discountPercent / 100;
      var order := Order(cart.user, cart.event, seats + items.value, Pending, subtotal, memberDiscount,
                         subtotal - memberDiscount, now + cart.ttl, false, false, 0);
      assert order == NewOrder(stock, cart, now);
      CartBecomesOrder(stock, cart, now);
      ReservingTakesWanted(stock, cart.items, now);
      orders := orders + [Some(order)];
      return Ok(|orders| - 1);
    }

    // ------------------------------------------------------ releasing the hold

    /** True for the one caller that performs the release. */
    method ReleaseOnce(id: OrderId) returns (performed: bool)
      requires Live(orders, id)
      modifies this`orders, events
      ensures State() == AfterReleaseOnce(old(State()), id)
      ensures performed == !old(orders)[id].value.holdReleased
      ensures orders == old(orders)[id := Some(old(orders)[id].value.(holdReleased := true))]
      ensures events.stock == if performed then GivenBack(old(events.stock), old(orders)[id].value.items) else old(events.stock)
    {
      var order := orders[id].value;
      if order.holdReleased {
        return false;
      }
      orders := orders[id := Some(order.(holdReleased := true))];
      GiveBack(order.items);
      return true;
    }

    method GiveBack(items: seq<Item>)
      modifies events
      ensures events.stock == Restocked(old(events.stock), Lines(items, AllOf(items)))
      ensures events.stock == GivenBack(old(events.stock), items)
    {
      ReleaseGivesBack(events.stock, items);
      hide GivenBack;
      for n := 0 to |items|
        invariant events.stock == Restocked(old(events.stock), Lines(items[..n], AllOf(items)))
      {
        assert items[..n + 1][..n] == items[..n];
        var line := Line(n, items[n].tier, items[n].seat, items[n].quantity);
        assert items[n] in items && n in AllOf(items);
        assert (Lines(items[..n], AllOf(items)) + [line])[..|Lines(items[..n], AllOf(items))|] == Lines(items[..n], AllOf(items));
        if items[n].seat.None? && items[n].tier.Some? {
          events.ReleaseTicketType(items[n].tier.value, items[n].quantity);
        }
      }
      assert items[..|items|] == items;
    }

    method Cancel(id: OrderId, user: UserId) returns (r: Result<()>)
      modifies this`orders, events
      ensures var after := AfterCancel(old(State()), id, user);
              && State() == (if after.Ok? then after.value else old(State()))
              && r == (if after.Ok? then Ok(()) else Err(after.error))
      ensures r.Ok? <==> Live(old(orders), id) && old(orders)[id].value.user == user && old(orders)[id].value.status == Pending
      ensures r.Ok? ==>
                var was := old(orders)[id].value;
                && orders == old(orders)[id := Some(was.(status := Canceled, holdReleased := true))]
                && events.stock == if was.holdReleased then old(events.stock) else GivenBack(old(events.stock), was.items)
      ensures r.Err? ==>
                && State() == old(State())
                && r.error == if !Live(orders, id) then NotFound else if orders[id].value.user != user then Forbidden else BadRequest
    {
      var owned := GetOwned(id, user);
      if owned.Err? {
        return Err(owned.error);
      }
      var order := owned.value;
      if order.status != Pending {
        return Err(BadRequest);
      }
      var _ := ReleaseOnce(id);
      orders := orders[id := Some(orders[id].value.(status := Canceled))];
      return Ok(());
    }

    method Sweep(batch: seq<OrderId>, now: int)
      modifies this`orders, events
      ensures State() == AfterSweep(old(State()), batch, now)
      ensures |orders| == |old(orders)|
      ensures forall id :: 0 <= id < |orders| ==>
                orders[id] == if id in batch && old(orders)[id].Some? && old(orders)[id].value.status == Pending && old(orders)[id].value.expiresAt < now
                              then None else old(orders)[id]
    {
      hide AfterReleaseOnce;
      hide GivenBack;
      for n := 0 to |batch|
        invariant State() == AfterSweep(old(State()), batch[..n], now)
        invariant |orders| == |old(orders)|
        invariant forall id :: 0 <= id < |orders| ==>
                    orders[id] == if id in batch[..n] && old(orders)[id].Some? && old(orders)[id].value.status == Pending && old(orders)[id].value.expiresAt < now
                                  then None else old(orders)[id]
      {
        assert batch[..n + 1][..n] == batch[..n];
        var id := batch[n];
        if id < |orders| && orders[id].Some? && orders[id].value.status == Pending && orders[id].value.expiresAt < now {
          var _ := ReleaseOnce(id);
          orders := orders[id := None];
        }
      }
      assert batch[..|batch|] == batch;
    }

    method OnEventCanceled(envelope: nat, event: EventId)
      modifies this, events
      ensures State() == AfterEventCanceled(old(State()), envelope, event)
      ensures seen == old(seen) + {envelope} && canceled == old(canceled) && paid == old(paid) && |orders| == |old(orders)|
      ensures forall id :: 0 <= id < |orders| ==>
                orders[id] == if envelope !in old(seen) && old(orders)[id].Some? && old(orders)[id].value.status == Pending && old(orders)[id].value.event == event
                              then Some(old(orders)[id].value.(status := Canceled, paymentInProgress := false, holdReleased := true))
                              else old(orders)[id]
      ensures envelope in old(seen) ==> State() == old(State())
    {
      hide AfterReleaseOnce;
      hide GivenBack;
      if envelope in seen {
        return;
      }
      seen := seen + {envelope};
      ghost var start := State();
      for id := 0 to |orders|
        invariant State() == PendingCanceled(start, event, id)
        invariant |orders| == |start.orders| && seen == start.seen && canceled == start.canceled && paid == start.paid
        invariant forall k :: 0 <= k < |orders| ==>
                    orders[k] == if k < id && start.orders[k].Some? && start.orders[k].value.status == Pending && start.orders[k].value.event == event
                                 then Some(start.orders[k].value.(status := Canceled, paymentInProgress := false, holdReleased := true))
                                 else start.orders[k]
      {
        if orders[id].Some? && orders[id].value.status == Pending && orders[id].value.event == event {
          var _ := ReleaseOnce(id);
          orders := orders[id := Some(orders[id].value.(status := Canceled, paymentInProgress := false))];
        }
      }
    }

    // --------------------------------------------------------------- payment

    method StartPayment(id: OrderId, user: UserId, now: int) returns (r: Result<()>)
      modifies this`orders
      ensures var after := AfterStartPayment(old(State()), id, user, now);
              && State() == (if after.Ok? then after.value else old(State()))
              && r == (if after.Ok? then Ok(()) else Err(after.error))
      ensures r.Ok? <==>
                && Live(old(orders), id) && old(orders)[id].value.user == user && old(orders)[id].value.status == Pending
                && now < old(orders)[id].value.expiresAt
      ensures r.Ok? ==> orders == old(orders)[id := Some(old(orders)[id].value.(paymentInProgress := true))]
      ensures r.Err? ==>
                && State() == old(State())
                && r.error == if !Live(orders, id) then NotFound else if orders[id].value.user != user then Forbidden else BadRequest
    {
      var owned := GetOwned(id, user);
      if owned.Err? {
        return Err(owned.error);
      }
      var order := owned.value;
      if order.status != Pending || order.expiresAt <= now {
        return Err(BadRequest);
      }
      orders := orders[id := Some(order.(paymentInProgress := true))];
      return Ok(());
    }

    method ApplyDiscount(id: OrderId, user: UserId, worth: Option<nat>) returns (r: Result<()>)
      modifies this`orders
      ensures var after := AfterApplyDiscount(old(State()), id, user, worth);
              && State() == (if after.Ok? then after.value else old(State()))
              && r == (if after.Ok? then Ok(()) else Err(after.error))
      ensures r.Ok? <==>
                Live(old(orders), id) && old(orders)[id].value.user == user && old(orders)[id].value.status == Pending && worth.Some?
      ensures r.Ok? ==>
                var was := old(orders)[id].value;
                var rest := was.subtotal - was.memberDiscount;
                orders == old(orders)[id := Some(was.(total := if worth.value <= rest then rest - worth.value else 0))]
      ensures r.Err? ==>
                && State() == old(State())
                && r.error == if !Live(orders, id) then NotFound else if orders[id].value.user != user then Forbidden else BadRequest
    {
      var owned := GetOwned(id, user);
      if owned.Err? {
        return Err(owned.error);
      }
      var order := owned.value;
      if order.status != Pending || worth.None? {
        return Err(BadRequest);
      }
      var rest := order.subtotal - order.memberDiscount;
      orders := orders[id := Some(order.(total := rest - Min(worth.value, rest)))];
      return Ok(());
    }

    /** The user's own pending order, not expired, that costs nothing. */
    static ghost predicate Confirmable(orders: Orders, id: OrderId, user: UserId, now: int) {
      && Live(orders, id) && orders[id].value.user == user && orders[id].value.status == Pending
      && orders[id].value.total == 0 && now < orders[id].value.expiresAt
    }

    method ConfirmFree(id: OrderId, user: UserId, lost: set<nat>, now: int) returns (r: Result<()>)
      modifies this`orders, this`paid
      ensures var after := AfterConfirmFree(old(State()), id, user, lost, now);
              && State() == (if after.Ok? then after.value else old(State()))
              && r == (if after.Ok? then Ok(()) else Err(after.error))
      ensures r.Ok? <==> Confirmable(old(orders), id, user, now) && !old(orders)[id].value.paymentInProgress && !SeatLost(old(orders)[id].value.items, lost)
      ensures r.Ok? ==>
                var was := old(orders)[id].value;
                && orders == old(orders)[id := Some(was.(status := Paid, paymentInProgress := true))]
                && paid == old(paid) + [OrderPaid(id, |was.items|)]
      ensures r.Err? ==>
                && State() == old(State())
                && r.error == if !Live(orders, id) then NotFound else if orders[id].value.user != user then Forbidden
                              else if Confirmable(orders, id, user, now) then Conflict else BadRequest
    {
      var owned := GetOwned(id, user);
      if owned.Err? {
        return Err(owned.error);
      }
      var order := owned.value;
      if order.status != Pending || order.total != 0 || order.expiresAt <= now {
        return Err(BadRequest);
      }
      if order.paymentInProgress {
        return Err(Conflict);
      }
      orders := orders[id := Some(order.(paymentInProgress := true))];
      var done := MarkPaid(id, lost);
      if !done {
        orders := orders[id := Some(orders[id].value.(paymentInProgress := false))];
        return Err(Conflict);
      }
      return Ok(());
    }

    /** Confirms seat by seat; one lost hold keeps the whole order from being PAID. */
    method MarkPaid(id: OrderId, lost: set<nat>) returns (done: bool)
      requires Live(orders, id)
      modifies this`orders, this`paid
      ensures done == !HoldLost(old(orders)[id].value.items, lost)
      ensures State() == if done then AfterMarkPaid(old(State()), id) else old(State())
      ensures done <==> !SeatLost(old(orders)[id].value.items, lost)
      ensures done ==>
                && orders == old(orders)[id := Some(old(orders)[id].value.(status := Paid))]
                && paid == old(paid) + [OrderPaid(id, |old(orders)[id].value.items|)]
    {
      var order := orders[id].value;
      var anyHoldLost := false;
      for k := 0 to |order.items|
        invariant anyHoldLost <==> exists j :: 0 <= j < k && order.items[j].seat.Some? && j in lost
      {
        if order.items[k].seat.Some? && k in lost {
          anyHoldLost := true;
        }
      }
      if anyHoldLost {
        return false;
      }
      orders := orders[id := Some(order.(status := Paid))];
      paid := paid + [OrderPaid(id, |order.items|)];
      return true;
    }

    method OnPaymentSucceeded(envelope: nat, id: OrderId, lost: set<nat>)
      modifies this`orders, this`paid, this`seen
      ensures State() == AfterPaymentSucceeded(old(State()), envelope, id, lost)
      ensures seen == old(seen) + {envelope}
      ensures if envelope !in old(seen) && IsPending(old(orders), id) && !SeatLost(old(orders)[id].value.items, lost)
              then
                && orders == old(orders)[id := Some(old(orders)[id].value.(status := Paid))]
                && paid == old(paid) + [OrderPaid(id, |old(orders)[id].value.items|)]
              else orders == old(orders) && paid == old(paid)
    {
      if envelope in seen {
        return;
      }
      seen := seen + {envelope};
      if id >= |orders| || orders[id].None? || orders[id].value.status != Pending {
        return;
      }
      var _ := MarkPaid(id, lost);
    }

    method OnPaymentFailed(envelope: nat, id: OrderId)
      modifies this`orders, this`seen, events
      ensures State() == AfterPaymentFailed(old(State()), envelope, id)
      ensures seen == old(seen) + {envelope}
      ensures if envelope !in old(seen) && IsPending(old(orders), id)
              then
                var was := old(orders)[id].value;
                && orders == old(orders)[id := None]
                && events.stock == if was.holdReleased then old(events.stock) else GivenBack(old(events.stock), was.items)
              else orders == old(orders) && events.stock == old(events.stock)
    {
      if envelope in seen {
        return;
      }
      seen := seen + {envelope};
      if id >= |orders| || orders[id].None? || orders[id].value.status != Pending {
        return;
      }
      var _ := ReleaseOnce(id);
      orders := orders[id := None];
    }

    // ---------------------------------------------------- refunds and tickets

    method OnRefundApproved(envelope: nat, id: OrderId, requested: seq<nat>, amount: nat)
      modifies this`orders, this`canceled, this`seen
      ensures State() == AfterRefundApproved(old(State()), envelope, id, requested, amount)
      ensures seen == old(seen) + {envelope}
      ensures envelope in old(seen) || !Live(old(orders), id) || old(orders)[id].value.status == Canceled ==>
                orders == old(orders) && canceled == old(canceled)
      ensures envelope !in old(seen) && Live(old(orders), id) && old(orders)[id].value.status != Canceled ==>
                && Live(orders, id) && orders == old(orders)[id := orders[id]]
                && RefundedFor(old(orders)[id].value, orders[id].value, requested, amount)
                && Announced(id, old(orders)[id].value, orders[id].value, old(canceled), canceled)
    {
      if envelope in seen {
        return;
      }
      seen := seen + {envelope};
      if id >= |orders| || orders[id].None? || orders[id].value.status == Canceled {
        return;
      }
      hide AfterRefund;
      hide RefundedFor;
      hide Announced;
      Refund(id, requested, amount);
    }

    method Refund(id: OrderId, requested: seq<nat>, amount: nat)
      requires Live(orders, id)
      modifies this`orders, this`canceled
      ensures State() == AfterRefund(old(State()), id, requested, amount)
      ensures Live(orders, id) && orders == old(orders)[id := orders[id]]
      ensures RefundedFor(old(orders)[id].value, orders[id].value, requested, amount)
      ensures Announced(id, old(orders)[id].value, orders[id].value, old(canceled), canceled)
    {
      var order := orders[id].value;
      var chosen := Chosen(order.items, requested);
      RefundAsPromised(id, order, requested, amount, canceled);
      NoneRemains(order.items, chosen);
      hide AllRefunded;
      hide Chosen;
      hide Marked;
      hide RefundedFor;
      hide Announced;
      hide Lines;
      hide Remaining;
      var fullyCanceled := Remaining(order.items, chosen) == {};
      orders := orders[id := Some(order.(items := Marked(order.items, chosen), refundedAmount := order.refundedAmount + amount,
                                         status := if fullyCanceled then Canceled else order.status))];
      assert orders[id].value == RefundedOrder(order, chosen, amount);
      if chosen != {} {
        canceled := canceled + [OrderCanceled(id, Lines(order.items, chosen), !fullyCanceled)];
      }
      assert State() == AfterRefund(old(State()), id, requested, amount);
    }

    method OnTicketIssued(id: OrderId)
      modifies this`orders
      ensures State() == AfterTicketIssued(old(State()), id)
      ensures orders == if Live(old(orders), id) && old(orders)[id].value.status == Paid
                        then old(orders)[id := Some(old(orders)[id].value.(status := TicketIssued))] else old(orders)
    {
      if id < |orders| && orders[id].Some? && orders[id].value.status == Paid {
        orders := orders[id := Some(orders[id].value.(status := TicketIssued))];
      }
    }

    method GetOwned(id: OrderId, user: UserId) returns (r: Result<Order>)
      ensures r == Owned(orders, id, user)
    {
      if id >= |orders| || orders[id].None? {
        return Err(NotFound);
      }
      if orders[id].value.user != user {
        return Err(Forbidden);
      }
      return Ok(orders[id].value);
    }
  }
}
