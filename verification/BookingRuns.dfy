/**
 * The booking saga over whole runs, under duplicated and reordered messages: stock
 * is conserved, every refunded item is given back by exactly one OrderCanceled,
 * every item gets one ticket at most, and no order leaves CANCELED.
 */
module BookingRuns {
  import opened Common
  import opened Inventory
  import opened Orders
  import opened BookingWorld
  import opened BookingStock

  // ----------------------------------------------------------- OrderCanceled

  /** Line `x` of message `m` is about item `k` of order `id`. */
  predicate Names(canceled: seq<OrderCanceled>, m: nat, x: nat, id: OrderId, k: nat) {
    m < |canceled| && canceled[m].order == id && x < |canceled[m].lines| && canceled[m].lines[x].index == k
  }

  predicate RefundedItem(orders: Orders, id: OrderId, k: nat) {
    Live(orders, id) && k < |orders[id].value.items| && orders[id].value.items[k].refunded
  }

  function LineOf(orders: Orders, id: OrderId, k: nat): Line
    requires Live(orders, id) && k < |orders[id].value.items|
  {
    var item := orders[id].value.items[k];
    Line(k, item.tier, item.seat, item.quantity)
  }

  ghost predicate NamedItemsRefunded(orders: Orders, canceled: seq<OrderCanceled>) {
    forall m: nat, x: nat, id: OrderId, k: nat :: Names(canceled, m, x, id, k) ==>
      && RefundedItem(orders, id, k)
      && orders[id].value.status != Pending
      && canceled[m].lines[x] == LineOf(orders, id, k)
  }

  ghost predicate RefundedItemsNamed(orders: Orders, canceled: seq<OrderCanceled>) {
    forall id: OrderId, k: nat :: RefundedItem(orders, id, k) ==> exists m: nat, x: nat :: Names(canceled, m, x, id, k)
  }

  ghost predicate NamedOnce(canceled: seq<OrderCanceled>) {
    forall m: nat, x: nat, n: nat, y: nat, id: OrderId, k: nat ::
      Names(canceled, m, x, id, k) && Names(canceled, n, y, id, k) ==> m == n && x == y
  }

  /** Refunded items and published OrderCanceled lines are in one-to-one correspondence. */
  ghost predicate Traced(orders: Orders, canceled: seq<OrderCanceled>) {
    NamedItemsRefunded(orders, canceled) && RefundedItemsNamed(orders, canceled) && NamedOnce(canceled)
  }

  // ---------------------------------------------------------- tickets and rows

  predicate HasTicket(tickets: seq<TicketRow>, id: OrderId, k: nat) {
    TicketRow(id, k) in tickets
  }

  ghost predicate FullyTicketed(tickets: seq<TicketRow>, id: OrderId, items: nat) {
    forall k: nat :: k < items ==> HasTicket(tickets, id, k)
  }

  /** The order was paid once, so its row and its item list stay, and its hold is never released. */
  predicate Kept(orders: Orders, id: OrderId, items: nat) {
    && Live(orders, id) && orders[id].value.status != Pending
    && |orders[id].value.items| == items && !orders[id].value.holdReleased
  }

  ghost predicate OneTicketEach(tickets: seq<TicketRow>) {
    forall i, j :: 0 <= i < j < |tickets| ==> tickets[i] != tickets[j]
  }

  ghost predicate PaidKept(orders: Orders, paid: seq<OrderPaid>) {
    forall j :: 0 <= j < |paid| ==> Kept(orders, paid[j].order, paid[j].items)
  }

  ghost predicate IssuedTicketed(orders: Orders, issuer: Issuer) {
    forall j :: 0 <= j < |issuer.issued| ==>
      Live(orders, issuer.issued[j]) && orders[issuer.issued[j]].value.status != Pending
      && FullyTicketed(issuer.tickets, issuer.issued[j], |orders[issuer.issued[j]].value.items|)
  }

  ghost predicate StatusTicketed(orders: Orders, tickets: seq<TicketRow>) {
    forall id: OrderId :: Live(orders, id) && orders[id].value.status == TicketIssued ==>
      FullyTicketed(tickets, id, |orders[id].value.items|)
  }

  ghost predicate RowsKept(orders: Orders, tickets: seq<TicketRow>) {
    forall row :: row in tickets ==>
      Live(orders, row.order) && orders[row.order].value.status != Pending && row.item < |orders[row.order].value.items|
  }

  ghost predicate TicketsOk(b: Booking, issuer: Issuer) {
    && OneTicketEach(issuer.tickets)
    && PaidKept(b.orders, b.paid)
    && IssuedTicketed(b.orders, issuer)
    && StatusTicketed(b.orders, issuer.tickets)
    && RowsKept(b.orders, issuer.tickets)
  }

  // ------------------------------------------------------- what never reverts

  ghost predicate SameItems(before: seq<Item>, after: seq<Item>) {
    |before| == |after| &&
    forall k :: 0 <= k < |before| ==> after[k] == before[k] || after[k] == before[k].(refunded := true)
  }

  ghost predicate Onward(o: Order, o': Order) {
    && (o.status != Pending ==> o'.status != Pending && o'.holdReleased == o.holdReleased)
    && (o.status == Canceled ==> o' == o)
    && (o.status == TicketIssued ==> o'.status in {TicketIssued, Canceled})
    && o'.user == o.user && o'.event == o.event && SameItems(o.items, o'.items)
  }

  /** Ids are not reused, only a pending order is deleted, and the others only move onward. */
  ghost predicate Advances(before: Orders, after: Orders) {
    |before| <= |after| && forall id: OrderId :: id < |before| ==>
      && (before[id].None? ==> after[id].None?)
      && (before[id].Some? && after[id].None? ==> before[id].value.status == Pending)
      && (before[id].Some? && after[id].Some? ==> Onward(before[id].value, after[id].value))
  }

  lemma AdvancesTransitive(a: Orders, b: Orders, c: Orders)
    requires Advances(a, b) && Advances(b, c)
    ensures Advances(a, c)
  {
    forall id: OrderId | id < |a| && a[id].Some?
      ensures c[id].None? ==> a[id].value.status == Pending
      ensures c[id].Some? ==> Onward(a[id].value, c[id].value)
    {
      assert b[id].Some? ==> Onward(a[id].value, b[id].value);
      assert b[id].Some? && c[id].Some? ==> Onward(b[id].value, c[id].value);
    }
  }

  // ----------------------------------------------------------- one change each

  ghost predicate BookingOk(b: Booking, restocked: set<nat>) {
    && OrdersOk(b.orders)
    && Balanced(b.orders, b.stock, b.canceled, restocked)
    && Traced(b.orders, b.canceled)
    && PaidKept(b.orders, b.paid)
    && (forall m :: m in restocked ==> m < |b.canceled|)
  }

  ghost predicate Fine(b: Booking, after: Booking, restocked: set<nat>) {
    && BookingOk(after, restocked)
    && Advances(b.orders, after.orders)
    && after.stock.Keys == b.stock.Keys
  }

  /** No order has become TICKET_ISSUED. */
  ghost predicate NoneIssued(before: Orders, after: Orders) {
    forall id: OrderId :: Live(after, id) && after[id].value.status == TicketIssued ==>
      Live(before, id) && before[id].value.status == TicketIssued
  }

  lemma TraceKept(orders: Orders, canceled: seq<OrderCanceled>, id: OrderId, row: Option<Order>)
    requires Traced(orders, canceled) && Live(orders, id)
    requires row.Some? ==> row.value.items == orders[id].value.items
    requires orders[id].value.status == Pending ==> forall k :: 0 <= k < |orders[id].value.items| ==> !orders[id].value.items[k].refunded
    requires orders[id].value.status != Pending ==> row.Some? && row.value.status != Pending
    ensures Traced(orders[id := row], canceled)
  {
    var after := orders[id := row];
    assert NamedItemsRefunded(after, canceled) by {
      hide RefundedItemsNamed;
      hide NamedOnce;
    }
    forall i: OrderId, k: nat | RefundedItem(after, i, k)
      ensures exists m: nat, x: nat :: Names(canceled, m, x, i, k)
    {
      hide NamedItemsRefunded;
      hide NamedOnce;
      assert RefundedItem(orders, i, k);
    }
  }

  /** A status or flag changes; items and hold stay. */
  lemma TouchIsFine(b: Booking, restocked: set<nat>, id: OrderId, o: Order)
    requires BookingOk(b, restocked) && Live(b.orders, id)
    requires var was := b.orders[id].value;
             && o.items == was.items && !o.holdReleased && !was.holdReleased && o.status != Canceled && was.status != Canceled
             && o.user == was.user && o.event == was.event
             && (was.status != Pending ==> o.status != Pending)
             && (was.status == TicketIssued ==> o.status == TicketIssued)
    ensures Fine(b, WithOrder(b, id, o), restocked)
  {
    KeepBalanced(b.orders, b.stock, b.canceled, restocked, id, o);
    hide Balanced;
    assert OrderOk(b.orders[id].value);
    TraceKept(b.orders, b.canceled, id, Some(o));
    hide Traced;
    assert OrderOk(o);
  }

  predicate SameCart(o: Order, o': Order) {
    o.user == o'.user && o.event == o'.event && o.items == o'.items
  }

  /** A pending order is released, then canceled or deleted. */
  lemma CloseIsFine(b: Booking, restocked: set<nat>, id: OrderId, row: Option<Order>)
    requires BookingOk(b, restocked) && IsPending(b.orders, id)
    requires row.Some? ==> SameCart(row.value, b.orders[id].value) && row.value.holdReleased && row.value.status == Canceled
    ensures var items := b.orders[id].value.items;
            Fine(b, b.(orders := b.orders[id := row], stock := Restocked(b.stock, Lines(items, AllOf(items)))), restocked)
  {
    assert OrderOk(b.orders[id].value);
    ReleaseBalanced(b.orders, b.stock, b.canceled, restocked, id, row);
    RestockGivesBack(b.stock, Lines(b.orders[id].value.items, AllOf(b.orders[id].value.items)));
    hide Balanced;
    hide Restocked;
    hide Lines;
    TraceKept(b.orders, b.canceled, id, row);
    hide Traced;
    assert row.Some? ==> OrderOk(row.value);
  }

  lemma MarkingIsFine(b: Booking, restocked: set<nat>, envelope: nat)
    requires BookingOk(b, restocked)
    ensures Fine(b, Marking(b, envelope), restocked)
  {
    hide Balanced;
    hide Traced;
  }

  lemma AppendIsFine(b: Booking, after: Booking, restocked: set<nat>, o: Order)
    requires BookingOk(b, restocked)
    requires after.orders == b.orders + [Some(o)] && after.canceled == b.canceled && after.paid == b.paid
    requires after.stock.Keys == b.stock.Keys && Balanced(after.orders, after.stock, after.canceled, restocked)
    requires o.items != [] && o.status == Pending && !o.holdReleased && forall k :: 0 <= k < |o.items| ==> !o.items[k].refunded
    ensures Fine(b, after, restocked) && NoneIssued(b.orders, after.orders)
  {
    hide Balanced;
    assert forall id: OrderId :: Live(after.orders, id) && id < |b.orders| ==> Live(b.orders, id) && after.orders[id] == b.orders[id];
    assert !o.items[0].refunded && OrderOk(o);
    assert Traced(after.orders, b.canceled) by {
      forall i: OrderId, k: nat | RefundedItem(after.orders, i, k)
        ensures exists m: nat, x: nat :: Names(b.canceled, m, x, i, k)
      {
        assert RefundedItem(b.orders, i, k);
      }
    }
    hide Traced;
  }

  lemma HoldIsFine(b: Booking, restocked: set<nat>, cart: Cart, now: int)
    requires BookingOk(b, restocked) && AfterHold(b, cart, now).Ok? && cart.items != []
    requires forall k :: 0 <= k < |cart.items| ==> cart.items[k].quantity > 0
    ensures var after := AfterHold(b, cart, now).value; Fine(b, after, restocked) && NoneIssued(b.orders, after.orders)
  {
    HoldBalanced(b.orders, b.stock, b.canceled, restocked, cart, now);
    CartBecomesItems(b.stock, cart, now);
    ReservedAllAdds(b.stock, Requests(cart.items), now);
    hide BookingOk;
    hide Balanced;
    hide ReservedAll;
    hide CartRefusal;
    AppendIsFine(b, AfterHold(b, cart, now).value, restocked, NewOrder(b.stock, cart, now));
  }

  /** A well-formed cart becomes a nonempty, unreleased, unrefunded pending order. */
  lemma CartBecomesItems(stock: Stock, cart: Cart, now: int)
    requires cart.items != [] && forall k :: 0 <= k < |cart.items| ==> cart.items[k].quantity > 0 && WellFormed(cart.items[k])
    ensures var o := NewOrder(stock, cart, now);
            && o.items != [] && o.status == Pending && !o.holdReleased
            && forall k :: 0 <= k < |o.items| ==> !o.items[k].refunded
  {
    NothingRefundedYet(stock, cart.items, Requests(cart.items));
  }

  lemma {:induction false} NothingRefundedYet(stock: Stock, items: seq<CartItem>, requests: seq<Request>)
    ensures forall k :: 0 <= k < |SeatItems(items)| ==> !SeatItems(items)[k].refunded
    ensures forall k :: 0 <= k < |TierItems(stock, requests)| ==> !TierItems(stock, requests)[k].refunded
    decreases |items| + |requests|
  {
    if items != [] {
      NothingRefundedYet(stock, items[..|items| - 1], requests);
    }
    if requests != [] {
      var last := requests[|requests| - 1];
      NothingRefundedYet(stock, items, requests[..|requests| - 1]);
      AdmissionsNotRefunded(last.tier, PriceOf(stock, last.tier), last.quantity);
    }
  }

  lemma {:induction false} AdmissionsNotRefunded(tier: TierId, price: nat, count: nat)
    ensures forall k :: 0 <= k < |Admissions(tier, price, count)| ==> !Admissions(tier, price, count)[k].refunded
  {
    if count > 0 {
      AdmissionsNotRefunded(tier, price, count - 1);
    }
  }

  // ------------------------------------------------------------------ refunds

  lemma NewNames(canceled: seq<OrderCanceled>, message: OrderCanceled)
    ensures forall m: nat, x: nat, i: OrderId, k: nat :: Names(canceled + [message], m, x, i, k) <==>
              Names(canceled, m, x, i, k) ||
              (m == |canceled| && i == message.order && x < |message.lines| && message.lines[x].index == k)
  {
  }

  lemma RefundNamesOnce(canceled: seq<OrderCanceled>, orders: Orders, message: OrderCanceled, chosen: set<nat>)
    requires NamedOnce(canceled) && NamedItemsRefunded(orders, canceled) && Live(orders, message.order)
    requires var o := orders[message.order].value;
             && (forall k :: k in chosen ==> k < |o.items| && !o.items[k].refunded)
             && OneLineEach(message.lines, o.items, chosen)
    ensures NamedOnce(canceled + [message])
  {
    NewNames(canceled, message);
    forall m: nat, x: nat, n: nat, y: nat, i: OrderId, k: nat
      | Names(canceled + [message], m, x, i, k) && Names(canceled + [message], n, y, i, k)
      ensures m == n && x == y
    {
      hide Names;
      assert Names(canceled, m, x, i, k) ==> RefundedItem(orders, i, k);
      assert Names(canceled, n, y, i, k) ==> RefundedItem(orders, i, k);
      assert m == |canceled| && x < |message.lines| ==> message.lines[x].index in chosen;
      assert n == |canceled| && y < |message.lines| ==> message.lines[y].index in chosen;
    }
  }

  lemma RefundNamesRefunded(canceled: seq<OrderCanceled>, orders: Orders, message: OrderCanceled, chosen: set<nat>, o': Order)
    requires NamedItemsRefunded(orders, canceled) && Live(orders, message.order)
    requires var o := orders[message.order].value;
             && o'.items == Marked(o.items, chosen) && o'.status != Pending
             && OneLineEach(message.lines, o.items, chosen)
    ensures NamedItemsRefunded(orders[message.order := Some(o')], canceled + [message])
  {
    var after := orders[message.order := Some(o')];
    var o := orders[message.order].value;
    NewNames(canceled, message);
    forall m: nat, x: nat, i: OrderId, k: nat | Names(canceled + [message], m, x, i, k)
      ensures RefundedItem(after, i, k) && after[i].value.status != Pending
      ensures (canceled + [message])[m].lines[x] == LineOf(after, i, k)
    {
      if Names(canceled, m, x, i, k) {
        assert RefundedItem(orders, i, k);
        assert i == message.order ==> o'.items[k] == o.items[k].(refunded := true);
      } else {
        assert message.lines[x].index in chosen && message.lines[x] == ItemLine(o.items, k);
        assert o'.items[k] == o.items[k].(refunded := true);
      }
    }
  }

  lemma RefundNamesAll(canceled: seq<OrderCanceled>, orders: Orders, message: OrderCanceled, chosen: set<nat>, o': Order)
    requires RefundedItemsNamed(orders, canceled) && Live(orders, message.order)
    requires var o := orders[message.order].value;
             o'.items == Marked(o.items, chosen) && OneLineEach(message.lines, o.items, chosen)
    ensures RefundedItemsNamed(orders[message.order := Some(o')], canceled + [message])
  {
    var after := orders[message.order := Some(o')];
    forall i: OrderId, k: nat | RefundedItem(after, i, k)
      ensures exists m: nat, x: nat :: Names(canceled + [message], m, x, i, k)
    {
      if i == message.order && k in chosen {
        var x: nat :| x < |message.lines| && message.lines[x].index == k;
        assert Names(canceled + [message], |canceled|, x, i, k);
      } else {
        assert RefundedItem(orders, i, k);
        var m: nat, x: nat :| Names(canceled, m, x, i, k);
        assert Names(canceled + [message], m, x, i, k);
      }
    }
  }

  lemma RefundFitsIn(b: Booking, after: Booking, restocked: set<nat>, id: OrderId, o': Order)
    requires BookingOk(b, restocked) && Live(b.orders, id) && b.orders[id].value.status != Canceled
    requires after.orders == b.orders[id := Some(o')] && after.paid == b.paid && after.stock == b.stock && |after.canceled| >= |b.canceled|
    requires OrderOk(o') && Onward(b.orders[id].value, o')
    requires Traced(after.orders, after.canceled) && Balanced(after.orders, after.stock, after.canceled, restocked)
    ensures Fine(b, after, restocked)
  {
    hide Traced;
    hide Balanced;
    hide OrderOk;
  }

  lemma RefundIsFine(b: Booking, restocked: set<nat>, id: OrderId, requested: seq<nat>, amount: nat)
    requires BookingOk(b, restocked) && Live(b.orders, id) && b.orders[id].value.status != Canceled
    requires requested != [] ==> b.orders[id].value.status != Pending
    ensures Fine(b, AfterRefund(b, id, requested, amount), restocked)
  {
    var o := b.orders[id].value;
    var chosen := Chosen(o.items, requested);
    var o' := RefundedOrder(o, chosen, amount);
    assert OrderOk(o);
    RefundedOrderOk(o, requested, amount);
    if chosen == {} {
      TouchIsFine(b, restocked, id, o');
    } else {
      RefundSentIsFine(b, restocked, id, chosen, amount);
      RefundFitsIn(b, AfterRefund(b, id, requested, amount), restocked, id, o');
    }
  }

  lemma RefundSentIsFine(b: Booking, restocked: set<nat>, id: OrderId, chosen: set<nat>, amount: nat)
    requires BookingOk(b, restocked) && Live(b.orders, id) && !b.orders[id].value.holdReleased
    requires var o := b.orders[id].value;
             && (forall k :: k in chosen ==> k < |o.items| && !o.items[k].refunded)
             && RefundedOrder(o, chosen, amount).status != Pending
    ensures var o := b.orders[id].value;
            var o' := RefundedOrder(o, chosen, amount);
            var orders := b.orders[id := Some(o')];
            var canceled := b.canceled + [OrderCanceled(id, Lines(o.items, chosen), !AllRefunded(o'.items))];
            Traced(orders, canceled) && Balanced(orders, b.stock, canceled, restocked)
  {
    var o := b.orders[id].value;
    var o' := RefundedOrder(o, chosen, amount);
    var message := OrderCanceled(id, Lines(o.items, chosen), !AllRefunded(o'.items));
    assert o'.items == Marked(o.items, chosen);
    LinesNameChosen(o.items, chosen);
    hide Lines;
    hide RefundedOrder;
    hide OneLineEach;
    hide NamedOnce;
    hide NamedItemsRefunded;
    hide RefundedItemsNamed;
    RefundBalanced(b.orders, b.stock, b.canceled, restocked, id, chosen, amount, message.partial);
    RefundNamesOnce(b.canceled, b.orders, message, chosen);
    RefundNamesRefunded(b.canceled, b.orders, message, chosen, o');
    RefundNamesAll(b.canceled, b.orders, message, chosen, o');
  }

  /** An order is CANCELED by a refund exactly when its last item goes. */
  lemma RefundedOrderOk(o: Order, requested: seq<nat>, amount: nat)
    requires OrderOk(o) && o.status != Canceled && (requested != [] ==> o.status != Pending)
    ensures var chosen := Chosen(o.items, requested);
            var o' := RefundedOrder(o, chosen, amount);
            && OrderOk(o') && o'.status != Pending && Onward(o, o') && !o'.holdReleased
            && (chosen == {} ==> o'.items == o.items && o'.status == o.status)
            && (forall k :: k in chosen ==> k < |o.items| && !o.items[k].refunded)
  {
    var chosen := Chosen(o.items, requested);
    var items := Marked(o.items, chosen);
    assert SameItems(o.items, items);
    if requested == [] {
      assert AllRefunded(items) by {
        forall k | 0 <= k < |items|
          ensures items[k].refunded
        {
          assert !o.items[k].refunded ==> k in chosen;
        }
      }
    }
    if chosen == {} {
      assert items == o.items;
    }
  }

  // ------------------------------------------------------------- each handler

  lemma FineTransitive(a: Booking, b: Booking, c: Booking, restocked: set<nat>)
    requires Fine(a, b, restocked) && Fine(b, c, restocked) && NoneIssued(a.orders, b.orders) && NoneIssued(b.orders, c.orders)
    ensures Fine(a, c, restocked) && NoneIssued(a.orders, c.orders)
  {
    AdvancesTransitive(a.orders, b.orders, c.orders);
    hide Advances;
    hide BookingOk;
  }

  /** `id` closes in `after`: released, then canceled or deleted. */
  lemma CloseIsQuiet(b: Booking, restocked: set<nat>, id: OrderId, row: Option<Order>)
    requires BookingOk(b, restocked) && IsPending(b.orders, id)
    requires row.Some? ==> SameCart(row.value, b.orders[id].value) && row.value.holdReleased && row.value.status == Canceled
    ensures var after := AfterReleaseOnce(b, id);
            var closed := after.(orders := after.orders[id := row]);
            Fine(b, closed, restocked) && NoneIssued(b.orders, closed.orders)
  {
    assert OrderOk(b.orders[id].value);
    CloseIsFine(b, restocked, id, row);
    var after := AfterReleaseOnce(b, id);
    assert after.orders[id := row] == b.orders[id := row];
    hide Fine;
    hide Restocked;
    hide Lines;
  }

  lemma CancelIsFine(b: Booking, restocked: set<nat>, id: OrderId, user: UserId)
    requires BookingOk(b, restocked) && AfterCancel(b, id, user).Ok?
    ensures Fine(b, AfterCancel(b, id, user).value, restocked) && NoneIssued(b.orders, AfterCancel(b, id, user).value.orders)
  {
    assert OrderOk(b.orders[id].value);
    CloseIsQuiet(b, restocked, id, Some(b.orders[id].value.(holdReleased := true, status := Canceled)));
    hide Fine;
    hide Restocked;
  }

  lemma SweptOneIsFine(b: Booking, restocked: set<nat>, id: OrderId, now: int)
    requires BookingOk(b, restocked)
    ensures Fine(b, SweptOne(b, id, now), restocked) && NoneIssued(b.orders, SweptOne(b, id, now).orders)
  {
    if SweptOne(b, id, now) != b {
      CloseIsQuiet(b, restocked, id, None);
    }
  }

  lemma {:induction false} SweepIsFine(b: Booking, restocked: set<nat>, batch: seq<OrderId>, now: int)
    requires BookingOk(b, restocked)
    ensures Fine(b, AfterSweep(b, batch, now), restocked) && NoneIssued(b.orders, AfterSweep(b, batch, now).orders)
  {
    if batch != [] {
      var front := batch[..|batch| - 1];
      SweepIsFine(b, restocked, front, now);
      SweptOneIsFine(AfterSweep(b, front, now), restocked, batch[|batch| - 1], now);
      FineTransitive(b, AfterSweep(b, front, now), AfterSweep(b, batch, now), restocked);
    }
  }

  lemma CanceledWithEventIsFine(b: Booking, restocked: set<nat>, id: OrderId, event: EventId)
    requires BookingOk(b, restocked)
    ensures var after := CanceledWithEvent(b, id, event); Fine(b, after, restocked) && NoneIssued(b.orders, after.orders)
  {
    if CanceledWithEvent(b, id, event) != b {
      assert OrderOk(b.orders[id].value);
      CloseIsQuiet(b, restocked, id, Some(b.orders[id].value.(holdReleased := true, status := Canceled, paymentInProgress := false)));
      hide Fine;
      hide Restocked;
    }
  }

  lemma {:induction false} PendingCanceledIsFine(b: Booking, restocked: set<nat>, event: EventId, n: nat)
    requires BookingOk(b, restocked)
    ensures var after := PendingCanceled(b, event, n); Fine(b, after, restocked) && NoneIssued(b.orders, after.orders)
  {
    if n > 0 {
      PendingCanceledIsFine(b, restocked, event, n - 1);
      CanceledWithEventIsFine(PendingCanceled(b, event, n - 1), restocked, n - 1, event);
      FineTransitive(b, PendingCanceled(b, event, n - 1), PendingCanceled(b, event, n), restocked);
    }
  }

  lemma EventCanceledIsFine(b: Booking, restocked: set<nat>, envelope: nat, event: EventId)
    requires BookingOk(b, restocked)
    ensures var after := AfterEventCanceled(b, envelope, event); Fine(b, after, restocked) && NoneIssued(b.orders, after.orders)
  {
    MarkingIsFine(b, restocked, envelope);
    PendingCanceledIsFine(Marking(b, envelope), restocked, event, |b.orders|);
    FineTransitive(b, Marking(b, envelope), PendingCanceled(Marking(b, envelope), event, |b.orders|), restocked);
    hide PendingCanceled;
  }

  lemma MarkPaidIsFine(b: Booking, restocked: set<nat>, id: OrderId)
    requires BookingOk(b, restocked) && IsPending(b.orders, id)
    ensures Fine(b, AfterMarkPaid(b, id), restocked) && NoneIssued(b.orders, AfterMarkPaid(b, id).orders)
  {
    assert OrderOk(b.orders[id].value);
    TouchIsFine(b, restocked, id, b.orders[id].value.(status := Paid));
    hide Balanced;
    hide Traced;
    hide OrdersOk;
  }

  lemma ApplyDiscountIsFine(b: Booking, restocked: set<nat>, id: OrderId, user: UserId, worth: Option<nat>)
    requires BookingOk(b, restocked) && AfterApplyDiscount(b, id, user, worth).Ok?
    ensures var after := AfterApplyDiscount(b, id, user, worth).value; Fine(b, after, restocked) && NoneIssued(b.orders, after.orders)
  {
    assert OrderOk(b.orders[id].value);
    TouchIsFine(b, restocked, id, AfterApplyDiscount(b, id, user, worth).value.orders[id].value);
  }

  lemma StartPaymentIsFine(b: Booking, restocked: set<nat>, id: OrderId, user: UserId, now: int)
    requires BookingOk(b, restocked) && AfterStartPayment(b, id, user, now).Ok?
    ensures var after := AfterStartPayment(b, id, user, now).value; Fine(b, after, restocked) && NoneIssued(b.orders, after.orders)
  {
    assert OrderOk(b.orders[id].value);
    TouchIsFine(b, restocked, id, b.orders[id].value.(paymentInProgress := true));
  }

  lemma ConfirmFreeIsFine(b: Booking, restocked: set<nat>, id: OrderId, user: UserId, lost: set<nat>, now: int)
    requires BookingOk(b, restocked) && AfterConfirmFree(b, id, user, lost, now).Ok?
    ensures var after := AfterConfirmFree(b, id, user, lost, now).value; Fine(b, after, restocked) && NoneIssued(b.orders, after.orders)
  {
    var o := b.orders[id].value.(paymentInProgress := true);
    assert OrderOk(b.orders[id].value);
    TouchIsFine(b, restocked, id, o);
    MarkPaidIsFine(WithOrder(b, id, o), restocked, id);
    FineTransitive(b, WithOrder(b, id, o), AfterMarkPaid(WithOrder(b, id, o), id), restocked);
  }

  lemma PaymentSucceededIsFine(b: Booking, restocked: set<nat>, envelope: nat, id: OrderId, lost: set<nat>)
    requires BookingOk(b, restocked)
    ensures var after := AfterPaymentSucceeded(b, envelope, id, lost); Fine(b, after, restocked) && NoneIssued(b.orders, after.orders)
  {
    var marked := Marking(b, envelope);
    MarkingIsFine(b, restocked, envelope);
    if IsPending(b.orders, id) {
      MarkPaidIsFine(marked, restocked, id);
      FineTransitive(b, marked, AfterMarkPaid(marked, id), restocked);
    }
    hide HoldLost;
  }

  lemma PaymentFailedIsFine(b: Booking, restocked: set<nat>, envelope: nat, id: OrderId)
    requires BookingOk(b, restocked)
    ensures var after := AfterPaymentFailed(b, envelope, id); Fine(b, after, restocked) && NoneIssued(b.orders, after.orders)
  {
    var marked := Marking(b, envelope);
    MarkingIsFine(b, restocked, envelope);
    if IsPending(b.orders, id) {
      CloseIsQuiet(marked, restocked, id, None);
      FineTransitive(b, marked, Dropped(marked, id), restocked);
    }
  }

  lemma RefundApprovedIsFine(b: Booking, restocked: set<nat>, envelope: nat, id: OrderId, requested: seq<nat>, amount: nat)
    requires BookingOk(b, restocked) && (requested != [] ==> !IsPending(b.orders, id))
    ensures var after := AfterRefundApproved(b, envelope, id, requested, amount); Fine(b, after, restocked) && NoneIssued(b.orders, after.orders)
  {
    var marked := Marking(b, envelope);
    MarkingIsFine(b, restocked, envelope);
    if Live(b.orders, id) && b.orders[id].value.status != Canceled {
      RefundIsFine(marked, restocked, id, requested, amount);
      FineTransitive(b, marked, AfterRefund(marked, id, requested, amount), restocked);
    }
  }

  lemma TicketIssuedIsFine(b: Booking, restocked: set<nat>, id: OrderId)
    requires BookingOk(b, restocked)
    ensures Fine(b, AfterTicketIssued(b, id), restocked)
  {
    if AfterTicketIssued(b, id) != b {
      assert OrderOk(b.orders[id].value);
      TouchIsFine(b, restocked, id, b.orders[id].value.(status := TicketIssued));
    }
  }
}
