/**
 * Stock is conserved over every run: what a tier counts as sold is exactly what
 * unreleased orders still hold plus what OrderCanceled messages in flight will
 * give back. Hence no unit returns twice, the floor at zero never clips, and
 * nothing is oversold.
 */
module BookingStock {
  import opened Common
  import opened Inventory
  import opened Orders
  import opened BookingWorld

  // ------------------------------------------------------------------- sums

  function ItemUnits(item: Item, t: TierId): nat {
    if !item.refunded && item.seat.None? && item.tier == Some(t) then item.quantity else 0
  }

  function ItemsUnits(items: seq<Item>, t: TierId): nat {
    if items == [] then 0 else ItemsUnits(items[..|items| - 1], t) + ItemUnits(items[|items| - 1], t)
  }

  function OrderUnits(row: Option<Order>, t: TierId): nat {
    if row.Some? && !row.value.holdReleased then ItemsUnits(row.value.items, t) else 0
  }

  /** Units of a tier that unreleased orders hold in items not refunded. */
  function Held(orders: Orders, t: TierId): nat {
    if orders == [] then 0 else Held(orders[..|orders| - 1], t) + OrderUnits(orders[|orders| - 1], t)
  }

  function MessageUnits(canceled: seq<OrderCanceled>, restocked: set<nat>, m: nat, t: TierId): nat {
    if m < |canceled| && m !in restocked then Units(canceled[m].lines, t) else 0
  }

  /** Units that published OrderCanceled messages have yet to give back, among the first `n`. */
  function InFlight(canceled: seq<OrderCanceled>, restocked: set<nat>, n: nat, t: TierId): nat {
    if n == 0 then 0 else InFlight(canceled, restocked, n - 1, t) + MessageUnits(canceled, restocked, n - 1, t)
  }

  lemma {:induction false} HeldUpdate(orders: Orders, id: OrderId, row: Option<Order>, t: TierId)
    requires id < |orders|
    ensures Held(orders[id := row], t) + OrderUnits(orders[id], t) == Held(orders, t) + OrderUnits(row, t)
  {
    var last := |orders| - 1;
    if id == last {
      assert orders[id := row][..last] == orders[..last];
    } else {
      assert orders[id := row][..last] == orders[..last][id := row];
      HeldUpdate(orders[..last], id, row, t);
    }
  }

  lemma {:induction false} HeldAtLeast(orders: Orders, id: OrderId, t: TierId)
    requires id < |orders|
    ensures OrderUnits(orders[id], t) <= Held(orders, t)
  {
    if id < |orders| - 1 {
      HeldAtLeast(orders[..|orders| - 1], id, t);
    }
  }

  lemma {:induction false} InFlightGrows(canceled: seq<OrderCanceled>, restocked: set<nat>, more: OrderCanceled, n: nat, t: TierId)
    requires n <= |canceled|
    ensures InFlight(canceled + [more], restocked, n, t) == InFlight(canceled, restocked, n, t)
  {
    if n > 0 {
      InFlightGrows(canceled, restocked, more, n - 1, t);
    }
  }

  lemma {:induction false} InFlightDelivers(canceled: seq<OrderCanceled>, restocked: set<nat>, m: nat, n: nat, t: TierId)
    requires n <= |canceled|
    ensures InFlight(canceled, restocked, n, t)
            == InFlight(canceled, restocked + {m}, n, t) + if m < n then MessageUnits(canceled, restocked, m, t) else 0
  {
    if n > 0 {
      InFlightDelivers(canceled, restocked, m, n - 1, t);
    }
  }

  // ------------------------------------------------------- items and their lines

  /** Marking items refunded takes from an order exactly the units of the lines sent out for them. */
  lemma {:induction false} MarkingMovesUnits(items: seq<Item>, chosen: set<nat>, t: TierId)
    requires forall k :: 0 <= k < |items| && k in chosen ==> !items[k].refunded
    ensures ItemsUnits(items, t) == ItemsUnits(Marked(items, chosen), t) + Units(Lines(items, chosen), t)
  {
    if items != [] {
      var last := |items| - 1;
      MarkingMovesUnits(items[..last], chosen, t);
      assert Marked(items, chosen)[..last] == Marked(items[..last], chosen);
      var line := Line(last, items[last].tier, items[last].seat, items[last].quantity);
      UnitsConcat(Lines(items[..last], chosen), [line], t);
      assert Units([line], t) == LineUnits(line, t) by { assert [line][..0] == []; }
      assert Lines(items[..last], chosen) + [] == Lines(items[..last], chosen);
    }
  }

  lemma {:induction false} RefundedHoldNothing(items: seq<Item>, t: TierId)
    requires AllRefunded(items)
    ensures ItemsUnits(items, t) == 0
  {
    if items != [] {
      RefundedHoldNothing(items[..|items| - 1], t);
    }
  }

  /** Releasing an order none of whose items was refunded gives back exactly what it held. */
  lemma AllLinesGiveBackAll(items: seq<Item>, t: TierId)
    requires forall k :: 0 <= k < |items| ==> !items[k].refunded
    ensures Units(Lines(items, AllOf(items)), t) == ItemsUnits(items, t)
  {
    MarkingMovesUnits(items, AllOf(items), t);
    assert AllRefunded(Marked(items, AllOf(items))) by {
      forall k | 0 <= k < |items|
        ensures Marked(items, AllOf(items))[k].refunded
      {
        assert items[k] in items && k in AllOf(items);
      }
    }
    RefundedHoldNothing(Marked(items, AllOf(items)), t);
  }

  lemma {:induction false} ItemsUnitsConcat(a: seq<Item>, b: seq<Item>, t: TierId)
    ensures ItemsUnits(a + b, t) == ItemsUnits(a, t) + ItemsUnits(b, t)
  {
    if b == [] {
      assert a + b == a;
    } else {
      assert (a + b)[..|a + b| - 1] == a + b[..|b| - 1];
      ItemsUnitsConcat(a, b[..|b| - 1], t);
    }
  }

  lemma {:induction false} SeatsHoldNoStock(items: seq<CartItem>, t: TierId)
    ensures ItemsUnits(SeatItems(items), t) == 0
  {
    if items != [] {
      var front := SeatItems(items[..|items| - 1]);
      SeatsHoldNoStock(items[..|items| - 1], t);
      if items[|items| - 1].seat.Some? {
        assert SeatItems(items)[..|front|] == front;
      } else {
        assert SeatItems(items) == front;
      }
    }
  }

  lemma {:induction false} AdmissionsUnits(tier: TierId, price: nat, count: nat, t: TierId)
    ensures ItemsUnits(Admissions(tier, price, count), t) == if tier == t then count else 0
  {
    if count > 0 {
      var admissions := Admissions(tier, price, count);
      assert admissions[..|admissions| - 1] == Admissions(tier, price, count - 1);
      AdmissionsUnits(tier, price, count - 1, t);
    }
  }

  /** The items a cart creates hold exactly the units it reserved. */
  lemma {:induction false} TierItemsUnits(stock: Stock, requests: seq<Request>, t: TierId)
    ensures ItemsUnits(TierItems(stock, requests), t) == Units(Undo(requests), t)
  {
    if requests != [] {
      var last := requests[|requests| - 1];
      var front := requests[..|requests| - 1];
      TierItemsUnits(stock, front, t);
      AdmissionsUnits(last.tier, PriceOf(stock, last.tier), last.quantity, t);
      ItemsUnitsConcat(TierItems(stock, front), Admissions(last.tier, PriceOf(stock, last.tier), last.quantity), t);
      UndoUnits(requests, t);
    }
  }

  lemma NewOrderUnits(stock: Stock, cart: Cart, now: int, t: TierId)
    ensures ItemsUnits(NewOrder(stock, cart, now).items, t) == Units(Undo(Requests(cart.items)), t)
  {
    ItemsUnitsConcat(SeatItems(cart.items), TierItems(stock, Requests(cart.items)), t);
    SeatsHoldNoStock(cart.items, t);
    TierItemsUnits(stock, Requests(cart.items), t);
  }

  // ------------------------------------------------------- what holds always

  ghost predicate OrderOk(o: Order) {
    && o.items != []
    && (o.status == Pending ==> !o.holdReleased)
    && (o.status == Pending || o.holdReleased ==> forall k :: 0 <= k < |o.items| ==> !o.items[k].refunded)
    && (o.status == Canceled <==> o.holdReleased || AllRefunded(o.items))
  }

  ghost predicate OrdersOk(orders: Orders) {
    forall id: OrderId :: Live(orders, id) ==> OrderOk(orders[id].value)
  }

  ghost predicate TierBalanced(orders: Orders, stock: Stock, canceled: seq<OrderCanceled>, restocked: set<nat>, t: TierId)
    requires t in stock
  {
    && stock[t].sold == Held(orders, t) + InFlight(canceled, restocked, |canceled|, t)
    && stock[t].sold <= stock[t].total
  }

  ghost predicate Balanced(orders: Orders, stock: Stock, canceled: seq<OrderCanceled>, restocked: set<nat>) {
    forall t :: t in stock ==> TierBalanced(orders, stock, canceled, restocked, t)
  }

  // ------------------------------------------ how a change moves the balance

  lemma KeepBalanced(orders: Orders, stock: Stock, canceled: seq<OrderCanceled>, restocked: set<nat>, id: OrderId, o: Order)
    requires Balanced(orders, stock, canceled, restocked) && Live(orders, id)
    requires o.items == orders[id].value.items && o.holdReleased == orders[id].value.holdReleased
    ensures Balanced(orders[id := Some(o)], stock, canceled, restocked)
  {
    forall t | t in stock
      ensures TierBalanced(orders[id := Some(o)], stock, canceled, restocked, t)
    {
      HeldUpdate(orders, id, Some(o), t);
    }
  }

  /** A held order is released and then closed or deleted. */
  lemma ReleaseBalanced(orders: Orders, stock: Stock, canceled: seq<OrderCanceled>, restocked: set<nat>, id: OrderId, row: Option<Order>)
    requires Balanced(orders, stock, canceled, restocked) && Live(orders, id)
    requires OrderOk(orders[id].value) && orders[id].value.status == Pending
    requires row.Some? ==> row.value.holdReleased
    ensures var items := orders[id].value.items;
            Balanced(orders[id := row], Restocked(stock, Lines(items, AllOf(items))), canceled, restocked)
  {
    var items := orders[id].value.items;
    var lines := Lines(items, AllOf(items));
    var after := Restocked(stock, lines);
    RestockGivesBack(stock, lines);
    forall t | t in after
      ensures TierBalanced(orders[id := row], after, canceled, restocked, t)
    {
      assert TierBalanced(orders, stock, canceled, restocked, t);
      AllLinesGiveBackAll(items, t);
      HeldAtLeast(orders, id, t);
      HeldUpdate(orders, id, row, t);
    }
  }

  lemma HoldBalanced(orders: Orders, stock: Stock, canceled: seq<OrderCanceled>, restocked: set<nat>, cart: Cart, now: int)
    requires Balanced(orders, stock, canceled, restocked)
    requires ReservedAll(stock, Requests(cart.items), now).Ok?
    ensures Balanced(orders + [Some(NewOrder(stock, cart, now))], ReservedAll(stock, Requests(cart.items), now).value, canceled, restocked)
  {
    var row := Some(NewOrder(stock, cart, now));
    var after := ReservedAll(stock, Requests(cart.items), now).value;
    ReservedAllAdds(stock, Requests(cart.items), now);
    hide ReservedAll;
    assert (orders + [row])[..|orders|] == orders;
    forall t | t in after
      ensures TierBalanced(orders + [row], after, canceled, restocked, t)
    {
      assert TierBalanced(orders, stock, canceled, restocked, t);
      NewOrderUnits(stock, cart, now, t);
    }
  }

  /** What a refund takes from the order it puts in flight. */
  lemma RefundBalanced(orders: Orders, stock: Stock, canceled: seq<OrderCanceled>, restocked: set<nat>,
                       id: OrderId, chosen: set<nat>, amount: nat, partial: bool)
    requires Balanced(orders, stock, canceled, restocked) && Live(orders, id) && |canceled| !in restocked
    requires !orders[id].value.holdReleased
    requires forall k :: 0 <= k < |orders[id].value.items| && k in chosen ==> !orders[id].value.items[k].refunded
    ensures var o := orders[id].value;
            Balanced(orders[id := Some(RefundedOrder(o, chosen, amount))], stock,
                     canceled + [OrderCanceled(id, Lines(o.items, chosen), partial)], restocked)
  {
    var o := orders[id].value;
    var row := Some(RefundedOrder(o, chosen, amount));
    var message := OrderCanceled(id, Lines(o.items, chosen), partial);
    forall t | t in stock
      ensures TierBalanced(orders[id := row], stock, canceled + [message], restocked, t)
    {
      assert TierBalanced(orders, stock, canceled, restocked, t);
      MarkingMovesUnits(o.items, chosen, t);
      HeldUpdate(orders, id, row, t);
      InFlightGrows(canceled, restocked, message, |canceled|, t);
    }
  }

  lemma {:induction false} InFlightAtLeast(canceled: seq<OrderCanceled>, restocked: set<nat>, m: nat, n: nat, t: TierId)
    requires m < n <= |canceled|
    ensures MessageUnits(canceled, restocked, m, t) <= InFlight(canceled, restocked, n, t)
  {
    if m < n - 1 {
      InFlightAtLeast(canceled, restocked, m, n - 1, t);
    }
  }

  /** A message delivered once moves its units from in flight back to the shelf. */
  lemma RestockBalanced(orders: Orders, stock: Stock, canceled: seq<OrderCanceled>, restocked: set<nat>, m: nat)
    requires Balanced(orders, stock, canceled, restocked) && m < |canceled| && m !in restocked
    ensures Balanced(orders, Restocked(stock, canceled[m].lines), canceled, restocked + {m})
  {
    var after := Restocked(stock, canceled[m].lines);
    RestockGivesBack(stock, canceled[m].lines);
    forall t | t in after
      ensures TierBalanced(orders, after, canceled, restocked + {m}, t)
    {
      assert TierBalanced(orders, stock, canceled, restocked, t);
      InFlightAtLeast(canceled, restocked, m, |canceled|, t);
      InFlightDelivers(canceled, restocked, m, |canceled|, t);
    }
  }
}
