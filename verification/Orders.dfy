/**
 * Orders of booking-service before and after payment: the cart, the guard that gives
 * inventory back once, and the message handlers. An order's id is its position in the
 * table; a deleted row leaves None behind, so no id is ever used twice.
 */
module Orders {
  import opened Common
  import opened Inventory

  // Each handler is a function on the service's state and the method of BookingService
  // that the function specifies. Seats are released and confirmed by event-service (see
  // SeatHolds); here they only carry their outcome.

  datatype OrderStatus = Pending | Paid | TicketIssued | Canceled

  /** An item is named by its order and its position in it. */
  datatype Item = Item(tier: Option<TierId>, seat: Option<SeatId>, price: nat, quantity: nat, refunded: bool)

  datatype Order = Order(
    user: UserId, event: EventId, items: seq<Item>, status: OrderStatus,
    subtotal: nat, memberDiscount: int, total: int, expiresAt: int,
    paymentInProgress: bool, holdReleased: bool, refundedAmount: nat)

  type Orders = seq<Option<Order>>

  datatype OrderCanceled = OrderCanceled(order: OrderId, lines: seq<Line>, partial: bool)
  datatype OrderPaid = OrderPaid(order: OrderId, items: nat)

  /** `seen` are the envelope ids already processed; `canceled` and `paid` everything published so far. */
  datatype Booking = Booking(
    orders: Orders, stock: Stock,
    canceled: seq<OrderCanceled>, paid: seq<OrderPaid>, seen: set<nat>)

  predicate Live(orders: Orders, id: OrderId) {
    id < |orders| && orders[id].Some?
  }

  predicate IsPending(orders: Orders, id: OrderId) {
    Live(orders, id) && orders[id].value.status == Pending
  }

  function WithOrder(b: Booking, id: OrderId, o: Order): Booking
    requires id < |b.orders|
  {
    b.(orders := b.orders[id := Some(o)])
  }

  // ------------------------------------------------------------ lines of items

  function AllOf(items: seq<Item>): set<nat> {
    set k {:trigger items[k]} | 0 <= k < |items|
  }

  /** The OrderCanceled lines of the items in `keep`, in order. */
  function Lines(items: seq<Item>, keep: set<nat>): seq<Line> {
    if items == [] then []
    else
      var last := |items| - 1;
      var item := items[last];
      Lines(items[..last], keep) +
      if last in keep then [Line(last, item.tier, item.seat, item.quantity)] else []
  }

  /** The items a RefundApproved for `requested` (empty: the whole order) newly refunds. */
  function Chosen(items: seq<Item>, requested: seq<nat>): set<nat> {
    set k | 0 <= k < |items| && !items[k].refunded && (requested == [] || k in requested)
  }

  function Marked(items: seq<Item>, chosen: set<nat>): (r: seq<Item>)
    ensures |r| == |items|
    ensures forall k :: 0 <= k < |r| ==> r[k] == if k in chosen then items[k].(refunded := true) else items[k]
  {
    if items == [] then []
    else
      var last := |items| - 1;
      Marked(items[..last], chosen) + [if last in chosen then items[last].(refunded := true) else items[last]]
  }

  predicate AllRefunded(items: seq<Item>) {
    forall k :: 0 <= k < |items| ==> items[k].refunded
  }

  // ---------------------------------------------------------------- the cart

  /** One line of the request; `seatPrice` is the price event-service will answer for the seat. */
  datatype CartItem = CartItem(seat: Option<SeatId>, tier: Option<TierId>, quantity: nat, seatPrice: nat)

  datatype Request = Request(tier: TierId, quantity: nat)

  /**
   * What a customer asks for and what event-service says about it: `refusal` is a
   * closed sale or an unqueued session; `cap` the event's limit of tickets per account;
   * `window` a shut sales window; `seatsFree` whether the atomic seat batch succeeds.
   */
  datatype Cart = Cart(
    user: UserId, event: EventId, items: seq<CartItem>,
    refusal: Option<Error>, cap: Option<nat>, window: Option<Error>, seatsFree: bool, discountPercent: nat, ttl: int)

  predicate WellFormed(item: CartItem) {
    item.seat.Some? != item.tier.Some?
  }

  function SeatItems(items: seq<CartItem>): seq<Item> {
    if items == [] then []
    else
      var last := items[|items| - 1];
      SeatItems(items[..|items| - 1]) +
      if last.seat.Some? then [Item(None, last.seat, last.seatPrice, 1, false)] else []
  }

  function Requests(items: seq<CartItem>): seq<Request> {
    if items == [] then []
    else
      var last := items[|items| - 1];
      Requests(items[..|items| - 1]) +
      if last.seat.None? && last.tier.Some? then [Request(last.tier.value, last.quantity)] else []
  }

  function Asked(items: seq<CartItem>): nat {
    if items == [] then 0
    else
      var last := items[|items| - 1];
      Asked(items[..|items| - 1]) + if last.seat.Some? then 1 else last.quantity
  }

  function Quantity(items: seq<Item>): nat {
    if items == [] then 0 else Quantity(items[..|items| - 1]) + items[|items| - 1].quantity
  }

  function Worth(items: seq<Item>): nat {
    if items == [] then 0
    else Worth(items[..|items| - 1]) + items[|items| - 1].price * items[|items| - 1].quantity
  }

  /** Tickets of the account's orders that were not canceled. */
  function AccountLoad(orders: Orders, user: UserId, event: EventId): nat {
    if orders == [] then 0
    else AccountLoad(orders[..|orders| - 1], user, event) + OrderLoad(orders[|orders| - 1], user, event)
  }

  function OrderLoad(row: Option<Order>, user: UserId, event: EventId): nat {
    if row.Some? && row.value.user == user && row.value.event == event && row.value.status != Canceled
    then Quantity(row.value.items) else 0
  }

  function PriceOf(stock: Stock, tier: TierId): nat {
    if tier in stock then stock[tier].price else 0
  }

  /** One item per admission: `count` items of quantity 1. */
  function Admissions(tier: TierId, price: nat, count: nat): seq<Item> {
    if count == 0 then [] else Admissions(tier, price, count - 1) + [Item(Some(tier), None, price, 1, false)]
  }

  function TierItems(stock: Stock, requests: seq<Request>): seq<Item> {
    if requests == [] then []
    else
      var last := requests[|requests| - 1];
      TierItems(stock, requests[..|requests| - 1]) + Admissions(last.tier, PriceOf(stock, last.tier), last.quantity)
  }

  /** Reserve one tier after the other; the first refusal refuses all. */
  function ReservedAll(stock: Stock, requests: seq<Request>, now: int): Result<Stock> {
    if requests == [] then Ok(stock)
    else
      match ReservedAll(stock, requests[..|requests| - 1], now)
      case Err(e) => Err(e)
      case Ok(s) => Reserved(s, requests[|requests| - 1].tier, requests[|requests| - 1].quantity, now)
  }

  function CartRefusal(orders: Orders, cart: Cart): Option<Error> {
    if exists k :: 0 <= k < |cart.items| && !WellFormed(cart.items[k]) then Some(BadRequest)
    else if cart.refusal.Some? then cart.refusal
    else if cart.cap.Some? && AccountLoad(orders, cart.user, cart.event) + Asked(cart.items) > cart.cap.value then Some(BadRequest)
    else if cart.window.Some? then cart.window
    else if SeatItems(cart.items) != [] && !cart.seatsFree then Some(Conflict)
    else None
  }

  function NewOrder(stock: Stock, cart: Cart, now: int): Order {
    var items := SeatItems(cart.items) + TierItems(stock, Requests(cart.items));
    var subtotal := Worth(items);
    var memberDiscount := subtotal * cart.discountPercent / 100;
    Order(cart.user, cart.event, items, Pending, subtotal, memberDiscount, subtotal - memberDiscount,
          now + cart.ttl, false, false, 0)
  }

  /** A refused cart leaves no trace: whatever was reserved on the way is rolled back. */
  function AfterHold(b: Booking, cart: Cart, now: int): Result<Booking> {
    match CartRefusal(b.orders, cart)
    case Some(e) => Err(e)
    case None =>
      match ReservedAll(b.stock, Requests(cart.items), now)
      case Err(e) => Err(e)
      case Ok(stock) => Ok(b.(stock := stock, orders := b.orders + [Some(NewOrder(b.stock, cart, now))]))
  }

  // ------------------------------------------------------- releasing the hold

  function AfterReleaseOnce(b: Booking, id: OrderId): Booking
    requires Live(b.orders, id)
  {
    var o := b.orders[id].value;
    if o.holdReleased then b
    else WithOrder(b, id, o.(holdReleased := true)).(stock := Restocked(b.stock, Lines(o.items, AllOf(o.items))))
  }

  function Owned(orders: Orders, id: OrderId, user: UserId): Result<Order> {
    if !Live(orders, id) then Err(NotFound)
    else if orders[id].value.user != user then Err(Forbidden)
    else Ok(orders[id].value)
  }

  function AfterCancel(b: Booking, id: OrderId, user: UserId): Result<Booking> {
    match Owned(b.orders, id, user)
    case Err(e) => Err(e)
    case Ok(o) =>
      if o.status != Pending then Err(BadRequest)
      else
        var released := AfterReleaseOnce(b, id);
        Ok(WithOrder(released, id, released.orders[id].value.(status := Canceled)))
  }

  /** Released, then deleted: nothing is kept of an order that was never paid. */
  function Dropped(b: Booking, id: OrderId): Booking
    requires Live(b.orders, id)
  {
    var released := AfterReleaseOnce(b, id);
    released.(orders := released.orders[id := None])
  }

  function SweptOne(b: Booking, id: OrderId, now: int): Booking {
    if IsPending(b.orders, id) && b.orders[id].value.expiresAt < now then Dropped(b, id) else b
  }

  /** `batch` is whichever expired orders the database hands out this tick. */
  function AfterSweep(b: Booking, batch: seq<OrderId>, now: int): Booking {
    if batch == [] then b else SweptOne(AfterSweep(b, batch[..|batch| - 1], now), batch[|batch| - 1], now)
  }

  function CanceledWithEvent(b: Booking, id: OrderId, event: EventId): Booking {
    if IsPending(b.orders, id) && b.orders[id].value.event == event then
      var released := AfterReleaseOnce(b, id);
      WithOrder(released, id, released.orders[id].value.(status := Canceled, paymentInProgress := false))
    else b
  }

  function PendingCanceled(b: Booking, event: EventId, n: nat): Booking {
    if n == 0 then b else CanceledWithEvent(PendingCanceled(b, event, n - 1), n - 1, event)
  }

  function Marking(b: Booking, envelope: nat): Booking {
    b.(seen := b.seen + {envelope})
  }

  function AfterEventCanceled(b: Booking, envelope: nat, event: EventId): Booking {
    if envelope in b.seen then b else PendingCanceled(Marking(b, envelope), event, |b.orders|)
  }

  /** A sweep deletes the pending orders of its batch past their expiry, and touches no other. */
  lemma {:induction false} SweepDeletesTheExpired(b: Booking, batch: seq<OrderId>, now: int, id: OrderId)
    requires id < |b.orders|
    ensures var after := AfterSweep(b, batch, now).orders;
            && |after| == |b.orders|
            && after[id] == if id in batch && IsPending(b.orders, id) && b.orders[id].value.expiresAt < now then None else b.orders[id]
  {
    hide Restocked;
    hide Lines;
    if batch != [] {
      SweepDeletesTheExpired(b, batch[..|batch| - 1], now, id);
      assert batch == batch[..|batch| - 1] + [batch[|batch| - 1]];
    }
  }

  /** An event's cancellation closes its pending orders, hold released, and touches no other. */
  lemma {:induction false} EventClosesThePending(b: Booking, event: EventId, n: nat, id: OrderId)
    requires id < |b.orders|
    ensures var after := PendingCanceled(b, event, n).orders;
            && |after| == |b.orders|
            && after[id] == if id < n && IsPending(b.orders, id) && b.orders[id].value.event == event
                            then Some(b.orders[id].value.(status := Canceled, paymentInProgress := false, holdReleased := true))
                            else b.orders[id]
  {
    hide Restocked;
    hide Lines;
    if n > 0 {
      EventClosesThePending(b, event, n - 1, id);
    }
  }

  // ----------------------------------------------------------------- payment

  function AfterStartPayment(b: Booking, id: OrderId, user: UserId, now: int): Result<Booking> {
    match Owned(b.orders, id, user)
    case Err(e) => Err(e)
    case Ok(o) =>
      if o.status != Pending || o.expiresAt <= now then Err(BadRequest)
      else Ok(WithOrder(b, id, o.(paymentInProgress := true)))
  }

  /**
   * A discount code, worth `worth` on this order, or refused. It applies to what the member
   * discount leaves and replaces any code applied before.
   */
  function AfterApplyDiscount(b: Booking, id: OrderId, user: UserId, worth: Option<nat>): Result<Booking> {
    match Owned(b.orders, id, user)
    case Err(e) => Err(e)
    case Ok(o) =>
      if o.status != Pending || worth.None? then Err(BadRequest)
      else
        var rest := o.subtotal - o.memberDiscount;
        Ok(WithOrder(b, id, o.(total := rest - Min(worth.value, rest))))
  }

  /** A second code counts as if the first had never been applied, and no code takes more than is left to pay. */
  lemma CodesReplaceEachOther(b: Booking, id: OrderId, user: UserId, first: nat, second: nat)
    requires AfterApplyDiscount(b, id, user, Some(first)).Ok?
    ensures AfterApplyDiscount(AfterApplyDiscount(b, id, user, Some(first)).value, id, user, Some(second))
            == AfterApplyDiscount(b, id, user, Some(second))
    ensures var o := AfterApplyDiscount(b, id, user, Some(first)).value.orders[id].value;
            o.memberDiscount <= o.subtotal ==> 0 <= o.total <= o.subtotal - o.memberDiscount
  {
    var once := AfterApplyDiscount(b, id, user, Some(first)).value;
    var row := AfterApplyDiscount(b, id, user, Some(second)).value.orders[id];
    assert once.orders[id := row] == b.orders[id := row];
  }

  /** `lost` are the items whose seat event-service reports lost at confirm. */
  predicate HoldLost(items: seq<Item>, lost: set<nat>) {
    exists k :: 0 <= k < |items| && items[k].seat.Some? && k in lost
  }

  function AfterMarkPaid(b: Booking, id: OrderId): Booking
    requires Live(b.orders, id)
  {
    var o := b.orders[id].value;
    WithOrder(b, id, o.(status := Paid)).(paid := b.paid + [OrderPaid(id, |o.items|)])
  }

  /** A free order whose hold was lost stays pending; so does a paid one, whose money is sent back. */
  function AfterConfirmFree(b: Booking, id: OrderId, user: UserId, lost: set<nat>, now: int): Result<Booking> {
    match Owned(b.orders, id, user)
    case Err(e) => Err(e)
    case Ok(o) =>
      if o.status != Pending || o.total != 0 || o.expiresAt <= now then Err(BadRequest)
      else if o.paymentInProgress || HoldLost(o.items, lost) then Err(Conflict)
      else Ok(AfterMarkPaid(WithOrder(b, id, o.(paymentInProgress := true)), id))
  }

  function AfterPaymentSucceeded(b: Booking, envelope: nat, id: OrderId, lost: set<nat>): Booking {
    if envelope in b.seen then b
    else if IsPending(b.orders, id) && !HoldLost(b.orders[id].value.items, lost)
    then AfterMarkPaid(Marking(b, envelope), id)
    else Marking(b, envelope)
  }

  function AfterPaymentFailed(b: Booking, envelope: nat, id: OrderId): Booking {
    if envelope in b.seen then b
    else if IsPending(b.orders, id) then Dropped(Marking(b, envelope), id)
    else Marking(b, envelope)
  }

  // ----------------------------------------------------- refunds and tickets

  function RefundedOrder(o: Order, chosen: set<nat>, amount: nat): Order {
    var items := Marked(o.items, chosen);
    o.(items := items, refundedAmount := o.refundedAmount + amount,
       status := if AllRefunded(items) then Canceled else o.status)
  }

  /** Only what is newly refunded goes out as OrderCanceled. */
  function AfterRefund(b: Booking, id: OrderId, requested: seq<nat>, amount: nat): Booking
    requires Live(b.orders, id)
  {
    var o := b.orders[id].value;
    var chosen := Chosen(o.items, requested);
    var refunded := RefundedOrder(o, chosen, amount);
    var after := WithOrder(b, id, refunded);
    if chosen == {} then after
    else after.(canceled := b.canceled + [OrderCanceled(id, Lines(o.items, chosen), !AllRefunded(refunded.items))])
  }

  function AfterRefundApproved(b: Booking, envelope: nat, id: OrderId, requested: seq<nat>, amount: nat): Booking {
    if envelope in b.seen then b
    else if Live(b.orders, id) && b.orders[id].value.status != Canceled
    then AfterRefund(Marking(b, envelope), id, requested, amount)
    else Marking(b, envelope)
  }

  /** Conditional on PAID, hence idempotent without a processed-event row. */
  function AfterTicketIssued(b: Booking, id: OrderId): Booking {
    if Live(b.orders, id) && b.orders[id].value.status == Paid
    then WithOrder(b, id, b.orders[id].value.(status := TicketIssued)) else b
  }

  // ---------------------------------------------------------- lines and their units

  function ItemLine(items: seq<Item>, k: nat): Line
    requires k < |items|
  {
    Line(k, items[k].tier, items[k].seat, items[k].quantity)
  }

  /** `lines` are about the items in `keep`, one line each. */
  ghost predicate OneLineEach(lines: seq<Line>, items: seq<Item>, keep: set<nat>) {
    && (forall x :: 0 <= x < |lines| ==>
          lines[x].index < |items| && lines[x].index in keep && lines[x] == ItemLine(items, lines[x].index))
    && (forall x, y :: 0 <= x < y < |lines| ==> lines[x].index < lines[y].index)
    && (forall k: nat :: k < |items| && k in keep ==> exists x :: 0 <= x < |lines| && lines[x].index == k)
  }

  lemma {:induction false} LinesNameChosen(items: seq<Item>, keep: set<nat>)
    ensures OneLineEach(Lines(items, keep), items, keep)
  {
    if items != [] {
      var last := |items| - 1;
      var front := Lines(items[..last], keep);
      LinesNameChosen(items[..last], keep);
      forall k: nat | k < |items| && k in keep
        ensures exists x :: 0 <= x < |Lines(items, keep)| && Lines(items, keep)[x].index == k
      {
        if k == last {
          assert Lines(items, keep)[|front|].index == k;
        } else {
          var x :| 0 <= x < |front| && front[x].index == k;
          assert Lines(items, keep)[x].index == k;
        }
      }
    }
  }

  /** `o` is `was` once `requested` (nothing: everything) was refunded for `amount`. */
  ghost predicate RefundedFor(was: Order, o: Order, requested: seq<nat>, amount: nat) {
    && |o.items| == |was.items|
    && (forall k :: 0 <= k < |o.items| ==>
          o.items[k] == was.items[k].(refunded := was.items[k].refunded || requested == [] || k in requested))
    && o == was.(items := o.items, refundedAmount := was.refundedAmount + amount,
                 status := if forall k :: 0 <= k < |o.items| ==> o.items[k].refunded then Canceled else was.status)
  }

  ghost function NewlyRefunded(was: Order, o: Order): set<nat>
    requires |o.items| == |was.items|
  {
    set k | 0 <= k < |o.items| && o.items[k].refunded && !was.items[k].refunded
  }

  /** One more OrderCanceled went out, about exactly the newly refunded items; none if there are none. */
  ghost predicate Announced(id: OrderId, was: Order, o: Order, before: seq<OrderCanceled>, after: seq<OrderCanceled>)
    requires |o.items| == |was.items|
  {
    var newly := NewlyRefunded(was, o);
    if newly == {} then after == before
    else
      && |after| == |before| + 1 && after[..|before|] == before
      && after[|before|].order == id && OneLineEach(after[|before|].lines, was.items, newly)
      && (after[|before|].partial <==> exists k :: 0 <= k < |o.items| && !o.items[k].refunded)
  }

  lemma RefundAsPromised(id: OrderId, o: Order, requested: seq<nat>, amount: nat, before: seq<OrderCanceled>)
    ensures var chosen := Chosen(o.items, requested);
            var refunded := RefundedOrder(o, chosen, amount);
            && RefundedFor(o, refunded, requested, amount)
            && Announced(id, o, refunded, before,
                         if chosen == {} then before
                         else before + [OrderCanceled(id, Lines(o.items, chosen), !AllRefunded(refunded.items))])
  {
    var chosen := Chosen(o.items, requested);
    var refunded := RefundedOrder(o, chosen, amount);
    LinesNameChosen(o.items, chosen);
    assert NewlyRefunded(o, refunded) == chosen;
    hide OneLineEach;
    hide Lines;
  }

  /** The items still unrefunded once `chosen` are refunded. */
  function Remaining(items: seq<Item>, chosen: set<nat>): set<nat> {
    set k | 0 <= k < |items| && !items[k].refunded && k !in chosen
  }

  lemma NoneRemains(items: seq<Item>, chosen: set<nat>)
    ensures Remaining(items, chosen) == {} <==> AllRefunded(Marked(items, chosen))
  {
    var marked := Marked(items, chosen);
    assert forall k :: k in Remaining(items, chosen) <==> 0 <= k < |marked| && !marked[k].refunded;
    hide Marked;
  }

  /** A seat of the order was lost before it could be confirmed. */
  ghost predicate SeatLost(items: seq<Item>, lost: set<nat>) {
    exists k :: 0 <= k < |items| && items[k].seat.Some? && k in lost
  }

  /** Units of a tier that general-admission items stand for. */
  ghost function UnitsOf(items: seq<Item>, t: TierId): nat {
    if items == [] then 0
    else
      var last := items[|items| - 1];
      UnitsOf(items[..|items| - 1], t) + if last.seat == None && last.tier == Some(t) then last.quantity else 0
  }

  /** The stock once every unit of `items` went back; no tier goes below zero. */
  ghost function GivenBack(stock: Stock, items: seq<Item>): Stock {
    map t | t in stock :: stock[t].(sold := Max(stock[t].sold - UnitsOf(items, t), 0))
  }

  lemma {:induction false} LinesCarryUnits(items: seq<Item>, keep: set<nat>, t: TierId)
    requires forall k :: 0 <= k < |items| ==> k in keep
    ensures Units(Lines(items, keep), t) == UnitsOf(items, t)
  {
    if items != [] {
      var last := |items| - 1;
      LinesCarryUnits(items[..last], keep, t);
      assert Lines(items, keep)[..|Lines(items, keep)| - 1] == Lines(items[..last], keep);
    }
  }

  /** Releasing an order gives back every unit of its items. */
  lemma ReleaseGivesBack(stock: Stock, items: seq<Item>)
    ensures Restocked(stock, Lines(items, AllOf(items))) == GivenBack(stock, items)
  {
    var lines := Lines(items, AllOf(items));
    assert forall k :: 0 <= k < |items| ==> items[k] in items && k in AllOf(items);
    RestockGivesBack(stock, lines);
    hide Restocked;
    hide Lines;
    forall t | t in stock
      ensures Units(lines, t) == UnitsOf(items, t)
    {
      LinesCarryUnits(items, AllOf(items), t);
    }
    hide Units;
    hide UnitsOf;
  }

  // ------------------------------------------------------------- cart lemmas

  /** The lines that undo a list of reservations. */
  function Undo(requests: seq<Request>): seq<Line> {
    if requests == [] then []
    else
      var last := requests[|requests| - 1];
      Undo(requests[..|requests| - 1]) + [Line(0, Some(last.tier), None, last.quantity)]
  }

  lemma {:induction false} UndoLength(requests: seq<Request>)
    ensures |Undo(requests)| == |requests|
  {
    if requests != [] {
      UndoLength(requests[..|requests| - 1]);
    }
  }

  /** `after` holds the same tiers with `added` more units sold of each, within the totals. */
  ghost predicate Raised(stock: Stock, after: Stock, requests: seq<Request>) {
    && after.Keys == stock.Keys
    && (forall t :: t in stock ==> after[t] == stock[t].(sold := stock[t].sold + Units(Undo(requests), t)))
    && (forall t :: t in stock && stock[t].sold <= stock[t].total ==> after[t].sold <= after[t].total)
  }

  lemma UndoUnits(requests: seq<Request>, t: TierId)
    requires requests != []
    ensures var last := requests[|requests| - 1];
            Units(Undo(requests), t) == Units(Undo(requests[..|requests| - 1]), t) + if t == last.tier then last.quantity else 0
  {
    assert Undo(requests)[..|Undo(requests)| - 1] == Undo(requests[..|requests| - 1]);
  }

  lemma ReserveEffect(stock: Stock, tier: TierId, quantity: nat, now: int)
    requires Reserved(stock, tier, quantity, now).Ok?
    ensures tier in stock && stock[tier].sold + quantity <= stock[tier].total
    ensures Reserved(stock, tier, quantity, now).value == stock[tier := stock[tier].(sold := stock[tier].sold + quantity)]
  {
  }

  /** Reserving raises each tier by exactly the requested units, never past its total. */
  lemma {:induction false} ReservedAllAdds(stock: Stock, requests: seq<Request>, now: int)
    requires ReservedAll(stock, requests, now).Ok?
    ensures Raised(stock, ReservedAll(stock, requests, now).value, requests)
  {
    hide Reserved;
    hide Units;
    hide Undo;
    if requests == [] {
      assert forall t :: Units(Undo([]), t) == 0 by { NothingToUndo(); }
    } else {
      var last := requests[|requests| - 1];
      var before := ReservedAll(stock, requests[..|requests| - 1], now).value;
      ReservedAllAdds(stock, requests[..|requests| - 1], now);
      ReserveEffect(before, last.tier, last.quantity, now);
      forall t {
        UndoUnits(requests, t);
      }
    }
  }

  lemma NothingToUndo()
    ensures forall t :: Units(Undo([]), t) == 0
  {
  }

  lemma PricesStay(stock: Stock, requests: seq<Request>, now: int)
    requires ReservedAll(stock, requests, now).Ok?
    ensures forall t :: PriceOf(ReservedAll(stock, requests, now).value, t) == PriceOf(stock, t)
  {
    ReservedAllAdds(stock, requests, now);
    hide ReservedAll;
  }

  /** The rollback of a failed cart restores the stock exactly; the floor at zero never clips it. */
  lemma RollbackRestores(stock: Stock, requests: seq<Request>, now: int)
    requires ReservedAll(stock, requests, now).Ok?
    ensures Restocked(ReservedAll(stock, requests, now).value, Undo(requests)) == stock
  {
    ReservedAllAdds(stock, requests, now);
    RestockGivesBack(ReservedAll(stock, requests, now).value, Undo(requests));
  }

  lemma {:induction false} RefusalSticks(stock: Stock, requests: seq<Request>, k: nat, now: int)
    requires k <= |requests| && ReservedAll(stock, requests[..k], now).Err?
    ensures ReservedAll(stock, requests, now) == ReservedAll(stock, requests[..k], now)
    decreases |requests|
  {
    if k == |requests| {
      assert requests[..k] == requests;
    } else {
      assert requests[..|requests| - 1][..k] == requests[..k];
      RefusalSticks(stock, requests[..|requests| - 1], k, now);
    }
  }

  lemma {:induction false} WorthConcat(a: seq<Item>, b: seq<Item>)
    ensures Worth(a + b) == Worth(a) + Worth(b)
    ensures Quantity(a + b) == Quantity(a) + Quantity(b)
  {
    if b == [] {
      assert a + b == a;
    } else {
      assert (a + b)[..|a + b| - 1] == a + b[..|b| - 1];
      WorthConcat(a, b[..|b| - 1]);
    }
  }

  lemma {:induction false} AdmissionsWorth(tier: TierId, price: nat, count: nat)
    ensures Worth(Admissions(tier, price, count)) == price * count
    ensures Quantity(Admissions(tier, price, count)) == count
  {
    if count > 0 {
      var admissions := Admissions(tier, price, count);
      assert admissions[..|admissions| - 1] == Admissions(tier, price, count - 1);
      AdmissionsWorth(tier, price, count - 1);
    }
  }
}
