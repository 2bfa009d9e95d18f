/**
 * What a cart costs, takes and becomes, in the terms of its lines; and how many
 * tickets an account has, counted one by one.
 */
module Carts {
  import opened Common
  import opened Inventory
  import opened Orders

  // ------------------------------------------------------------- the cart's lines

  /** A line asks for a seat, or for a quantity of a tier. */
  ghost predicate OneKind(item: CartItem) {
    (item.seat.Some? && item.tier == None) || (item.seat == None && item.tier.Some?)
  }

  /** Seat prices, and tier prices times quantities. */
  ghost function CartWorth(stock: Stock, items: seq<CartItem>): nat {
    if items == [] then 0
    else
      var last := items[|items| - 1];
      CartWorth(stock, items[..|items| - 1])
      + if last.seat.Some? then last.seatPrice
        else if last.tier.Some? && last.tier.value in stock then stock[last.tier.value].price * last.quantity else 0
  }

  /** Units of a tier the lines ask for. */
  ghost function Wanted(items: seq<CartItem>, t: TierId): nat {
    if items == [] then 0
    else
      var last := items[|items| - 1];
      Wanted(items[..|items| - 1], t) + if last.seat == None && last.tier == Some(t) then last.quantity else 0
  }

  /** Lines that ask for a seat, and order items that stand for it, at a price. */
  ghost function SeatAsked(items: seq<CartItem>, seat: SeatId, price: nat): nat {
    if items == [] then 0
    else
      var last := items[|items| - 1];
      SeatAsked(items[..|items| - 1], seat, price) + if last.seat == Some(seat) && last.seatPrice == price then 1 else 0
  }

  ghost function SeatSold(items: seq<Item>, seat: SeatId, price: nat): nat {
    if items == [] then 0
    else
      var last := items[|items| - 1];
      SeatSold(items[..|items| - 1], seat, price) + if last.seat == Some(seat) && last.price == price then 1 else 0
  }

  /** Order items that admit one person to a tier. */
  ghost function Admitted(items: seq<Item>, t: TierId): nat {
    if items == [] then 0
    else
      var last := items[|items| - 1];
      Admitted(items[..|items| - 1], t) + if last.seat == None && last.tier == Some(t) then 1 else 0
  }

  /** One unused admission: to a seat, or to a tier at its price. */
  ghost predicate Admission(stock: Stock, item: Item) {
    && item.quantity == 1 && !item.refunded
    && ((item.seat.Some? && item.tier == None)
        || (item.seat == None && item.tier.Some? && (item.tier.value in stock ==> item.price == stock[item.tier.value].price)))
  }

  /** The order a cart becomes: one item for each admission asked for, at what the lines cost less the member's discount. */
  ghost predicate Ordered(stock: Stock, cart: Cart, now: int, o: Order) {
    && o.user == cart.user && o.event == cart.event && o.status == Pending
    && !o.paymentInProgress && !o.holdReleased && o.refundedAmount == 0 && o.expiresAt == now + cart.ttl
    && o.subtotal == CartWorth(stock, cart.items)
    && o.memberDiscount * 100 <= o.subtotal * cart.discountPercent < o.memberDiscount * 100 + 100
    && o.total == o.subtotal - o.memberDiscount
    && (forall k :: 0 <= k < |o.items| ==> Admission(stock, o.items[k]))
    && (forall t :: Admitted(o.items, t) == Wanted(cart.items, t))
    && (forall seat, price :: SeatSold(o.items, seat, price) == SeatAsked(cart.items, seat, price))
    && |o.items| == Asked(cart.items)
  }

  /** Every tier line is on sale, and no tier is asked for more than it has left. */
  ghost predicate InStock(stock: Stock, items: seq<CartItem>, now: int) {
    forall k :: 0 <= k < |items| && items[k].seat == None && items[k].tier.Some? ==>
      var t := items[k].tier.value;
      Buyable(stock, t, items[k].quantity, now) && stock[t].sold + Wanted(items, t) <= stock[t].total
  }

  /** Every condition on which a cart is held. */
  ghost predicate Acceptable(orders: Orders, stock: Stock, cart: Cart, now: int) {
    && (forall k :: 0 <= k < |cart.items| ==> OneKind(cart.items[k]))
    && cart.refusal == None && cart.window == None
    && !OverCap(orders, cart)
    && !SeatsTaken(cart)
    && InStock(stock, cart.items, now)
  }

  /** The account would pass the event's limit. */
  ghost predicate OverCap(orders: Orders, cart: Cart) {
    cart.cap.Some? && |AccountTickets(orders, cart.user, cart.event)| + Asked(cart.items) > cart.cap.value
  }

  ghost predicate SeatsTaken(cart: Cart) {
    !cart.seatsFree && exists k :: 0 <= k < |cart.items| && cart.items[k].seat.Some?
  }

  /** The refusals in their order; a cart that passes them all fails on a tier. */
  ghost predicate RefusedCart(orders: Orders, cart: Cart, e: Error) {
    if exists k :: 0 <= k < |cart.items| && !OneKind(cart.items[k]) then e == BadRequest
    else if cart.refusal.Some? then e == cart.refusal.value
    else if OverCap(orders, cart) then e == BadRequest
    else if cart.window.Some? then e == cart.window.value
    else if SeatsTaken(cart) then e == Conflict
    else e in {NotFound, BadRequest, Conflict}
  }

  // -------------------------------------------------------------- account tickets

  /** The `u`-th ticket of item `k` of order `id`: one for each admission of an order of the account not canceled. */
  ghost function AccountTickets(orders: Orders, user: UserId, event: EventId): set<(nat, nat, nat)> {
    set id: nat, k: nat, u: nat
      | id < |orders| && orders[id].Some? && orders[id].value.user == user && orders[id].value.event == event
        && orders[id].value.status != Canceled && k < |orders[id].value.items| && u < orders[id].value.items[k].quantity
      :: (id, k, u)
  }

  ghost function ItemTickets(id: nat, k: nat, count: nat): set<(nat, nat, nat)> {
    set u: nat | u < count :: (id, k, u)
  }

  ghost function OrderTickets(id: nat, items: seq<Item>): set<(nat, nat, nat)> {
    set k: nat, u: nat | k < |items| && u < items[k].quantity :: (id, k, u)
  }

  lemma {:induction false} ItemTicketsCount(id: nat, k: nat, count: nat)
    ensures |ItemTickets(id, k, count)| == count
  {
    if count > 0 {
      ItemTicketsCount(id, k, count - 1);
      assert ItemTickets(id, k, count) == ItemTickets(id, k, count - 1) + {(id, k, (count - 1) as nat)};
    }
  }

  lemma {:induction false} OrderTicketsCount(id: nat, items: seq<Item>)
    ensures |OrderTickets(id, items)| == Quantity(items)
  {
    if items != [] {
      var last := |items| - 1;
      OrderTicketsCount(id, items[..last]);
      ItemTicketsCount(id, last, items[last].quantity);
      assert OrderTickets(id, items) == OrderTickets(id, items[..last]) + ItemTickets(id, last, items[last].quantity);
    }
  }

  /** The account's load is the number of its tickets. */
  lemma {:induction false} LoadCountsTickets(orders: Orders, user: UserId, event: EventId)
    ensures AccountLoad(orders, user, event) == |AccountTickets(orders, user, event)|
  {
    if orders != [] {
      var last := |orders| - 1;
      LoadCountsTickets(orders[..last], user, event);
      OneMoreOrder(orders, user, event);
      OrderTicketsCount(last, if orders[last].Some? then orders[last].value.items else []);
      hide AccountTickets;
      hide OrderTickets;
    }
  }

  /** The tickets of one more order, and none of those counted before. */
  lemma OneMoreOrder(orders: Orders, user: UserId, event: EventId)
    requires orders != []
    ensures var last := |orders| - 1;
            var before := AccountTickets(orders[..last], user, event);
            var more := if orders[last].Some? && orders[last].value.user == user && orders[last].value.event == event
                           && orders[last].value.status != Canceled then OrderTickets(last, orders[last].value.items) else {};
            AccountTickets(orders, user, event) == before + more && before !! more
  {
  }

  // ---------------------------------------------------------------- cart lemmas

  /** Units of a tier that a list of reservations asks for. */
  ghost function Requested(requests: seq<Request>, t: TierId): nat {
    if requests == [] then 0
    else
      var last := requests[|requests| - 1];
      Requested(requests[..|requests| - 1], t) + if last.tier == t then last.quantity else 0
  }

  /** What each reservation needs of the stock. */
  ghost predicate Fits(stock: Stock, requests: seq<Request>, now: int) {
    forall k :: 0 <= k < |requests| ==>
      && Buyable(stock, requests[k].tier, requests[k].quantity, now)
      && stock[requests[k].tier].sold + Requested(requests, requests[k].tier) <= stock[requests[k].tier].total
  }

  lemma {:induction false} RequestedIsUndone(requests: seq<Request>, t: TierId)
    ensures Units(Undo(requests), t) == Requested(requests, t)
  {
    if requests != [] {
      RequestedIsUndone(requests[..|requests| - 1], t);
      UndoUnits(requests, t);
    }
  }

  /** Tiers are reserved in turn exactly if all of them fit together. */
  lemma {:induction false} ReservedAllIffFits(stock: Stock, requests: seq<Request>, now: int)
    ensures ReservedAll(stock, requests, now).Ok? <==> Fits(stock, requests, now)
  {
    if requests != [] {
      var front, last := requests[..|requests| - 1], requests[|requests| - 1];
      ReservedAllIffFits(stock, front, now);
      if ReservedAll(stock, front, now).Ok? {
        var mid := ReservedAll(stock, front, now).value;
        ReservedAllAdds(stock, front, now);
        RequestedIsUndone(front, last.tier);
        assert Reserved(mid, last.tier, last.quantity, now).Ok? <==>
                 Buyable(stock, last.tier, last.quantity, now)
                 && stock[last.tier].sold + Requested(requests, last.tier) <= stock[last.tier].total;
        hide ReservedAll;
        hide Buyable;
        FitsOneMore(stock, requests, now);
      } else {
        hide Reserved;
        if Fits(stock, requests, now) {
          FitsOneMore(stock, requests, now);
        }
      }
    }
  }

  lemma FitsOneMore(stock: Stock, requests: seq<Request>, now: int)
    requires requests != []
    ensures var front, last := requests[..|requests| - 1], requests[|requests| - 1];
            Fits(stock, requests, now) <==>
            && Fits(stock, front, now) && Buyable(stock, last.tier, last.quantity, now)
            && stock[last.tier].sold + Requested(requests, last.tier) <= stock[last.tier].total
  {
    var front := requests[..|requests| - 1];
    assert forall t :: Requested(front, t) <= Requested(requests, t);
    assert forall t :: t != requests[|requests| - 1].tier ==> Requested(front, t) == Requested(requests, t);
    hide Requested;
    hide Buyable;
    assert forall k :: 0 <= k < |front| ==> front[k] == requests[k];
  }

  /** The reservations of a cart are its tier lines. */
  lemma {:induction false} RequestsAreTierLines(items: seq<CartItem>)
    ensures forall t :: Requested(Requests(items), t) == Wanted(items, t)
    ensures forall r :: r in Requests(items) <==>
              exists k :: 0 <= k < |items| && items[k].seat == None && items[k].tier == Some(r.tier) && items[k].quantity == r.quantity
  {
    if items != [] {
      var front, last := items[..|items| - 1], items[|items| - 1];
      RequestsAreTierLines(front);
      if last.seat.None? && last.tier.Some? {
        assert Requests(items) == Requests(front) + [Request(last.tier.value, last.quantity)];
        assert Requests(items)[..|Requests(items)| - 1] == Requests(front);
      } else {
        assert Requests(items) == Requests(front);
      }
      hide Requests;
      forall r
        ensures r in Requests(items) <==>
                  exists k :: 0 <= k < |items| && items[k].seat == None && items[k].tier == Some(r.tier) && items[k].quantity == r.quantity
      {
        if k :| 0 <= k < |front| && front[k].seat == None && front[k].tier == Some(r.tier) && front[k].quantity == r.quantity {
          assert items[k] == front[k];
        }
      }
    }
  }

  lemma FitsIffInStock(stock: Stock, items: seq<CartItem>, now: int)
    ensures Fits(stock, Requests(items), now) <==> InStock(stock, items, now)
  {
    var requests := Requests(items);
    RequestsAreTierLines(items);
    hide Requested;
    hide Wanted;
    hide Requests;
    if Fits(stock, requests, now) {
      forall k | 0 <= k < |items| && items[k].seat == None && items[k].tier.Some?
        ensures Buyable(stock, items[k].tier.value, items[k].quantity, now)
                && stock[items[k].tier.value].sold + Wanted(items, items[k].tier.value) <= stock[items[k].tier.value].total
      {
        assert Request(items[k].tier.value, items[k].quantity) in requests;
      }
    }
    if InStock(stock, items, now) {
      forall k | 0 <= k < |requests|
        ensures Buyable(stock, requests[k].tier, requests[k].quantity, now)
                && stock[requests[k].tier].sold + Requested(requests, requests[k].tier) <= stock[requests[k].tier].total
      {
        assert requests[k] in requests;
      }
    }
  }

  // --------------------------------------------------------- what a cart becomes

  lemma {:induction false} CountsConcat(a: seq<Item>, b: seq<Item>)
    ensures forall t :: Admitted(a + b, t) == Admitted(a, t) + Admitted(b, t)
    ensures forall seat, price :: SeatSold(a + b, seat, price) == SeatSold(a, seat, price) + SeatSold(b, seat, price)
  {
    if b == [] {
      assert a + b == a;
    } else {
      assert (a + b)[..|a + b| - 1] == a + b[..|b| - 1];
      CountsConcat(a, b[..|b| - 1]);
    }
  }

  lemma {:induction false} SeatLinesBecomeItems(stock: Stock, items: seq<CartItem>)
    ensures var seats := SeatItems(items);
            && (forall k :: 0 <= k < |seats| ==> Admission(stock, seats[k]))
            && (forall t :: Admitted(seats, t) == 0)
            && (forall seat, price :: SeatSold(seats, seat, price) == SeatAsked(items, seat, price))
  {
    if items != [] {
      var front, last := items[..|items| - 1], items[|items| - 1];
      SeatLinesBecomeItems(stock, front);
      if last.seat.Some? {
        assert SeatItems(items) == SeatItems(front) + [Item(None, last.seat, last.seatPrice, 1, false)];
        assert SeatItems(items)[..|SeatItems(items)| - 1] == SeatItems(front);
      } else {
        assert SeatItems(items) == SeatItems(front);
      }
      hide SeatItems;
    }
  }

  lemma {:induction false} AdmissionsAdmit(stock: Stock, tier: TierId, count: nat)
    ensures var admissions := Admissions(tier, PriceOf(stock, tier), count);
            && |admissions| == count
            && (forall k :: 0 <= k < |admissions| ==> Admission(stock, admissions[k]))
            && (forall t :: Admitted(admissions, t) == if t == tier then count else 0)
            && (forall seat, price :: SeatSold(admissions, seat, price) == 0)
  {
    if count > 0 {
      var admissions := Admissions(tier, PriceOf(stock, tier), count);
      AdmissionsAdmit(stock, tier, count - 1);
      assert admissions[..|admissions| - 1] == Admissions(tier, PriceOf(stock, tier), count - 1);
    }
  }

  lemma {:induction false} TierLinesBecomeItems(stock: Stock, requests: seq<Request>)
    ensures var items := TierItems(stock, requests);
            && (forall k :: 0 <= k < |items| ==> Admission(stock, items[k]))
            && (forall t :: Admitted(items, t) == Requested(requests, t))
            && (forall seat, price :: SeatSold(items, seat, price) == 0)
  {
    if requests != [] {
      var last := requests[|requests| - 1];
      var before, admissions := TierItems(stock, requests[..|requests| - 1]), Admissions(last.tier, PriceOf(stock, last.tier), last.quantity);
      TierLinesBecomeItems(stock, requests[..|requests| - 1]);
      AdmissionsAdmit(stock, last.tier, last.quantity);
      CountsConcat(before, admissions);
      assert TierItems(stock, requests) == before + admissions;
      hide TierItems;
      hide Admission;
      hide Admissions;
      hide Admitted;
      hide SeatSold;
      forall t
        ensures Admitted(before + admissions, t) == Requested(requests, t)
      {
      }
      forall seat, price
        ensures SeatSold(before + admissions, seat, price) == 0
      {
      }
    }
  }

  /** The items of one more line. */
  lemma OneMoreLine(stock: Stock, items: seq<CartItem>)
    requires items != []
    ensures var front, last := items[..|items| - 1], items[|items| - 1];
            && SeatItems(items) == SeatItems(front) + (if last.seat.Some? then [Item(None, last.seat, last.seatPrice, 1, false)] else [])
            && TierItems(stock, Requests(items)) == TierItems(stock, Requests(front))
               + (if last.seat == None && last.tier.Some? then Admissions(last.tier.value, PriceOf(stock, last.tier.value), last.quantity) else [])
  {
    var front, last := items[..|items| - 1], items[|items| - 1];
    if last.seat == None && last.tier.Some? {
      assert Requests(items)[..|Requests(items)| - 1] == Requests(front);
    } else {
      assert Requests(items) == Requests(front);
    }
  }

  /** The items of a cart cost what its lines cost. */
  lemma {:induction false} ItemsCostTheLines(stock: Stock, items: seq<CartItem>)
    ensures Worth(SeatItems(items)) + Worth(TierItems(stock, Requests(items))) == CartWorth(stock, items)
  {
    if items != [] {
      var front, last := items[..|items| - 1], items[|items| - 1];
      ItemsCostTheLines(stock, front);
      OneMoreLine(stock, items);
      hide SeatItems;
      hide TierItems;
      hide Requests;
      assert SeatItems(front) + [] == SeatItems(front);
      assert TierItems(stock, Requests(front)) + [] == TierItems(stock, Requests(front));
      if last.seat.Some? {
        WorthConcat(SeatItems(front), [Item(None, last.seat, last.seatPrice, 1, false)]);
      } else if last.tier.Some? {
        AdmissionsWorth(last.tier.value, PriceOf(stock, last.tier.value), last.quantity);
        WorthConcat(TierItems(stock, Requests(front)), Admissions(last.tier.value, PriceOf(stock, last.tier.value), last.quantity));
        hide Worth;
        hide Admissions;
      }
    }
  }

  /** And there is one for each admission. */
  lemma {:induction false} ItemsAreAdmissions(stock: Stock, items: seq<CartItem>)
    requires forall k :: 0 <= k < |items| ==> OneKind(items[k])
    ensures |SeatItems(items)| + |TierItems(stock, Requests(items))| == Asked(items)
  {
    if items != [] {
      var front, last := items[..|items| - 1], items[|items| - 1];
      ItemsAreAdmissions(stock, front);
      OneMoreLine(stock, items);
      assert OneKind(last);
      hide SeatItems;
      hide TierItems;
      hide Requests;
      if last.seat == None {
        AdmissionsAdmit(stock, last.tier.value, last.quantity);
      }
    }
  }

  /** The items of a cart are the admissions its lines ask for. */
  lemma LinesBecomeItems(stock: Stock, items: seq<CartItem>)
    requires forall k :: 0 <= k < |items| ==> OneKind(items[k])
    ensures var all := SeatItems(items) + TierItems(stock, Requests(items));
            && Worth(all) == CartWorth(stock, items) && |all| == Asked(items)
            && (forall k :: 0 <= k < |all| ==> Admission(stock, all[k]))
            && (forall t :: Admitted(all, t) == Wanted(items, t))
            && (forall seat, price :: SeatSold(all, seat, price) == SeatAsked(items, seat, price))
  {
    var seats, tiers := SeatItems(items), TierItems(stock, Requests(items));
    SeatLinesBecomeItems(stock, items);
    TierLinesBecomeItems(stock, Requests(items));
    RequestsAreTierLines(items);
    CountsConcat(seats, tiers);
    ItemsCostTheLines(stock, items);
    ItemsAreAdmissions(stock, items);
    WorthConcat(seats, tiers);
    hide Admission;
    hide Admitted;
    hide SeatSold;
    hide SeatAsked;
    hide Wanted;
    hide Requested;
    hide CartWorth;
    hide Worth;
    hide SeatItems;
    hide TierItems;
    hide Requests;
    hide Asked;
    hide OneKind;
  }

  lemma FlooredPercent(worth: nat, percent: nat)
    ensures worth * percent / 100 * 100 <= worth * percent < worth * percent / 100 * 100 + 100
  {
  }

  /** A cart becomes the order its lines describe. */
  lemma CartBecomesOrder(stock: Stock, cart: Cart, now: int)
    requires forall k :: 0 <= k < |cart.items| ==> OneKind(cart.items[k])
    ensures Ordered(stock, cart, now, NewOrder(stock, cart, now))
  {
    LinesBecomeItems(stock, cart.items);
    FlooredPercent(CartWorth(stock, cart.items), cart.discountPercent);
    hide Admission;
    hide Admitted;
    hide SeatSold;
    hide SeatAsked;
    hide Wanted;
    hide CartWorth;
    hide Worth;
    hide SeatItems;
    hide TierItems;
    hide Requests;
    hide Asked;
    hide OneKind;
  }

  /** Reserving for a cart raises each tier by what its lines want. */
  lemma ReservingTakesWanted(stock: Stock, items: seq<CartItem>, now: int)
    requires ReservedAll(stock, Requests(items), now).Ok?
    ensures ReservedAll(stock, Requests(items), now).value == map t | t in stock :: stock[t].(sold := stock[t].sold + Wanted(items, t))
  {
    ReservedAllAdds(stock, Requests(items), now);
    WantedIsUndone(items);
    hide ReservedAll;
    hide Requests;
    hide Wanted;
    hide Units;
    hide Undo;
  }

  lemma WantedIsUndone(items: seq<CartItem>)
    ensures forall t :: Units(Undo(Requests(items)), t) == Wanted(items, t)
  {
    RequestsAreTierLines(items);
    hide Requests;
    hide Units;
    hide Undo;
    hide Wanted;
    hide Requested;
    forall t
      ensures Units(Undo(Requests(items)), t) == Wanted(items, t)
    {
      RequestedIsUndone(Requests(items), t);
    }
  }

  /** Every refusal before a tier is reserved, in order. */
  lemma RefusedAsPromised(orders: Orders, cart: Cart)
    ensures CartRefusal(orders, cart).None? <==>
            && (forall k :: 0 <= k < |cart.items| ==> OneKind(cart.items[k]))
            && cart.refusal == None && cart.window == None && !OverCap(orders, cart) && !SeatsTaken(cart)
    ensures CartRefusal(orders, cart).Some? ==> RefusedCart(orders, cart, CartRefusal(orders, cart).value)
  {
    LoadCountsTickets(orders, cart.user, cart.event);
    SeatItemsIffSeats(cart.items);
    assert forall item: CartItem :: WellFormed(item) <==> OneKind(item);
    hide OneKind;
    hide WellFormed;
    hide AccountTickets;
    hide AccountLoad;
    hide SeatItems;
    hide Asked;
  }

  /** A cart is held exactly if it is acceptable, and otherwise refused for the first reason there is. */
  lemma HeldIffAcceptable(b: Booking, cart: Cart, now: int)
    ensures AfterHold(b, cart, now).Ok? <==> Acceptable(b.orders, b.stock, cart, now)
    ensures AfterHold(b, cart, now).Err? ==> RefusedCart(b.orders, cart, AfterHold(b, cart, now).error)
  {
    RefusedAsPromised(b.orders, cart);
    ReservedAllIffFits(b.stock, Requests(cart.items), now);
    FitsIffInStock(b.stock, cart.items, now);
    TierRefusals(b.stock, Requests(cart.items), now);
    hide CartRefusal;
    hide OneKind;
    hide OverCap;
    hide SeatsTaken;
    hide InStock;
    hide Fits;
    hide ReservedAll;
    hide Requests;
    hide NewOrder;
  }

  lemma {:induction false} TierRefusals(stock: Stock, requests: seq<Request>, now: int)
    ensures var after := ReservedAll(stock, requests, now); after.Err? ==> after.error in {NotFound, BadRequest, Conflict}
  {
    if requests != [] {
      TierRefusals(stock, requests[..|requests| - 1], now);
    }
  }

  lemma {:induction false} SeatItemsIffSeats(items: seq<CartItem>)
    ensures SeatItems(items) != [] <==> exists k :: 0 <= k < |items| && items[k].seat.Some?
  {
    if items != [] {
      var front := items[..|items| - 1];
      SeatItemsIffSeats(front);
      if k :| 0 <= k < |front| && front[k].seat.Some? {
        assert items[k] == front[k];
      }
      if k :| 0 <= k < |items| && items[k].seat.Some? {
        assert k < |front| ==> front[k] == items[k];
      }
    }
  }
}
