/**
 * The resale marketplace: a listing locks its ticket, one buyer at a time reserves
 * it, and completing the sale kills the seller's ticket. A listing's id is its
 * position in the table.
 */
module Resale {
  import opened Common
  import opened Tickets

  datatype ListingStatus = Active | Reserved | Sold | Withdrawn

  datatype Listing = Listing(
    seller: UserId, item: ItemId, price: nat, status: ListingStatus,
    reservedOrder: Option<OrderId>, buyer: Option<UserId>)

  /** What booking-service knows of the seller's order item. */
  datatype SellerItem = SellerItem(owner: UserId, issued: bool, refunded: bool, transferred: bool, facePrice: nat)

  datatype Market = Market(listings: seq<Listing>, book: Book)

  predicate Open(l: Listing) {
    l.status == Active || l.status == Reserved
  }

  predicate HasOpen(listings: seq<Listing>, item: ItemId) {
    exists k :: 0 <= k < |listings| && listings[k].item == item && Open(listings[k])
  }

  /** Validation once the ticket is locked; `resellable` is the event's say. */
  function ListingRefusal(seller: UserId, price: nat, info: Option<SellerItem>, resellable: bool): Option<Error> {
    if info.None? || info.value.owner != seller then Some(Forbidden)
    else if !info.value.issued || info.value.refunded || info.value.transferred then Some(BadRequest)
    else if info.value.facePrice == 0 || price > info.value.facePrice then Some(BadRequest)
    else if !resellable then Some(BadRequest)
    else None
  }

  /** A refused listing unlocks the ticket again, so an error can still touch the book. */
  function AfterCreate(m: Market, seller: UserId, item: ItemId, price: nat, info: Option<SellerItem>, resellable: bool): (Market, Option<Error>) {
    match LockedForResale(m.book, item, seller)
    case Err(e) => (m, Some(e))
    case Ok(book) =>
      if HasOpen(m.listings, item) then (m.(book := book), None)
      else
        match ListingRefusal(seller, price, info, resellable)
        case Some(e) => (m.(book := UnlockedFromResale(book, item)), Some(e))
        case None => (Market(m.listings + [Listing(seller, item, price, Active, None, None)], book), None)
  }

  function AfterCancel(m: Market, id: nat, seller: UserId): Result<Market> {
    if id >= |m.listings| then Err(NotFound)
    else
      var l := m.listings[id];
      if l.seller != seller then Err(Forbidden)
      else if l.status == Withdrawn then Ok(m)
      else if l.status != Active then Err(Conflict)
      else Ok(Market(m.listings[id := l.(status := Withdrawn)], UnlockedFromResale(m.book, l.item)))
  }

  /**
   * `order` is a fresh id, and `reserver` the user of the reserving order while it is unpaid:
   * a buyer coming back to it gets it again. The answer is the market and the order to pay.
   */
  function AfterBuy(m: Market, id: nat, buyer: UserId, order: OrderId, reserver: Option<UserId>, resellable: bool): Result<(Market, OrderId)> {
    if id >= |m.listings| || m.listings[id].status == Withdrawn then Err(NotFound)
    else if m.listings[id].seller == buyer then Err(BadRequest)
    else if m.listings[id].status == Reserved then
      if m.listings[id].reservedOrder.Some? && reserver == Some(buyer) then Ok((m, m.listings[id].reservedOrder.value))
      else Err(Conflict)
    else if m.listings[id].status != Active then Err(Conflict)
    else if !resellable then Err(BadRequest)
    else Ok((m.(listings := m.listings[id := m.listings[id].(status := Reserved, reservedOrder := Some(order))]), order))
  }

  function AfterRelease(m: Market, id: nat, order: OrderId): Market {
    if id < |m.listings| && m.listings[id].status == Reserved && m.listings[id].reservedOrder == Some(order) then
      m.(listings := m.listings[id := m.listings[id].(status := Active, reservedOrder := None)])
    else m
  }

  /** Ok(false): the reservation was lost and the caller refunds. Err: the ticket died meanwhile. */
  function AfterComplete(m: Market, id: nat, order: OrderId, buyer: UserId): (Market, Result<bool>) {
    if id >= |m.listings| || m.listings[id].reservedOrder != Some(order)
       || (m.listings[id].status != Reserved && m.listings[id].status != Sold) then (m, Ok(false))
    else
      match Transferred(m.book, m.listings[id].item)
      case Err(e) => (m, Err(e))
      case Ok(book) => (Market(m.listings[id := m.listings[id].(status := Sold, buyer := Some(buyer))], book), Ok(true))
  }

  /** The seller holds the ticket, and it is unused, neither refunded nor sold on. */
  ghost predicate Listable(book: Book, item: ItemId, seller: UserId) {
    item in book && book[item].holder == seller && book[item].status in {Issued, ResaleListed}
  }

  /** The seller's own issued ticket, at face value or less, of an event that allows resale. */
  ghost predicate Sellable(seller: UserId, price: nat, info: Option<SellerItem>, resellable: bool) {
    && info.Some? && info.value.owner == seller
    && info.value.issued && !info.value.refunded && !info.value.transferred
    && 0 < info.value.facePrice && price <= info.value.facePrice && resellable
  }

  /** The order holds the reservation, or completed the sale before. */
  ghost predicate Completes(listings: seq<Listing>, id: nat, order: OrderId) {
    id < |listings| && listings[id].reservedOrder == Some(order) && listings[id].status in {Reserved, Sold}
  }

  class ResaleService {
    const tickets: TicketService
    var listings: seq<Listing>

    function State(): Market
      reads this, tickets
    {
      Market(listings, tickets.book)
    }

    constructor (tickets: TicketService)
      ensures this.tickets == tickets && listings == []
    {
      this.tickets := tickets;
      listings := [];
    }

    method CreateListing(seller: UserId, item: ItemId, price: nat, info: Option<SellerItem>, resellable: bool)
      returns (r: Option<Error>)
      modifies this, tickets
      ensures (State(), r) == AfterCreate(old(State()), seller, item, price, info, resellable)
      ensures r.None? <==>
                && Listable(old(tickets.book), item, seller)
                && (Sellable(seller, price, info, resellable)
                    || exists k :: 0 <= k < |old(listings)| && old(listings)[k].item == item && old(listings)[k].status in {Active, Reserved})
      ensures listings == if r.Some? || exists k :: 0 <= k < |old(listings)| && old(listings)[k].item == item && old(listings)[k].status in {Active, Reserved}
                          then old(listings) else old(listings) + [Listing(seller, item, price, Active, None, None)]
      ensures tickets.book == if Listable(old(tickets.book), item, seller)
                              then old(tickets.book)[item := old(tickets.book)[item].(status := if r.None? then ResaleListed else Issued)]
                              else old(tickets.book)
      ensures r.Some? ==>
                r.value == if item !in old(tickets.book) || old(tickets.book)[item].holder != seller then NotFound
                           else if !Listable(old(tickets.book), item, seller) then Conflict
                           else if info.None? || info.value.owner != seller then Forbidden
                           else BadRequest
    {
      assert HasOpen(listings, item) <==> exists k :: 0 <= k < |listings| && listings[k].item == item && listings[k].status in {Active, Reserved};
      var lock := tickets.LockForResale(item, seller);
      if lock.Err? {
        return Some(lock.error);
      }
      if exists k :: 0 <= k < |listings| && listings[k].item == item && Open(listings[k]) {
        return None;
      }
      r := ListingRefusal(seller, price, info, resellable);
      if r.Some? {
        tickets.UnlockFromResale(item);
        return;
      }
      listings := listings + [Listing(seller, item, price, Active, None, None)];
    }

    method CancelListing(id: nat, seller: UserId) returns (r: Result<()>)
      modifies this, tickets
      ensures var after := AfterCancel(old(State()), id, seller);
              && State() == (if after.Ok? then after.value else old(State()))
              && r == (if after.Ok? then Ok(()) else Err(after.error))
      ensures r.Ok? <==> id < |old(listings)| && old(listings)[id].seller == seller && old(listings)[id].status in {Active, Withdrawn}
      ensures r.Ok? && old(listings)[id].status == Active ==>
                var was := old(listings)[id];
                && listings == old(listings)[id := was.(status := Withdrawn)]
                && tickets.book == if was.item in old(tickets.book) && old(tickets.book)[was.item].status == ResaleListed
                                   then old(tickets.book)[was.item := old(tickets.book)[was.item].(status := Issued)] else old(tickets.book)
      ensures r.Err? || old(listings)[id].status == Withdrawn ==> State() == old(State())
      ensures r.Err? ==>
                r.error == if id >= |listings| then NotFound else if listings[id].seller != seller then Forbidden else Conflict
    {
      if id >= |listings| {
        return Err(NotFound);
      }
      var l := listings[id];
      if l.seller != seller {
        return Err(Forbidden);
      }
      if l.status == Withdrawn {
        return Ok(());
      }
      if l.status != Active {
        return Err(Conflict);
      }
      listings := listings[id := l.(status := Withdrawn)];
      tickets.UnlockFromResale(l.item);
      return Ok(());
    }

    method Buy(id: nat, buyer: UserId, order: OrderId, reserver: Option<UserId>, resellable: bool) returns (r: Result<OrderId>)
      modifies this
      ensures var after := AfterBuy(old(State()), id, buyer, order, reserver, resellable);
              && State() == (if after.Ok? then after.value.0 else old(State()))
              && r == (if after.Ok? then Ok(after.value.1) else Err(after.error))
      ensures r.Ok? <==>
                && id < |listings| && old(listings)[id].seller != buyer
                && (|| (old(listings)[id].status == Active && resellable)
                    || (old(listings)[id].status == Reserved && old(listings)[id].reservedOrder.Some? && reserver == Some(buyer)))
      ensures r.Ok? && old(listings)[id].status == Active ==>
                r.value == order && listings == old(listings)[id := old(listings)[id].(status := Reserved, reservedOrder := Some(order))]
      ensures r.Ok? && old(listings)[id].status == Reserved ==> Some(r.value) == listings[id].reservedOrder && listings == old(listings)
      ensures r.Err? ==>
                && listings == old(listings)
                && r.error == (if id >= |listings| || listings[id].status == Withdrawn then NotFound
                               else if listings[id].seller == buyer || listings[id].status == Active then BadRequest
                               else Conflict)
    {
      if id >= |listings| || listings[id].status == Withdrawn {
        return Err(NotFound);
      }
      var l := listings[id];
      if l.seller == buyer {
        return Err(BadRequest);
      }
      if l.status == Reserved {
        if l.reservedOrder.Some? && reserver == Some(buyer) {
          return Ok(l.reservedOrder.value);
        }
        return Err(Conflict);
      }
      if l.status != Active {
        return Err(Conflict);
      }
      if !resellable {
        return Err(BadRequest);
      }
      listings := listings[id := l.(status := Reserved, reservedOrder := Some(order))];
      return Ok(order);
    }

    method ReleaseReservation(id: nat, order: OrderId)
      modifies this
      ensures State() == AfterRelease(old(State()), id, order)
      ensures listings == if id < |old(listings)| && old(listings)[id].status == Reserved && old(listings)[id].reservedOrder == Some(order)
                          then old(listings)[id := old(listings)[id].(status := Active, reservedOrder := None)] else old(listings)
    {
      if id < |listings| && listings[id].status == Reserved && listings[id].reservedOrder == Some(order) {
        listings := listings[id := listings[id].(status := Active, reservedOrder := None)];
      }
    }

    method Complete(id: nat, order: OrderId, buyer: UserId) returns (r: Result<bool>)
      modifies this, tickets
      ensures (State(), r) == AfterComplete(old(State()), id, order, buyer)
      ensures r == Ok(false) <==> !Completes(old(listings), id, order)
      ensures r == Ok(true) <==>
                && Completes(old(listings), id, order) && old(listings)[id].item in old(tickets.book)
                && var t := old(tickets.book)[old(listings)[id].item];
                   t.status == ResaleListed || (t.status == Canceled && t.reason == Some(Resold))
      ensures r == Ok(true) ==>
                var item := old(listings)[id].item;
                var t := old(tickets.book)[item];
                && listings == old(listings)[id := old(listings)[id].(status := Sold, buyer := Some(buyer))]
                && tickets.book == if t.status == ResaleListed
                                   then old(tickets.book)[item := t.(status := Canceled, reason := Some(Resold), qrVersion := t.qrVersion + 1)]
                                   else old(tickets.book)
      ensures r.Err? ==> r.error == if old(listings)[id].item in old(tickets.book) then Conflict else NotFound
      ensures r != Ok(true) ==> State() == old(State())
    {
      if id >= |listings| || listings[id].reservedOrder != Some(order) || listings[id].status !in {Reserved, Sold} {
        return Ok(false);
      }
      var transfer := tickets.TransferResold(listings[id].item);
      if transfer.Err? {
        return Err(transfer.error);
      }
      listings := listings[id := listings[id].(status := Sold, buyer := Some(buyer))];
      return Ok(true);
    }
  }

  // -------------------------------------------------------------------- runs

  datatype MarketStep =
    | Create(seller: UserId, item: ItemId, price: nat, info: Option<SellerItem>, resellable: bool)
    | Cancel(id: nat, seller: UserId)
    | Buy(id: nat, buyer: UserId, order: OrderId, reserver: Option<UserId>, resellable: bool)
    | Release(id: nat, order: OrderId)
    | Complete(id: nat, order: OrderId, buyer: UserId)
    | Elsewhere(move: TicketStep)

  function Next(m: Market, step: MarketStep): Market {
    match step
    case Create(seller, item, price, info, resellable) => AfterCreate(m, seller, item, price, info, resellable).0
    case Cancel(id, seller) => var r := AfterCancel(m, id, seller); if r.Ok? then r.value else m
    case Buy(id, buyer, order, reserver, resellable) =>
      var r := AfterBuy(m, id, buyer, order, reserver, resellable); if r.Ok? then r.value.0 else m
    case Release(id, order) => AfterRelease(m, id, order)
    case Complete(id, order, buyer) => AfterComplete(m, id, order, buyer).0
    case Elsewhere(move) => m.(book := AfterTicketStep(m.book, move))
  }

  /** Only the marketplace locks, unlocks and transfers tickets for resale; an order has one buyer. */
  predicate Allowed(owner: OrderId -> UserId, step: MarketStep) {
    match step
    case Elsewhere(move) => !move.LockForResale? && !move.UnlockFromResale? && !move.TransferResold?
    case Complete(_, order, buyer) => buyer == owner(order)
    case _ => true
  }

  function After(m: Market, steps: seq<MarketStep>): Market
    decreases |steps|
  {
    if steps == [] then m else After(Next(m, steps[0]), steps[1..])
  }

  /** Whoever was promised the ticket: an open or completed listing. */
  predicate Promised(l: Listing) {
    l.status != Withdrawn
  }

  ghost predicate OnePromise(listings: seq<Listing>) {
    forall j, k | 0 <= j < |listings| && 0 <= k < |listings| && Promised(listings[j]) && Promised(listings[k]) ::
      listings[j].item == listings[k].item ==> j == k
  }

  ghost predicate PromisesKept(owner: OrderId -> UserId, m: Market) {
    forall k :: 0 <= k < |m.listings| && Promised(m.listings[k]) ==>
      var l := m.listings[k];
      && l.item in m.book
      && (Open(l) ==> m.book[l.item].status == ResaleListed || (m.book[l.item].status == Canceled && !IsResold(m.book[l.item])))
      && (l.status == Sold ==> IsResold(m.book[l.item]) && l.reservedOrder.Some? && l.buyer == Some(owner(l.reservedOrder.value)))
  }

  /** A listed ticket is on the market, and a resold one was sold there. */
  ghost predicate TicketsExplained(m: Market) {
    forall i :: i in m.book ==>
      && (m.book[i].status == ResaleListed ==> exists k :: 0 <= k < |m.listings| && m.listings[k].item == i && Open(m.listings[k]))
      && (IsResold(m.book[i]) ==> exists k :: 0 <= k < |m.listings| && m.listings[k].item == i && m.listings[k].status == Sold)
      && (m.book[i].status != Canceled ==> m.book[i].reason == None)
  }

  ghost predicate Sound(owner: OrderId -> UserId, m: Market) {
    OnePromise(m.listings) && PromisesKept(owner, m) && TicketsExplained(m)
  }

  lemma CreateIsSound(owner: OrderId -> UserId, m: Market, seller: UserId, item: ItemId, price: nat, info: Option<SellerItem>, resellable: bool)
    requires Sound(owner, m)
    ensures Sound(owner, AfterCreate(m, seller, item, price, info, resellable).0)
  {
    hide ListingRefusal;
    var after := AfterCreate(m, seller, item, price, info, resellable).0;
    if |after.listings| > |m.listings| {
      assert forall k :: 0 <= k < |m.listings| ==> after.listings[k] == m.listings[k];
      assert after.listings[|m.listings|].item == item && Open(after.listings[|m.listings|]);
    }
  }

  /** One listing changes status, and its ticket with it. */
  lemma ListingMoveIsSound(owner: OrderId -> UserId, m: Market, id: nat, l: Listing, book: Book)
    requires Sound(owner, m) && id < |m.listings|
    requires l.item == m.listings[id].item && (Promised(l) ==> Promised(m.listings[id]))
    requires book.Keys == m.book.Keys && forall i :: i in book && i != l.item ==> book[i] == m.book[i]
    requires Promised(m.listings[id])
    requires var t, t' := m.book[l.item], book[l.item];
             && (t'.status != Canceled ==> t'.reason == None)
             && (Open(l) ==> t' == t && Open(m.listings[id]))
             && (l.status == Withdrawn ==> Open(m.listings[id]) && t' == if t.status == ResaleListed then t.(status := Issued) else t)
             && (l.status == Sold ==> IsResold(t') && l.reservedOrder.Some? && l.buyer == Some(owner(l.reservedOrder.value)))
    ensures Sound(owner, Market(m.listings[id := l], book))
  {
    var listings := m.listings[id := l];
    assert PromisesKept(owner, Market(listings, book)) by {
      hide TicketsExplained;
      assert forall k :: 0 <= k < |listings| && k != id ==> listings[k] == m.listings[k];
    }
    forall i | i in book
      ensures book[i].status == ResaleListed ==>
                exists k :: 0 <= k < |listings| && listings[k].item == i && Open(listings[k])
      ensures IsResold(book[i]) ==> exists k :: 0 <= k < |listings| && listings[k].item == i && listings[k].status == Sold
    {
      if i == l.item {
        assert listings[id].item == i;
      } else if book[i].status == ResaleListed {
        var k :| 0 <= k < |listings| && m.listings[k].item == i && Open(m.listings[k]);
        assert listings[k] == m.listings[k];
      } else if IsResold(book[i]) {
        var k :| 0 <= k < |listings| && m.listings[k].item == i && m.listings[k].status == Sold;
        assert listings[k] == m.listings[k];
      }
    }
  }

  lemma ElsewhereIsSound(owner: OrderId -> UserId, m: Market, move: TicketStep)
    requires Sound(owner, m)
    requires !move.LockForResale? && !move.UnlockFromResale? && !move.TransferResold?
    ensures Sound(owner, m.(book := AfterTicketStep(m.book, move)))
  {
    BookMovesOn(m.book, move);
    hide AfterTicketStep;
  }

  /** What the rest of the system can do to tickets: nothing it does lists, unlists or resells one. */
  lemma BookMovesOn(book: Book, move: TicketStep)
    requires !move.LockForResale? && !move.UnlockFromResale? && !move.TransferResold?
    requires forall i :: i in book && book[i].status != Canceled ==> book[i].reason == None
    ensures var after := AfterTicketStep(book, move);
            && Advances(book, after)
            && (forall i :: i in after && (after[i].status == ResaleListed || IsResold(after[i])) ==> i in book && after[i] == book[i])
            && (forall i :: i in book && book[i].status == ResaleListed ==>
                  after[i] == book[i] || (after[i].status == Canceled && !IsResold(after[i])))
            && (forall i :: i in after && after[i].status != Canceled ==> after[i].reason == None)
  {
  }

  lemma StepIsSound(owner: OrderId -> UserId, m: Market, step: MarketStep)
    requires Sound(owner, m) && Allowed(owner, step)
    ensures Sound(owner, Next(m, step))
  {
    hide AfterTicketStep;
    hide AfterCreate;
    match step
    case Create(seller, item, price, info, resellable) => CreateIsSound(owner, m, seller, item, price, info, resellable);
    case Elsewhere(move) => ElsewhereIsSound(owner, m, move);
    case Cancel(id, seller) =>
      var after := AfterCancel(m, id, seller);
      if after.Ok? && after.value != m {
        ListingMoveIsSound(owner, m, id, after.value.listings[id], after.value.book);
      }
    case Buy(id, buyer, order, reserver, resellable) =>
      var after := AfterBuy(m, id, buyer, order, reserver, resellable);
      if after.Ok? && after.value.0 != m {
        ListingMoveIsSound(owner, m, id, after.value.0.listings[id], m.book);
      }
    case Release(id, order) =>
      if AfterRelease(m, id, order) != m {
        ListingMoveIsSound(owner, m, id, AfterRelease(m, id, order).listings[id], m.book);
      }
    case Complete(id, order, buyer) =>
      var after := AfterComplete(m, id, order, buyer).0;
      if after != m {
        ListingMoveIsSound(owner, m, id, after.listings[id], after.book);
      }
  }

  lemma {:induction false} RunIsSound(owner: OrderId -> UserId, m: Market, steps: seq<MarketStep>)
    requires Sound(owner, m) && forall s :: s in steps ==> Allowed(owner, s)
    ensures Sound(owner, After(m, steps))
    decreases |steps|
  {
    hide Sound;
    hide Next;
    if steps != [] {
      StepIsSound(owner, m, steps[0]);
      RunIsSound(owner, Next(m, steps[0]), steps[1..]);
    }
  }

  /** A completed sale is final: same listing, same order, same buyer. */
  lemma {:induction false} SoldStaysSold(owner: OrderId -> UserId, m: Market, steps: seq<MarketStep>, id: nat)
    requires Sound(owner, m) && forall s :: s in steps ==> Allowed(owner, s)
    requires id < |m.listings| && m.listings[id].status == Sold
    ensures var after := After(m, steps); id < |after.listings| && after.listings[id] == m.listings[id]
    decreases |steps|
  {
    if steps != [] {
      var next := Next(m, steps[0]);
      StepIsSound(owner, m, steps[0]);
      assert id < |next.listings| && next.listings[id] == m.listings[id];
      hide Next;
      hide Sound;
      SoldStaysSold(owner, next, steps[1..], id);
    }
  }

  /** From any state: a ticket its holder may sell, listed, bought and paid, is sold to that buyer and dies in the seller's hands. */
  lemma ListedTicketsSell(m: Market, seller: UserId, item: ItemId, price: nat, info: Option<SellerItem>, buyer: UserId, order: OrderId)
    requires Listable(m.book, item, seller) && Sellable(seller, price, info, true) && buyer != seller
    requires forall k :: 0 <= k < |m.listings| && m.listings[k].item == item ==> m.listings[k].status !in {Active, Reserved}
    ensures var id := |m.listings|;
            var done := After(m, [Create(seller, item, price, info, true), Buy(id, buyer, order, None, true), Complete(id, order, buyer)]);
            && done.listings == m.listings + [Listing(seller, item, price, Sold, Some(order), Some(buyer))]
            && item in done.book && IsResold(done.book[item]) && done.book[item].qrVersion == m.book[item].qrVersion + 1
  {
    var id := |m.listings|;
    var create, buy, complete := Create(seller, item, price, info, true), Buy(id, buyer, order, None, true), Complete(id, order, buyer);
    assert !HasOpen(m.listings, item);
    var listed := Next(m, create);
    var reserved := Next(listed, buy);
    var sold := Next(reserved, complete);
    assert sold.listings == m.listings + [Listing(seller, item, price, Sold, Some(order), Some(buyer))];
    assert [create, buy, complete][1..] == [buy, complete] && [buy, complete][1..] == [complete] && [complete][1..] == [];
    hide Next;
    assert After(reserved, [complete]) == sold;
    assert After(listed, [buy, complete]) == sold;
  }

  /**
   * Over every run, whatever check-ins, refunds and cancellations happen meanwhile:
   * a ticket is promised by one listing at most, sold to one order at most, and it
   * is resold exactly when a sale of it completed.
   */
  lemma EachTicketIsSoldOnce(owner: OrderId -> UserId, book: Book, steps: seq<MarketStep>)
    requires forall i :: i in book ==> book[i].status == Issued && book[i].reason == None
    requires forall s :: s in steps ==> Allowed(owner, s)
    ensures var m := After(Market([], book), steps);
            && OnePromise(m.listings)
            && (forall i :: i in m.book ==>
                  (IsResold(m.book[i]) <==> exists k :: 0 <= k < |m.listings| && m.listings[k].item == i && m.listings[k].status == Sold))
  {
    RunIsSound(owner, Market([], book), steps);
  }
}
