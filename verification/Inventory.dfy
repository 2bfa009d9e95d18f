/**
 * General-admission stock of event-service: an atomic conditional reserve that
 * never oversells, and a release that never goes below zero.
 */
module Inventory {
  import opened Common

  type TierId = nat
  type SeatId = nat

  datatype Tier = Tier(
    price: nat, total: nat, sold: nat, hidden: bool,
    minPerOrder: nat, maxPerOrder: Option<nat>, endsAt: Option<int>)

  type Stock = map<TierId, Tier>

  predicate Sellable(t: Tier, quantity: nat, now: int) {
    && !t.hidden
    && (t.endsAt.Some? ==> now < t.endsAt.value)
    && t.minPerOrder <= quantity
    && (t.maxPerOrder.Some? ==> quantity <= t.maxPerOrder.value)
  }

  function Reserved(stock: Stock, tier: TierId, quantity: nat, now: int): Result<Stock> {
    if tier !in stock then Err(NotFound)
    else if !Sellable(stock[tier], quantity, now) then Err(BadRequest)
    else if stock[tier].sold + quantity > stock[tier].total then Err(Conflict)
    else Ok(stock[tier := stock[tier].(sold := stock[tier].sold + quantity)])
  }

  function Released(stock: Stock, tier: TierId, quantity: nat): Stock {
    if tier in stock then stock[tier := stock[tier].(sold := Max(stock[tier].sold - quantity, 0))] else stock
  }

  /** One released order item, as OrderCanceled carries it. */
  datatype Line = Line(index: nat, tier: Option<TierId>, seat: Option<SeatId>, quantity: nat)

  function Restocked(stock: Stock, lines: seq<Line>): Stock {
    if lines == [] then stock
    else
      var last := lines[|lines| - 1];
      var rest := Restocked(stock, lines[..|lines| - 1]);
      if last.seat.None? && last.tier.Some? then Released(rest, last.tier.value, last.quantity) else rest
  }

  function LineUnits(line: Line, t: TierId): nat {
    if line.seat.None? && line.tier == Some(t) then line.quantity else 0
  }

  /** Units of a tier that a list of lines gives back. */
  function Units(lines: seq<Line>, t: TierId): nat {
    if lines == [] then 0 else Units(lines[..|lines| - 1], t) + LineUnits(lines[|lines| - 1], t)
  }

  lemma {:induction false} UnitsConcat(a: seq<Line>, b: seq<Line>, t: TierId)
    ensures Units(a + b, t) == Units(a, t) + Units(b, t)
  {
    if b == [] {
      assert a + b == a;
    } else {
      UnitsConcat(a, b[..|b| - 1], t);
      assert (a + b)[..|a + b| - 1] == a + b[..|b| - 1];
    }
  }

  /** Giving lines back lowers each tier by exactly its units, down to zero. */
  lemma {:induction false} RestockGivesBack(stock: Stock, lines: seq<Line>)
    ensures Restocked(stock, lines).Keys == stock.Keys
    ensures forall t :: t in stock ==>
              Restocked(stock, lines)[t] == stock[t].(sold := Max(stock[t].sold - Units(lines, t), 0))
  {
    if lines != [] {
      RestockGivesBack(stock, lines[..|lines| - 1]);
    }
  }

  /** The tier is shown and on sale, and `quantity` is within its limits per order. */
  ghost predicate Buyable(stock: Stock, tier: TierId, quantity: nat, now: int) {
    && tier in stock && !stock[tier].hidden
    && (forall end :: stock[tier].endsAt == Some(end) ==> now < end)
    && stock[tier].minPerOrder <= quantity && (forall max :: stock[tier].maxPerOrder == Some(max) ==> quantity <= max)
  }

  class InventoryService {
    var stock: Stock

    constructor (stock: Stock)
      ensures this.stock == stock
    {
      this.stock := stock;
    }

    method ReserveTicketType(tier: TierId, quantity: nat, now: int) returns (price: Result<nat>)
      modifies this
      ensures var after := Reserved(old(stock), tier, quantity, now);
              && stock == (if after.Ok? then after.value else old(stock))
              && price == (if after.Ok? then Ok(old(stock)[tier].price) else Err(after.error))
      ensures price.Ok? <==> Buyable(old(stock), tier, quantity, now) && old(stock)[tier].sold + quantity <= old(stock)[tier].total
      ensures price.Ok? ==>
                var was := old(stock)[tier];
                price.value == was.price && stock == old(stock)[tier := was.(sold := was.sold + quantity)]
      ensures price.Err? ==>
                && stock == old(stock)
                && price.error == if tier !in stock then NotFound else if Buyable(stock, tier, quantity, now) then Conflict else BadRequest
    {
      if tier !in stock {
        return Err(NotFound);
      }
      var t := stock[tier];
      if t.hidden || (t.endsAt.Some? && t.endsAt.value <= now) {
        return Err(BadRequest);
      }
      if quantity < t.minPerOrder || (t.maxPerOrder.Some? && quantity > t.maxPerOrder.value) {
        return Err(BadRequest);
      }
      if t.sold + quantity > t.total {
        return Err(Conflict);
      }
      stock := stock[tier := t.(sold := t.sold + quantity)];
      return Ok(t.price);
    }

    method ReleaseTicketType(tier: TierId, quantity: nat)
      modifies this
      ensures stock == Released(old(stock), tier, quantity)
      ensures stock == if tier !in old(stock) then old(stock)
                       else old(stock)[tier := old(stock)[tier].(sold := Max(old(stock)[tier].sold - quantity, 0))]
    {
      if tier in stock {
        stock := stock[tier := stock[tier].(sold := Max(stock[tier].sold - quantity, 0))];
      }
    }

    /** The restocking half of the OrderCanceled consumer; seats go back through the seat holds. */
    method OnOrderCanceled(lines: seq<Line>)
      modifies this
      ensures stock == Restocked(old(stock), lines)
      ensures stock == map t | t in old(stock) :: old(stock)[t].(sold := Max(old(stock)[t].sold - Units(lines, t), 0))
    {
      RestockGivesBack(stock, lines);
      for n := 0 to |lines|
        invariant stock == Restocked(old(stock), lines[..n])
      {
        assert lines[..n + 1][..n] == lines[..n];
        if lines[n].seat.None? && lines[n].tier.Some? {
          ReleaseTicketType(lines[n].tier.value, lines[n].quantity);
        }
      }
      assert lines[..|lines|] == lines;
    }
  }
}
