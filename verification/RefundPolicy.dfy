/**
 * What a refund is worth: the policy quote, and the pro-rata share of what was
 * actually paid that a subset of an order's tickets stands for.
 *
 * Money is integer dong; percents are naturals.
 */
module RefundPolicy {
  import opened Common

  datatype PricedItem = PricedItem(id: ItemId, price: nat, quantity: nat)

  datatype RefundKind = CustomerRequest | EventCanceled | EventPostponed

  // ------------------------------------------------------------------ shares

  function Subtotal(items: seq<PricedItem>): nat {
    if items == [] then 0 else items[0].price * items[0].quantity + Subtotal(items[1..])
  }

  function Only(items: seq<PricedItem>, ids: set<ItemId>): seq<PricedItem> {
    if items == [] then []
    else (if items[0].id in ids then [items[0]] else []) + Only(items[1..], ids)
  }

  /** The item subtotal of the tickets in `ids`. */
  function Worth(items: seq<PricedItem>, ids: set<ItemId>): nat {
    Subtotal(Only(items, ids))
  }

  function IdSet(ids: seq<ItemId>): set<ItemId> {
    set id | id in ids
  }

  function ItemIds(items: seq<PricedItem>): seq<ItemId> {
    seq(|items|, i requires 0 <= i < |items| => items[i].id)
  }

  /** The order's item ids that `claimed` leaves free, in order. */
  function Unclaimed(ids: seq<ItemId>, claimed: set<ItemId>): (r: seq<ItemId>)
    ensures forall id :: id in r <==> id in ids && id !in claimed
  {
    if ids == [] then []
    else (if ids[0] in claimed then [] else [ids[0]]) + Unclaimed(ids[1..], claimed)
  }

  /** One group of tickets, priced out of `paid` when `claimedGross` is already spoken for. */
  function GrossForItems(
    items: seq<PricedItem>, selected: seq<ItemId>, remaining: seq<ItemId>,
    paid: nat, claimedGross: nat
  ): nat
  {
    if |remaining| > 0 && forall id :: id in remaining ==> id in selected then
      Max(0, paid - claimedGross)
    else
      var orderSubtotal := Subtotal(items);
      if orderSubtotal <= 0 then 0
      else
        var share := paid * Worth(items, IdSet(selected)) / orderSubtotal;
        Min(share, Max(0, paid - claimedGross))
  }

  /** The request never claims more than what is left of the payment. */
  lemma GrossFitsWhatIsLeft(items: seq<PricedItem>, selected: seq<ItemId>, remaining: seq<ItemId>, paid: nat, claimedGross: nat)
    requires claimedGross <= paid
    ensures claimedGross + GrossForItems(items, selected, remaining, paid, claimedGross) <= paid
    ensures |remaining| > 0 && IdSet(remaining) <= IdSet(selected) ==>
              claimedGross + GrossForItems(items, selected, remaining, paid, claimedGross) == paid
  {
    if |remaining| > 0 && IdSet(remaining) <= IdSet(selected) {
      assert forall id :: id in remaining ==> id in IdSet(remaining) && id in IdSet(selected);
    }
  }

  /**
   * What a claim is worth: all that is left if it takes every free ticket; otherwise its floored
   * share of the payment, cut to what is left; nothing if the order has no value to share.
   */
  ghost predicate IsPrice(gross: nat, takesAll: bool, paid: nat, left: nat, worth: nat, s: nat) {
    if takesAll then gross == left
    else if s == 0 then gross == 0
    else (IsFlooredShare(gross, paid, worth, s) && gross <= left) || (gross == left && left * s <= paid * worth)
  }

  /** Every claim is priced so, whatever was claimed before, even more than was paid. */
  lemma GrossIsPrice(items: seq<PricedItem>, selected: seq<ItemId>, remaining: seq<ItemId>, paid: nat, claimedGross: nat)
    ensures IsPrice(GrossForItems(items, selected, remaining, paid, claimedGross),
                    remaining != [] && IdSet(remaining) <= IdSet(selected),
                    paid, Max(0, paid - claimedGross), Worth(items, IdSet(selected)), Subtotal(items))
  {
    assert IdSet(remaining) <= IdSet(selected) <==> forall id :: id in remaining ==> id in selected by {
      assert forall id :: id in remaining ==> id in IdSet(remaining);
    }
    var s := Subtotal(items);
    if s > 0 {
      CutShareIsPrice(paid, Max(0, paid - claimedGross), Worth(items, IdSet(selected)), s);
    }
    hide Worth;
    hide Subtotal;
  }

  lemma CutShareIsPrice(paid: nat, left: nat, worth: nat, s: nat)
    requires s > 0
    ensures IsPrice(Min(paid * worth / s, left), false, paid, left, worth, s)
  {
    FloorBounds(paid, worth, s);
    var share := paid * worth / s;
    if left < share {
      assert left * s <= share * s;
    }
  }

  // ------------------------------------------------- splitting a whole order

  function Sum(xs: seq<nat>): nat {
    if xs == [] then 0 else Sum(xs[..|xs| - 1]) + xs[|xs| - 1]
  }

  function Taken(groups: seq<seq<ItemId>>): set<ItemId> {
    set g, id | g in groups && id in g :: id
  }

  /** The gross amount of each group when the groups are requested one after the other. */
  function GrossInTurn(items: seq<PricedItem>, groups: seq<seq<ItemId>>, paid: nat): (r: seq<nat>)
    ensures |r| == |groups|
  {
    if groups == [] then []
    else
      var before := groups[..|groups| - 1];
      var earlier := GrossInTurn(items, before, paid);
      var remaining := Unclaimed(ItemIds(items), Taken(before));
      earlier + [GrossForItems(items, groups[|groups| - 1], remaining, paid, Sum(earlier))]
  }

  /** Nonempty, pairwise disjoint groups of the order's tickets that together cover it. */
  ghost predicate Splits(items: seq<PricedItem>, groups: seq<seq<ItemId>>) {
    && groups != []
    && (forall i :: 0 <= i < |groups| ==> groups[i] != [])
    && (forall i, j :: 0 <= i < j < |groups| ==> IdSet(groups[i]) !! IdSet(groups[j]))
    && Taken(groups) == IdSet(ItemIds(items))
  }

  lemma WorthIsAdditive(items: seq<PricedItem>, a: set<ItemId>, b: set<ItemId>)
    requires a !! b
    ensures Worth(items, a + b) == Worth(items, a) + Worth(items, b)
  {
    if items != [] {
      WorthIsAdditive(items[1..], a, b);
      SubtotalPrepend(items, a);
      SubtotalPrepend(items, b);
      SubtotalPrepend(items, a + b);
    }
  }

  lemma SubtotalPrepend(items: seq<PricedItem>, ids: set<ItemId>)
    requires items != []
    ensures Worth(items, ids) ==
            (if items[0].id in ids then items[0].price * items[0].quantity else 0) + Worth(items[1..], ids)
  {
    var rest := Only(items[1..], ids);
    if items[0].id in ids {
      assert ([items[0]] + rest)[1..] == rest;
    } else {
      assert [] + rest == rest;
    }
  }

  lemma WorthOfAll(items: seq<PricedItem>, ids: set<ItemId>)
    requires IdSet(ItemIds(items)) <= ids
    ensures Worth(items, ids) == Subtotal(items)
  {
    if items != [] {
      assert items[0].id == ItemIds(items)[0];
      assert forall i :: 0 <= i < |items[1..]| ==> ItemIds(items[1..])[i] == ItemIds(items)[i + 1];
      WorthOfAll(items[1..], ids);
      SubtotalPrepend(items, ids);
    }
  }

  lemma WorthAtMostAll(items: seq<PricedItem>, ids: set<ItemId>)
    ensures Worth(items, ids) <= Subtotal(items)
  {
    if items != [] {
      WorthAtMostAll(items[1..], ids);
      SubtotalPrepend(items, ids);
    }
  }

  /** `share` is the floor of the exact share `paid * worth / s`. */
  predicate IsFlooredShare(share: nat, paid: nat, worth: nat, s: nat) {
    share * s <= paid * worth < share * s + s
  }

  lemma FloorBounds(paid: nat, worth: nat, s: nat)
    requires s > 0
    ensures IsFlooredShare(paid * worth / s, paid, worth, s)
  {
    var a := paid * worth;
    assert (a / s) * s <= a < (a / s) * s + s;
  }

  lemma CancelFactor(x: int, y: int, s: nat)
    requires s > 0 && x * s <= y * s
    ensures x <= y
  {
    assert (x - y) * s <= 0;
  }

  /** Their sum trails the exact share of their tickets by less than one dong a group. */
  ghost predicate TrailsExactShare(paid: nat, s: nat, claimed: nat, worth: nat, k: nat) {
    && claimed <= paid
    && claimed * s <= paid * worth
    && paid * worth <= claimed * s + k * s
    && (k > 0 && s > 0 ==> paid * worth < claimed * s + k * s)
  }

  ghost predicate Trails(items: seq<PricedItem>, groups: seq<seq<ItemId>>, paid: nat, k: nat)
    requires k <= |groups|
  {
    TrailsExactShare(paid, Subtotal(items), Sum(GrossInTurn(items, groups[..k], paid)),
                     Worth(items, Taken(groups[..k])), k)
  }

  /** While tickets remain, the sum of the groups so far trails their exact share. */
  lemma {:induction false} EarlierGroupsTrail(items: seq<PricedItem>, groups: seq<seq<ItemId>>, paid: nat, k: nat)
    requires Splits(items, groups) && k < |groups|
    ensures Trails(items, groups, paid, k)
    decreases k
  {
    if k == 0 {
      NoGroupsTrail(items, groups, paid);
    } else {
      EarlierGroupsTrail(items, groups, paid, k - 1);
      NextGroup(items, groups, paid, k - 1);
    }
  }

  lemma NoGroupsTrail(items: seq<PricedItem>, groups: seq<seq<ItemId>>, paid: nat)
    ensures Trails(items, groups, paid, 0)
  {
    assert groups[..0] == [];
    assert Taken(groups[..0]) == {};
    NothingIsWorthNothing(items);
  }

  /** The clamp does not bind for a group that is not the last. */
  lemma NextGroup(items: seq<PricedItem>, groups: seq<seq<ItemId>>, paid: nat, k: nat)
    requires Splits(items, groups) && k + 1 < |groups|
    requires Trails(items, groups, paid, k)
    ensures Trails(items, groups, paid, k + 1)
    ensures Subtotal(items) > 0 ==>
              GrossInTurn(items, groups[..k + 1], paid)[k] == paid * Worth(items, IdSet(groups[k])) / Subtotal(items)
  {
    hide GrossForItems;
    hide GrossInTurn;
    var mine := Worth(items, IdSet(groups[k]));
    var worth := Worth(items, Taken(groups[..k]));
    assert Worth(items, Taken(groups[..k + 1])) == worth + mine <= Subtotal(items) by {
      TakenStep(groups, k);
      WorthIsAdditive(items, Taken(groups[..k]), IdSet(groups[k]));
      WorthAtMostAll(items, Taken(groups[..k + 1]));
    }
    NextShare(items, groups, paid, k);
    NextTrails(paid, Subtotal(items), Sum(GrossInTurn(items, groups[..k], paid)), worth, mine, k);
  }

  lemma {:induction false} GrossInTurnPrefix(items: seq<PricedItem>, groups: seq<seq<ItemId>>, paid: nat, k: nat, i: nat)
    requires i < k <= |groups|
    ensures GrossInTurn(items, groups[..k], paid)[i] == GrossInTurn(items, groups[..i + 1], paid)[i]
    decreases k
  {
    hide GrossForItems;
    if i + 1 < k {
      assert groups[..k][..k - 1] == groups[..k - 1];
      GrossInTurnPrefix(items, groups, paid, k - 1, i);
    }
  }

  /** The clamped share of one more group is its floored share, and the sum still trails. */
  lemma NextTrails(paid: nat, s: nat, claimed: nat, worth: nat, mine: nat, k: nat)
    requires worth + mine <= s
    requires TrailsExactShare(paid, s, claimed, worth, k)
    ensures var share := if s == 0 then 0 else paid * mine / s;
            && share == ClampedShare(paid, s, claimed, mine)
            && TrailsExactShare(paid, s, claimed + share, worth + mine, k + 1)
  {
    if s > 0 {
      ShareFits(paid, s, claimed, worth, mine, k);
    } else {
      NothingTrails(paid, claimed, k + 1);
    }
  }

  function ClampedShare(paid: nat, s: nat, claimed: nat, worth: nat): nat {
    if s == 0 then 0 else Min(paid * worth / s, Max(0, paid - claimed))
  }

  lemma NothingTrails(paid: nat, claimed: nat, k: nat)
    requires claimed <= paid
    ensures TrailsExactShare(paid, 0, claimed, 0, k)
  {
  }

  /** A group that is not the last is priced by the floored, clamped share. */
  lemma NextShare(items: seq<PricedItem>, groups: seq<seq<ItemId>>, paid: nat, k: nat)
    requires Splits(items, groups) && k + 1 < |groups|
    ensures var earlier := GrossInTurn(items, groups[..k], paid);
            var gross := GrossInTurn(items, groups[..k + 1], paid);
            && gross == earlier + [gross[k]]
            && Sum(gross) == Sum(earlier) + gross[k]
            && gross[k] == ClampedShare(paid, Subtotal(items), Sum(earlier), Worth(items, IdSet(groups[k])))
  {
    var earlier := GrossInTurn(items, groups[..k], paid);
    var gross := GrossInTurn(items, groups[..k + 1], paid);
    assert groups[..k + 1][..k] == groups[..k];
    assert gross[..k] == earlier;
    LaterGroupRemains(items, groups, k);
  }

  lemma NothingIsWorthNothing(items: seq<PricedItem>)
    ensures Worth(items, {}) == 0
  {
    if items != [] {
      NothingIsWorthNothing(items[1..]);
      SubtotalPrepend(items, {});
    }
  }

  lemma Distribute(a: int, b: int, c: int)
    ensures (a + b) * c == a * c + b * c
    ensures c * (a + b) == c * a + c * b
  {
  }

  lemma ProductGrows(a: nat, b: nat, c: nat)
    requires b <= c
    ensures a * b <= a * c
  {
  }

  /** The arithmetic of one floored share: it fits, so the clamp to what is left never binds. */
  lemma ShareFits(paid: nat, s: nat, claimed: nat, worth: nat, mine: nat, k: nat)
    requires s > 0 && worth + mine <= s
    requires TrailsExactShare(paid, s, claimed, worth, k)
    ensures claimed + paid * mine / s <= paid
    ensures TrailsExactShare(paid, s, claimed + paid * mine / s, worth + mine, k + 1)
  {
    var exact := paid * mine;
    var share := exact / s;
    FloorBounds(paid, mine, s);
    Distribute(claimed, share, s);
    Distribute(worth, mine, paid);
    Distribute(k, 1, s);
    ProductGrows(paid, worth + mine, s);
    assert (claimed + share) * s <= paid * s;
    CancelFactor(claimed + share, paid, s);
  }

  lemma TakenStep(groups: seq<seq<ItemId>>, k: nat)
    requires k < |groups|
    requires forall i, j :: 0 <= i < j < |groups| ==> IdSet(groups[i]) !! IdSet(groups[j])
    ensures Taken(groups[..k + 1]) == Taken(groups[..k]) + IdSet(groups[k])
    ensures Taken(groups[..k]) !! IdSet(groups[k])
  {
    assert groups[..k + 1] == groups[..k] + [groups[k]];
    forall id | id in Taken(groups[..k]) ensures id !in IdSet(groups[k]) {
      var g :| g in groups[..k] && id in g;
      var i :| 0 <= i < k && groups[i] == g;
      assert id in IdSet(groups[i]);
    }
  }

  lemma LaterGroupRemains(items: seq<PricedItem>, groups: seq<seq<ItemId>>, k: nat)
    requires Splits(items, groups) && k + 1 < |groups|
    ensures exists id :: id in Unclaimed(ItemIds(items), Taken(groups[..k])) && id !in groups[k]
  {
    var id := groups[k + 1][0];
    assert id in IdSet(groups[k + 1]);
    assert id in Taken(groups);
    TakenStep(groups, k + 1);
    TakenStep(groups, k);
    assert id !in Taken(groups[..k + 1]);
    assert id !in IdSet(groups[k]);
    assert id in Unclaimed(ItemIds(items), Taken(groups[..k]));
  }

  /** The last group is left with everything not yet claimed. */
  lemma LastGroupTakesTheRest(items: seq<PricedItem>, groups: seq<seq<ItemId>>, paid: nat)
    requires Splits(items, groups)
    ensures var k := |groups| - 1;
            var gross := GrossInTurn(items, groups, paid);
            && gross == GrossInTurn(items, groups[..k], paid) + [gross[k]]
            && Sum(gross) == Sum(GrossInTurn(items, groups[..k], paid)) + gross[k]
            && gross[k] == paid - Sum(GrossInTurn(items, groups[..k], paid))
  {
    var k := |groups| - 1;
    EarlierGroupsTrail(items, groups, paid, k);
    NothingElseRemains(items, groups);
    var gross := GrossInTurn(items, groups, paid);
    assert gross[..k] == GrossInTurn(items, groups[..k], paid);
  }

  lemma NothingElseRemains(items: seq<PricedItem>, groups: seq<seq<ItemId>>)
    requires Splits(items, groups)
    ensures var k := |groups| - 1;
            var remaining := Unclaimed(ItemIds(items), Taken(groups[..k]));
            |remaining| > 0 && forall id :: id in remaining ==> id in groups[k]
  {
    var k := |groups| - 1;
    TakenStep(groups, k);
    assert groups[..k + 1] == groups;
    var remaining := Unclaimed(ItemIds(items), Taken(groups[..k]));
    assert groups[k][0] in IdSet(groups[k]);
    assert groups[k][0] in remaining;
    forall id | id in remaining ensures id in groups[k] {
      assert id in Taken(groups);
    }
  }

  /** Rounding never makes the refunds of an order drift from what was paid. */
  lemma SplitSumsToPaid(items: seq<PricedItem>, groups: seq<seq<ItemId>>, paid: nat)
    requires Splits(items, groups)
    ensures Sum(GrossInTurn(items, groups, paid)) == paid
  {
    LastGroupTakesTheRest(items, groups, paid);
  }

  /** Every group but the last gets exactly the floor of its share, never the clamp. */
  lemma EarlierGroupBounds(items: seq<PricedItem>, groups: seq<seq<ItemId>>, paid: nat, i: nat)
    requires Splits(items, groups) && i + 1 < |groups| && Subtotal(items) > 0
    ensures IsFlooredShare(GrossInTurn(items, groups, paid)[i], paid, Worth(items, IdSet(groups[i])), Subtotal(items))
  {
    EarlierGroupIsFloored(items, groups, paid, i);
    FloorBounds(paid, Worth(items, IdSet(groups[i])), Subtotal(items));
  }

  lemma EarlierGroupIsFloored(items: seq<PricedItem>, groups: seq<seq<ItemId>>, paid: nat, i: nat)
    requires Splits(items, groups) && i + 1 < |groups| && Subtotal(items) > 0
    ensures GrossInTurn(items, groups, paid)[i] == paid * Worth(items, IdSet(groups[i])) / Subtotal(items)
  {
    assert groups[..|groups|] == groups;
    GrossInTurnPrefix(items, groups, paid, |groups|, i);
    EarlierGroupsTrail(items, groups, paid, i);
    NextGroup(items, groups, paid, i);
  }

  /** At least the exact share `paid * worth / s`, by less than `earlier` dong. */
  predicate IsLastShare(share: nat, paid: nat, worth: nat, s: nat, earlier: nat) {
    && paid * worth <= share * s
    && (earlier > 0 ==> share * s < paid * worth + earlier * s)
  }

  /** The last group gets at least its exact share, and exceeds it by less than one dong per earlier group. */
  lemma LastGroupBounds(items: seq<PricedItem>, groups: seq<seq<ItemId>>, paid: nat)
    requires Splits(items, groups) && Subtotal(items) > 0
    ensures var k := |groups| - 1;
            IsLastShare(GrossInTurn(items, groups, paid)[k], paid, Worth(items, IdSet(groups[k])), Subtotal(items), k)
  {
    var k := |groups| - 1;
    LastGroupTakesTheRest(items, groups, paid);
    EarlierGroupsTrail(items, groups, paid, k);
    WholeWorth(items, groups);
    LastShareBounds(paid, Subtotal(items), Sum(GrossInTurn(items, groups[..k], paid)),
                    Worth(items, Taken(groups[..k])), Worth(items, IdSet(groups[k])), k);
  }

  lemma WholeWorth(items: seq<PricedItem>, groups: seq<seq<ItemId>>)
    requires Splits(items, groups)
    ensures var k := |groups| - 1;
            Worth(items, Taken(groups[..k])) + Worth(items, IdSet(groups[k])) == Subtotal(items)
  {
    var k := |groups| - 1;
    TakenStep(groups, k);
    assert groups[..k + 1] == groups;
    WorthIsAdditive(items, Taken(groups[..k]), IdSet(groups[k]));
    WorthOfAll(items, Taken(groups));
  }

  lemma LastShareBounds(paid: nat, s: nat, claimed: nat, before: nat, mine: nat, k: nat)
    requires s > 0 && before + mine == s
    requires TrailsExactShare(paid, s, claimed, before, k)
    ensures IsLastShare(paid - claimed, paid, mine, s, k)
  {
    assert (paid - claimed) * s == paid * s - claimed * s;
    assert paid * s == paid * before + paid * mine;
  }

  // ------------------------------------------------------------ percentages

  function AmountForPercent(gross: nat, percent: nat): nat {
    gross * percent / 100
  }

  /** The customer's part and the retained fee always make up the gross amount. */
  lemma AmountAndFee(gross: nat, percent: nat)
    requires percent <= 100
    ensures AmountForPercent(gross, percent) <= gross
    ensures AmountForPercent(gross, percent) * 100 <= gross * percent < AmountForPercent(gross, percent) * 100 + 100
    ensures percent == 100 ==> AmountForPercent(gross, percent) == gross
    ensures forall higher: nat :: percent <= higher <= 100 ==>
              AmountForPercent(gross, percent) <= AmountForPercent(gross, higher)
  {
    assert gross * percent <= gross * 100;
    forall higher: nat | percent <= higher <= 100
      ensures AmountForPercent(gross, percent) <= AmountForPercent(gross, higher)
    {
      assert gross * percent <= gross * higher;
    }
  }

  // ------------------------------------------------------------------ policy

  /** The refund policy column is free-form JSON; numbers are taken to be integers. */
  datatype Json =
    | Null
    | Bool(b: bool)
    | Num(n: int)
    | Str(s: string)
    | Arr(elems: seq<Json>)
    | Obj(fields: map<string, Json>)

  datatype Tier = Tier(minHoursBefore: int, percent: nat)

  datatype Policy = Policy(customerRefundable: bool, tiers: seq<Tier>, autoApprove: bool)

  const DEFAULT_POLICY := Policy(false, [], false)

  function Field(value: Json, name: string): Option<Json> {
    if value.Obj? && name in value.fields then Some(value.fields[name]) else None
  }

  function AsTier(value: Json): Option<Tier> {
    match (Field(value, "minHoursBefore"), Field(value, "percent"))
    case (Some(Num(hours)), Some(Num(percent))) =>
      if 0 <= percent <= 100 then Some(Tier(hours, percent)) else None
    case _ => None
  }

  function WellFormedTiers(values: seq<Json>): (r: seq<Tier>)
    ensures forall t :: t in r ==> t.percent <= 100
  {
    if values == [] then []
    else
      var rest := WellFormedTiers(values[1..]);
      match AsTier(values[0])
      case Some(t) => [t] + rest
      case None => rest
  }

  function ParsePolicy(raw: Json): (p: Policy)
    ensures forall t :: t in p.tiers ==> t.percent <= 100
  {
    match (Field(raw, "customerRefundable"), Field(raw, "tiers"))
    case (Some(Bool(refundable)), Some(Arr(values))) =>
      Policy(refundable, WellFormedTiers(values), Field(raw, "autoApprove") == Some(Bool(true)))
    case _ => DEFAULT_POLICY
  }

  /** `value` is an object that spells out `t`. */
  ghost predicate Spells(value: Json, t: Tier) {
    && value.Obj? && "minHoursBefore" in value.fields && "percent" in value.fields
    && value.fields["minHoursBefore"] == Num(t.minHoursBefore)
    && value.fields["percent"] == Num(t.percent) && t.percent <= 100
  }

  lemma {:induction false} WellFormedTiersAreSpelled(values: seq<Json>)
    ensures forall t :: t in WellFormedTiers(values) <==> exists v :: v in values && Spells(v, t)
  {
    if values != [] {
      WellFormedTiersAreSpelled(values[1..]);
      assert values == [values[0]] + values[1..];
      forall t
        ensures t in WellFormedTiers(values) <==> exists v :: v in values && Spells(v, t)
      {
        assert AsTier(values[0]) == Some(t) <==> Spells(values[0], t);
      }
    }
  }

  /** A policy is malformed, and then refunds no customer, unless it says whether it refunds and lists tiers. */
  lemma PolicyIsReadOff(raw: Json)
    ensures var p := ParsePolicy(raw);
            if raw.Obj? && "customerRefundable" in raw.fields && raw.fields["customerRefundable"].Bool?
               && "tiers" in raw.fields && raw.fields["tiers"].Arr?
            then
              && p.customerRefundable == raw.fields["customerRefundable"].b
              && (p.autoApprove <==> "autoApprove" in raw.fields && raw.fields["autoApprove"] == Bool(true))
              && (forall t :: t in p.tiers <==> exists v :: v in raw.fields["tiers"].elems && Spells(v, t))
            else !p.customerRefundable && !p.autoApprove && p.tiers == []
  {
    if raw.Obj? && "tiers" in raw.fields && raw.fields["tiers"].Arr? {
      WellFormedTiersAreSpelled(raw.fields["tiers"].elems);
    }
  }

  function RenderedTiers(tiers: seq<Tier>): seq<Json> {
    if tiers == [] then []
    else [Obj(map["minHoursBefore" := Num(tiers[0].minHoursBefore), "percent" := Num(tiers[0].percent)])] + RenderedTiers(tiers[1..])
  }

  /** The organizer's policy as it is stored. */
  function Rendered(p: Policy): Json {
    Obj(map["customerRefundable" := Bool(p.customerRefundable), "tiers" := Arr(RenderedTiers(p.tiers)), "autoApprove" := Bool(p.autoApprove)])
  }

  lemma {:induction false} TiersSurviveStorage(tiers: seq<Tier>)
    requires forall t :: t in tiers ==> t.percent <= 100
    ensures WellFormedTiers(RenderedTiers(tiers)) == tiers
  {
    if tiers != [] {
      TiersSurviveStorage(tiers[1..]);
      var rendered := RenderedTiers(tiers);
      assert rendered[1..] == RenderedTiers(tiers[1..]);
      assert AsTier(rendered[0]) == Some(tiers[0]);
      assert tiers == [tiers[0]] + tiers[1..];
    }
  }

  /** Reading back a stored policy gives it again, its tiers in order. */
  lemma ParsingUndoesRendering(p: Policy)
    requires forall t :: t in p.tiers ==> t.percent <= 100
    ensures ParsePolicy(Rendered(p)) == p
  {
    TiersSurviveStorage(p.tiers);
  }

  const HOUR_MS := 3_600_000

  predicate Reached(t: Tier, msBefore: int) {
    msBefore >= t.minHoursBefore * HOUR_MS
  }

  /** Stable descending insertion, as a stable sort by descending minHoursBefore places it. */
  function Insert(t: Tier, sorted: seq<Tier>): seq<Tier> {
    if sorted == [] || sorted[0].minHoursBefore <= t.minHoursBefore then [t] + sorted
    else [sorted[0]] + Insert(t, sorted[1..])
  }

  function SortTiers(tiers: seq<Tier>): seq<Tier> {
    if tiers == [] then [] else Insert(tiers[0], SortTiers(tiers[1..]))
  }

  function FirstReached(tiers: seq<Tier>, msBefore: int): Option<Tier> {
    if tiers == [] then None
    else if Reached(tiers[0], msBefore) then Some(tiers[0])
    else FirstReached(tiers[1..], msBefore)
  }

  predicate Descending(tiers: seq<Tier>) {
    forall i, j :: 0 <= i < j < |tiers| ==> tiers[j].minHoursBefore <= tiers[i].minHoursBefore
  }

  /** The event starts in at least `hours` hours. */
  predicate AtLeastHours(msBefore: int, hours: int) {
    hours * 3_600_000 <= msBefore
  }

  /** Tier `k` governs: its hours are kept, it is stricter than every other such tier, and listed first among equals. */
  ghost predicate Governs(tiers: seq<Tier>, k: int, msBefore: int) {
    && 0 <= k < |tiers| && AtLeastHours(msBefore, tiers[k].minHoursBefore)
    && (forall j :: 0 <= j < |tiers| && AtLeastHours(msBefore, tiers[j].minHoursBefore) ==>
          tiers[j].minHoursBefore < tiers[k].minHoursBefore
          || (tiers[j].minHoursBefore == tiers[k].minHoursBefore && k <= j))
  }

  lemma {:induction false} InsertKeepsOrder(t: Tier, sorted: seq<Tier>)
    requires Descending(sorted)
    ensures Descending(Insert(t, sorted))
    ensures forall x :: x in Insert(t, sorted) <==> x == t || x in sorted
  {
    if sorted == [] || sorted[0].minHoursBefore <= t.minHoursBefore {
    } else {
      InsertKeepsOrder(t, sorted[1..]);
      assert sorted == [sorted[0]] + sorted[1..];
      var rest := Insert(t, sorted[1..]);
      forall j | 0 <= j < |rest| ensures rest[j].minHoursBefore <= sorted[0].minHoursBefore {
        assert rest[j] in rest;
      }
    }
  }

  lemma {:induction false} InsertThenFind(t: Tier, sorted: seq<Tier>, msBefore: int)
    requires Descending(sorted)
    ensures var found := FirstReached(sorted, msBefore);
            FirstReached(Insert(t, sorted), msBefore) ==
            if Reached(t, msBefore) && (found.None? || found.value.minHoursBefore <= t.minHoursBefore)
            then Some(t) else found
  {
    if sorted == [] || sorted[0].minHoursBefore <= t.minHoursBefore {
      assert ([t] + sorted)[1..] == sorted;
      FoundIsBounded(sorted, msBefore);
    } else {
      InsertThenFind(t, sorted[1..], msBefore);
      assert ([sorted[0]] + Insert(t, sorted[1..]))[1..] == Insert(t, sorted[1..]);
    }
  }

  lemma FoundIsBounded(sorted: seq<Tier>, msBefore: int)
    requires Descending(sorted)
    ensures var found := FirstReached(sorted, msBefore);
            found.Some? ==> found.value in sorted && found.value.minHoursBefore <= sorted[0].minHoursBefore
  {
  }

  /** Sort-then-find picks exactly the governing tier; none exactly when no tier is reached. */
  lemma {:induction false} TierIsGoverning(tiers: seq<Tier>, msBefore: int)
    ensures Descending(SortTiers(tiers))
    ensures var found := FirstReached(SortTiers(tiers), msBefore);
            && (found.None? <==> forall t :: t in tiers ==> !AtLeastHours(msBefore, t.minHoursBefore))
            && (found.Some? ==> exists k :: Governs(tiers, k, msBefore) && found.value == tiers[k])
  {
    assert forall t: Tier :: Reached(t, msBefore) <==> AtLeastHours(msBefore, t.minHoursBefore);
    hide Reached;
    hide AtLeastHours;
    if tiers == [] {
    } else {
      var rest := tiers[1..];
      TierIsGoverning(rest, msBefore);
      InsertKeepsOrder(tiers[0], SortTiers(rest));
      InsertThenFind(tiers[0], SortTiers(rest), msBefore);
      hide Insert;
      hide FirstReached;
      hide Descending;
      var inner := FirstReached(SortTiers(rest), msBefore);
      var found := FirstReached(SortTiers(tiers), msBefore);
      assert tiers == [tiers[0]] + rest;
      if inner.Some? {
        var k :| Governs(rest, k, msBefore) && inner.value == rest[k];
        if Reached(tiers[0], msBefore) && inner.value.minHoursBefore <= tiers[0].minHoursBefore {
          FrontGoverns(tiers[0], rest, msBefore);
        } else {
          RestGoverns(tiers[0], rest, k, msBefore);
        }
      } else if Reached(tiers[0], msBefore) {
        FrontGoverns(tiers[0], rest, msBefore);
      }
    }
  }

  lemma FrontGoverns(t: Tier, rest: seq<Tier>, msBefore: int)
    requires AtLeastHours(msBefore, t.minHoursBefore)
    requires forall j :: 0 <= j < |rest| && AtLeastHours(msBefore, rest[j].minHoursBefore) ==> rest[j].minHoursBefore <= t.minHoursBefore
    ensures Governs([t] + rest, 0, msBefore)
  {
    hide AtLeastHours;
  }

  lemma RestGoverns(t: Tier, rest: seq<Tier>, k: int, msBefore: int)
    requires Governs(rest, k, msBefore)
    requires AtLeastHours(msBefore, t.minHoursBefore) ==> t.minHoursBefore < rest[k].minHoursBefore
    ensures Governs([t] + rest, k + 1, msBefore)
  {
    hide AtLeastHours;
  }

  // ------------------------------------------------------------------- quote

  /** What event-service says about the event; times in milliseconds. */
  datatype EventContext = EventContext(
    canceled: bool, startTime: int, refundPolicy: Json,
    postponedAt: Option<int>, refundWindowEndsAt: Option<int>)

  datatype Quote =
    | Eligible(kind: RefundKind, percent: nat, gross: nat, amount: nat, fee: nat, autoApprove: bool)
    | Ineligible

  predicate InPostponementWindow(event: EventContext, now: int) {
    event.postponedAt.Some? && event.refundWindowEndsAt.Some? && now <= event.refundWindowEndsAt.value
  }

  function QuoteRefund(event: EventContext, gross: nat, now: int): (q: Quote)
    ensures q.Eligible? ==> q.gross == gross && q.percent <= 100 && q.amount + q.fee == gross
  {
    if event.canceled then Ineligible
    else if now >= event.startTime then Ineligible
    else if InPostponementWindow(event, now) then Eligible(EventPostponed, 100, gross, gross, 0, true)
    else
      var policy := ParsePolicy(event.refundPolicy);
      if !policy.customerRefundable then Ineligible
      else
        var tier := FirstReached(SortTiers(policy.tiers), event.startTime - now);
        if tier.None? || tier.value.percent <= 0 then Ineligible
        else
          TierComesFromPolicy(policy.tiers, event.startTime - now);
          AmountAndFee(gross, tier.value.percent);
          var amount := AmountForPercent(gross, tier.value.percent);
          Eligible(CustomerRequest, tier.value.percent, gross, amount, gross - amount, policy.autoApprove)
  }

  lemma TierComesFromPolicy(tiers: seq<Tier>, msBefore: int)
    ensures var found := FirstReached(SortTiers(tiers), msBefore); found.Some? ==> found.value in tiers
  {
    TierIsGoverning(tiers, msBefore);
  }

  /** Postponed, and its refund window not over. */
  ghost predicate WindowOpen(event: EventContext, now: int) {
    && event.postponedAt != None
    && exists end :: event.refundWindowEndsAt == Some(end) && now <= end
  }

  /** The policy takes customer refunds, and the tier that governs this moment pays something. */
  ghost predicate PolicyPays(event: EventContext, now: int) {
    var policy := ParsePolicy(event.refundPolicy);
    policy.customerRefundable && exists k :: Governs(policy.tiers, k, event.startTime - now) && policy.tiers[k].percent > 0
  }

  /** A customer is offered something: the event is on and ahead, and its postponement or its policy pays. */
  ghost predicate Offers(event: EventContext, now: int) {
    !event.canceled && now < event.startTime && (WindowOpen(event, now) || PolicyPays(event, now))
  }

  /** `percent`, `amount` and `fee` of `gross`, and whether no review is needed, as the event's terms have it. */
  ghost predicate IsOffer(event: EventContext, now: int, kind: RefundKind, percent: nat, gross: nat, amount: nat, fee: int, autoApprove: bool) {
    if WindowOpen(event, now) then
      kind == EventPostponed && percent == 100 && amount == gross && fee == 0 && autoApprove
    else
      var policy := ParsePolicy(event.refundPolicy);
      && kind == CustomerRequest
      && (exists k :: Governs(policy.tiers, k, event.startTime - now) && percent == policy.tiers[k].percent)
      && amount * 100 <= gross * percent < amount * 100 + 100
      && fee == gross - amount
      && autoApprove == policy.autoApprove
  }

  /**
   * A customer gets a quote exactly when the event offers one. In a postponement window it is
   * everything, at once; otherwise the tier that governs this moment fixes the percent and
   * the rounding, and the policy whether it is reviewed.
   */
  lemma QuoteFollowsGoverningTier(event: EventContext, gross: nat, now: int)
    ensures var q := QuoteRefund(event, gross, now);
            && (q.Eligible? <==> Offers(event, now))
            && (q.Eligible? ==> q.gross == gross && IsOffer(event, now, q.kind, q.percent, gross, q.amount, q.fee, q.autoApprove))
  {
    var policy := ParsePolicy(event.refundPolicy);
    var left := event.startTime - now;
    TierIsTheGoverningOne(policy.tiers, left);
    hide ParsePolicy;
    hide SortTiers;
    hide FirstReached;
    hide Governs;
    if QuoteRefund(event, gross, now).Eligible? {
      AmountAndFee(gross, QuoteRefund(event, gross, now).percent);
      hide AmountForPercent;
    }
  }

  lemma TierIsTheGoverningOne(tiers: seq<Tier>, msBefore: int)
    ensures var found := FirstReached(SortTiers(tiers), msBefore);
            && (found.None? ==> forall k :: !Governs(tiers, k, msBefore))
            && (found.Some? ==> exists k :: Governs(tiers, k, msBefore) && found.value == tiers[k])
            && (forall k :: found.Some? && Governs(tiers, k, msBefore) ==> found.value == tiers[k])
  {
    TierIsGoverning(tiers, msBefore);
    GoverningTierIsUnique(tiers, msBefore);
  }

  /** A postponed event's refund window pays everything back without review; after it the policy decides. */
  lemma PostponementPaysInFull(event: EventContext, gross: nat, now: int)
    requires !event.canceled && now < event.startTime && event.postponedAt.Some?
    requires event.refundWindowEndsAt.Some? && now <= event.refundWindowEndsAt.value
    ensures QuoteRefund(event, gross, now) == Eligible(EventPostponed, 100, gross, gross, 0, true)
  {
    QuoteFollowsGoverningTier(event, gross, now);
  }

  lemma GoverningTierIsUnique(tiers: seq<Tier>, msBefore: int)
    ensures forall i, j :: Governs(tiers, i, msBefore) && Governs(tiers, j, msBefore) ==> i == j
  {
  }
}
