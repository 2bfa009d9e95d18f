/**
 * Artist membership cards: a paid order activates one card, and a renewal starts
 * when the cards before it end. Times are milliseconds; a card counts from
 * startsAt up to, not including, expiresAt.
 */
module Memberships {
  import opened Common

  type ArtistId = nat
  type PlanId = nat
  type CardId = nat

  const DAY := 86400000

  datatype Plan = Plan(artist: ArtistId, durationDays: nat, discountPercent: nat, presaleHours: nat)

  datatype Card = Card(
    user: UserId, artist: ArtistId, order: OrderId,
    startsAt: int, expiresAt: int, active: bool, discountPercent: nat, presaleHours: nat)

  predicate Unexpired(card: Card, user: UserId, artist: ArtistId, now: int) {
    card.user == user && card.artist == artist && card.active && card.expiresAt > now
  }

  /** When the last unexpired active card of the user for the artist ends. */
  function LatestExpiry(cards: seq<Card>, user: UserId, artist: ArtistId, now: int): Option<int> {
    if cards == [] then None
    else
      var before := LatestExpiry(cards[..|cards| - 1], user, artist, now);
      var card := cards[|cards| - 1];
      if Unexpired(card, user, artist, now) && (before.None? || before.value < card.expiresAt) then Some(card.expiresAt)
      else before
  }

  predicate HasOrder(cards: seq<Card>, order: OrderId) {
    exists k :: 0 <= k < |cards| && cards[k].order == order
  }

  function NewCard(cards: seq<Card>, plan: Plan, user: UserId, order: OrderId, now: int): Card {
    var latest := LatestExpiry(cards, user, plan.artist, now);
    var startsAt := if latest.Some? then latest.value else now;
    Card(user, plan.artist, order, startsAt, startsAt + plan.durationDays * DAY, true, plan.discountPercent, plan.presaleHours)
  }

  /** Idempotent on the order id. */
  function AfterActivate(cards: seq<Card>, plans: map<PlanId, Plan>, plan: PlanId, user: UserId, order: OrderId, now: int): Result<seq<Card>> {
    if HasOrder(cards, order) then Ok(cards)
    else if plan !in plans then Err(NotFound)
    else Ok(cards + [NewCard(cards, plans[plan], user, order, now)])
  }

  function AfterCancel(cards: seq<Card>, id: CardId, user: UserId, now: int): Result<seq<Card>> {
    if id >= |cards| then Err(NotFound)
    else if cards[id].user != user then Err(Forbidden)
    else if !cards[id].active then Ok(cards)
    else if cards[id].expiresAt <= now then Err(BadRequest)
    else Ok(cards[id := cards[id].(active := false)])
  }

  // ---------------------------------------------------------------- benefits

  datatype Benefits = Benefits(discountPercent: nat, presaleHours: nat, card: Option<CardId>)

  const NO_BENEFITS := Benefits(0, 0, None)

  /** Running now, and of an artist in the lineup. */
  predicate Counts(card: Card, lineup: set<ArtistId>, user: UserId, now: int) {
    card.user == user && card.artist in lineup && card.active && card.startsAt <= now < card.expiresAt
  }

  lemma {:induction false} LatestIsLatest(cards: seq<Card>, user: UserId, artist: ArtistId, now: int)
    ensures var latest := LatestExpiry(cards, user, artist, now);
            && (forall k :: 0 <= k < |cards| && Unexpired(cards[k], user, artist, now) ==>
                  latest.Some? && cards[k].expiresAt <= latest.value)
            && (latest.Some? ==> exists k :: 0 <= k < |cards| && Unexpired(cards[k], user, artist, now) && cards[k].expiresAt == latest.value)
  {
    if cards != [] {
      var front := cards[..|cards| - 1];
      LatestIsLatest(front, user, artist, now);
      var before := LatestExpiry(front, user, artist, now);
      if before.Some? {
        var k :| 0 <= k < |front| && Unexpired(front[k], user, artist, now) && front[k].expiresAt == before.value;
        assert Unexpired(cards[k], user, artist, now) && cards[k].expiresAt == before.value;
      }
    }
  }

  /** `at` is when the last active card of the user for the artist ends, if one is unexpired, and now otherwise. */
  ghost predicate StartsAt(cards: seq<Card>, user: UserId, artist: ArtistId, now: int, at: int) {
    && now <= at
    && (at == now || exists k :: 0 <= k < |cards| && cards[k].user == user && cards[k].artist == artist && cards[k].active && cards[k].expiresAt == at)
    && (forall k :: 0 <= k < |cards| && cards[k].user == user && cards[k].artist == artist && cards[k].active ==> cards[k].expiresAt <= at)
  }

  /** The card an order activates: the plan's terms, for its days, from the end of the cards before it. */
  ghost predicate Activated(cards: seq<Card>, plan: Plan, user: UserId, order: OrderId, now: int, card: Card) {
    && card.user == user && card.artist == plan.artist && card.order == order && card.active
    && StartsAt(cards, user, plan.artist, now, card.startsAt)
    && card.expiresAt == card.startsAt + plan.durationDays * 86_400_000
    && card.discountPercent == plan.discountPercent && card.presaleHours == plan.presaleHours
  }

  lemma NewCardAsPromised(cards: seq<Card>, plan: Plan, user: UserId, order: OrderId, now: int)
    ensures Activated(cards, plan, user, order, now, NewCard(cards, plan, user, order, now))
  {
    LatestIsLatest(cards, user, plan.artist, now);
    hide LatestExpiry;
    assert forall k :: 0 <= k < |cards| && cards[k].user == user && cards[k].artist == plan.artist && cards[k].active && cards[k].expiresAt > now ==>
             Unexpired(cards[k], user, plan.artist, now);
  }

  class MembershipsService {
    const plans: map<PlanId, Plan>
    var cards: seq<Card>

    constructor (plans: map<PlanId, Plan>)
      ensures this.plans == plans && cards == []
    {
      this.plans, cards := plans, [];
    }

    method Activate(plan: PlanId, user: UserId, order: OrderId, now: int) returns (r: Result<()>)
      modifies this
      ensures var after := AfterActivate(old(cards), plans, plan, user, order, now);
              && cards == (if after.Ok? then after.value else old(cards))
              && r == (if after.Ok? then Ok(()) else Err(after.error))
      ensures if exists k :: 0 <= k < |old(cards)| && old(cards)[k].order == order
              then r == Ok(()) && cards == old(cards)
              else if plan !in plans then r == Err(NotFound) && cards == old(cards)
              else
                && r == Ok(()) && |cards| == |old(cards)| + 1 && cards[..|old(cards)|] == old(cards)
                && Activated(old(cards), plans[plan], user, order, now, cards[|old(cards)|])
    {
      if exists k :: 0 <= k < |cards| && cards[k].order == order {
        return Ok(());
      }
      if plan !in plans {
        return Err(NotFound);
      }
      var p := plans[plan];
      NewCardAsPromised(cards, p, user, order, now);
      hide Activated;
      var latest: Option<int> := None;
      for n := 0 to |cards|
        invariant latest == LatestExpiry(cards[..n], user, p.artist, now)
      {
        assert cards[..n + 1][..n] == cards[..n];
        if Unexpired(cards[n], user, p.artist, now) && (latest.None? || latest.value < cards[n].expiresAt) {
          latest := Some(cards[n].expiresAt);
        }
      }
      assert cards[..|cards|] == cards;
      var startsAt := if latest.Some? then latest.value else now;
      cards := cards + [Card(user, p.artist, order, startsAt, startsAt + p.durationDays * DAY, true, p.discountPercent, p.presaleHours)];
      return Ok(());
    }

    method Cancel(id: CardId, user: UserId, now: int) returns (r: Result<()>)
      modifies this
      ensures var after := AfterCancel(old(cards), id, user, now);
              && cards == (if after.Ok? then after.value else old(cards))
              && r == (if after.Ok? then Ok(()) else Err(after.error))
      ensures r.Ok? <==> id < |old(cards)| && old(cards)[id].user == user && (old(cards)[id].active ==> now < old(cards)[id].expiresAt)
      ensures cards == if r.Ok? then old(cards)[id := old(cards)[id].(active := false)] else old(cards)
      ensures r.Err? ==> r.error == if id >= |cards| then NotFound else if cards[id].user != user then Forbidden else BadRequest
    {
      if id >= |cards| {
        return Err(NotFound);
      }
      var card := cards[id];
      if card.user != user {
        return Err(Forbidden);
      }
      if !card.active {
        return Ok(());
      }
      if card.expiresAt <= now {
        return Err(BadRequest);
      }
      cards := cards[id := card.(active := false)];
      return Ok(());
    }

    /** The best discount and the longest presale among the cards that count; none without such a card. */
    method BenefitsFor(lineup: set<ArtistId>, user: UserId, now: int) returns (b: Benefits)
      ensures b.card.None? ==> b == NO_BENEFITS && forall k :: 0 <= k < |cards| ==> !Counts(cards[k], lineup, user, now)
      ensures b.card.Some? ==>
                && b.card.value < |cards| && Counts(cards[b.card.value], lineup, user, now)
                && cards[b.card.value].discountPercent == b.discountPercent
                && (exists k :: 0 <= k < |cards| && Counts(cards[k], lineup, user, now) && cards[k].presaleHours == b.presaleHours)
                && (forall k :: 0 <= k < |cards| && Counts(cards[k], lineup, user, now) ==>
                      cards[k].discountPercent <= b.discountPercent && cards[k].presaleHours <= b.presaleHours)
                && (forall k :: 0 <= k < b.card.value && Counts(cards[k], lineup, user, now) ==>
                      cards[k].discountPercent < b.discountPercent)
    {
      b := NO_BENEFITS;
      for n := 0 to |cards|
        invariant b.card.None? ==> b == NO_BENEFITS && forall k :: 0 <= k < n ==> !Counts(cards[k], lineup, user, now)
        invariant b.card.Some? ==>
                    && b.card.value < n && Counts(cards[b.card.value], lineup, user, now)
                    && cards[b.card.value].discountPercent == b.discountPercent
                    && (exists k :: 0 <= k < n && Counts(cards[k], lineup, user, now) && cards[k].presaleHours == b.presaleHours)
                    && (forall k :: 0 <= k < n && Counts(cards[k], lineup, user, now) ==>
                          cards[k].discountPercent <= b.discountPercent && cards[k].presaleHours <= b.presaleHours)
                    && (forall k :: 0 <= k < b.card.value && Counts(cards[k], lineup, user, now) ==>
                          cards[k].discountPercent < b.discountPercent)
      {
        if Counts(cards[n], lineup, user, now) {
          var card := cards[n];
          if b.card.None? || card.discountPercent > b.discountPercent {
            b := Benefits(card.discountPercent, Max(card.presaleHours, b.presaleHours), Some(n));
          } else {
            b := b.(presaleHours := Max(card.presaleHours, b.presaleHours));
          }
        }
      }
    }
  }

  // --------------------------------------------------------------------- runs

  datatype Step =
    | Activate(plan: PlanId, user: UserId, order: OrderId, now: int)
    | Cancel(id: CardId, user: UserId, now: int)

  function Next(plans: map<PlanId, Plan>, cards: seq<Card>, step: Step): seq<Card> {
    var outcome := match step
      case Activate(plan, user, order, now) => AfterActivate(cards, plans, plan, user, order, now)
      case Cancel(id, user, now) => AfterCancel(cards, id, user, now);
    if outcome.Ok? then outcome.value else cards
  }

  function After(plans: map<PlanId, Plan>, cards: seq<Card>, steps: seq<Step>): seq<Card>
    decreases |steps|
  {
    if steps == [] then cards else After(plans, Next(plans, cards, steps[0]), steps[1..])
  }

  predicate Apart(a: Card, b: Card) {
    a.expiresAt <= b.startsAt || b.expiresAt <= a.startsAt
  }

  /** Active cards of one user and artist never overlap. */
  ghost predicate Disjoint(cards: seq<Card>) {
    forall i, j | 0 <= i < j < |cards| && cards[i].active && cards[j].active
                  && cards[i].user == cards[j].user && cards[i].artist == cards[j].artist ::
      Apart(cards[i], cards[j])
  }

  ghost predicate OneCardPerOrder(cards: seq<Card>) {
    forall i, j :: 0 <= i < j < |cards| ==> cards[i].order != cards[j].order
  }

  lemma StepKeepsCards(plans: map<PlanId, Plan>, cards: seq<Card>, step: Step)
    requires Disjoint(cards) && OneCardPerOrder(cards)
    ensures Disjoint(Next(plans, cards, step)) && OneCardPerOrder(Next(plans, cards, step))
  {
    if step.Activate? && !HasOrder(cards, step.order) && step.plan in plans {
      var card := NewCard(cards, plans[step.plan], step.user, step.order, step.now);
      LatestIsLatest(cards, step.user, card.artist, step.now);
      hide LatestExpiry;
      forall k | 0 <= k < |cards| && cards[k].active && cards[k].user == card.user && cards[k].artist == card.artist
        ensures cards[k].expiresAt <= card.startsAt
      {
        assert cards[k].expiresAt > step.now ==> Unexpired(cards[k], step.user, card.artist, step.now);
      }
      hide NewCard;
      assert forall k :: 0 <= k < |cards| ==> cards[k].order != step.order;
    }
  }

  lemma {:induction false} RunKeepsCards(plans: map<PlanId, Plan>, cards: seq<Card>, steps: seq<Step>)
    requires Disjoint(cards) && OneCardPerOrder(cards)
    ensures Disjoint(After(plans, cards, steps)) && OneCardPerOrder(After(plans, cards, steps))
    decreases |steps|
  {
    hide Disjoint;
    hide OneCardPerOrder;
    hide Next;
    if steps != [] {
      StepKeepsCards(plans, cards, steps[0]);
      RunKeepsCards(plans, Next(plans, cards, steps[0]), steps[1..]);
    }
  }

  /**
   * Over every run of activations and cancellations, even with a clock that jumps:
   * active cards of a user and artist are disjoint, so at most one counts at any
   * instant, and an order has one card however often it is activated.
   */
  lemma AtMostOneCardCounts(plans: map<PlanId, Plan>, steps: seq<Step>, user: UserId, artist: ArtistId, at: int)
    ensures var cards := After(plans, [], steps);
            && OneCardPerOrder(cards)
            && forall i, j | 0 <= i < |cards| && 0 <= j < |cards| && Counts(cards[i], {artist}, user, at) && Counts(cards[j], {artist}, user, at) ::
                 i == j
  {
    RunKeepsCards(plans, [], steps);
    var cards := After(plans, [], steps);
    assert forall i, j :: 0 <= i < j < |cards| && Counts(cards[i], {artist}, user, at) ==> !Counts(cards[j], {artist}, user, at);
  }

  /** Activating again, whatever plan, user or clock the repeated message carries, changes nothing. */
  lemma ActivatingTwiceIsOnce(plans: map<PlanId, Plan>, cards: seq<Card>, first: Step, second: Step)
    requires first.Activate? && second.Activate? && first.order == second.order
    requires HasOrder(cards, first.order) || first.plan in plans
    ensures Next(plans, Next(plans, cards, first), second) == Next(plans, cards, first)
  {
    if !HasOrder(cards, first.order) {
      var after := Next(plans, cards, first);
      assert after[|cards|].order == first.order;
    }
  }

  /** A first activation of an order adds a card on the plan's terms, which counts from its start to its end. */
  lemma ActivationCounts(plans: map<PlanId, Plan>, cards: seq<Card>, plan: PlanId, user: UserId, order: OrderId, now: int, at: int)
    requires plan in plans && forall k :: 0 <= k < |cards| ==> cards[k].order != order
    ensures var after := Next(plans, cards, Activate(plan, user, order, now));
            && |after| == |cards| + 1 && after[..|cards|] == cards
            && Activated(cards, plans[plan], user, order, now, after[|cards|])
            && (Counts(after[|cards|], {plans[plan].artist}, user, at) <==> after[|cards|].startsAt <= at < after[|cards|].expiresAt)
  {
    NewCardAsPromised(cards, plans[plan], user, order, now);
    hide LatestExpiry;
  }

  /** A renewal leaves no gap: it starts where an unexpired card ends, and none ends later. */
  lemma RenewalContinues(cards: seq<Card>, plan: Plan, user: UserId, order: OrderId, now: int, k: nat)
    requires k < |cards| && Unexpired(cards[k], user, plan.artist, now)
    ensures var card := NewCard(cards, plan, user, order, now);
            && card.startsAt >= cards[k].expiresAt
            && exists j :: 0 <= j < |cards| && Unexpired(cards[j], user, plan.artist, now) && cards[j].expiresAt == card.startsAt
  {
    LatestIsLatest(cards, user, plan.artist, now);
  }
}
