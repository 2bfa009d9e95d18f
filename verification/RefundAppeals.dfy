/**
 * Two runs in which an appeal against a rejection upsets the balance of an order: one
 * claims more than was paid, the other less once every ticket is claimed.
 */
module RefundAppeals {
  import opened Common
  import opened RefundPolicy
  import opened Tickets
  import opened Refunds
  import opened Payouts
  import opened RefundWorld
  import opened RefundClaims
  import opened RefundMoney
  import opened RefundLimits

  // ------------------------------------------------------- an appeal too many

  // One ticket, 101 dong paid, refundable in full until the event starts.

  const ONE_TICKET := [PricedItem(0, 101, 1)]

  const LEDGER: Ledger := map[0 := Bill(ONE_TICKET, Some(101), false, false)]

  const FULL_TIER := Obj(map["minHoursBefore" := Num(0), "percent" := Num(100)])

  const FULL_REFUNDS := Obj(map["customerRefundable" := Bool(true), "tiers" := Arr([FULL_TIER])])

  const EVENT := EventContext(false, 1000, FULL_REFUNDS, None, None)

  const FREE := NewTicket(0, 0)

  const LOCKED := FREE.(status := RefundPending, refundId := Some(0))

  const ASKED := Refund(0, CustomerRequest, [0], 101, 100, 101, 0, Requested, Some(REVIEW_SLA_MS), None, None, 0)

  const TURNED_DOWN := ASKED.(status := Rejected, decidedAt := Some(0))

  const APPEALED := TURNED_DOWN.(status := Escalated, escalatedAt := Some(0))

  const WHOLE_ORDER := EventRefund(0, [], 101, 0)

  function Stage(rows: seq<Refund>, ticket: Ticket): World {
    World(Desk(rows, map[0 := ticket]), map[], map[], {}, {})
  }

  lemma FullQuote(gross: nat)
    ensures QuoteRefund(EVENT, gross, 0) == Eligible(CustomerRequest, 100, gross, gross, 0, false)
  {
    var tier := Tier(0, 100);
    assert AsTier(FULL_TIER) == Some(tier);
    assert WellFormedTiers([FULL_TIER]) == [tier];
    assert ParsePolicy(FULL_REFUNDS) == Policy(true, [tier], false);
    assert SortTiers([tier]) == [tier] by { assert [tier][1..] == []; }
    assert AmountForPercent(gross, 100) == gross;
  }

  lemma LockingTheTicket()
    ensures LockedForRefund(map[0 := FREE], [0], 0) == Ok(map[0 := LOCKED])
  {
    var book := map[0 := FREE];
    assert IssuedFor(book, [0]) == {0};
    assert !LockedBy(book[0], 0) && book[0].status == Issued;
    var after := LockedForRefund(book, [0], 0);
    assert after.Ok? && after.value.Keys == {0} && after.value[0] == LOCKED;
    assert after.value == map[0 := LOCKED];
  }

  lemma Asking()
    ensures Next(LEDGER, Stage([], FREE), RequestRefund(0, TicketIssued, [], EVENT, 0)) == Stage([ASKED], LOCKED)
  {
    FullQuote(101);
    hide QuoteRefund;
    assert ItemIds(ONE_TICKET) == [0];
    assert Unclaimed([0], ClaimedItems([], 0)) == [0];
    LockingTheTicket();
    hide LockedForRefund;
    assert [] + [ASKED] == [ASKED];
  }

  lemma TurningDown()
    ensures Next(LEDGER, Stage([ASKED], LOCKED), RejectRefund(0, false, 0)) == Stage([TURNED_DOWN], FREE)
  {
    assert UnlockedForRefund(map[0 := LOCKED], 0) == map[0 := FREE];
  }

  lemma Canceling()
    ensures Next(LEDGER, Stage([TURNED_DOWN], FREE), CancelEvent([PaidOrder(0, [0])], 0)) == Stage([TURNED_DOWN, WHOLE_ORDER], FREE)
  {
    var rows := [TURNED_DOWN];
    var orders := [PaidOrder(0, [0])];
    assert orders[..0] == [] && rows[..0] == [];
    assert SupersedeAll(rows, 0) == rows;
    assert ClaimedGross(rows, 0) == 0;
    assert AfterCanceledOrder(LEDGER, rows, 0, [0], 0) == rows + [WHOLE_ORDER];
    assert AfterCanceledEvent(LEDGER, rows, orders, 0) == AfterCanceledOrder(LEDGER, rows, 0, [0], 0);
  }

  lemma Appealing()
    ensures Next(LEDGER, Stage([TURNED_DOWN, WHOLE_ORDER], FREE), EscalateRefund(0, 0)) == Stage([APPEALED, WHOLE_ORDER], LOCKED)
    ensures ClaimedGross([APPEALED, WHOLE_ORDER], 0) == 202
  {
    var rows := [APPEALED, WHOLE_ORDER];
    LockingTheTicket();
    hide LockedForRefund;
    assert rows[..1] == [APPEALED] && [APPEALED][..0] == [];
    assert ClaimedGross([APPEALED], 0) == 101;
  }

  const APPEAL_RUN := [
    RequestRefund(0, TicketIssued, [], EVENT, 0), RejectRefund(0, false, 0),
    CancelEvent([PaidOrder(0, [0])], 0), EscalateRefund(0, 0)]

  lemma AppealRun()
    ensures Run(LEDGER, Stage([], FREE), APPEAL_RUN, AnyStep)
    ensures After(LEDGER, Stage([], FREE), APPEAL_RUN) == Stage([APPEALED, WHOLE_ORDER], LOCKED)
  {
    hide Next;
    hide Run;
    hide After;
    hide Stage;
    hide Allowed;
    AppealRunStarts();
    AppealRunEnds();
    Asking();
    TurningDown();
    var end := [APPEAL_RUN[2], APPEAL_RUN[3]];
    var later := [APPEAL_RUN[1]] + end;
    Prepend(LEDGER, Stage([ASKED], LOCKED), APPEAL_RUN[1], end, AnyStep);
    Prepend(LEDGER, Stage([], FREE), APPEAL_RUN[0], later, AnyStep);
    assert [APPEAL_RUN[0]] + later == APPEAL_RUN;
  }

  lemma AppealRunStarts()
    ensures Allowed(LEDGER, Stage([], FREE), APPEAL_RUN[0]) && Allowed(LEDGER, Stage([ASKED], LOCKED), APPEAL_RUN[1])
  {
    assert ItemIds(ONE_TICKET) == [0];
  }

  lemma AppealRunEnds()
    ensures var w := Stage([TURNED_DOWN], FREE);
            var end := [APPEAL_RUN[2], APPEAL_RUN[3]];
            && Run(LEDGER, w, end, AnyStep)
            && After(LEDGER, w, end) == Stage([APPEALED, WHOLE_ORDER], LOCKED)
  {
    assert ItemIds(ONE_TICKET) == [0];
    var end := Stage([APPEALED, WHOLE_ORDER], LOCKED);
    assert Run(LEDGER, end, [], AnyStep) && After(LEDGER, end, []) == end;
    hide Next;
    hide Run;
    hide After;
    Canceling();
    Appealing();
    hide Stage;
    Prepend(LEDGER, Stage([TURNED_DOWN, WHOLE_ORDER], FREE), APPEAL_RUN[3], [], AnyStep);
    var last := [APPEAL_RUN[3]] + [];
    Prepend(LEDGER, Stage([TURNED_DOWN], FREE), APPEAL_RUN[2], last, AnyStep);
    assert [APPEAL_RUN[2]] + last == [APPEAL_RUN[2], APPEAL_RUN[3]];
  }

  /**
   * An appeal can claim more of an order than was paid for it: rejected, then paid
   * back in full with the canceled event, then appealed before the ticket is voided.
   */
  lemma AppealsCanOverclaim()
    ensures exists ledger: Ledger, book: Book, steps: seq<Step> ::
              && FreshBook(book) && Run(ledger, Start(book), steps, AnyStep)
              && Billed(ledger, 0)
              && ClaimedGross(After(ledger, Start(book), steps).desk.refunds, 0) > ledger[0].payment.value
  {
    AppealRun();
    Appealing();
    hide Next;
    hide Run;
    hide After;
    hide ClaimedGross;
    var book := map[0 := FREE];
    assert Stage([], FREE) == Start(book) && FreshBook(book);
    assert Billed(LEDGER, 0) && LEDGER[0].payment.value == 101;
    assert ClaimedGross(After(LEDGER, Start(book), APPEAL_RUN).desk.refunds, 0) > LEDGER[0].payment.value;
  }

  // ------------------------------------------------------ an appeal too few

  // Three tickets of 100, 101 dong paid for them all.

  const THREE_TICKETS := [PricedItem(0, 100, 1), PricedItem(1, 100, 1), PricedItem(2, 100, 1)]

  const SHARED_LEDGER: Ledger := map[0 := Bill(THREE_TICKETS, Some(101), false, false)]

  const FIRST_ASKED: Refund := Refund(0, CustomerRequest, [0], 33, 100, 33, 0, Requested, Some(REVIEW_SLA_MS), None, None, 0)

  const FIRST_TURNED_DOWN: Refund := FIRST_ASKED.(status := Rejected, decidedAt := Some(0))

  const OTHERS_ASKED := Refund(0, CustomerRequest, [1, 2], 67, 100, 67, 0, Requested, Some(REVIEW_SLA_MS), None, None, 0)

  const FIRST_APPEALED: Refund := FIRST_TURNED_DOWN.(status := Escalated, escalatedAt := Some(0))

  const ALL_FREE: Book := map[0 := FREE, 1 := FREE, 2 := FREE]

  const FIRST_LOCKED: Book := map[0 := LockedFor(0), 1 := FREE, 2 := FREE]

  const ALL_LOCKED: Book := map[0 := LockedFor(0), 1 := LockedFor(1), 2 := LockedFor(1)]

  const OTHERS_LOCKED: Book := map[0 := FREE, 1 := LockedFor(1), 2 := LockedFor(1)]

  function LockedFor(r: nat): Ticket {
    FREE.(status := RefundPending, refundId := Some(r))
  }

  function Shared(rows: seq<Refund>, book: Book): World {
    World(Desk(rows, book), map[], map[], {}, {})
  }

  function WorthAt(id: ItemId, ids: set<ItemId>): nat {
    if id in ids then 100 else 0
  }

  lemma WorthOfThree(ids: set<ItemId>)
    ensures Worth(THREE_TICKETS, ids) == WorthAt(0, ids) + WorthAt(1, ids) + WorthAt(2, ids)
  {
    var items := THREE_TICKETS;
    var two, one := items[1..], items[1..][1..];
    assert two == [items[1], items[2]] && one == [items[2]] && one[1..] == [];
    SubtotalPrepend(items, ids);
    SubtotalPrepend(two, ids);
    SubtotalPrepend(one, ids);
    hide Worth;
    NothingIsWorth(ids);
  }

  lemma NothingIsWorth(ids: set<ItemId>)
    ensures Worth([], ids) == 0
  {
  }

  lemma SubtotalOfThree()
    ensures Subtotal(THREE_TICKETS) == 300
  {
    WorthOfThree({0, 1, 2});
    WorthOfAll(THREE_TICKETS, {0, 1, 2});
  }

  lemma SharesOfThree()
    ensures GrossForItems(THREE_TICKETS, [0], [0, 1, 2], 101, 0) == 33
    ensures GrossForItems(THREE_TICKETS, [1, 2], [0, 1, 2], 101, 0) == 67
  {
    assert IdSet([0]) == {0} && IdSet([1, 2]) == {1, 2};
    assert [0, 1, 2][0] == 0 && [0, 1, 2][1] == 1;
    WorthOfThree({0});
    WorthOfThree({1, 2});
    SubtotalOfThree();
    hide Worth;
    hide Subtotal;
  }

  lemma AllUnclaimed()
    ensures Unclaimed([0, 1, 2], {}) == [0, 1, 2]
  {
    assert [0, 1, 2][1..] == [1, 2] && [1, 2][1..] == [2] && [2][1..] == [];
  }

  lemma AskingOne(rows: seq<Refund>, book: Book, requested: seq<ItemId>, gross: nat)
    requires ClaimedItems(rows, 0) == {} && !WholeOrderClaimed(rows, 0) && ClaimedGross(rows, 0) == 0
    requires requested != [] && (forall i :: i in requested ==> i < 3) && Dedupe(requested) == requested
    requires GrossForItems(THREE_TICKETS, requested, [0, 1, 2], 101, 0) == gross
    requires LockedForRefund(ALL_FREE, requested, |rows|) == Ok(book)
    ensures Next(SHARED_LEDGER, Shared(rows, ALL_FREE), RequestRefund(0, TicketIssued, requested, EVENT, 0))
            == Shared(rows + [Refund(0, CustomerRequest, requested, gross, 100, gross, 0, Requested, Some(REVIEW_SLA_MS), None, None, 0)], book)
  {
    hide GrossForItems;
    hide LockedForRefund;
    hide ClaimedItems;
    hide WholeOrderClaimed;
    hide ClaimedGross;
    hide QuoteRefund;
    hide Dedupe;
    hide Unclaimed;
    AllUnclaimed();
    FullQuote(gross);
    assert ItemIds(THREE_TICKETS) == [0, 1, 2];
    assert FirstRefusal(requested, [0, 1, 2], {}) == None;
  }

  lemma LocksOfThree()
    ensures LockedForRefund(ALL_FREE, [0], 0) == Ok(FIRST_LOCKED)
    ensures UnlockedForRefund(FIRST_LOCKED, 0) == ALL_FREE
    ensures LockedForRefund(ALL_FREE, [1, 2], 1) == Ok(OTHERS_LOCKED)
    ensures LockedForRefund(OTHERS_LOCKED, [0], 0) == Ok(ALL_LOCKED)
  {
    LocksOfOne();
    assert [1, 2][0] == 1 && [1, 2][1] == 2 && IssuedFor(ALL_FREE, [1, 2]) == {1, 2};
    assert !LockedBy(ALL_FREE[1], 1);
    assert LockedForRefund(ALL_FREE, [1, 2], 1).value == OTHERS_LOCKED;
  }

  lemma LocksOfOne()
    ensures LockedForRefund(ALL_FREE, [0], 0) == Ok(FIRST_LOCKED)
    ensures LockedForRefund(OTHERS_LOCKED, [0], 0) == Ok(ALL_LOCKED)
  {
    assert IssuedFor(ALL_FREE, [0]) == {0} && IssuedFor(OTHERS_LOCKED, [0]) == {0};
    assert !LockedBy(ALL_FREE[0], 0) && !LockedBy(OTHERS_LOCKED[0], 0);
    assert LockedForRefund(ALL_FREE, [0], 0).value == FIRST_LOCKED;
    assert LockedForRefund(OTHERS_LOCKED, [0], 0).value == ALL_LOCKED;
  }

  lemma NothingClaimsNothing()
    ensures ClaimedItems([], 0) == {} && !WholeOrderClaimed([], 0) && ClaimedGross([], 0) == 0
    ensures Dedupe([0]) == [0]
  {
    assert [0][..0] == [];
  }

  lemma AskingFirst()
    ensures Next(SHARED_LEDGER, Shared([], ALL_FREE), SHORT_RUN[0]) == Shared([FIRST_ASKED], FIRST_LOCKED)
  {
    hide LockedForRefund;
    hide ClaimedItems;
    hide WholeOrderClaimed;
    hide ClaimedGross;
    hide GrossForItems;
    hide Dedupe;
    hide Next;
    SharesOfThree();
    LocksOfThree();
    NothingClaimsNothing();
    AskingOne([], FIRST_LOCKED, [0], 33);
    assert [] + [FIRST_ASKED] == [FIRST_ASKED];
  }

  lemma TurningFirstDown()
    ensures Next(SHARED_LEDGER, Shared([FIRST_ASKED], FIRST_LOCKED), SHORT_RUN[1]) == Shared([FIRST_TURNED_DOWN], ALL_FREE)
  {
    LocksOfThree();
    hide UnlockedForRefund;
  }

  lemma AskingOthers()
    ensures Next(SHARED_LEDGER, Shared([FIRST_TURNED_DOWN], ALL_FREE), SHORT_RUN[2]) == Shared([FIRST_TURNED_DOWN, OTHERS_ASKED], OTHERS_LOCKED)
  {
    hide LockedForRefund;
    hide ClaimedItems;
    hide WholeOrderClaimed;
    hide ClaimedGross;
    hide GrossForItems;
    hide Dedupe;
    hide Next;
    var rows := [FIRST_TURNED_DOWN];
    SharesOfThree();
    LocksOfThree();
    DedupeOthers();
    TurnedDownClaimsNothing();
    AskingOne(rows, OTHERS_LOCKED, [1, 2], 67);
    assert rows + [OTHERS_ASKED] == [FIRST_TURNED_DOWN, OTHERS_ASKED];
  }

  lemma TurnedDownClaimsNothing()
    ensures var rows := [FIRST_TURNED_DOWN];
            ClaimedItems(rows, 0) == {} && !WholeOrderClaimed(rows, 0) && ClaimedGross(rows, 0) == 0
  {
    assert [FIRST_TURNED_DOWN][..0] == [];
  }

  lemma DedupeOthers()
    ensures Dedupe([1, 2]) == [1, 2]
  {
    assert [1, 2][..1] == [1] && [1][..0] == [];
  }

  lemma AppealingFirst()
    ensures Next(SHARED_LEDGER, Shared([FIRST_TURNED_DOWN, OTHERS_ASKED], OTHERS_LOCKED), SHORT_RUN[3])
            == Shared([FIRST_APPEALED, OTHERS_ASKED], ALL_LOCKED)
  {
    LocksOfThree();
    hide LockedForRefund;
    assert [FIRST_TURNED_DOWN, OTHERS_ASKED][0 := FIRST_APPEALED] == [FIRST_APPEALED, OTHERS_ASKED];
  }

  const SHORT_RUN := [
    RequestRefund(0, TicketIssued, [0], EVENT, 0), RejectRefund(0, false, 0),
    RequestRefund(0, TicketIssued, [1, 2], EVENT, 0), EscalateRefund(0, 0)]

  lemma ShortSums()
    ensures ClaimedGross([FIRST_TURNED_DOWN, OTHERS_ASKED], 0) == 67
    ensures ClaimedGross([FIRST_APPEALED, OTHERS_ASKED], 0) == 100
    ensures Covered(SHARED_LEDGER, [FIRST_APPEALED, OTHERS_ASKED], 0)
    ensures Billed(SHARED_LEDGER, 0) && SHARED_LEDGER[0].payment.value == 101
  {
    var before, after := [FIRST_TURNED_DOWN, OTHERS_ASKED], [FIRST_APPEALED, OTHERS_ASKED];
    assert [] + [FIRST_TURNED_DOWN] == [FIRST_TURNED_DOWN] && [] + [FIRST_APPEALED] == [FIRST_APPEALED];
    assert [FIRST_TURNED_DOWN] + [OTHERS_ASKED] == before && [FIRST_APPEALED] + [OTHERS_ASKED] == after;
    GrossAppend([], FIRST_TURNED_DOWN, 0);
    GrossAppend([FIRST_TURNED_DOWN], OTHERS_ASKED, 0);
    GrossAppend([], FIRST_APPEALED, 0);
    GrossAppend([FIRST_APPEALED], OTHERS_ASKED, 0);
    hide ClaimedGross;
    assert OrderIds(SHARED_LEDGER, 0) == [0, 1, 2];
    assert Claims(after[0], 0) && 0 in after[0].items && Claims(after[1], 0) && 1 in after[1].items && 2 in after[1].items;
  }

  lemma ShortRunEnds()
    ensures var w := Shared([FIRST_TURNED_DOWN], ALL_FREE);
            var end := [SHORT_RUN[2], SHORT_RUN[3]];
            && Run(SHARED_LEDGER, w, end, FittingAppeals(SHARED_LEDGER))
            && After(SHARED_LEDGER, w, end) == Shared([FIRST_APPEALED, OTHERS_ASKED], ALL_LOCKED)
  {
    var rule := FittingAppeals(SHARED_LEDGER);
    var end := Shared([FIRST_APPEALED, OTHERS_ASKED], ALL_LOCKED);
    var mid := Shared([FIRST_TURNED_DOWN, OTHERS_ASKED], OTHERS_LOCKED);
    assert ItemIds(THREE_TICKETS) == [0, 1, 2];
    assert Run(SHARED_LEDGER, end, [], rule) && After(SHARED_LEDGER, end, []) == end;
    ShortSums();
    assert rule(mid, SHORT_RUN[3]);
    assert rule(Shared([FIRST_TURNED_DOWN], ALL_FREE), SHORT_RUN[2]);
    assert Allowed(SHARED_LEDGER, Shared([FIRST_TURNED_DOWN], ALL_FREE), SHORT_RUN[2]);
    hide Next;
    hide Run;
    hide After;
    hide ClaimedGross;
    AskingOthers();
    AppealingFirst();
    hide Shared;
    Prepend(SHARED_LEDGER, mid, SHORT_RUN[3], [], rule);
    var last := [SHORT_RUN[3]] + [];
    Prepend(SHARED_LEDGER, Shared([FIRST_TURNED_DOWN], ALL_FREE), SHORT_RUN[2], last, rule);
    assert [SHORT_RUN[2]] + last == [SHORT_RUN[2], SHORT_RUN[3]];
  }

  lemma ShortRun()
    ensures Run(SHARED_LEDGER, Shared([], ALL_FREE), SHORT_RUN, FittingAppeals(SHARED_LEDGER))
    ensures After(SHARED_LEDGER, Shared([], ALL_FREE), SHORT_RUN) == Shared([FIRST_APPEALED, OTHERS_ASKED], ALL_LOCKED)
  {
    var rule := FittingAppeals(SHARED_LEDGER);
    assert ItemIds(THREE_TICKETS) == [0, 1, 2];
    assert rule(Shared([], ALL_FREE), SHORT_RUN[0]) && rule(Shared([FIRST_ASKED], FIRST_LOCKED), SHORT_RUN[1]);
    assert Allowed(SHARED_LEDGER, Shared([], ALL_FREE), SHORT_RUN[0]);
    ShortRunEnds();
    hide Next;
    hide Run;
    hide After;
    AskingFirst();
    TurningFirstDown();
    hide Shared;
    var end := [SHORT_RUN[2], SHORT_RUN[3]];
    var later := [SHORT_RUN[1]] + end;
    Prepend(SHARED_LEDGER, Shared([FIRST_ASKED], FIRST_LOCKED), SHORT_RUN[1], end, rule);
    Prepend(SHARED_LEDGER, Shared([], ALL_FREE), SHORT_RUN[0], later, rule);
    assert [SHORT_RUN[0]] + later == SHORT_RUN;
  }

  /** In this run every appeal fits and every ticket gets claimed, and yet the claims stay below what was paid. */
  ghost predicate Underclaims(ledger: Ledger, book: Book, steps: seq<Step>) {
    && FreshBook(book) && Run(ledger, Start(book), steps, FittingAppeals(ledger))
    && Billed(ledger, 0) && ledger[0].items != []
    && Covered(ledger, After(ledger, Start(book), steps).desk.refunds, 0)
    && ClaimedGross(After(ledger, Start(book), steps).desk.refunds, 0) < ledger[0].payment.value
  }

  lemma ShortRunUnderclaims()
    ensures Underclaims(SHARED_LEDGER, ALL_FREE, SHORT_RUN)
  {
    ShortRun();
    ShortSums();
    assert Shared([], ALL_FREE) == Start(ALL_FREE) && FreshBook(ALL_FREE);
    hide Next;
    hide Run;
    hide After;
    hide ClaimedGross;
    hide Covered;
    hide FittingAppeals;
    assert SHARED_LEDGER[0].items != [];
  }

  /**
   * An appeal that fits can still leave the order short: a ticket is refused at 33, the
   * other two are priced at 67 of the 101 paid, and the appeal brings back the 33. Every
   * ticket is claimed then, for 100.
   */
  lemma FittingAppealsCanUnderclaim()
    ensures exists ledger: Ledger, book: Book, steps: seq<Step> :: Underclaims(ledger, book, steps)
  {
    hide Underclaims;
    ShortRunUnderclaims();
  }
}
