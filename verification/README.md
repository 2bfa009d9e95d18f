# Verification of the ticketing platform

A Dafny model of the platform's protocols and of its self-contained algorithms,
with their promises proved. Run `dafny verify dfyconfig.toml` here.

Every request handler and message handler is one step. It is written twice: as a
function on the service's state, and as a method of a class that updates the
state in place. The method is proved equal to the function, and also, in terms of
the stored rows alone, what it accepts and what it leaves behind. What holds over
whole runs is then proved about the functions. Expiry, clock advance, delivery and redelivery are
steps of their own; only the payout of a refund is split finer, into claim,
gateway call, write and crash.

## The parts

- **Refunds** (`RefundPolicy`, `Tickets`, `Refunds`, `Payouts`, `RefundWorld`,
  `RefundClaims`, `RefundMoney`, `RefundCancellation`, `RefundAppeals`, `RefundPayouts`,
  `RefundLimits`, `RefundCycle`, `Resale`): the
  arithmetic of shares and percentages; the ticket, refund and listing state
  machines; competing payout workers; and what every run of all of them together
  keeps: tickets are spent once, money is conserved, the gateway pays once.
- **Booking saga** (`Inventory`, `Orders`, `Carts`, `BookingHandlers`, `BookingWorld`,
  `BookingStock`, `BookingRuns`, `BookingSaga`, `BookingCycle`): orders from the cart to
  TICKET_ISSUED or CANCELED under duplicated and reordered messages, exact
  conservation of general-admission stock over five ways of giving it back, and the
  way from a cart through payment and refund back to the same stock.
- **Seat holds** (`SeatLocks`, `SeatHolds`, `SeatRuns`, `SeatLimits`): locks with
  a time to live beside a status column that lags behind them.
- **Stateful utilities** (`RateLimit`, `WaitingRoom`, `WaitingRuns`,
  `Memberships`) and **pure algorithms** (`RowLabel`, `SeatLabels`, `Pagination`).

## What the code needs from its surroundings

Each of these is a hypothesis where it is used, with the exact condition or a proof
that it cannot be dropped:

- A PROCESSING refund is retried only if nothing was paid and no worker is calling or
  about to write a refusal (`RefundPayouts.CheckedRetry`). The condition is exact:
  `RefundLimits.RetryIsSafeIff`.
- A refusal of the gateway means that no money moved
  (`RefundPayouts.RefusalsMeanUnpaid`), exact by `RefundLimits.RefusalIsSafeIff`. The
  adapters do not ensure it: apps/payment-service/src/gateway/paypal.gateway.ts:155-158
  and apps/payment-service/src/gateway/vnpay-sandbox.gateway.ts:139-142 report a call
  that broke off as a refusal, and the cron then pays again on its own
  (`RefundLimits.FalseRefusalPaysTwice`). The gateway of the model pays whenever it is
  called: it ignores the refund id it is given as idempotency key
  (apps/payment-service/src/refunds/refund-processor.service.ts:94), as these two
  adapters do; apps/payment-service/src/gateway/momo.gateway.ts:122-124 honours it.
- An acceptance means that the money moved (`RefundPayouts.YesMeansPaid`); only
  `RefundPayouts.CompletedMeansPaid` uses it.
- An appeal against a rejection claims its old amount again without pricing it anew.
  The claims stay within the payment exactly when the old amount still fits
  (`RefundMoney.AppealIsSafeIffItFits`), and all of conservation holds exactly when the
  appeal balances its order (`RefundMoney.AppealConservesIffItBalances`): its tickets
  are unclaimed, it fits, and it is exact if it leaves no ticket unclaimed. A run that
  claims too much is `RefundAppeals.AppealsCanOverclaim`, one that fits and claims too
  little `RefundAppeals.FittingAppealsCanUnderclaim`.
- event-service gets each OrderCanceled once
  (`BookingSaga.RedeliveryIsHarmlessIff`), and a refund of named items concerns an
  order that was paid (`BookingSaga.PartialRefundOfPendingLosesStock`). All other
  messages may be delivered any number of times and in any order.
- A release call to event-service succeeds. One that fails is logged and never retried
  (apps/booking-service/src/orders/holds-release.service.ts:52-60), which keeps the
  stock right exactly when the item held none
  (`BookingSaga.FailedReleaseIsHarmlessIff`).
- A BOOKED seat is released by the order that booked it, exact by
  `SeatLimits.ReleaseIsSafeIff`. The rollback of a failed cart does not ensure this: it
  is harmless if and only if the cart asked for no BOOKED seat
  (`SeatLimits.RefusedCartIsHarmlessIff`). Nor does the refund of a lost hold
  (`SeatLimits.LostHoldRefundResellsSeat`).
- Money is whole đồng, an approved percent is at most 100, the clock does not go
  back where a statement says so, and a TICKET_ISSUED order has a ticket per item.

## Where code and documentation disagree

The model follows the code.

- The comment on the sweeper (apps/booking-service/src/holds-sweeper/holds-sweeper.service.ts:19-22)
  and the schema (apps/booking-service/prisma/schema.prisma:52-56) say that orders
  being paid are skipped and their hold is extended; the query
  (apps/booking-service/src/holds-sweeper/holds-sweeper.service.ts:38) skips none and
  nothing extends the hold.
- Comments name a StaleHoldSweeper beside `healStaleHolds`; there is none in the
  repository, so healing is the only correction of lapsed holds here.
- The payout worker's comment (apps/payment-service/src/refunds/refund-processor.service.ts:35-37)
  counts on a timed-out call being thrown and left for a human; the adapters named above
  catch it and answer with a refusal, which is retried.
- The rollback of the cart is described as a harmless no-op for seats it never
  acquired (apps/booking-service/src/cart/cart.service.ts:177-179); see above for when
  it is not.

## Model

| member | source | states |
|---|---|---|
| RefundPolicy.SplitSumsToPaid | apps/payment-service/src/refunds/refund-policy.ts:91-107 | However an order's tickets are split into groups claimed in turn, the gross amounts sum to exactly what was paid. |
| RefundPolicy.EarlierGroupBounds | apps/payment-service/src/refunds/refund-policy.ts:102-106 | Every group but the last gets the floor of its exact proportional share; the clamp to what is left never binds. |
| RefundPolicy.EarlierGroupIsFloored | apps/payment-service/src/refunds/refund-policy.ts:105-106 | The same share as an equation: paid times the group's worth over the order subtotal, rounded down. |
| RefundPolicy.LastGroupBounds | apps/payment-service/src/refunds/refund-policy.ts:98-101 | The last group gets at least its exact share and less than that share plus one đồng per earlier group. |
| RefundPolicy.GrossFitsWhatIsLeft | apps/payment-service/src/refunds/refund-policy.ts:91-107 | A claim never takes more than is left of the payment, and a claim of everything that remains takes exactly that. |
| RefundPolicy.GrossIsPrice | apps/payment-service/src/refunds/refund-policy.ts:91-107 | Every claim is worth all that is left if it takes every free ticket, and otherwise its floored share of the payment cut to what is left, whatever was claimed before. |
| RefundPolicy.AmountAndFee | apps/payment-service/src/refunds/refund-policy.ts:109-112 | The refunded amount never exceeds the gross, is all of it at 100 %, and never falls when the percent rises. |
| RefundPolicy.TierIsGoverning | apps/payment-service/src/refunds/refund-policy.ts:61 | Sorting the tiers and taking the first one reached finds a reached tier with the largest minHoursBefore, the first listed among equals, and none exactly when no tier is reached. |
| RefundPolicy.GoverningTierIsUnique | apps/payment-service/src/refunds/refund-policy.ts:61 | At most one listed tier governs a moment, so the tier found does not depend on how the list is sorted. |
| RefundPolicy.QuoteFollowsGoverningTier | apps/payment-service/src/refunds/refund-policy.ts:37-76 | A quote exists exactly for an event on and ahead that is in its postponement window or whose policy pays at this moment. In the window it is 100 %, all of the gross, no fee, no review; outside it the governing tier gives the percent, rounded down, the fee is the rest, and the policy says whether it is reviewed. |
| RefundPolicy.PolicyIsReadOff | apps/payment-service/src/refunds/refund-policy.ts:118-131 | A stored policy counts only if it says whether customers are refunded and lists tiers; its tiers are then exactly the listed objects with whole hours and a percent from 0 to 100, and anything else refunds no customer. |
| RefundPolicy.ParsingUndoesRendering | apps/payment-service/src/refunds/refund-policy.ts:118-131 | Reading back a stored policy gives it again, its tiers in order. |
| RefundPolicy.PostponementPaysInFull | apps/payment-service/src/refunds/refund-policy.ts:52-54 | In the refund window of a postponed event every request is quoted in full, without review. |
| Tickets.UsedAndCanceledAreAbsorbing | apps/ticket-service/src/tickets/tickets.service.ts:121-259 | Over every run of ticket operations no ticket disappears, and a USED or CANCELED ticket never changes again. |
| Tickets.UnlockUndoesLock | apps/ticket-service/src/tickets/tickets.service.ts:178-216 | Unlocking for a refund restores exactly the tickets its lock took. |
| Tickets.TicketService.CheckIn | apps/ticket-service/src/tickets/tickets.service.ts:95-142 | Exactly an ISSUED ticket of this event and code version is used up; a used one is a conflict, any other scan a bad request, and both change nothing. |
| Tickets.TicketService.LockForRefund | apps/ticket-service/src/tickets/tickets.service.ts:178-207 | All tickets of the request are locked for the refund exactly if some exist and they are all ISSUED, or all its own already; otherwise a conflict, and nothing changes. |
| Tickets.TicketService.UnlockForRefund | apps/ticket-service/src/tickets/tickets.service.ts:210-216 | Exactly the tickets locked by this refund return to ISSUED and forget it; nothing else changes. |
| Tickets.TicketService.LockForResale | apps/ticket-service/src/tickets/tickets.service.ts:221-235 | Exactly the holder lists a ticket that is ISSUED or listed already; a stranger or a missing ticket is not found, any other status a conflict. |
| Tickets.TicketService.UnlockFromResale | apps/ticket-service/src/tickets/tickets.service.ts:238-241 | Exactly a listed ticket returns to ISSUED. |
| Tickets.TicketService.TransferResold | apps/ticket-service/src/tickets/tickets.service.ts:244-259 | A listed ticket dies as resold with its code version raised; a resold one is accepted unchanged; anything else is refused. |
| Tickets.TicketService.OnEventCanceled | apps/ticket-service/src/sagas/event-canceled.consumer.ts:35-53 | Exactly the ISSUED and refund-pending tickets of the event are voided, by the event and without their refund. |
| Tickets.TicketService.OnOrderCanceled | apps/ticket-service/src/sagas/order-canceled.consumer.ts:26-42 | Exactly the tickets of the named items that were not used are canceled. |
| Tickets.TicketService.OnOrderPaid | apps/ticket-service/src/sagas/order-paid.consumer.ts:57-87 | Exactly the items without a ticket get a fresh one for this event and holder; tickets that existed are untouched. |
| Refunds.RefundsService.PrepareRequest | apps/payment-service/src/refunds/refunds.service.ts:366-410 | A request can be priced exactly for a first-hand, paid order with issued tickets and something left, asked for free items only; it then covers those items, or all free ones, at their price and on the event's terms. Refusals come in the order of the service, that of the first bad item last. |
| Refunds.RefundsService.Request | apps/payment-service/src/refunds/refunds.service.ts:85-132 | A request is recorded exactly if it can be priced, the event offers something and its tickets can be locked. Its one new row has the price, percent, amount and fee of the offer, is APPROVED at once exactly when the offer needs no review and otherwise due in seven days, and exactly its tickets are locked; a refusal changes nothing. |
| Refunds.RefundsService.Approve | apps/payment-service/src/refunds/refunds.service.ts:170-196 | Exactly a refund this organizer or admin may decide, at no lower percent and with its tickets lockable, is approved: the amount is the gross at that percent rounded down, the fee the rest. A refusal changes nothing and says why. |
| Refunds.RefundsService.Reject | apps/payment-service/src/refunds/refunds.service.ts:198-219 | Exactly a refund this organizer or admin may decide is rejected, for good if it was escalated, and exactly its tickets are freed. |
| Refunds.RefundsService.RequestInfo | apps/payment-service/src/refunds/refunds.service.ts:221-230 | Exactly a refund this organizer or admin may decide and that is not waiting for information already is sent back for it. |
| Refunds.RefundsService.Respond | apps/payment-service/src/refunds/refunds.service.ts:249-262 | An answer to a question puts the refund back with whoever asked; to any other open refund it changes nothing; otherwise it is refused. |
| Refunds.RefundsService.Withdraw | apps/payment-service/src/refunds/refunds.service.ts:264-272 | Exactly a refund under review is withdrawn, and exactly its tickets are freed. |
| Refunds.RefundsService.Escalate | apps/payment-service/src/refunds/refunds.service.ts:278-292 | Exactly once, within seven days of a rejection or after the deadline has passed, a refund goes to the admin; an appeal against a rejection locks its tickets again or is refused. |
| Refunds.RefundsService.Retry | apps/payment-service/src/refunds/refunds.service.ts:239-244 | Exactly a PROCESSING or FAILED refund is handed back for payout, its attempts forgotten. |
| Refunds.RefundsService.Transition | apps/payment-service/src/refunds/refunds.service.ts:466-480 | The conditional status update changes the row only from one of the given statuses, and refuses otherwise. |
| Refunds.RefundsService.RefundCanceledOrder | apps/payment-service/src/refunds/refunds.service.ts:306-350 | Unless the order has no payment or is settled in full, one refund is created: 100 %, no fee, approved, of all that is left of the payment and for all live items not settled (the whole order if none was). Exactly the open requests of the order are withdrawn for it. |
| Refunds.RefundsService.RefundCanceledEvent | apps/payment-service/src/refunds/refunds.service.ts:303-352 | Every refund it creates belongs to a listed order and pays all of its gross; every older row stays, or was an open request of a listed order and is withdrawn; the count is right. |
| Payouts.RefundProcessor.Claim | apps/payment-service/src/refunds/refund-processor.service.ts:78-84 | A refund is claimed exactly if it is APPROVED or FAILED, under five attempts, and not paid by hand; it is then PROCESSING with one attempt more, and no other row changes. |
| Payouts.RefundProcessor.Record | apps/payment-service/src/refunds/refund-processor.service.ts:86-116 | A yes completes the refund and publishes its id, order, amount and items; a no fails it; an unknown outcome leaves everything alone. |
| Payouts.RefundProcessor.Process | apps/payment-service/src/refunds/refund-processor.service.ts:72-117 | One uninterrupted worker: a claimed refund ends COMPLETED, FAILED or PROCESSING by the answer, with one attempt more, and is announced exactly on a yes; otherwise nothing changes. |
| Payouts.RefundProcessor.Drain | apps/payment-service/src/refunds/refund-processor.service.ts:52-69 | A cron tick processes the due refunds it picked, one after the other. |
| Payouts.DrainTakesEachOnItsOwn | apps/payment-service/src/refunds/refund-processor.service.ts:52-117 | A tick makes one attempt at each payable refund it picked, whose status then tells how the attempt ended, and leaves every other row alone. |
| RefundClaims.EachTicketIsSpentOnce | apps/payment-service/src/refunds/refunds.service.ts:85-292 | Over every run of the whole protocol, no ticket is more than one of checked in, paid back on a customer's request, and resold; those checked in and resold are exactly the tickets that say so. |
| RefundClaims.ClaimsAndLocksAgree | apps/payment-service/src/refunds/refunds.service.ts:85-292 | Over every run, appeals included: open or completed customer refunds claim disjoint tickets, and each such ticket is locked by its refund or dead. |
| RefundClaims.UsedAndCanceledStay | apps/ticket-service/src/tickets/tickets.service.ts:121-259 | From every reachable state and over every run from it, USED and CANCELED tickets never change. |
| RefundClaims.LockIsExclusive | apps/ticket-service/src/tickets/tickets.service.ts:178-207 | A lock that succeeds takes no ticket another customer refund claims. |
| RefundMoney.ClaimsMatchPayment | apps/payment-service/src/refunds/refunds.service.ts:303-410 | In every state reached without an appeal, or with appeals that balance their order, the open and completed refunds of an order claim disjoint tickets, at most what was paid, and exactly what was paid once every ticket is claimed. |
| RefundMoney.ClaimsNeverExceedPayment | apps/payment-service/src/refunds/refunds.service.ts:278-292 | With appeals that still fit, the claims of an order never exceed its payment. |
| RefundMoney.AppealIsSafeIffItFits | apps/payment-service/src/refunds/refunds.service.ts:287-290 | The upper bound alone: an accepted appeal keeps the claims within the payment if and only if its old amount still fits. |
| RefundMoney.AppealConservesIffItBalances | apps/payment-service/src/refunds/refunds.service.ts:287-290 | All of it: an accepted appeal keeps claims disjoint, within the payment, and exact once all tickets are claimed, if and only if its tickets are unclaimed, its amount still fits, and it brings the claims to exactly what was paid if it leaves no ticket unclaimed. |
| RefundCancellation.CancelingTwiceIsCancelingOnce | apps/payment-service/src/refunds/refunds.service.ts:303-352 | Running an event's refunds again at once, from any rows and at any clock, creates and changes nothing. |
| RefundCancellation.CancelingAgainChangesNothing | apps/payment-service/src/refunds/refunds.service.ts:303-352 | A redelivered cancellation of a reachable state creates and changes nothing, whatever run of payouts, retries, requests, rejections, appeals and other cancellations lies between. |
| RefundCancellation.CancellationPaysBackTheRest | apps/payment-service/src/refunds/refunds.service.ts:320-350 | Canceling an event brings every paid order, with resold items or without, to exactly what was paid: the amounts the gateway is asked for are the payment less the fees of refunds decided before. An order whose live tickets were all settled is left alone. |
| RefundCancellation.CancellationPaysBackExactly | apps/payment-service/src/refunds/refunds.service.ts:303-352 | An order none of whose items was resold ends, if appeals balance, with amounts and earlier fees that make up exactly what was paid; every refund added pays all of its gross. |
| RefundPayouts.PaidAtMostOnce | apps/payment-service/src/refunds/refund-processor.service.ts:72-117 | With any interleaving of workers, refusals, unknown outcomes and crashes, one gateway call per refund is in flight and the gateway pays each refund once at most, the amount on its row, given two rules: retries of PROCESSING refunds are checked, and a refusal means that nothing was paid. |
| RefundPayouts.CompletedMeansPaid | apps/payment-service/src/refunds/refund-processor.service.ts:112-157 | If an acceptance means that the money moved, a COMPLETED refund was really paid, over every run and however it was retried. |
| RefundPayouts.GatewayCallsAreBounded | apps/payment-service/src/refunds/refund-processor.service.ts:52-117 | Over every run whatsoever the gateway is called at most five times per refund and per admin retry of it. |
| RefundPayouts.NeverPaysBackMoreThanPaid | apps/payment-service/src/refunds/refund-processor.service.ts:72-117 | What the gateway really sent back on an order never exceeds what was paid for it, given fitting appeals, checked retries and truthful refusals. |
| RefundPayouts.AmountsAlwaysAddUp | apps/payment-service/src/refunds/refunds.service.ts:170-196 | Over every run each refund's amount is its percent of the gross, rounded down, and the fee is the rest. |
| RefundPayouts.FullRefundsKeepNothing | apps/payment-service/src/refunds/refunds.service.ts:328-345 | Over every run, the refund of a canceled or postponed event pays all of its gross and keeps no fee. |
| RefundCycle.ApprovedIsPaid | apps/payment-service/src/refunds/refund-processor.service.ts:72-117 | From any state: a payable refund taken by a worker whose call the gateway accepts and pays ends COMPLETED, with exactly its amount paid once more and nothing else changed. |
| RefundCycle.OfferedRefundsArePaid | apps/payment-service/src/refunds/refunds.service.ts:85-196 | From every reachable state: a request for free tickets that the event offers to pay back can be approved and paid, once, at its price and on the event's terms. |
| RefundCycle.AnswersUndoQuestions | apps/payment-service/src/refunds/refunds.service.ts:221-262 | A question to the customer and the answer put an open request back exactly where it was. |
| RefundCycle.WithdrawalUndoesRequest | apps/payment-service/src/refunds/refunds.service.ts:85-272 | A reviewed request that is withdrawn leaves no trace but its row: every ticket is as before, and whatever anybody asks for next is refused, priced and quoted as before. |
| RefundCycle.ValidTicketsGetIn | apps/ticket-service/src/tickets/tickets.service.ts:95-142 | From any state: an ISSUED ticket scanned with its own code for its own event lets its holder in, and counts as checked in. |
| RefundLimits.UncheckedRetryCanPayTwice | apps/payment-service/src/refunds/refunds.service.ts:239-244 | From any state: after a retry of a PROCESSING refund that was paid, is being called for, or has a refusal about to be written, the cron and a truthful gateway can pay it twice with no further retry. |
| RefundLimits.RetryIsSafeIff | apps/payment-service/src/refunds/refunds.service.ts:239-244 | From every state of the careful protocol: no continuation of a retry pays twice if and only if the retry was checked, that is, nothing was paid and no worker is calling or about to write a refusal. |
| RefundLimits.FalseRefusalPaysTwice | apps/payment-service/src/refunds/refund-processor.service.ts:86-110 | From any state: when the gateway pays and answers with a refusal, and attempts are left, the cron alone can pay again. |
| RefundLimits.RefusalIsSafeIff | apps/payment-service/src/refunds/refund-processor.service.ts:86-110 | From every state of the careful protocol: no continuation of a refusal pays twice if and only if the gateway did not pay. |
| RefundAppeals.AppealsCanOverclaim | apps/payment-service/src/refunds/refunds.service.ts:287-290 | A run in which an appeal makes an order claim 202 đồng of 101 paid. |
| RefundAppeals.FittingAppealsCanUnderclaim | apps/payment-service/src/refunds/refunds.service.ts:287-290 | A run in which every appeal fits and every ticket is claimed, yet the claims are 100 đồng of 101 paid. |
| Resale.ResaleService.CreateListing | apps/booking-service/src/resale/resale.service.ts:43-86 | A listing is accepted exactly for the holder of an unused ticket that already has an open one, or that the seller may sell at this price; its ticket is then locked, and one row is added unless one was open. A refusal changes no row, says why, and leaves the ticket ISSUED. |
| Resale.ResaleService.CancelListing | apps/booking-service/src/resale/resale.service.ts:88-100 | Exactly the seller withdraws an ACTIVE listing and frees its ticket; withdrawing again changes nothing. |
| Resale.ResaleService.Buy | apps/booking-service/src/resale/resale.service.ts:127-172 | Somebody else than the seller gets a fresh reservation of an ACTIVE listing that may be resold, or their own unpaid order again; every other buyer is refused, and nothing changes. |
| Resale.ResaleService.ReleaseReservation | apps/booking-service/src/resale/resale.service.ts:175-181 | Exactly the order that reserved a listing makes it ACTIVE again. |
| Resale.ResaleService.Complete | apps/booking-service/src/resale/resale.service.ts:188-209 | Exactly the reserving order completes the sale, if the ticket is still listed or was resold by it: the listing names the buyer and the seller's ticket dies. A lost reservation is reported, a dead ticket is an error, and both change nothing. |
| Resale.EachTicketIsSoldOnce | apps/booking-service/src/resale/resale.service.ts:43-209 | Over every run, whatever happens to tickets elsewhere: one open or completed listing per ticket, and a ticket is resold exactly when a sale of it completed. |
| Resale.SoldStaysSold | apps/booking-service/src/resale/resale.service.ts:188-209 | A completed sale never changes its listing, order or buyer again. |
| Resale.ListedTicketsSell | apps/booking-service/src/resale/resale.service.ts:43-209 | From any state: a ticket its holder may sell, listed, bought and paid, is sold to that buyer and dies in the seller's hands. |
| Inventory.InventoryService.ReserveTicketType | apps/event-service/src/holds/holds.service.ts:192-226 | A tier is reserved, at its price, exactly if it is on sale for that quantity and has that much left; refusals are told apart and change nothing. |
| Inventory.InventoryService.ReleaseTicketType | apps/event-service/src/holds/holds.service.ts:238-245 | Units come off the sold count of one tier, not below zero. |
| Inventory.InventoryService.OnOrderCanceled | apps/event-service/src/holds/order-canceled.consumer.ts:31-48 | Each tier's sold count drops by the units of the message's general-admission lines, not below zero. |
| Inventory.RestockGivesBack | apps/event-service/src/holds/holds.service.ts:238-245 | Giving a list of lines back lowers each tier by exactly its units, down to zero, and changes nothing else. |
| BookingHandlers.BookingService.HoldCart | apps/booking-service/src/cart/cart.service.ts:39-131 | A cart is held exactly if it is acceptable: well-formed lines, an open sale, within the account limit, seats free, tiers in stock. One pending order is then added, with one admission per ticket asked for, the lines' worth, the floored member discount and their difference to pay; each tier's sold count rises by what the lines want. A refusal changes nothing and names the first reason. |
| BookingHandlers.BookingService.ReserveAll | apps/booking-service/src/cart/cart.service.ts:83-102 | All tiers are reserved exactly if they fit together; otherwise what was acquired is rolled back. The total is what the created items are worth. |
| BookingHandlers.BookingService.AlreadyHeld | apps/booking-service/src/cart/cart.service.ts:158-165 | The number of tickets, counted one by one, in the account's orders that were not canceled. |
| Orders.RollbackRestores | apps/booking-service/src/cart/cart.service.ts:182-197 | Rolling back a partly acquired cart restores the stock exactly. |
| Orders.ReservedAllAdds | apps/event-service/src/holds/holds.service.ts:215-222 | A successful cart raises each tier by exactly what it asked for, never past the total. |
| Carts.HeldIffAcceptable | apps/booking-service/src/cart/cart.service.ts:39-102 | A cart is held exactly if it is acceptable, and otherwise refused for the first reason there is. |
| Carts.CartBecomesOrder | apps/booking-service/src/cart/cart.service.ts:70-114 | The order has one admission for each ticket the lines ask for, at seat or tier price, is worth what the lines cost, and asks for that less the floored member discount. |
| Carts.ReservedAllIffFits | apps/event-service/src/holds/holds.service.ts:192-226 | Tiers reserved one after the other all succeed exactly if every line is on sale and no tier is asked for more than it has left. |
| Carts.LoadCountsTickets | apps/booking-service/src/cart/cart.service.ts:158-165 | The load the service adds up is the number of the account's tickets. |
| BookingHandlers.BookingService.ReleaseOnce | apps/booking-service/src/orders/holds-release.service.ts:29-62 | The first caller gives back every unit of the order's items and marks it released; later callers change nothing and are told so. |
| BookingHandlers.BookingService.Cancel | apps/booking-service/src/orders/orders.service.ts:147-169 | Exactly the owner of a pending order cancels it, and its hold is given back once. |
| BookingHandlers.BookingService.StartPayment | apps/booking-service/src/orders/orders.service.ts:119-138 | Only an unexpired pending order of the caller is flagged as being paid; its expiry does not move. |
| BookingHandlers.BookingService.ApplyDiscount | apps/booking-service/src/orders/orders.service.ts:75-110 | Exactly the owner of a pending order applies a valid code: what the member discount leaves, less the code's worth, not below zero. |
| Orders.CodesReplaceEachOther | apps/booking-service/src/orders/orders.service.ts:87-97 | A second code counts as if the first had never been applied, and no code takes more than is left to pay. |
| BookingHandlers.BookingService.ConfirmFree | apps/booking-service/src/orders/orders.service.ts:178-201 | Exactly the owner's unexpired pending order that costs nothing, is not being paid and lost no seat becomes PAID and is published; otherwise nothing changes. |
| BookingHandlers.BookingService.MarkPaid | apps/booking-service/src/orders/order-fulfillment.service.ts:35-126 | The order becomes PAID and OrderPaid goes out exactly when no seat hold was lost. |
| BookingHandlers.BookingService.OnPaymentSucceeded | apps/booking-service/src/sagas/payment-events.consumer.ts:52-89 | Exactly the first delivery for a pending order that lost no seat makes it PAID and publishes OrderPaid with its items; every other delivery changes nothing but the record of the envelope. |
| BookingHandlers.BookingService.OnPaymentFailed | apps/booking-service/src/sagas/payment-events.consumer.ts:91-116 | Exactly the first delivery for a pending order deletes it and gives its units back; every other delivery changes nothing but the record of the envelope. |
| BookingHandlers.BookingService.Sweep | apps/booking-service/src/holds-sweeper/holds-sweeper.service.ts:35-67 | Exactly the pending orders of the batch past their expiry are deleted, payment in progress or not. |
| BookingHandlers.BookingService.OnEventCanceled | apps/booking-service/src/sagas/event-canceled.consumer.ts:38-68 | The first delivery closes exactly the event's pending orders, hold released; a redelivery changes nothing. |
| Orders.SweepDeletesTheExpired | apps/booking-service/src/holds-sweeper/holds-sweeper.service.ts:35-67 | A sweep deletes exactly the pending orders of its batch past their expiry. |
| Orders.EventClosesThePending | apps/booking-service/src/sagas/event-canceled.consumer.ts:46-58 | Exactly the pending orders of the event are canceled with their hold released; no other order changes. |
| BookingHandlers.BookingService.OnRefundApproved | apps/booking-service/src/sagas/refund-events.consumer.ts:50-127 | On the first delivery for an order not canceled, exactly the requested items (all, if none is named) are refunded besides those that were, the amount is added, the order is CANCELED if nothing is left, and one OrderCanceled names exactly the newly refunded items; every other delivery changes nothing but the record of the envelope. |
| BookingHandlers.BookingService.OnTicketIssued | apps/booking-service/src/sagas/ticket-issued.consumer.ts:36-45 | Exactly a PAID order becomes TICKET_ISSUED. |
| BookingWorld.TicketIssuer.OnOrderPaid | apps/ticket-service/src/sagas/order-paid.consumer.ts:46-107 | The first delivery adds exactly the order's missing tickets, in order, and publishes TicketIssued; a redelivery changes nothing. |
| BookingSaga.StockIsConserved | apps/booking-service/src/orders/holds-release.service.ts:29-62 | Over every run each tier's sold count equals what unreleased orders hold in unrefunded items plus what OrderCanceled messages in flight will give back, and never exceeds the total. |
| BookingSaga.ReleasesNeverClip | apps/event-service/src/holds/holds.service.ts:238-245 | In every reachable state the floor at zero clips neither the release of a pending order nor any message still to be delivered. |
| BookingSaga.EachRefundedItemIsGivenBackOnce | apps/booking-service/src/sagas/refund-events.consumer.ts:50-127 | Under any redelivery, refunded items and published OrderCanceled lines correspond one to one, each line carrying its item's tier, seat and quantity. |
| BookingSaga.EachItemGetsOneTicket | apps/ticket-service/src/sagas/order-paid.consumer.ts:46-107 | Under any redelivery and reordering an item has at most one ticket, tickets exist only for orders that were paid, and TICKET_ISSUED means every item has one. |
| BookingSaga.CanceledWhenNothingIsLeft | apps/booking-service/src/sagas/refund-events.consumer.ts:71-85 | An order is CANCELED if and only if its hold was released or its last item refunded, a released order has no OrderCanceled, and a paid order is never released: it is CANCELED exactly when its last item is refunded. |
| BookingSaga.CanceledIsFinal | apps/booking-service/src/sagas/refund-events.consumer.ts:66-69 | Over every further run a CANCELED order stays exactly as it is, and a TICKET_ISSUED one can only be canceled. |
| BookingSaga.AccountLimitHolds | apps/booking-service/src/cart/cart.service.ts:158-172 | No account ever has more tickets of an event, counted one by one, in orders not canceled than the event's limit. |
| BookingSaga.RedeliveryIsHarmlessIff | apps/event-service/src/holds/order-canceled.consumer.ts:31-48 | A second delivery of OrderCanceled keeps the stock equation of a tier if and only if the message gives nothing back for it or nothing is sold. |
| BookingSaga.PartialRefundOfPendingLosesStock | apps/booking-service/src/sagas/refund-events.consumer.ts:71-73 | Refunding some items of an unpaid order and then canceling it always breaks the stock equation. |
| BookingSaga.FailedReleaseIsHarmlessIff | apps/booking-service/src/orders/holds-release.service.ts:45-60 | Closing an order although the release of some items failed keeps the stock equation of a tier if and only if those items held none of its units. |
| BookingCycle.PaymentLeadsToTickets | apps/booking-service/src/orders/order-fulfillment.service.ts:35-126 | From every reachable state: a pending order paid while its seats are held ends TICKET_ISSUED, unchanged otherwise, with a ticket for every item. |
| BookingCycle.BuyingAndRefundingRestoresStock | apps/booking-service/src/sagas/refund-events.consumer.ts:49-127 | From every reachable state: holding an acceptable cart, paying it, getting its tickets and refunding it in full brings every tier back to exactly the count it had. |
| SeatLocks.SeatLockService.TryAcquireAll | apps/event-service/src/holds/seat-lock.service.ts:20-31 | Every requested key is set for the order, or the lock table is exactly as before; a repeated key or one the order already holds refuses the batch. |
| SeatHolds.HoldAsPromised | apps/event-service/src/holds/holds.service.ts:52-99 | A batch is held exactly if its seats are distinct, of one event, neither blocked nor booked, within the user's limit and all unlocked; exactly they become HELD, locked and counted. |
| SeatLocks.SeatLockService.ReleaseIfOwner | apps/event-service/src/holds/seat-lock.service.ts:7-13 | Only the owner's key is deleted. |
| SeatLocks.SeatLockService.Extend | apps/event-service/src/holds/seat-lock.service.ts:80-85 | Only the owner's key gets a new time to live. |
| SeatLocks.AcquireOneMore | apps/event-service/src/holds/seat-lock.service.ts:20-31 | A batch of n+1 keys is a batch of n keys and one more SET NX, which fails on a key already taken. |
| SeatLocks.DeletingUndoes | apps/event-service/src/holds/seat-lock.service.ts:26-27 | Deleting what a batch acquired restores the table. |
| SeatHolds.HoldsService.CheckBatch | apps/event-service/src/holds/holds.service.ts:52-76 | The refusals of a batch before any lock is touched, in their order. |
| SeatHolds.FoundAllIffDistinctAndKnown | apps/event-service/src/holds/holds.service.ts:53-56 | Counting the rows found tells a clean request from one with missing or repeated seats. |
| SeatHolds.HoldsService.HoldSeatsBatch | apps/event-service/src/holds/holds.service.ts:52-99 | A batch is held exactly if it may be and no seat is locked: exactly its seats are then HELD, locked for the order until the time to live ends, and counted for the user; a refusal changes nothing and says why. |
| SeatHolds.HoldsService.ReleaseSeat | apps/event-service/src/holds/holds.service.ts:110-143 | Exactly a BOOKED seat, for anybody, or one whose lock the order owns becomes AVAILABLE and no longer counted, the owner's lock deleted; otherwise nothing changes. |
| SeatHolds.HoldsService.ConfirmSeat | apps/event-service/src/holds/holds.service.ts:154-181 | Exactly the owner of the live lock books the seat, which is then unlocked and no longer counted. |
| SeatHolds.HoldsService.ExtendHold | apps/event-service/src/holds/holds.service.ts:102-108 | Exactly the owner of the live lock extends it by the time to live from now. |
| SeatHolds.HoldsService.BlockSeat | apps/event-service/src/seat-map/seat-map.service.ts:317-344 | Exactly an AVAILABLE or BLOCKED seat is blocked. |
| SeatHolds.HoldsService.HealStaleHolds | apps/event-service/src/seat-map/seat-map.service.ts:290-315 | Of the event's seats, exactly those HELD without a live lock become AVAILABLE. |
| SeatHolds.HoldsService.Rollback | apps/booking-service/src/cart/cart.service.ts:182-189 | What a failed cart does with its seats, one release each. |
| SeatRuns.SeatsAreSoldOnce | apps/event-service/src/holds/holds.service.ts:52-181 | Over every run two confirms of a seat are separated by a release by the first order; a live lock means HELD, and a BOOKED seat has no lock. |
| SeatRuns.LiveLockProtectsSeat | apps/event-service/src/holds/holds.service.ts:110-143 | From every reachable state, until its lock lapses a held seat stays HELD by its order over every run without the owner's own confirm or release, whatever healing, blocking and other orders do. |
| SeatRuns.BookedUntilReleased | apps/event-service/src/holds/holds.service.ts:154-181 | From every reachable state, a BOOKED seat stays booked by its order over every run in which that order does not release it. |
| SeatRuns.UserLimitHolds | apps/event-service/src/holds/holds.service.ts:69-86 | In every reachable state the live locks of a user's orders in an event are among the seats counted for the user, of which there are never more than the limit. |
| SeatLimits.RollbackEffect | apps/booking-service/src/cart/cart.service.ts:182-189 | A rollback frees, of the seats it names, exactly the BOOKED ones and those its order has locked. |
| SeatLimits.RefusedCartIsHarmlessIff | apps/booking-service/src/cart/cart.service.ts:103-106 | The rollback after a refused seat batch changes nothing if and only if the cart asked for no BOOKED seat. |
| SeatLimits.RollbackUndoesHold | apps/booking-service/src/cart/cart.service.ts:182-189 | Rolling back a batch that was held restores the locks and every other seat, and leaves its seats AVAILABLE. |
| SeatLimits.LostHoldRefundResellsSeat | apps/event-service/src/holds/holds.service.ts:126 | A run from an empty hall in which the refund of a lapsed hold frees a seat another order booked, so that it is sold twice. |
| SeatLimits.StrangersReleaseResellsSeat | apps/event-service/src/holds/holds.service.ts:119-140 | From every sound state: a seat released by an order that did not book it can be sold to any order whose user is below the limit, though its booker never gave it back. |
| SeatLimits.ReleaseIsSafeIff | apps/event-service/src/holds/holds.service.ts:119-140 | From every sound state with a user below the limit: no continuation of the release of a BOOKED seat sells it over the head of its booker if and only if the booker released it. |
| RateLimit.RateLimiter.TryConsume | apps/api-gateway/src/proxy/rate-limit.middleware.ts:29-41 | A request opens a window, is counted in the one running, or is refused exactly when that is full, with the seconds left rounded up. |
| RateLimit.RateLimiter.Sweep | apps/api-gateway/src/proxy/rate-limit.middleware.ts:44-49 | Exactly the expired buckets go. |
| RateLimit.AtMostTwiceTheLimit | apps/api-gateway/src/proxy/rate-limit.middleware.ts:29-41 | Over every trace with a running clock, any half-open interval as long as the window lets at most twice the limit through per key. |
| RateLimit.SweepIsInvisible | apps/api-gateway/src/proxy/rate-limit.middleware.ts:44-49 | Leaving all sweeps out of a trace, or inserting more, changes no answer. |
| RateLimit.RetryAfterIsEnough | apps/api-gateway/src/proxy/rate-limit.middleware.ts:36-38 | A refused key that stays quiet for the announced seconds is let through. |
| RateLimit.FailedLoginTracker.LockedFor | apps/api-gateway/src/proxy/rate-limit.middleware.ts:101-110 | The seconds of lockout left, or 0. |
| RateLimit.FailedLoginTracker.RecordFailure | apps/api-gateway/src/proxy/rate-limit.middleware.ts:112-116 | A failure continues the key's streak or starts a new one. |
| RateLimit.FailedLoginTracker.RecordSuccess | apps/api-gateway/src/proxy/rate-limit.middleware.ts:118-120 | A success forgets the key. |
| RateLimit.FailedLoginTracker.Sweep | apps/api-gateway/src/proxy/rate-limit.middleware.ts:122-127 | Exactly the lapsed entries go. |
| RateLimit.LockedIffStreakReached | apps/api-gateway/src/proxy/rate-limit.middleware.ts:92-128 | A key is locked if and only if its streak, read backwards off the history, has reached the limit, and then until the lockout of its last failure ends. |
| RateLimit.CleaningIsInvisible | apps/api-gateway/src/proxy/rate-limit.middleware.ts:122-127 | Neither sweeps nor questions change who is locked or for how long. |
| WaitingRoom.WaitingRoomService.Join | apps/event-service/src/waiting-room/waiting-room.service.ts:70-82 | The admitted are welcome, a full queue turns away, and everybody else waits: a newcomer at the place of its arrival, somebody waiting at the place it had; nothing else changes. |
| WaitingRoom.WaitingRoomService.Position | apps/event-service/src/waiting-room/waiting-room.service.ts:84-90 | The 1-based place of a session, None when it does not wait. |
| WaitingRoom.WaitingRoomService.Release | apps/event-service/src/waiting-room/waiting-room.service.ts:113-141 | One tick under the release lock admits, of each listed event, exactly those in front, up to the batch and what is left to sell, for ten minutes; they leave the queue, and events nobody waited for leave the list. A tick that does not get the lock changes nothing. |
| WaitingRuns.NobodyOvertakes | apps/event-service/src/waiting-room/waiting-room.service.ts:113-141 | From every reachable state and over every run from it, whoever waits ahead of a session is admitted before it. |
| WaitingRuns.WaitIsBounded | apps/event-service/src/waiting-room/waiting-room.service.ts:113-141 | From every reachable state, if everybody else joins at a later millisecond, a place never worsens, and place p is admitted within ceil(p/b) winning ticks of batch size at least b. |
| WaitingRuns.PlacedShifts | apps/event-service/src/waiting-room/waiting-room.service.ts:79 | A newcomer moves an entry back by one place exactly if it goes ahead of it in (score, member) order. |
| WaitingRuns.TicksAreSpaced | apps/event-service/src/waiting-room/waiting-room.service.ts:114-116 | Two winning ticks, of whatever replicas, lie at least the four seconds of the lock apart. |
| WaitingRuns.TickAdmitsWithinCapacity | apps/event-service/src/waiting-room/waiting-room.service.ts:126-138 | A tick admits no more than its batch and the remaining inventory, and whoever it admits gets in for the whole TTL. |
| Memberships.MembershipsService.Activate | apps/event-service/src/memberships/memberships.service.ts:94-127 | The first activation of an order with a known plan adds one card, on the plan's terms and days, from the end of the last active card that has not ended; any other changes nothing. |
| Memberships.MembershipsService.Cancel | apps/event-service/src/memberships/memberships.service.ts:58-68 | Exactly the owner cancels a card, unless it is active and has ended; canceling again changes nothing. |
| Memberships.MembershipsService.BenefitsFor | apps/event-service/src/memberships/memberships.service.ts:217-231 | The best discount with its first card, and the longest presale, among the cards that count; none without one. |
| Memberships.AtMostOneCardCounts | apps/event-service/src/memberships/memberships.service.ts:94-127 | Over every run one order has one card, and at any instant at most one card of a user and artist counts. |
| Memberships.ActivatingTwiceIsOnce | apps/event-service/src/memberships/memberships.service.ts:95-105 | A repeated activation of an order changes nothing, whatever it carries. |
| Memberships.RenewalContinues | apps/event-service/src/memberships/memberships.service.ts:107-111 | A renewal starts exactly where an unexpired card ends, and no earlier than any of them. |
| Memberships.ActivationCounts | apps/event-service/src/memberships/memberships.service.ts:94-127 | A first activation adds a card on the plan's terms, and it counts exactly from its start to its end. |
| RowLabel.RowLabel | apps/event-service/src/seat-map/row-label.ts:2-10 | The loop terminates with the label of the row. |
| RowLabel.DecodingUndoesLabelling | apps/event-service/src/seat-map/row-label.ts:2-10 | Every label is a nonempty word over A to Z, and reading it in bijective base 26 gives the row back. |
| RowLabel.LabellingUndoesDecoding | apps/event-service/src/seat-map/row-label.ts:2-10 | Every nonempty word over A to Z is the label of the row it decodes to. |
| RowLabel.LabelsAreOrdered | apps/event-service/src/seat-map/row-label.ts:2-10 | Rows are in order if and only if their labels are, by length and then alphabetically. |
| SeatLabels.LabelCanvasSeats | apps/event-service/src/seat-map/seat-map.service.ts:41-56 | Every seat carries the override of its row, or the letter its row's place among the occupied ones gives; a map is refused exactly when two occupied rows have one letter. |
| SeatLabels.Letters | apps/event-service/src/seat-map/seat-map.service.ts:42-45 | The letter of each occupied row, None exactly when two would clash. |
| SeatLabels.LabellingPermutes | apps/event-service/src/seat-map/seat-map.service.ts:46-55 | The labelled cells are a permutation of the input. |
| SeatLabels.RowsRunFromOneToN | apps/event-service/src/seat-map/seat-map.service.ts:52-54 | In every occupied grid row the numbers are exactly 1 to n from left to right. |
| SeatLabels.NoTwoSeatsShareALabel | apps/event-service/src/seat-map/seat-map.service.ts:41-56 | No two seats of an accepted map share row label and number, with or without overrides. |
| SeatLabels.AutomaticLettersNeverClash | apps/event-service/src/seat-map/seat-map.service.ts:42-44 | Without overrides no map is refused, and later rows have later letters. |
| Pagination.PagesAreComplete | apps/event-service/src/events/events.service.ts:113-142 | Following the cursors, n pages hold exactly the first n times limit rows of the order, and browsing ends exactly when all rows were shown. |
| Pagination.SortedIsTheOrder | apps/event-service/src/events/events.service.ts:129 | The order shown is a strictly sorted permutation of the rows, even with equal start times. |
| Pagination.FilterThenSort | apps/event-service/src/events/events.service.ts:117-131 | Filtering by a cursor and sorting commute. |
| Pagination.BeyondIsSuffix | apps/event-service/src/events/events.service.ts:117-121 | Beyond a row's cursor lie exactly the rows after it. |
| Pagination.DecodeUndoesEncode | apps/event-service/src/events/events.service.ts:667-681 | Decoding undoes encoding if and only if the id is nonempty and holds no "|". |

## Left out

- Manual transfers (`completeManually`) and `autoRefund` as sources of refunds: they bypass the claim checks and the payout claim.
- HTTP clients, circuit breakers, RabbitMQ, Prisma and Redis plumbing: maps, logs of messages and steps stand for them. Two handlers never interleave here, although below handler granularity several read-then-write pairs of the code could.
- Handlers that fail between two of their writes (apart from the payout worker), such as a sweep that released a hold and could not delete the order.
- Gateway integrations, QR codes, signatures, JWT, captcha, e-mail, activity logs, metrics, user interfaces and caches.
- Role and ownership checks of admins and organizers; request validation beyond what a handler itself refuses.
- Which due refunds the payout cron picks, and when: its batch and backoff are a parameter, and liveness of payouts is not claimed.
- Discount codes: validating, redeeming and releasing them. What a code is worth on an order, a percentage in floating point, is a parameter.
- RESALE and MEMBERSHIP orders in the booking saga, and the share of a resold ticket in the refund of a canceled event: the code counts transferred items differently on its two sides.
- The EXPIRED status of orders, which the code no longer produces.
- Seats in the stock equation: seat items travel through the saga as lines, and their release and confirmation are the subject of the seat protocol.
- Building a seat map beyond its labels: bounds and duplicate checks of the drawn cells, zones, prices, standing areas, snapshots.
- The sales-window rules behind `purchaseCheck`, the captcha of the waiting room, the recommender, statistics and the other endpoints of the services.
- Cache entries of the event search, its other filters, and the database collation: ids are compared character by character.
- Tickets.TicketService.CheckIn: the signature of the code and the missing national id are refused before this point and are not modelled.
- Tickets.TicketService.OnOrderCanceled: without the processed-event guard of the consumer; voiding twice changes nothing anyway.
- Refunds.RefundsService.Request: ends before the payout of an auto-approved request, which is a step of the payout worker.
- Refunds.RefundsService.Approve: ends before the payout, which is a step of the payout worker.
- Refunds.RefundsService.Retry: ends before the payout, which is a step of the payout worker.
- Refunds.RefundsService.Transition: the status column alone; the data written with it are in the handlers.
- Payouts.RefundProcessor.Drain: which refunds are due is a parameter.
- Resale.ResaleService.Complete: the transferred mark on the sold order item is a parameter of later listings, not state.
- Inventory.InventoryService.OnOrderCanceled: the seat lines of the message are released by the seat protocol.
- BookingHandlers.BookingService.HoldCart: the seat batch and its rollback are an outcome here and modelled in the seat protocol.
- Orders.RollbackRestores: the tier half of the rollback; for the seat half see SeatLimits.RollbackUndoesHold.
- BookingHandlers.BookingService.ReleaseOnce: seat releases belong to the seat protocol, and release calls succeed (see above).
- BookingHandlers.BookingService.MarkPaid: the automatic refund of a lost hold, and seats confirmed before it was noticed, are left out.
- BookingHandlers.BookingService.OnPaymentSucceeded: the automatic refund of an order that is gone or canceled is left out.
- BookingHandlers.BookingService.Sweep: EXPIRED rows of older versions are left out.
- RefundPolicy.QuoteFollowsGoverningTier: tiers hold whole hours and whole percents, while the JSON column also admits fractions.
- RefundMoney.ClaimsMatchPayment: amounts are unbounded integers, so neither the 53-bit precision of a JavaScript number nor the two decimals of the column is modelled.
- Pagination.PagesAreComplete: the ISO and base64url conversions are parameters with the round trips their documentation promises.
- SeatLabels.RowsRunFromOneToN: seat numbers are naturals, where the code stores their decimal digits; cells are distinct, as the map's validation ensures.
- Identifiers are naturals, of which only equality is used (and order, for sessions of the waiting room).
