/**
 * The ticket state machine: one ticket per order item, checked in at the gate,
 * locked for a refund, locked for resale, or voided. Tickets are keyed by the
 * (unique) order item they were issued for.
 */
module Tickets {
  import opened Common

  datatype TicketStatus = Issued | RefundPending | ResaleListed | Used | Canceled

  datatype CancelReason = ByEvent | Resold

  datatype Ticket = Ticket(
    event: EventId, holder: UserId, status: TicketStatus,
    refundId: Option<nat>, reason: Option<CancelReason>, qrVersion: nat)

  type Book = map<ItemId, Ticket>

  predicate IsResold(t: Ticket) {
    t.status == Canceled && t.reason == Some(Resold)
  }

  function NewTicket(event: EventId, holder: UserId): Ticket {
    Ticket(event, holder, Issued, None, None, 1)
  }

  // --------------------------------------------------------------- check-in

  /** The scanned code names the ticket, the event it is scanned for and the QR version it was printed with. */
  function CheckedIn(book: Book, item: ItemId, event: EventId, codeVersion: nat): Result<Book> {
    if item !in book then Err(BadRequest)
    else if book[item].event != event then Err(BadRequest)
    else if book[item].qrVersion != codeVersion then Err(BadRequest)
    else
      match book[item].status
      case Issued => Ok(book[item := book[item].(status := Used)])
      case Used => Err(Conflict)
      case _ => Err(BadRequest)
  }

  // ------------------------------------------------------------ refund locks

  predicate LockedBy(t: Ticket, refund: nat) {
    t.status == RefundPending && t.refundId == Some(refund)
  }

  function IssuedFor(book: Book, items: seq<ItemId>): set<ItemId> {
    set i | i in items && i in book
  }

  /** All-or-nothing lock of the tickets of `items`; idempotent for the same refund. */
  function LockedForRefund(book: Book, items: seq<ItemId>, refund: nat): Result<Book> {
    var found := IssuedFor(book, items);
    if found == {} then Err(Conflict)
    else if forall i :: i in found ==> LockedBy(book[i], refund) then Ok(book)
    else if exists i :: i in found && book[i].status != Issued then Err(Conflict)
    else Ok(map i | i in book ::
              if i in found then book[i].(status := RefundPending, refundId := Some(refund)) else book[i])
  }

  function UnlockedForRefund(book: Book, refund: nat): Book {
    map i | i in book ::
      if LockedBy(book[i], refund) then book[i].(status := Issued, refundId := None) else book[i]
  }

  // ------------------------------------------------------------------ resale

  function LockedForResale(book: Book, item: ItemId, user: UserId): Result<Book> {
    if item !in book || book[item].holder != user then Err(NotFound)
    else if book[item].status == ResaleListed then Ok(book)
    else if book[item].status != Issued then Err(Conflict)
    else Ok(book[item := book[item].(status := ResaleListed)])
  }

  function UnlockedFromResale(book: Book, item: ItemId): Book {
    if item in book && book[item].status == ResaleListed then book[item := book[item].(status := Issued)]
    else book
  }

  function Transferred(book: Book, item: ItemId): Result<Book> {
    if item !in book then Err(NotFound)
    else if book[item].status == Canceled && book[item].reason == Some(Resold) then Ok(book)
    else if book[item].status != ResaleListed then Err(Conflict)
    else Ok(book[item := book[item].(status := Canceled, reason := Some(Resold), qrVersion := book[item].qrVersion + 1)])
  }

  // ----------------------------------------------------------------- voiding

  /** EventCanceled: every unused, unlisted ticket of the event dies. */
  function VoidedForEvent(book: Book, event: EventId): Book {
    map i | i in book ::
      if book[i].event == event && (book[i].status == Issued || book[i].status == RefundPending)
      then book[i].(status := Canceled, reason := Some(ByEvent), refundId := None)
      else book[i]
  }

  /** OrderCanceled: the tickets of the refunded items die unless they were used. */
  function VoidedItems(book: Book, items: seq<ItemId>): Book {
    map i | i in book ::
      if i in items && book[i].status != Used then book[i].(status := Canceled) else book[i]
  }

  /** OrderPaid: one ticket per item, whatever was issued before stays as it is. */
  function IssuedItems(book: Book, items: seq<ItemId>, event: EventId, holder: UserId): Book {
    map i | i in book.Keys + (set j | j in items) ::
      if i in book then book[i] else NewTicket(event, holder)
  }

  // ------------------------------------------------------- what never reverts

  /** No ticket disappears, and used and canceled tickets never change again. */
  ghost predicate Advances(before: Book, after: Book) {
    forall i :: i in before ==>
      && i in after
      && (before[i].status == Used || before[i].status == Canceled ==> after[i] == before[i])
  }

  datatype TicketStep =
    | CheckIn(item: ItemId, event: EventId, codeVersion: nat)
    | LockForRefund(items: seq<ItemId>, refund: nat)
    | UnlockForRefund(refund: nat)
    | LockForResale(item: ItemId, user: UserId)
    | UnlockFromResale(item: ItemId)
    | TransferResold(item: ItemId)
    | VoidForEvent(event: EventId)
    | VoidItems(items: seq<ItemId>)
    | IssueItems(items: seq<ItemId>, event: EventId, holder: UserId)

  function Settle(r: Result<Book>, otherwise: Book): Book {
    if r.Ok? then r.value else otherwise
  }

  function AfterTicketStep(book: Book, step: TicketStep): Book {
    match step
    case CheckIn(item, event, codeVersion) => Settle(CheckedIn(book, item, event, codeVersion), book)
    case LockForRefund(items, refund) => Settle(LockedForRefund(book, items, refund), book)
    case UnlockForRefund(refund) => UnlockedForRefund(book, refund)
    case LockForResale(item, user) => Settle(LockedForResale(book, item, user), book)
    case UnlockFromResale(item) => UnlockedFromResale(book, item)
    case TransferResold(item) => Settle(Transferred(book, item), book)
    case VoidForEvent(event) => VoidedForEvent(book, event)
    case VoidItems(items) => VoidedItems(book, items)
    case IssueItems(items, event, holder) => IssuedItems(book, items, event, holder)
  }

  function AfterTicketSteps(book: Book, steps: seq<TicketStep>): Book
    decreases |steps|
  {
    if steps == [] then book else AfterTicketSteps(AfterTicketStep(book, steps[0]), steps[1..])
  }

  /** Used and canceled are absorbing over every run of the ticket service. */
  lemma {:induction false} UsedAndCanceledAreAbsorbing(book: Book, steps: seq<TicketStep>)
    ensures Advances(book, AfterTicketSteps(book, steps))
    decreases |steps|
  {
    if steps != [] {
      UsedAndCanceledAreAbsorbing(AfterTicketStep(book, steps[0]), steps[1..]);
    }
  }

  /** Locking and unlocking for the same refund restores the tickets it locked. */
  lemma UnlockUndoesLock(book: Book, items: seq<ItemId>, refund: nat)
    requires forall i :: i in book && book[i].status == Issued ==> book[i].refundId == None
    requires forall i :: i in book ==> !LockedBy(book[i], refund)
    requires LockedForRefund(book, items, refund).Ok?
    ensures UnlockedForRefund(LockedForRefund(book, items, refund).value, refund) == book
  {
    var found := IssuedFor(book, items);
    var i :| i in found;
    assert !LockedBy(book[i], refund);
  }

  // ---------------------------------------------- what the service promises

  /** Some ticket of `items` exists, and they are all this refund's already, or all unused and unlisted. */
  ghost predicate Lockable(book: Book, items: set<ItemId>, refund: nat) {
    && (exists i :: i in items && i in book)
    && ((forall i :: i in items && i in book ==> book[i].status == RefundPending && book[i].refundId == Some(refund))
        || (forall i :: i in items && i in book ==> book[i].status == Issued))
  }

  /** The tickets of `items` wait for the refund; nothing else changed. */
  ghost predicate NowLocked(before: Book, after: Book, items: set<ItemId>, refund: nat) {
    && after.Keys == before.Keys
    && forall i :: i in before ==>
         after[i] == if i in items then before[i].(status := RefundPending, refundId := Some(refund)) else before[i]
  }

  /** The tickets that waited for the refund are valid again; nothing else changed. */
  ghost predicate NowUnlocked(before: Book, after: Book, refund: nat) {
    && after.Keys == before.Keys
    && forall i :: i in before ==>
         after[i] == if before[i].status == RefundPending && before[i].refundId == Some(refund)
                     then before[i].(status := Issued, refundId := None) else before[i]
  }

  // ------------------------------------------------------------- the service

  class TicketService {
    var book: Book

    constructor ()
      ensures book == map[]
    {
      book := map[];
    }

    method CheckIn(item: ItemId, event: EventId, codeVersion: nat) returns (r: Result<()>)
      modifies this
      ensures var after := CheckedIn(old(book), item, event, codeVersion);
              && book == Settle(after, old(book))
              && r == (if after.Ok? then Ok(()) else Err(after.error))
      ensures r.Ok? <==> item in old(book) && old(book)[item].event == event && old(book)[item].qrVersion == codeVersion
                         && old(book)[item].status == Issued
      ensures book == if r.Ok? then old(book)[item := old(book)[item].(status := Used)] else old(book)
      ensures r == Err(Conflict) <==> item in book && book[item].event == event && book[item].qrVersion == codeVersion
                                      && old(book)[item].status == Used
      ensures r.Err? ==> r.error in {BadRequest, Conflict}
    {
      if item !in book {
        return Err(BadRequest);
      }
      var ticket := book[item];
      if ticket.event != event {
        return Err(BadRequest);
      }
      if codeVersion != ticket.qrVersion {
        return Err(BadRequest);
      }
      if ticket.status == Issued {
        book := book[item := ticket.(status := Used)];
        return Ok(());
      }
      return Err(if ticket.status == Used then Conflict else BadRequest);
    }

    method LockForRefund(items: seq<ItemId>, refund: nat) returns (r: Result<()>)
      modifies this
      ensures var after := LockedForRefund(old(book), items, refund);
              && book == Settle(after, old(book))
              && r == (if after.Ok? then Ok(()) else Err(after.error))
      ensures r == if Lockable(old(book), (set i | i in items), refund) then Ok(()) else Err(Conflict)
      ensures r.Ok? ==> NowLocked(old(book), book, (set i | i in items), refund)
      ensures r.Err? ==> book == old(book)
    {
      var tickets := set i | i in items && i in book;
      assert forall i :: i in items && i in book ==> i in tickets;
      if tickets == {} {
        return Err(Conflict);
      }
      if forall i :: i in tickets ==> LockedBy(book[i], refund) {
        return Ok(());
      }
      if exists i :: i in tickets && book[i].status != Issued {
        return Err(Conflict);
      }
      book := map i | i in book ::
        if i in items && book[i].status == Issued then book[i].(status := RefundPending, refundId := Some(refund)) else book[i];
      return Ok(());
    }

    method UnlockForRefund(refund: nat)
      modifies this
      ensures book == UnlockedForRefund(old(book), refund)
      ensures NowUnlocked(old(book), book, refund)
    {
      book := map i | i in book ::
        if book[i].refundId == Some(refund) && book[i].status == RefundPending
        then book[i].(status := Issued, refundId := None) else book[i];
    }

    method LockForResale(item: ItemId, user: UserId) returns (r: Result<()>)
      modifies this
      ensures var after := LockedForResale(old(book), item, user);
              && book == Settle(after, old(book))
              && r == (if after.Ok? then Ok(()) else Err(after.error))
      ensures r.Ok? <==> item in old(book) && old(book)[item].holder == user && old(book)[item].status in {Issued, ResaleListed}
      ensures r == Err(NotFound) <==> item !in old(book) || old(book)[item].holder != user
      ensures r.Err? ==> r.error in {NotFound, Conflict}
      ensures book == if r.Ok? then old(book)[item := old(book)[item].(status := ResaleListed)] else old(book)
    {
      if item !in book || book[item].holder != user {
        return Err(NotFound);
      }
      if book[item].status == ResaleListed {
        return Ok(());
      }
      if book[item].status == Issued {
        book := book[item := book[item].(status := ResaleListed)];
        return Ok(());
      }
      return Err(Conflict);
    }

    method UnlockFromResale(item: ItemId)
      modifies this
      ensures book == UnlockedFromResale(old(book), item)
      ensures book == if item in old(book) && old(book)[item].status == ResaleListed
                      then old(book)[item := old(book)[item].(status := Issued)] else old(book)
    {
      if item in book && book[item].status == ResaleListed {
        book := book[item := book[item].(status := Issued)];
      }
    }

    method TransferResold(item: ItemId) returns (r: Result<()>)
      modifies this
      ensures var after := Transferred(old(book), item);
              && book == Settle(after, old(book))
              && r == (if after.Ok? then Ok(()) else Err(after.error))
      ensures r == Err(NotFound) <==> item !in old(book)
      ensures r == Err(Conflict) <==> item in old(book) && old(book)[item].status != ResaleListed
                                      && !(old(book)[item].status == Canceled && old(book)[item].reason == Some(Resold))
      ensures r.Err? ==> r.error in {NotFound, Conflict}
      ensures book == if item in old(book) && old(book)[item].status == ResaleListed
                      then old(book)[item := old(book)[item].(status := Canceled, reason := Some(Resold), qrVersion := old(book)[item].qrVersion + 1)]
                      else old(book)
    {
      if item !in book {
        return Err(NotFound);
      }
      var ticket := book[item];
      if ticket.status == Canceled && ticket.reason == Some(Resold) {
        return Ok(());
      }
      if ticket.status != ResaleListed {
        return Err(Conflict);
      }
      book := book[item := ticket.(status := Canceled, reason := Some(Resold), qrVersion := ticket.qrVersion + 1)];
      return Ok(());
    }

    method OnEventCanceled(event: EventId)
      modifies this
      ensures book == VoidedForEvent(old(book), event)
      ensures book.Keys == old(book).Keys
      ensures forall i :: i in book ==>
                book[i] == if old(book)[i].event == event && old(book)[i].status in {Issued, RefundPending}
                           then old(book)[i].(status := Canceled, reason := Some(ByEvent), refundId := None) else old(book)[i]
    {
      book := map i | i in book ::
        if book[i].event == event && book[i].status in {Issued, RefundPending}
        then book[i].(status := Canceled, reason := Some(ByEvent), refundId := None) else book[i];
    }

    method OnOrderCanceled(items: seq<ItemId>)
      modifies this
      ensures book == VoidedItems(old(book), items)
      ensures book.Keys == old(book).Keys
      ensures forall i :: i in book ==>
                book[i] == if i in items && old(book)[i].status != Used then old(book)[i].(status := Canceled) else old(book)[i]
    {
      for n := 0 to |items|
        invariant book == VoidedItems(old(book), items[..n])
      {
        var item := items[n];
        if item in book && book[item].status != Used {
          book := book[item := book[item].(status := Canceled)];
        }
        assert items[..n + 1] == items[..n] + [item];
      }
      assert items[..|items|] == items;
    }

    /** Returns the items TicketIssued is then published for: every item of the order. */
    method OnOrderPaid(items: seq<ItemId>, event: EventId, holder: UserId) returns (issued: seq<ItemId>)
      modifies this
      ensures book == IssuedItems(old(book), items, event, holder)
      ensures issued == items
      ensures forall i :: i in book <==> i in old(book) || i in items
      ensures forall i :: i in book ==>
                book[i] == if i in old(book) then old(book)[i] else Ticket(event, holder, Issued, None, None, 1)
    {
      issued := [];
      for n := 0 to |items|
        invariant book == IssuedItems(old(book), items[..n], event, holder)
        invariant issued == items[..n]
      {
        var item := items[n];
        if item !in book {
          book := book[item := NewTicket(event, holder)];
        }
        issued := issued + [item];
        assert items[..n + 1] == items[..n] + [item];
      }
      assert items[..|items|] == items;
    }
  }
}
