/**
 * The payout worker: claims an approved refund with one conditional update,
 * calls the gateway, and writes down what the gateway said.
 */
module Payouts {
  import opened Common
  import opened Refunds

  const MAX_ATTEMPTS := 5

  /** A thrown call (timeout) leaves it unknown whether the money moved. */
  datatype GatewayReply = Accepted | Refused | Unknown

  datatype RefundApproved = RefundApproved(refund: nat, order: OrderId, amount: nat, items: seq<ItemId>)

  predicate PaidByHand(ledger: Ledger, order: OrderId) {
    order in ledger && ledger[order].manual
  }

  predicate Payable(ledger: Ledger, refunds: seq<Refund>, r: nat) {
    && r < |refunds|
    && !PaidByHand(ledger, refunds[r].order)
    && (refunds[r].status == Approved || refunds[r].status == Failed)
    && refunds[r].attempts < MAX_ATTEMPTS
  }

  /** APPROVED|FAILED -> PROCESSING, counting the attempt. */
  function AfterClaim(refunds: seq<Refund>, r: nat): seq<Refund>
    requires r < |refunds|
  {
    refunds[r := refunds[r].(status := Processing, attempts := refunds[r].attempts + 1)]
  }

  /** Unconditional, by refund id: COMPLETED, FAILED, or left PROCESSING for a human. */
  function AfterReply(refunds: seq<Refund>, r: nat, reply: GatewayReply): seq<Refund>
    requires r < |refunds|
  {
    match reply
    case Accepted => refunds[r := refunds[r].(status := Completed)]
    case Refused => refunds[r := refunds[r].(status := Failed)]
    case Unknown => refunds
  }

  function AfterProcess(ledger: Ledger, refunds: seq<Refund>, r: nat, reply: GatewayReply): seq<Refund> {
    if Payable(ledger, refunds, r) then AfterReply(AfterClaim(refunds, r), r, reply) else refunds
  }

  /** One tick of the cron over the due refunds it picked; `replies` is what the gateway will answer each. */
  function AfterDrain(ledger: Ledger, refunds: seq<Refund>, due: seq<nat>, replies: seq<GatewayReply>): seq<Refund>
    requires |replies| == |due|
  {
    if due == [] then refunds
    else
      var last := |due| - 1;
      AfterProcess(ledger, AfterDrain(ledger, refunds, due[..last], replies[..last]), due[last], replies[last])
  }

  /** One attempt was made, and the status tells how it ended. */
  predicate Attempted(before: Refund, after: Refund, reply: GatewayReply) {
    && after.attempts == before.attempts + 1
    && (after.status == Completed <==> reply == Accepted)
    && (after.status == Failed <==> reply == Refused)
    && (after.status == Processing <==> reply == Unknown)
  }

  lemma ProcessTakesOne(ledger: Ledger, refunds: seq<Refund>, r: nat, reply: GatewayReply)
    ensures var after := AfterProcess(ledger, refunds, r, reply);
            && |after| == |refunds|
            && (forall k :: 0 <= k < |refunds| && (k != r || !Payable(ledger, refunds, r)) ==> after[k] == refunds[k])
            && (Payable(ledger, refunds, r) ==> Attempted(refunds[r], after[r], reply))
  {
  }

  /** A tick makes one attempt at each payable refund it picked, each on its own, and leaves every other row alone. */
  lemma {:induction false} DrainTakesEachOnItsOwn(ledger: Ledger, refunds: seq<Refund>, due: seq<nat>, replies: seq<GatewayReply>)
    requires |replies| == |due| && forall i, j :: 0 <= i < j < |due| ==> due[i] != due[j]
    ensures var after := AfterDrain(ledger, refunds, due, replies);
            && |after| == |refunds|
            && (forall r :: 0 <= r < |refunds| && (r !in due || !Payable(ledger, refunds, r)) ==> after[r] == refunds[r])
            && (forall k :: 0 <= k < |due| && Payable(ledger, refunds, due[k]) ==> Attempted(refunds[due[k]], after[due[k]], replies[k]))
  {
    hide AfterProcess;
    hide Attempted;
    if due != [] {
      var last := |due| - 1;
      var before := AfterDrain(ledger, refunds, due[..last], replies[..last]);
      DrainTakesEachOnItsOwn(ledger, refunds, due[..last], replies[..last]);
      assert due == due[..last] + [due[last]];
      assert due[last] !in due[..last];
      assert Payable(ledger, before, due[last]) <==> Payable(ledger, refunds, due[last]);
      ProcessTakesOne(ledger, before, due[last], replies[last]);
      hide Payable;
      hide AfterDrain;
    }
  }

  class RefundProcessor {
    const desk: RefundsService
    var published: seq<RefundApproved>

    constructor (desk: RefundsService)
      ensures this.desk == desk && published == []
    {
      this.desk := desk;
      published := [];
    }

    method Claim(id: nat) returns (claimed: bool)
      modifies desk`refunds
      ensures claimed == Payable(desk.ledger, old(desk.refunds), id)
      ensures desk.refunds == if claimed then AfterClaim(old(desk.refunds), id) else old(desk.refunds)
      ensures claimed <==>
                && id < |desk.refunds| && old(desk.refunds)[id].status in {Approved, Failed} && old(desk.refunds)[id].attempts < 5
                && !(old(desk.refunds)[id].order in desk.ledger && desk.ledger[old(desk.refunds)[id].order].manual)
      ensures desk.refunds == if claimed
                              then old(desk.refunds)[id := old(desk.refunds)[id].(status := Processing, attempts := old(desk.refunds)[id].attempts + 1)]
                              else old(desk.refunds)
    {
      if id >= |desk.refunds| || PaidByHand(desk.ledger, desk.refunds[id].order) {
        return false;
      }
      var refund := desk.refunds[id];
      if refund.status !in {Approved, Failed} || refund.attempts >= MAX_ATTEMPTS {
        return false;
      }
      desk.refunds := desk.refunds[id := refund.(status := Processing, attempts := refund.attempts + 1)];
      return true;
    }

    /** RefundApproved goes out exactly when the gateway accepted. */
    method Record(id: nat, reply: GatewayReply)
      requires id < |desk.refunds|
      modifies this, desk`refunds
      ensures desk.refunds == AfterReply(old(desk.refunds), id, reply)
      ensures desk.refunds == if reply == Unknown then old(desk.refunds)
                              else old(desk.refunds)[id := old(desk.refunds)[id].(status := if reply == Accepted then Completed else Failed)]
      ensures var row := old(desk.refunds)[id];
              published == old(published) + if reply == Accepted then [RefundApproved(id, row.order, row.amount, row.items)] else []
    {
      if reply == Unknown {
        return;
      }
      if reply == Refused {
        desk.refunds := desk.refunds[id := desk.refunds[id].(status := Failed)];
        return;
      }
      desk.refunds := desk.refunds[id := desk.refunds[id].(status := Completed)];
      var refund := desk.refunds[id];
      published := published + [RefundApproved(id, refund.order, refund.amount, refund.items)];
    }

    /** One uninterrupted worker; `reply` is what its gateway call will answer. */
    method Process(id: nat, reply: GatewayReply) returns (called: bool)
      modifies this, desk`refunds
      ensures called == Payable(desk.ledger, old(desk.refunds), id)
      ensures desk.refunds == AfterProcess(desk.ledger, old(desk.refunds), id, reply)
      ensures called ==>
                var row := old(desk.refunds)[id];
                && desk.refunds == old(desk.refunds)[id := row.(attempts := row.attempts + 1,
                                                                status := if reply == Accepted then Completed
                                                                          else if reply == Refused then Failed else Processing)]
                && published == old(published) + if reply == Accepted then [RefundApproved(id, row.order, row.amount, row.items)] else []
      ensures !called ==> desk.refunds == old(desk.refunds) && published == old(published)
    {
      called := Claim(id);
      if called {
        Record(id, reply);
      }
    }

    method Drain(due: seq<nat>, replies: seq<GatewayReply>)
      requires |replies| == |due|
      modifies this, desk`refunds
      ensures desk.refunds == AfterDrain(desk.ledger, old(desk.refunds), due, replies)
    {
      for n := 0 to |due|
        invariant desk.refunds == AfterDrain(desk.ledger, old(desk.refunds), due[..n], replies[..n])
      {
        assert due[..n + 1][..n] == due[..n] && replies[..n + 1][..n] == replies[..n];
        var _ := Process(due[n], replies[n]);
      }
      assert due[..|due|] == due && replies[..|replies|] == replies;
    }
  }
}
