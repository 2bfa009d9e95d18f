/**
 * The exact conditions under which the gateway pays a refund once: which retries and
 * which refusals are safe, and how any other makes the cron pay again.
 */
module RefundLimits {
  import opened Common
  import opened RefundPolicy
  import opened Tickets
  import opened Refunds
  import opened Payouts
  import opened RefundWorld
  import opened RefundClaims
  import opened RefundMoney
  import opened RefundPayouts

  // ---------------------------------------------------------- building runs

  lemma Prepend(ledger: Ledger, w: World, step: Step, rest: seq<Step>, rule: Rule)
    requires Allowed(ledger, w, step) && rule(w, step) && Run(ledger, Next(ledger, w, step), rest, rule)
    ensures Run(ledger, w, [step] + rest, rule)
    ensures After(ledger, w, [step] + rest) == After(ledger, Next(ledger, w, step), rest)
  {
    assert ([step] + rest)[1..] == rest;
  }

  /** Some run from `w` under the rule makes the gateway pay refund `r` more than once. */
  ghost predicate CanPayTwice(ledger: Ledger, w: World, r: nat, rule: Rule) {
    exists steps :: Run(ledger, w, steps, rule) && |AccountOf(After(ledger, w, steps), r).payments| > 1
  }

  lemma TwiceLater(ledger: Ledger, w: World, step: Step, r: nat, rule: Rule)
    requires Allowed(ledger, w, step) && rule(w, step) && CanPayTwice(ledger, Next(ledger, w, step), r, rule)
    ensures CanPayTwice(ledger, w, r, rule)
  {
    var rest :| Run(ledger, Next(ledger, w, step), rest, rule) && |AccountOf(After(ledger, Next(ledger, w, step), rest), r).payments| > 1;
    hide Next;
    hide Allowed;
    Prepend(ledger, w, step, rest, rule);
    assert Run(ledger, w, [step] + rest, rule);
  }

  lemma {:induction false} RunUnder(ledger: Ledger, w: World, steps: seq<Step>, strict: Rule, loose: Rule)
    requires Run(ledger, w, steps, strict) && forall v, s :: strict(v, s) ==> loose(v, s)
    ensures Run(ledger, w, steps, loose)
    decreases |steps|
  {
    hide Next;
    hide Allowed;
    if steps != [] {
      RunUnder(ledger, Next(ledger, w, steps[0]), steps[1..], strict, loose);
    }
  }

  lemma {:induction false} SomeoneNew(workers: set<nat>) returns (worker: nat)
    ensures forall x :: x in workers ==> x < worker
    decreases |workers|
  {
    if workers == {} {
      worker := 0;
    } else {
      var x :| x in workers;
      var other := SomeoneNew(workers - {x});
      assert workers == (workers - {x}) + {x};
      worker := if x < other then other else x + 1;
    }
  }

  // ------------------------------------------------------ paying a refund twice

  /** The cron and the gateway left to themselves: no admin retries, and refusals are true. */
  predicate Unattended(w: World, step: Step) {
    !step.RetryPayout? && RefusalsMeanUnpaid(w, step)
  }

  /** A refund that was paid and is up for payout is paid again by the next worker. */
  lemma PaidAndPayable(ledger: Ledger, w: World, r: nat, worker: nat)
    requires Payable(ledger, w.desk.refunds, r) && worker !in w.workers && AccountOf(w, r).payments != []
    ensures CanPayTwice(ledger, w, r, Unattended)
  {
    var w1 := Next(ledger, w, ClaimPayout(worker, r));
    var w2 := Next(ledger, w1, GatewayAnswers(worker, Accepted, true));
    assert |AccountOf(w2, r).payments| > 1;
    hide Next;
    assert Run(ledger, w2, [], Unattended) && After(ledger, w2, []) == w2;
    TwiceLater(ledger, w1, GatewayAnswers(worker, Accepted, true), r, Unattended);
    TwiceLater(ledger, w, ClaimPayout(worker, r), r, Unattended);
  }

  /** The call that was out comes through after the retry, then the new worker's does. */
  lemma LateCall(ledger: Ledger, w: World, r: nat, caller: nat, worker: nat)
    requires Payable(ledger, w.desk.refunds, r) && worker !in w.workers
    requires caller in w.workers && w.workers[caller].Calling? && w.workers[caller].refund == r
    ensures CanPayTwice(ledger, w, r, Unattended)
  {
    var late := GatewayAnswers(caller, Unknown, true);
    PaidAndPayable(ledger, Next(ledger, w, late), r, worker);
    TwiceLater(ledger, w, late, r, Unattended);
  }

  /** The new worker is paid, the old one writes its refusal over it, and the cron pays again. */
  lemma LateRefusal(ledger: Ledger, w: World, r: nat, refused: nat, worker: nat)
    requires Payable(ledger, w.desk.refunds, r) && w.desk.refunds[r].attempts == 0 && worker !in w.workers
    requires refused in w.workers && w.workers[refused] == Answered(r, Refused)
    ensures CanPayTwice(ledger, w, r, Unattended)
  {
    var claim, paid := ClaimPayout(worker, r), GatewayAnswers(worker, Unknown, true);
    var w1 := Next(ledger, w, claim);
    var w2 := Next(ledger, w1, paid);
    var w3 := Next(ledger, w2, WriteReply(worker));
    var w4 := Next(ledger, w3, WriteReply(refused));
    assert w2.desk.refunds == AfterClaim(w.desk.refunds, r) && AccountOf(w2, r).payments != [];
    assert w3.desk == w2.desk && w3.accounts == w2.accounts && refused in w3.workers && worker !in w3.workers;
    assert Payable(ledger, w4.desk.refunds, r) && worker !in w4.workers;
    PaidAndPayable(ledger, w4, r, worker);
    hide Next;
    TwiceLater(ledger, w3, WriteReply(refused), r, Unattended);
    TwiceLater(ledger, w2, WriteReply(worker), r, Unattended);
    TwiceLater(ledger, w1, paid, r, Unattended);
    TwiceLater(ledger, w, claim, r, Unattended);
  }

  /** From any state: a retry without the check lets the cron and a truthful gateway pay the refund twice. */
  lemma UncheckedRetryCanPayTwice(ledger: Ledger, w: World, r: nat)
    requires r < |w.desk.refunds| && !PaidByHand(ledger, w.desk.refunds[r].order)
    requires !CheckedRetry(w, RetryPayout(r))
    ensures CanPayTwice(ledger, Next(ledger, w, RetryPayout(r)), r, Unattended)
  {
    var after := Next(ledger, w, RetryPayout(r));
    var worker := SomeoneNew(w.workers.Keys);
    assert worker !in after.workers && Payable(ledger, after.desk.refunds, r) && after.desk.refunds[r].attempts == 0;
    assert AccountOf(after, r).payments == AccountOf(w, r).payments;
    hide Next;
    if AccountOf(w, r).payments != [] {
      PaidAndPayable(ledger, after, r, worker);
    } else {
      var x :| x in w.workers && w.workers[x].refund == r && Active(w.workers[x]);
      if w.workers[x].Calling? {
        LateCall(ledger, after, r, x, worker);
      } else {
        LateRefusal(ledger, after, r, x, worker);
      }
    }
  }

  lemma {:induction false} CarefulNeverPaysTwice(ledger: Ledger, w: World, r: nat)
    requires Careful(w)
    ensures !CanPayTwice(ledger, w, r, SafePayouts)
  {
    forall steps | Run(ledger, w, steps, SafePayouts)
      ensures |AccountOf(After(ledger, w, steps), r).payments| <= 1
    {
      RunIsCareful(ledger, w, steps, SafePayouts);
      assert Careful(After(ledger, w, steps));
      hide Run;
      hide After;
    }
  }

  lemma SafelyTwice(ledger: Ledger, w: World, r: nat)
    requires CanPayTwice(ledger, w, r, Unattended)
    ensures CanPayTwice(ledger, w, r, SafePayouts)
  {
    var steps :| Run(ledger, w, steps, Unattended) && |AccountOf(After(ledger, w, steps), r).payments| > 1;
    RunUnder(ledger, w, steps, Unattended, SafePayouts);
  }

  /**
   * The exact condition of a retry, from any state the careful protocol reaches: no
   * continuation pays twice if and only if nothing was paid and no worker is calling or
   * about to write a refusal. A worker left with an unknown outcome does no harm.
   */
  lemma RetryIsSafeIff(ledger: Ledger, w: World, r: nat)
    requires Careful(w) && r < |w.desk.refunds| && !PaidByHand(ledger, w.desk.refunds[r].order)
    ensures !CanPayTwice(ledger, Next(ledger, w, RetryPayout(r)), r, SafePayouts) <==> CheckedRetry(w, RetryPayout(r))
  {
    hide CanPayTwice;
    if CheckedRetry(w, RetryPayout(r)) {
      RetryIsCareful(w, r);
      CarefulNeverPaysTwice(ledger, Next(ledger, w, RetryPayout(r)), r);
    } else {
      hide Next;
      UncheckedRetryCanPayTwice(ledger, w, r);
      SafelyTwice(ledger, Next(ledger, w, RetryPayout(r)), r);
    }
  }

  /**
   * From any state: a gateway that pays and answers with a refusal, as an adapter does
   * that reports a timeout so, makes the cron pay again without anybody retrying.
   */
  lemma FalseRefusalPaysTwice(ledger: Ledger, w: World, r: nat, caller: nat)
    requires r < |w.desk.refunds| && !PaidByHand(ledger, w.desk.refunds[r].order) && w.desk.refunds[r].attempts < MAX_ATTEMPTS
    requires caller in w.workers && w.workers[caller].Calling? && w.workers[caller].refund == r
    ensures CanPayTwice(ledger, Next(ledger, w, GatewayAnswers(caller, Refused, true)), r, Unattended)
  {
    var w1 := Next(ledger, w, GatewayAnswers(caller, Refused, true));
    var w2 := Next(ledger, w1, WriteReply(caller));
    assert AccountOf(w1, r).payments != [];
    assert caller !in w2.workers && AccountOf(w2, r).payments != [] && Payable(ledger, w2.desk.refunds, r);
    hide Next;
    PaidAndPayable(ledger, w2, r, caller);
    TwiceLater(ledger, w1, WriteReply(caller), r, Unattended);
  }

  /** With the attempts used up it takes one retry of the FAILED row, which no check forbids. */
  lemma FalseRefusalAndRetry(ledger: Ledger, w: World, r: nat, caller: nat)
    requires r < |w.desk.refunds| && !PaidByHand(ledger, w.desk.refunds[r].order)
    requires caller in w.workers && w.workers[caller].Calling? && w.workers[caller].refund == r
    ensures CanPayTwice(ledger, Next(ledger, w, GatewayAnswers(caller, Refused, true)), r, SafePayouts)
  {
    var w1 := Next(ledger, w, GatewayAnswers(caller, Refused, true));
    var w2 := Next(ledger, w1, WriteReply(caller));
    assert AccountOf(w1, r).payments != [];
    assert caller !in w2.workers && w2.desk.refunds[r].status == Failed && AccountOf(w2, r).payments != [];
    var w3 := Next(ledger, w2, RetryPayout(r));
    assert Payable(ledger, w3.desk.refunds, r) && caller !in w3.workers && AccountOf(w3, r).payments != [];
    hide Next;
    PaidAndPayable(ledger, w3, r, caller);
    SafelyTwice(ledger, w3, r);
    hide CanPayTwice;
    TwiceLater(ledger, w2, RetryPayout(r), r, SafePayouts);
    TwiceLater(ledger, w1, WriteReply(caller), r, SafePayouts);
  }

  /** The exact condition of a refusal: no continuation pays twice if and only if the gateway did not pay. */
  lemma RefusalIsSafeIff(ledger: Ledger, w: World, r: nat, caller: nat, paid: bool)
    requires Careful(w) && r < |w.desk.refunds| && !PaidByHand(ledger, w.desk.refunds[r].order)
    requires caller in w.workers && w.workers[caller].Calling? && w.workers[caller].refund == r
    ensures !CanPayTwice(ledger, Next(ledger, w, GatewayAnswers(caller, Refused, paid)), r, SafePayouts) <==> !paid
  {
    hide CanPayTwice;
    if paid {
      hide Next;
      FalseRefusalAndRetry(ledger, w, r, caller);
    } else {
      GatewayIsCareful(w, caller, Refused, false);
      CarefulNeverPaysTwice(ledger, Next(ledger, w, GatewayAnswers(caller, Refused, false)), r);
    }
  }
}
