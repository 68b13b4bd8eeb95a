/** Where the expiry of a pass comes from: an account of every minute ordered, refunded and added by hand. */
module ExpiryAccount {
  import opened Common
  import opened BusinessDay
  import opened Proration
  import opened WifiPass
  import opened LedgerModel
  import opened LedgerSteps
  import opened Conservation

  /** The minutes an order still stands for. */
  function Credit(o: Order): int {
    o.wifiMinutes - Prorated(o.wifiMinutes, o.total, o.refunded)
  }

  ghost function CreditOf(a: Account): (Id, Order) -> int {
    (id, o: Order) => if o.account == a then Credit(o) else 0
  }

  ghost function Earned(s: State, a: Account): int {
    Sum(s.orders, CreditOf(a))
  }

  /** The minutes an administrator adds to the pass with this step. */
  function Added(c: Catalog, s: State, step: Step, a: Account): int {
    if step.ExtendStep? && step.account == a && Apply(c, s, step).outcome.Done? then step.minutes else 0
  }

  function AddedByHand(c: Catalog, s: State, run: seq<Step>, a: Account): int {
    if run == [] then 0
    else
      var before := run[..|run| - 1];
      AddedByHand(c, s, before, a) + Added(c, Exec(c, s, before), run[|run| - 1], a)
  }

  /** How far the pass outlasts its issue time plus the minutes accounted for. */
  ghost function Slack(s: State, a: Account, added: int): int {
    (if a in s.passes then s.passes[a].expiresAt - s.passes[a].issuedAt else 0) - (Earned(s, a) + added) * MINUTE
  }

  /**
   * The step finds the pass alive, or does not touch its expiry: orders and extensions come before it expires, refunds
   * leave it some time or end it to the minute, and a day pass does not reach past its expiry.
   */
  predicate Punctual(c: Catalog, s: State, step: Step, a: Account) {
    a in s.passes ==>
      var p := s.passes[a];
      match step
      case CreateOrderStep(now, order, key, id) =>
        OrderAnswer(c, s, order, key, id).None? && OrderAccount(s.stores[order.store], order) == a ==>
            now <= p.expiresAt
      case RefundStep(now, id, refund, key, networkUp) =>
        RefundAnswer(s, now, id, refund, key, networkUp).None? && s.orders[id].account == a ==>
          Refundable(p, MinutesToReclaim(s.orders[id], RefundAmount(s.orders[id], refund)), now)
      case ChooseStep(now, claims, g, benefit, asCoupon, current) =>
        Apply(c, s, step).outcome.Done? && g.account == a && IsDayPass(c, benefit, asCoupon) ==>
          BusinessDayEnd(a.day, s.stores[a.store].clock) <= p.expiresAt
      case ExtendStep(now, admin, b, requested, minutes) =>
        Apply(c, s, step).outcome.Done? && b == a ==> now <= p.expiresAt
      case _ => true
  }

  predicate Refundable(p: Pass, minutes: int, now: Time) {
    minutes == 0 || (!Terminal(p.status) && now < p.expiresAt && now <= p.expiresAt - minutes * MINUTE)
  }

  /** Reclaiming never takes more than asked, and takes exactly that when the pass has it. */
  lemma ReclaimTakes(p: Pass, minutes: int, now: Time)
    requires 0 <= minutes
    ensures p.expiresAt - minutes * MINUTE <= Reclaim(p, minutes, now).pass.expiresAt
    ensures Reclaim(p, minutes, now).pass.expiresAt == p.expiresAt - minutes * MINUTE <==> Refundable(p, minutes, now)
    ensures Reclaim(p, minutes, now).pass.issuedAt == p.issuedAt
  {
  }

  lemma EarnedAfterOrder(c: Catalog, s: State, now: Time, req: OrderRequest, key: Option<string>, id: Id, b: Account,
                         a: Account)
    requires b.store in s.stores && id !in s.orders
    ensures Earned(CommitOrder(c, s, now, req, key, id, b).state, a)
            == Earned(s, a) + if a == b then OrderMinutes(s, b, req.total) else 0
  {
    hide EvaluateGrants, ConsumeOldest, Deposit, Remember, OrderMinutes, PassAfterOrder;
    var order := CommitOrder(c, s, now, req, key, id, b).state.orders[id];
    SumWrite(s.orders, CreditOf(a), id, order);
    assert Credit(order) == OrderMinutes(s, b, req.total);
  }

  lemma OrderSlack(c: Catalog, s: State, now: Time, req: OrderRequest, key: Option<string>, id: Id, b: Account,
                   a: Account,
                   added: int)
    requires b.store in s.stores && id !in s.orders
    ensures var s' := CommitOrder(c, s, now, req, key, id, b).state;
            && Slack(s, a, added) <= Slack(s', a, added)
            && (Slack(s, a, added) == Slack(s', a, added) <==>
                  (a == b && a in s.passes ==> now <= s.passes[a].expiresAt))
  {
    hide EvaluateGrants, ConsumeOldest, Deposit, Remember, OrderMinutes, Earned;
    EarnedAfterOrder(c, s, now, req, key, id, b, a);
  }

  /** What the order still stands for drops by the minutes to reclaim. */
  lemma EarnedAfterRefund(c: Catalog, s: State, now: Time, id: Id, req: RefundRequest, key: Option<string>,
                          amount: int, a: Account)
    requires id in s.orders && 0 < amount
    ensures var minutes := MinutesToReclaim(s.orders[id], amount);
            && 0 <= minutes
            && Earned(CommitRefund(c, s, now, id, req, key, amount).state, a)
               == Earned(s, a) - if s.orders[id].account == a then minutes else 0
  {
    hide GrantsAfterRefund, CouponsAfterRefund, TiersLost, Withdraw, Remember, Reclaim, Prorated;
    var o := s.orders[id];
    SumWrite(s.orders, CreditOf(a), id, RefundedOrder(o, amount));
    ProratedMonotone(o.wifiMinutes, o.total, o.refunded, o.refunded + amount);
  }

  lemma RefundSlack(c: Catalog, s: State, now: Time, id: Id, req: RefundRequest, key: Option<string>, amount: int,
                    a: Account, added: int)
    requires OrdersOk(s) && id in s.orders && 0 < amount
    ensures var s' := CommitRefund(c, s, now, id, req, key, amount).state;
            && Slack(s, a, added) <= Slack(s', a, added)
            && (Slack(s, a, added) == Slack(s', a, added) <==>
                  (s.orders[id].account == a && a in s.passes ==>
                      Refundable(s.passes[a], MinutesToReclaim(s.orders[id], amount), now)))
  {
    hide GrantsAfterRefund, CouponsAfterRefund, TiersLost, Withdraw, Remember, Reclaim, Refundable, MinutesToReclaim,
         Earned;
    var o := s.orders[id];
    EarnedAfterRefund(c, s, now, id, req, key, amount, a);
    ReclaimTakes(s.passes[o.account], MinutesToReclaim(o, amount), now);
  }

  lemma ChooseSlack(c: Catalog, s: State, now: Time, claims: Claims, g: GrantKey, benefit: Id, asCoupon: bool,
                    order: Option<Id>,
                    a: Account, added: int)
    ensures var r := ChooseReward(c, s, now, claims, g, benefit, asCoupon, order);
            && Slack(s, a, added) <= Slack(r.state, a, added)
            && (Slack(s, a, added) == Slack(r.state, a, added) <==>
                  (a in s.passes && r.outcome.Done? && g.account == a && IsDayPass(c, benefit, asCoupon) ==>
                     BusinessDayEnd(a.day, s.stores[a.store].clock) <= s.passes[a].expiresAt))
  {
    hide ChooseRefusal, BusinessDayEnd;
  }

  lemma SameOrdersSameEarned(s: State, s': State, a: Account)
    requires s'.orders == s.orders
    ensures Earned(s', a) == Earned(s, a)
  {
  }

  lemma ExtendSlack(s: State, now: Time, admin: Id, b: Account, requested: Option<Id>, minutes: int, a: Account,
                    added: int)
    ensures var r := ExtendPass(s, now, admin, b, requested, minutes);
            var added' := added + if b == a && r.outcome.Done? then minutes else 0;
            && Slack(s, a, added) <= Slack(r.state, a, added')
            && (Slack(s, a, added) == Slack(r.state, a, added') <==>
                  (r.outcome.Done? && b == a ==> now <= s.passes[a].expiresAt))
            && (r.outcome.Done? ==> b in s.passes)
  {
    hide ExtendPass, AdminAccess, Earned, Closed;
    ExtendWrites(s, now, admin, b, requested, minutes);
    var r := ExtendPass(s, now, admin, b, requested, minutes);
    assert Earned(r.state, a) == Earned(s, a) by { SameOrdersSameEarned(s, r.state, a); }
  }

  /** Activating, ending and expiring passes moves no expiry; using coupons and publishing policies touches no pass. */
  lemma OthersKeepExpiry(c: Catalog, s: State, step: Step, a: Account)
    requires !MovesMoney(step) && !step.ChooseStep? && !step.ExtendStep?
    requires a in s.passes
    ensures a in Next(c, s, step).passes && SameSpan(s.passes[a], Next(c, s, step).passes[a])
  {
    hide OrderAnswer, RefundAnswer, CommitOrder, CommitRefund, ChooseReward, ExtendPass, RedeemCoupon, ListCoupons,
         PublishPolicy, ActivatePass, ExpirePass, BlockPass, ExpireDuePasses;
  }

  lemma OthersSlack(c: Catalog, s: State, step: Step, a: Account, added: int)
    requires !MovesMoney(step) && !step.ChooseStep? && !step.ExtendStep?
    ensures Slack(Next(c, s, step), a, added) == Slack(s, a, added)
  {
    hide Next, Earned;
    OthersLeaveMoney(c, s, step);
    SameOrdersSameEarned(s, Next(c, s, step), a);
    if a in s.passes {
      OthersKeepExpiry(c, s, step, a);
    }
  }

  /** Every step leaves the pass at least the time accounted for, and exactly that when it is punctual. */
  lemma StepSlack(c: Catalog, s: State, step: Step, a: Account, added: int)
    requires OrdersOk(s)
    ensures var s', added' := Next(c, s, step), added + Added(c, s, step, a);
            && Slack(s, a, added) <= Slack(s', a, added')
            && (Slack(s, a, added) == Slack(s', a, added') <==> Punctual(c, s, step, a))
  {
    hide OrderAnswer, RefundAnswer, CommitOrder, CommitRefund, ChooseReward, RedeemCoupon, ListCoupons, ExtendPass,
         ActivatePass, ExpirePass, BlockPass, ExpireDuePasses, Refundable, MinutesToReclaim, PublishPolicy, Slack;
    match step
    case CreateOrderStep(now, order, key, id) =>
      if OrderAnswer(c, s, order, key, id).None? {
        OrderSlack(c, s, now, order, key, id, OrderAccount(s.stores[order.store], order), a, added);
      }
    case RefundStep(now, id, refund, key, networkUp) =>
      if RefundAnswer(s, now, id, refund, key, networkUp).None? {
        RefundSlack(c, s, now, id, refund, key, RefundAmount(s.orders[id], refund), a, added);
      }
    case ChooseStep(now, claims, g, benefit, asCoupon, current) =>
      ChooseSlack(c, s, now, claims, g, benefit, asCoupon, current, a, added);
    case ExtendStep(now, admin, b, requested, minutes) =>
      ExtendSlack(s, now, admin, b, requested, minutes, a, added);
    case _ => OthersSlack(c, s, step, a, added);
  }

  ghost predicate AllPunctual(c: Catalog, s: State, run: seq<Step>, a: Account) {
    forall i :: 0 <= i < |run| ==> Punctual(c, Exec(c, s, run[..i]), run[i], a)
  }

  lemma AllPunctualSplits(c: Catalog, s: State, run: seq<Step>, a: Account)
    requires run != []
    ensures var before := run[..|run| - 1];
            AllPunctual(c, s, run, a) <==>
              AllPunctual(c, s, before, a) && Punctual(c, Exec(c, s, before), run[|run| - 1], a)
  {
    hide Punctual, Exec;
    var before := run[..|run| - 1];
    assert forall i :: 0 <= i < |before| ==> run[..i] == before[..i] && run[i] == before[i];
    if AllPunctual(c, s, run, a) {
      assert Punctual(c, Exec(c, s, run[..|run| - 1]), run[|run| - 1], a);
    }
  }

  lemma StartsPunctual(c: Catalog, s: State, a: Account)
    requires Initial(s)
    ensures Slack(s, a, 0) == 0 && AllPunctual(c, s, [], a)
  {
  }

  /**
   * The account of a pass. After any run it expires no earlier than its issue time plus the minutes of its orders, less
   * what refunds reclaimed, plus what was added by hand; and it expires exactly then if and only if every step was
   * punctual.
   */
  lemma {:induction false} ExpiryAccounted(c: Catalog, s: State, run: seq<Step>, a: Account)
    requires Initial(s)
    ensures 0 <= Slack(Exec(c, s, run), a, AddedByHand(c, s, run, a))
    ensures Slack(Exec(c, s, run), a, AddedByHand(c, s, run, a)) == 0 <==> AllPunctual(c, s, run, a)
  {
    hide Punctual, Added, Apply, Slack, AllPunctual, BalancesMatch, DaysMatch, StoresOk, OrdersOk;
    if run == [] {
      StartsPunctual(c, s, a);
    } else {
      var before := run[..|run| - 1];
      ExpiryAccounted(c, s, before, a);
      AllPunctualSplits(c, s, run, a);
      MoneyConserved(c, s, before);
      StepSlack(c, Exec(c, s, before), run[|run| - 1], a, AddedByHand(c, s, before, a));
    }
  }
}
