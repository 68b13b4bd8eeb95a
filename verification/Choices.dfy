/** What becomes of a chosen reward: one coupon or one immediate reward per grant, and each is used once. */
module Choices {
  import opened Common
  import opened LedgerModel
  import opened LedgerSteps
  import opened Conservation
  import opened Rewards

  predicate Waiting(r: Redemption, a: Account) {
    r.grant.account == a && r.order.None?
  }

  /** An order consumes exactly one waiting immediate reward of its account, the oldest, and only if there is one. */
  lemma {:induction false} ConsumeOldestMeaning(rs: seq<Redemption>, a: Account, order: Id) returns (k: nat)
    ensures var r := ConsumeOldest(rs, a, order);
            && k <= |rs| && (forall i :: 0 <= i < k ==> !Waiting(rs[i], a))
            && (k == |rs| ==> r == Consumed(rs, None))
            && (k < |rs| ==>
                  && Waiting(rs[k], a)
                  && r == Consumed(rs[k := rs[k].(order := Some(order))], Some(rs[k].grant)))
  {
    if rs == [] || Waiting(rs[0], a) {
      k := 0;
    } else {
      var later := rs[1..];
      var j := ConsumeOldestMeaning(later, a, order);
      k := j + 1;
      assert forall i :: 0 < i < |rs| ==> rs[i] == later[i - 1];
      if j < |later| {
        var consumed := later[j].(order := Some(order));
        assert [rs[0]] + later[j := consumed] == rs[k := consumed];
      }
    }
  }

  lemma ConsumeKeepsOthers(rs: seq<Redemption>, a: Account, order: Id)
    ensures var rs' := ConsumeOldest(rs, a, order).redemptions;
            && |rs'| == |rs| && (forall g :: Redeems(rs', g) <==> Redeems(rs, g))
            && (forall i :: 0 <= i < |rs| ==>
                  rs'[i] == rs[i] || (Waiting(rs[i], a) && rs'[i] == rs[i].(order := Some(order))))
  {
    var rs' := ConsumeOldest(rs, a, order).redemptions;
    var k := ConsumeOldestMeaning(rs, a, order);
    forall g ensures Redeems(rs', g) <==> Redeems(rs, g) {
      assert forall i :: 0 <= i < |rs| ==> rs'[i].grant == rs[i].grant;
    }
  }

  /**
   * Immediate rewards come one per grant, from fulfilled grants without a coupon, and go to their customer's own
   * orders.
   */
  ghost predicate RedemptionsOk(orders: map<Id, Order>, grants: map<GrantKey, GrantStatus>,
                                coupons: map<GrantKey, Coupon>, rs: seq<Redemption>) {
    && (forall i, j :: 0 <= i < j < |rs| ==> rs[i].grant != rs[j].grant)
    && (forall i :: 0 <= i < |rs| ==>
          && rs[i].grant in grants && grants[rs[i].grant] == Fulfilled && rs[i].grant !in coupons
          && OrderBelongs(orders, rs[i].order, rs[i].grant.account))
  }

  /** Coupons come from fulfilled grants, and every fulfilled grant became something. */
  ghost predicate FulfilledOk(grants: map<GrantKey, GrantStatus>, coupons: map<GrantKey, Coupon>, rs: seq<Redemption>) {
    && (forall g :: g in coupons ==> g in grants && grants[g] == Fulfilled)
    && (forall g :: g in grants && grants[g] == Fulfilled ==> g in coupons || Redeems(rs, g))
  }

  ghost predicate ChoicesInv(s: State) {
    RedemptionsOk(s.orders, s.grants, s.coupons, s.redemptions) && FulfilledOk(s.grants, s.coupons, s.redemptions)
  }

  /** Immediate rewards stay where they are, and a consumed one stays with its order. */
  predicate Keeps(s: State, s': State) {
    && |s.redemptions| <= |s'.redemptions|
    && (forall i :: 0 <= i < |s.redemptions| ==>
          && s'.redemptions[i].grant == s.redemptions[i].grant && s'.redemptions[i].benefit == s.redemptions[i].benefit
          && (s.redemptions[i].order.Some? ==> s'.redemptions[i].order == s.redemptions[i].order))
  }

  /** What an order does to the tables of choices. */
  lemma CommitChanges(c: Catalog, s: State, now: Time, req: OrderRequest, key: Option<string>, id: Id, a: Account)
    requires c.Valid() && a.store in s.stores
    ensures var s' := CommitOrder(c, s, now, req, key, id, a).state;
            && s'.coupons == s.coupons && s'.redemptions == ConsumeOldest(s.redemptions, a, id).redemptions
            && s'.orders.Keys == s.orders.Keys + {id} && s'.orders[id].account == a
            && (forall o :: o in s.orders && o != id ==> s'.orders[o] == s.orders[o])
            && (forall g :: g in s.grants ==> g in s'.grants && s'.grants[g] == s.grants[g])
            && (forall g :: g in s'.grants && g !in s.grants ==> s'.grants[g] == AwaitingChoice)
  {
    hide EvaluateGrants, ConsumeOldest, OrderMinutes, PassAfterOrder, Remember, Deposit, Reached;
    EvaluateGrantsMeaning(c, |c.tiers|, a, BalanceOf(s, a) + req.total, s.grants);
    assert c.tiers[..|c.tiers|] == c.tiers;
  }

  lemma CommitKeepsChoices(c: Catalog, s: State, now: Time, req: OrderRequest, key: Option<string>, id: Id, a: Account)
    requires c.Valid() && ChoicesInv(s) && a.store in s.stores && id !in s.orders
    ensures var s' := CommitOrder(c, s, now, req, key, id, a).state; ChoicesInv(s') && Keeps(s, s')
  {
    hide CommitOrder, ConsumeOldest, Redeems;
    CommitChanges(c, s, now, req, key, id, a);
    ConsumeKeepsOthers(s.redemptions, a, id);
  }

  /** What a refund leaves of the tables of choices. */
  lemma RefundChanges(c: Catalog, s: State, now: Time, id: Id, req: RefundRequest, key: Option<string>, amount: int)
    requires id in s.orders
    ensures var s' := CommitRefund(c, s, now, id, req, key, amount).state;
            && s'.redemptions == s.redemptions && s'.coupons.Keys == s.coupons.Keys && s'.grants.Keys == s.grants.Keys
            && (forall g :: g in s.grants ==> (s'.grants[g] == Fulfilled <==> s.grants[g] == Fulfilled))
            && s'.orders.Keys == s.orders.Keys
            && (forall o :: o in s.orders ==> s'.orders[o].account == s.orders[o].account)
  {
    hide MinutesToReclaim, Remember, Withdraw, OutOfReach, TiersLost;
  }

  lemma RefundKeepsChoices(c: Catalog, s: State, now: Time, id: Id, req: RefundRequest, key: Option<string>,
                           amount: int)
    requires ChoicesInv(s) && id in s.orders
    ensures var s' := CommitRefund(c, s, now, id, req, key, amount).state; ChoicesInv(s') && Keeps(s, s')
  {
    hide CommitRefund, Redeems;
    RefundChanges(c, s, now, id, req, key, amount);
  }

  lemma TakeCoupon(orders: map<Id, Order>, grants: map<GrantKey, GrantStatus>, coupons: map<GrantKey, Coupon>,
                   rs: seq<Redemption>,
                   g: GrantKey, coupon: Coupon)
    requires RedemptionsOk(orders, grants, coupons, rs) && FulfilledOk(grants, coupons, rs)
    requires g in grants && grants[g] == AwaitingChoice
    ensures RedemptionsOk(orders, grants[g := Fulfilled], coupons[g := coupon], rs)
    ensures FulfilledOk(grants[g := Fulfilled], coupons[g := coupon], rs)
  {
  }

  lemma TakeReward(orders: map<Id, Order>, grants: map<GrantKey, GrantStatus>, coupons: map<GrantKey, Coupon>,
                   rs: seq<Redemption>,
                   r: Redemption)
    requires RedemptionsOk(orders, grants, coupons, rs) && FulfilledOk(grants, coupons, rs)
    requires r.grant in grants && grants[r.grant] == AwaitingChoice && OrderBelongs(orders, r.order, r.grant.account)
    ensures RedemptionsOk(orders, grants[r.grant := Fulfilled], coupons, rs + [r])
    ensures FulfilledOk(grants[r.grant := Fulfilled], coupons, rs + [r])
  {
    var rs' := rs + [r];
    forall h | Redeems(rs, h) || h == r.grant ensures Redeems(rs', h) {
      var i := if h == r.grant then |rs| else var i :| 0 <= i < |rs| && rs[i].grant == h; i;
      assert rs'[i].grant == h;
    }
  }

  lemma ChooseKeepsChoices(c: Catalog, s: State, now: Time, claims: Claims, g: GrantKey, benefit: Id, asCoupon: bool,
                           order: Option<Id>)
    requires ChoicesInv(s)
    ensures var s' := ChooseReward(c, s, now, claims, g, benefit, asCoupon, order).state; ChoicesInv(s') && Keeps(s, s')
  {
    hide Redeems, RedemptionsOk, FulfilledOk, ChooseRefusal, AddDayPass, IsDayPass;
    var r := ChooseReward(c, s, now, claims, g, benefit, asCoupon, order);
    if r.outcome.Done? {
      if asCoupon {
        TakeCoupon(s.orders, s.grants, s.coupons, s.redemptions, g, r.state.coupons[g]);
      } else {
        TakeReward(s.orders, s.grants, s.coupons, s.redemptions, Redemption(g, benefit, order));
      }
    }
  }

  lemma StepKeepsChoices(c: Catalog, s: State, step: Step)
    requires c.Valid() && ChoicesInv(s)
    ensures ChoicesInv(Next(c, s, step)) && Keeps(s, Next(c, s, step))
  {
    hide OrderAnswer, RefundAnswer, CommitOrder, CommitRefund, ChooseReward, RedeemCoupon, ListCoupons, ActivatePass,
         ExtendPass, ExpirePass, BlockPass, ExpireDuePasses, Redeems;
    match step
    case CreateOrderStep(now, order, key, id) =>
      if OrderAnswer(c, s, order, key, id).None? {
        CommitKeepsChoices(c, s, now, order, key, id, OrderAccount(s.stores[order.store], order));
      }
    case RefundStep(now, id, refund, key, networkUp) =>
      if RefundAnswer(s, now, id, refund, key, networkUp).None? {
        RefundKeepsChoices(c, s, now, id, refund, key, RefundAmount(s.orders[id], refund));
      }
    case ChooseStep(now, claims, g, benefit, asCoupon, current) =>
      ChooseKeepsChoices(c, s, now, claims, g, benefit, asCoupon, current);
    case _ =>
      OthersLeaveMoney(c, s, step);
      CouponsOnlyUsedUp(c, s, step);
  }

  /** In every reachable state each fulfilled grant became exactly one coupon or one immediate reward. */
  lemma {:induction false} ChoicesSettled(c: Catalog, s: State, run: seq<Step>)
    requires c.Valid() && Initial(s)
    ensures ChoicesInv(Exec(c, s, run))
  {
    if run != [] {
      ChoicesSettled(c, s, run[..|run| - 1]);
      StepKeepsChoices(c, Exec(c, s, run[..|run| - 1]), run[|run| - 1]);
    }
  }

  /** Whatever happens later, refunds of the order included, a consumed reward is never free again. */
  lemma {:induction false} ConsumedStays(c: Catalog, s: State, first: seq<Step>, later: seq<Step>)
    requires c.Valid() && Initial(s)
    ensures Keeps(Exec(c, s, first), Exec(c, s, first + later))
    decreases |later|
  {
    if later == [] {
      assert first + later == first;
    } else {
      var before := later[..|later| - 1];
      assert (first + later)[..|first + later| - 1] == first + before;
      ConsumedStays(c, s, first, before);
      ChoicesSettled(c, s, first + before);
      StepKeepsChoices(c, Exec(c, s, first + before), later[|later| - 1]);
    }
  }

  // ---------- Coupons ----------

  /** Coupons are never deleted, their last day is fixed, and once used up they stay as they are. */
  ghost predicate CouponsKept(s: State, s': State) {
    forall g :: g in s.coupons ==>
      && g in s'.coupons && s'.coupons[g].expiresAt == s.coupons[g].expiresAt
      && s'.coupons[g].benefit == s.coupons[g].benefit
      && (s.coupons[g].status != Available ==> s'.coupons[g] == s.coupons[g])
  }

  /** The coupon is used with this step. */
  predicate Uses(c: Catalog, s: State, step: Step, g: GrantKey) {
    step.RedeemStep? && step.grant == g && Apply(c, s, step).outcome.Done?
  }

  function TimesUsed(c: Catalog, s: State, run: seq<Step>, g: GrantKey): nat {
    if run == [] then 0
    else
      var before := run[..|run| - 1];
      TimesUsed(c, s, before, g) + if Uses(c, Exec(c, s, before), run[|run| - 1], g) then 1 else 0
  }

  function UsedUp(s: State, g: GrantKey): nat {
    if g in s.coupons && s.coupons[g].status == Redeemed then 1 else 0
  }

  lemma RefundKeepsCoupons(c: Catalog, s: State, now: Time, id: Id, req: RefundRequest, key: Option<string>,
                           amount: int)
    requires id in s.orders
    ensures CouponsKept(s, CommitRefund(c, s, now, id, req, key, amount).state)
    ensures forall g :: UsedUp(CommitRefund(c, s, now, id, req, key, amount).state, g) == UsedUp(s, g)
  {
    hide GrantsAfterRefund, OutOfReach, MinutesToReclaim, Remember, Withdraw;
  }

  lemma ChooseAddsCoupon(c: Catalog, s: State, now: Time, claims: Claims, g: GrantKey, benefit: Id, asCoupon: bool,
                         order: Option<Id>)
    ensures var coupons := ChooseReward(c, s, now, claims, g, benefit, asCoupon, order).state.coupons;
            || coupons == s.coupons
            || (g !in s.coupons && coupons == s.coupons[g := Coupon(benefit, Available, now + 7 * DAY)])
  {
    hide ChooseRefusal, AddDayPass, IsDayPass;
  }

  lemma RedeemKeepsCoupons(s: State, now: Time, claims: Claims, h: GrantKey, g: GrantKey)
    ensures var r := RedeemCoupon(s, now, claims, h);
            CouponsKept(s, r.state) && UsedUp(r.state, g) == UsedUp(s, g) + if h == g && r.outcome.Done? then 1 else 0
  {
    hide RedeemCoupon;
    RedeemWrites(s, now, claims, h);
  }

  lemma OrderKeepsCoupons(c: Catalog, s: State, now: Time, req: OrderRequest, key: Option<string>, id: Id)
    ensures CreateOrder(c, s, now, req, key, id).state.coupons == s.coupons
  {
    hide OrderAnswer, OrderMinutes, PassAfterOrder, EvaluateGrants, ConsumeOldest, Remember, Deposit;
  }

  lemma ListKeepsCoupons(s: State, now: Time, claims: Claims, g: GrantKey)
    ensures var s' := ListCoupons(s, now, claims).state; CouponsKept(s, s') && UsedUp(s', g) == UsedUp(s, g)
  {
    hide Owns;
  }

  lemma OthersLeaveCoupons(c: Catalog, s: State, step: Step)
    requires !MovesMoney(step) && !step.ChooseStep? && !step.RedeemStep? && !step.ListCouponsStep?
    ensures Next(c, s, step).coupons == s.coupons
  {
    hide CreateOrder, RefundOrder, ChooseReward, RedeemCoupon, ListCoupons, ActivatePass, ExtendPass, ExpirePass,
         BlockPass, ExpireDuePasses, PublishPolicy;
  }

  lemma StepKeepsCoupons(c: Catalog, s: State, step: Step, g: GrantKey)
    ensures CouponsKept(s, Next(c, s, step))
    ensures UsedUp(Next(c, s, step), g) == UsedUp(s, g) + if Uses(c, s, step, g) then 1 else 0
  {
    hide CreateOrder, RefundAnswer, CommitRefund, ChooseReward, RedeemCoupon, ListCoupons, ActivatePass, ExtendPass,
         ExpirePass, BlockPass, ExpireDuePasses, PublishPolicy;
    match step
    case CreateOrderStep(now, order, key, id) => OrderKeepsCoupons(c, s, now, order, key, id);
    case RefundStep(now, id, refund, key, networkUp) =>
      if RefundAnswer(s, now, id, refund, key, networkUp).None? {
        RefundKeepsCoupons(c, s, now, id, refund, key, RefundAmount(s.orders[id], refund));
      }
    case ChooseStep(now, claims, h, benefit, asCoupon, current) =>
      ChooseAddsCoupon(c, s, now, claims, h, benefit, asCoupon, current);
    case RedeemStep(now, claims, h) => RedeemKeepsCoupons(s, now, claims, h, g);
    case ListCouponsStep(now, claims) => ListKeepsCoupons(s, now, claims, g);
    case _ => OthersLeaveCoupons(c, s, step);
  }

  /** A coupon is used at most once. */
  lemma {:induction false} CouponUsedOnce(c: Catalog, s: State, run: seq<Step>, g: GrantKey)
    requires Initial(s)
    ensures TimesUsed(c, s, run, g) == UsedUp(Exec(c, s, run), g) <= 1
  {
    hide Uses, Apply;
    if run != [] {
      CouponUsedOnce(c, s, run[..|run| - 1], g);
      StepKeepsCoupons(c, Exec(c, s, run[..|run| - 1]), run[|run| - 1], g);
    }
  }

  /** It is used by its owner, in time, and only while the balance still covers it. */
  lemma CouponUsedInTime(c: Catalog, s: State, run: seq<Step>, step: Step, g: GrantKey)
    requires c.Valid() && Initial(s) && Uses(c, Exec(c, s, run), step, g)
    ensures var t := Exec(c, s, run);
            && g in t.coupons && step.now < t.coupons[g].expiresAt
            && Reached(c, g.account, g.tier, BalanceOf(t, g.account))
            && step.claims == Claims(g.account.store, g.account.customer)
  {
    hide Exec, FindTier;
    UnusedRewardsCovered(c, s, run);
  }
}
