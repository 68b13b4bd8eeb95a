/**
 * When a choice of a reward is accepted and what it brings, and what becomes of coupons (app/routers/public.py,
 * app/services/rewards.py).
 */
module RewardEffects {
  import opened Common
  import opened BusinessDay
  import opened WifiPass
  import opened LedgerModel
  import opened LedgerSteps
  import opened Conservation
  import opened Choices
  import opened OrderEffects

  // ---------- Choosing ----------

  predicate Mine(claims: Claims, g: GrantKey) {
    claims == Claims(g.account.store, g.account.customer)
  }

  predicate OfTier(c: Catalog, benefit: Id, tier: Id) {
    benefit in c.benefits && c.benefits[benefit].tier == tier
  }

  predicate Live(p: Pass) {
    p.status.Issued? || p.status.Activating? || p.status.Active? || p.status.ExpiringSoon?
  }

  /** The choice is taken at once and is Wi-Fi for the rest of the business day. */
  predicate TakesDayPass(c: Catalog, benefit: Id, asCoupon: bool) {
    benefit in c.benefits && c.benefits[benefit].dayPass && !asCoupon
  }

  /** The order a choice is for, if any, was placed by the same customer in the same store. */
  predicate OwnOrder(s: State, order: Option<Id>, a: Account) {
    order.None? || (order.value in s.orders && s.orders[order.value].account.store == a.store
                    && s.orders[order.value].account.customer == a.customer)
  }

  /** What the store asks of a choice. */
  predicate MayChoose(c: Catalog, s: State, claims: Claims, g: GrantKey, benefit: Id, asCoupon: bool,
                      order: Option<Id>) {
    && Mine(claims, g) && g in s.grants && s.grants[g] == AwaitingChoice
    && OfTier(c, benefit, g.tier)
    && OwnOrder(s, order, g.account)
    && (TakesDayPass(c, benefit, asCoupon) ==>
          g.account.store in s.stores && g.account in s.passes && Live(s.passes[g.account]))
  }

  /** No grant that still waits was turned into anything before. */
  lemma NothingChosenYet(s: State, g: GrantKey)
    requires ChoicesInv(s) && g in s.grants && s.grants[g] == AwaitingChoice
    ensures g !in s.coupons && !Redeems(s.redemptions, g)
  {
  }

  lemma MayChooseIff(c: Catalog, s: State, claims: Claims, g: GrantKey, benefit: Id, asCoupon: bool, order: Option<Id>)
    requires ChoicesInv(s)
    ensures ChooseRefusal(c, s, claims, g, benefit, asCoupon, order).None?
            <==> MayChoose(c, s, claims, g, benefit, asCoupon, order)
  {
    hide ChoicesInv, Redeems;
    if g in s.grants && s.grants[g] == AwaitingChoice {
      NothingChosenYet(s, g);
    }
  }

  /**
   * In every reachable state a choice is accepted if and only if the customer's own grant still waits, the benefit is
   * one of the grant's tier, the order is the customer's, and a day pass finds a live pass. Nothing changes otherwise.
   */
  lemma ChoiceAcceptedIff(c: Catalog, s: State, run: seq<Step>, now: Time, claims: Claims, g: GrantKey, benefit: Id,
                          asCoupon: bool, order: Option<Id>)
    requires c.Valid() && Initial(s)
    ensures var t := Exec(c, s, run);
            var r := Apply(c, t, ChooseStep(now, claims, g, benefit, asCoupon, order));
            && (r.outcome.Done? <==> MayChoose(c, t, claims, g, benefit, asCoupon, order))
            && (!r.outcome.Done? ==> r.state == t)
            && var found := g in t.grants && Mine(claims, g) && benefit in c.benefits && OwnOrder(t, order, g.account);
            && (r.outcome == Rejected(404) <==> !found)
            && (r.outcome == Rejected(422) <==>
                  && found && TakesDayPass(c, benefit, asCoupon)
                  && !(g.account.store in t.stores && g.account in t.passes))
            && (r.outcome.Done? || r.outcome.code in {404, 409, 422})
  {
    hide Exec, ChoicesInv, MayChoose, Redeems;
    ChoicesSettled(c, s, run);
    MayChooseIff(c, Exec(c, s, run), claims, g, benefit, asCoupon, order);
  }

  /** The pass runs until the business day closes, unless it runs longer anyway. */
  predicate UntilClose(p: Pass, q: Pass, close: Time) {
    && p.expiresAt <= q.expiresAt && close <= q.expiresAt && (q.expiresAt == p.expiresAt || q.expiresAt == close)
    && q == p.(expiresAt := q.expiresAt, version := p.version + 1)
  }

  /**
   * An accepted choice fulfils the grant and no other, and gives the benefit chosen: as a coupon for a week, or at
   * once, for the order it names or for the next one; a day pass reaches to the close of the business day.
   */
  lemma ChoiceEffect(c: Catalog, s: State, now: Time, claims: Claims, g: GrantKey, benefit: Id, asCoupon: bool,
                     order: Option<Id>)
    requires ChoicesInv(s) && MayChoose(c, s, claims, g, benefit, asCoupon, order)
    ensures var r, a := Apply(c, s, ChooseStep(now, claims, g, benefit, asCoupon, order)), g.account;
            && r.outcome == Done(200, RewardChosen(g, benefit, asCoupon))
            && r.state.grants == s.grants[g := Fulfilled]
            && (if asCoupon then
                  && g !in s.coupons && r.state.redemptions == s.redemptions
                  && r.state.coupons == s.coupons[g := Coupon(benefit, Available, now + 7 * 24 * 60 * 60 * SECOND)]
                else
                  && r.state.coupons == s.coupons
                  && r.state.redemptions == s.redemptions + [Redemption(g, benefit, order)])
            && (if TakesDayPass(c, benefit, asCoupon) then
                  && a in r.state.passes && OnlyPass(s.passes, r.state.passes, a)
                  && UntilClose(s.passes[a], r.state.passes[a], BusinessDayEnd(a.day, s.stores[a.store].clock))
                else r.state.passes == s.passes)
            && r.state.orders == s.orders && r.state.balances == s.balances && r.state.stores == s.stores
            && r.state.calls == s.calls && r.state.records == s.records
  {
    hide ChoicesInv, MayChoose, BusinessDayEnd, Redeems, ChooseRefusal;
    MayChooseIff(c, s, claims, g, benefit, asCoupon, order);
    NothingChosenYet(s, g) by { WaitsForIt(c, s, claims, g, benefit, asCoupon, order); }
  }

  lemma WaitsForIt(c: Catalog, s: State, claims: Claims, g: GrantKey, benefit: Id, asCoupon: bool, order: Option<Id>)
    requires MayChoose(c, s, claims, g, benefit, asCoupon, order)
    ensures g in s.grants && s.grants[g] == AwaitingChoice
  {
  }

  // ---------- What was chosen ----------

  /** Coupons and immediate rewards bring a benefit of their grant's own tier. */
  ghost predicate BenefitsInv(c: Catalog, s: State) {
    && (forall g :: g in s.coupons ==> OfTier(c, s.coupons[g].benefit, g.tier))
    && (forall i :: 0 <= i < |s.redemptions| ==> OfTier(c, s.redemptions[i].benefit, s.redemptions[i].grant.tier))
  }

  lemma ChooseKeepsBenefits(c: Catalog, s: State, now: Time, claims: Claims, g: GrantKey, benefit: Id, asCoupon: bool,
                            order: Option<Id>)
    requires ChoicesInv(s) && BenefitsInv(c, s)
    ensures BenefitsInv(c, ChooseReward(c, s, now, claims, g, benefit, asCoupon, order).state)
  {
    hide ChoicesInv, IsDayPass, AddDayPass, Redeems;
    if ChooseRefusal(c, s, claims, g, benefit, asCoupon, order).None? {
      MayChooseIff(c, s, claims, g, benefit, asCoupon, order);
      hide ChooseRefusal;
      assert OfTier(c, benefit, g.tier);
    }
  }

  /** Only a choice makes a coupon or a reward; nothing else touches what they bring. */
  lemma OthersKeepBenefits(c: Catalog, s: State, step: Step)
    requires c.Valid() && ChoicesInv(s) && BenefitsInv(c, s) && !step.ChooseStep?
    ensures BenefitsInv(c, Next(c, s, step))
  {
    hide Next, ChoicesInv, OfTier;
    var s' := Next(c, s, step);
    NothingNew(c, s, step);
    StepKeepsChoices(c, s, step);
    forall g | g in s'.coupons ensures OfTier(c, s'.coupons[g].benefit, g.tier) {
      StepKeepsCoupons(c, s, step, g);
      assert g in s.coupons;
    }
  }

  lemma NothingNew(c: Catalog, s: State, step: Step)
    requires c.Valid() && !step.ChooseStep?
    ensures Next(c, s, step).coupons.Keys == s.coupons.Keys
    ensures |Next(c, s, step).redemptions| == |s.redemptions|
  {
    hide OrderAnswer, RefundAnswer, CommitOrder, CommitRefund;
    match step
    case CreateOrderStep(now, order, key, id) =>
      if OrderAnswer(c, s, order, key, id).None? {
        CommitChanges(c, s, now, order, key, id, OrderAccount(s.stores[order.store], order));
        ConsumeKeepsOthers(s.redemptions, OrderAccount(s.stores[order.store], order), id);
      }
    case RefundStep(now, id, refund, key, networkUp) =>
      if RefundAnswer(s, now, id, refund, key, networkUp).None? {
        RefundChanges(c, s, now, id, refund, key, RefundAmount(s.orders[id], refund));
      }
    case _ =>
      hide Next;
      NothingNewElsewhere(c, s, step);
  }

  lemma NothingNewElsewhere(c: Catalog, s: State, step: Step)
    requires !MovesMoney(step) && !step.ChooseStep?
    ensures Next(c, s, step).coupons.Keys == s.coupons.Keys && Next(c, s, step).redemptions == s.redemptions
  {
    hide CreateOrder, RefundOrder, ChooseReward, RedeemCoupon, ListCoupons, ActivatePass, ExtendPass, ExpirePass,
         BlockPass, ExpireDuePasses, PublishPolicy;
    if step.Aborted? {
      hide Next;
      AbortKeepsTables(c, s, step.request);
    }
  }

  /** In every reachable state a coupon or an immediate reward brings a benefit of the very tier that was reached. */
  lemma {:induction false} BenefitsOfOwnTier(c: Catalog, s: State, run: seq<Step>)
    requires c.Valid() && Initial(s)
    ensures BenefitsInv(c, Exec(c, s, run))
  {
    if run != [] {
      hide Next, BenefitsInv, ChoicesInv;
      var before, step := Exec(c, s, run[..|run| - 1]), run[|run| - 1];
      BenefitsOfOwnTier(c, s, run[..|run| - 1]);
      ChoicesSettled(c, s, run[..|run| - 1]);
      if step.ChooseStep? {
        ChooseStepKeepsBenefits(c, before, step);
      } else {
        OthersKeepBenefits(c, before, step);
      }
    }
  }

  lemma ChooseStepKeepsBenefits(c: Catalog, s: State, step: Step)
    requires ChoicesInv(s) && BenefitsInv(c, s) && step.ChooseStep?
    ensures BenefitsInv(c, Next(c, s, step))
  {
    hide ChoicesInv, BenefitsInv, ChooseReward;
    ChooseKeepsBenefits(c, s, step.now, step.claims, step.grant, step.benefit, step.asCoupon, step.current);
  }

  // ---------- Using coupons ----------

  predicate MayRedeem(s: State, now: Time, claims: Claims, g: GrantKey) {
    g in s.coupons && Mine(claims, g) && s.coupons[g].status == Available && now < s.coupons[g].expiresAt
  }

  /** One coupon got another status. */
  predicate OnlyCoupon(s: State, s': State, g: GrantKey, status: CouponStatus) {
    g in s.coupons && s' == s.(coupons := s.coupons[g := s.coupons[g].(status := status)])
  }

  /**
   * A coupon is used if and only if it is the customer's, unused and not past its date, and the answer names what it
   * brings. One that is past its date is marked so; in all other cases nothing changes.
   */
  lemma RedeemIff(c: Catalog, s: State, now: Time, claims: Claims, g: GrantKey)
    ensures var r := Apply(c, s, RedeemStep(now, claims, g));
            var mine := g in s.coupons && Mine(claims, g);
            && (r.outcome.Done? <==> MayRedeem(s, now, claims, g))
            && (r.outcome.Done? ==>
                  OnlyCoupon(s, r.state, g, Redeemed) && r.outcome == Done(200, CouponUsed(g, s.coupons[g].benefit)))
            && (r.outcome == Rejected(404) <==> !mine)
            && (r.outcome == Rejected(409) <==> mine && s.coupons[g].status != Available)
            && (r.outcome.Done? || r.outcome.code in {404, 409, 410})
            && (r.outcome == Rejected(410) ==> OnlyCoupon(s, r.state, g, CouponExpired))
            && (r.outcome == Rejected(404) || r.outcome == Rejected(409) ==> r.state == s)
  {
  }

  /** Opening the coupon box marks the customer's unused coupons that are past their date, and changes nothing else. */
  lemma ListEffect(c: Catalog, s: State, now: Time, claims: Claims)
    ensures var s' := Next(c, s, ListCouponsStep(now, claims));
            && s'.coupons.Keys == s.coupons.Keys
            && (forall g :: g in s.coupons ==>
                  if Mine(claims, g) && s.coupons[g].status == Available && s.coupons[g].expiresAt <= now
                  then s'.coupons[g] == s.coupons[g].(status := CouponExpired)
                  else s'.coupons[g] == s.coupons[g])
            && s' == s.(coupons := s'.coupons)
  {
  }
}
