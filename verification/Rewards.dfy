/** Reward grants, coupons and immediate rewards over whole runs, with the tiers fixed. */
module Rewards {
  import opened Common
  import opened LedgerModel
  import opened LedgerSteps
  import opened Conservation

  /** The tier exists in the account's store and a balance of `total` reaches it. */
  predicate Reached(c: Catalog, a: Account, tier: Id, total: int) {
    var t := FindTier(c.tiers, tier);
    t.Some? && t.value.store == a.store && t.value.threshold <= total
  }

  lemma {:induction false} FindTierFinds(tiers: seq<RewardTier>, id: Id)
    ensures FindTier(tiers, id).Some? ==> FindTier(tiers, id).value in tiers && FindTier(tiers, id).value.id == id
    ensures forall t :: t in tiers && t.id == id ==> FindTier(tiers, id).Some?
  {
    if tiers != [] {
      var front, last := tiers[..|tiers| - 1], tiers[|tiers| - 1];
      FindTierFinds(front, id);
      assert tiers == front + [last];
    }
  }

  /** What is reported as earned are the new grants, each once. */
  ghost predicate EarnsEach(a: Account, grants: map<GrantKey, GrantStatus>, e: Evaluated) {
    && (forall id :: id in e.earned <==> GrantKey(a, id) in e.grants && GrantKey(a, id) !in grants)
    && (forall i, j :: 0 <= i < j < |e.earned| ==> e.earned[i] != e.earned[j])
  }

  lemma EarnsOneMore(a: Account, grants: map<GrantKey, GrantStatus>, e: Evaluated, id: Id)
    requires EarnsEach(a, grants, e) && GrantKey(a, id) !in e.grants && grants.Keys <= e.grants.Keys
    ensures EarnsEach(a, grants, Evaluated(e.grants[GrantKey(a, id) := AwaitingChoice], e.earned + [id]))
  {
  }

  /** With distinct tiers, the evaluation loop earns exactly the reached tiers that had no grant, each once. */
  lemma {:induction false} EvaluateGrantsMeaning(c: Catalog, n: nat, a: Account, total: int,
                                                 grants: map<GrantKey, GrantStatus>)
    requires c.Valid() && n <= |c.tiers|
    ensures var e := EvaluateGrants(c.tiers[..n], a, total, grants);
            && (forall g :: g in grants ==> g in e.grants && e.grants[g] == grants[g])
            && (forall g :: g in e.grants && g !in grants ==>
                  g.account == a && e.grants[g] == AwaitingChoice && Reached(c, a, g.tier, total))
            && (forall i :: 0 <= i < n && c.tiers[i].store == a.store && c.tiers[i].threshold <= total ==>
                  GrantKey(a, c.tiers[i].id) in e.grants)
            && EarnsEach(a, grants, e)
  {
    if n > 0 {
      hide EvaluateGrants, FindTier, Reached, Catalog.Valid, EarnsEach;
      EvaluateGrantsMeaning(c, n - 1, a, total, grants);
      OneTier(c, n - 1, a, total, grants);
      TierReached(c, n - 1, a, total);
      var e, t := EvaluateGrants(c.tiers[..n - 1], a, total, grants), c.tiers[n - 1];
      if t.store == a.store && t.threshold <= total && GrantKey(a, t.id) !in e.grants {
        EarnsOneMore(a, grants, e, t.id);
      }
    } else {
      assert c.tiers[..0] == [];
    }
  }

  /** Looking at one more tier. */
  lemma OneTier(c: Catalog, n: nat, a: Account, total: int, grants: map<GrantKey, GrantStatus>)
    requires n < |c.tiers|
    ensures var e, t := EvaluateGrants(c.tiers[..n], a, total, grants), c.tiers[n];
            EvaluateGrants(c.tiers[..n + 1], a, total, grants)
            == if t.store == a.store && t.threshold <= total && GrantKey(a, t.id) !in e.grants
               then Evaluated(e.grants[GrantKey(a, t.id) := AwaitingChoice], e.earned + [t.id]) else e
  {
    assert c.tiers[..n + 1][..n] == c.tiers[..n];
  }

  lemma TierReached(c: Catalog, n: nat, a: Account, total: int)
    requires c.Valid() && n < |c.tiers|
    ensures Reached(c, a, c.tiers[n].id, total) <==> c.tiers[n].store == a.store && c.tiers[n].threshold <= total
  {
    FindTierFinds(c.tiers, c.tiers[n].id);
  }

  predicate IsTier(c: Catalog, k: int, id: Id) {
    0 <= k < |c.tiers| && c.tiers[k].id == id
  }

  predicate AmongFirst(c: Catalog, n: int, id: Id) {
    exists k :: 0 <= k < n && IsTier(c, k, id)
  }

  /** New grants are reported in the order of the tiers. */
  lemma {:induction false} EarnsInOrder(c: Catalog, n: nat, a: Account, total: int, grants: map<GrantKey, GrantStatus>)
    requires c.Valid() && n <= |c.tiers|
    ensures var earned := EvaluateGrants(c.tiers[..n], a, total, grants).earned;
            && (forall i :: 0 <= i < |earned| ==> AmongFirst(c, n, earned[i]))
            && (forall i, j, k, l :: 0 <= i < j < |earned| && IsTier(c, k, earned[i]) && IsTier(c, l, earned[j]) ==>
                  k < l)
  {
    if n > 0 {
      hide EvaluateGrants;
      EarnsInOrder(c, n - 1, a, total, grants);
      OneTier(c, n - 1, a, total, grants);
      var before := EvaluateGrants(c.tiers[..n - 1], a, total, grants).earned;
      var earned := EvaluateGrants(c.tiers[..n], a, total, grants).earned;
      forall i | 0 <= i < |earned| ensures AmongFirst(c, n, earned[i]) {
        if i < |before| {
          assert AmongFirst(c, n - 1, before[i]);
        } else {
          assert IsTier(c, n - 1, earned[i]);
        }
      }
    } else {
      assert c.tiers[..0] == [];
    }
  }

  /** Every grant awaiting a choice and every usable coupon is covered by the balance as it is now. */
  ghost predicate CoveredInv(c: Catalog, s: State) {
    && (forall g :: g in s.grants ==> g.account in s.balances && FindTier(c.tiers, g.tier).Some?)
    && (forall g :: g in s.grants && s.grants[g] == AwaitingChoice ==>
        Reached(c, g.account, g.tier, BalanceOf(s, g.account)))
    && (forall g :: g in s.coupons ==> g in s.grants && s.grants[g] == Fulfilled)
    && (forall g :: g in s.coupons && s.coupons[g].status == Available ==>
          Reached(c, g.account, g.tier, BalanceOf(s, g.account)))
  }

  lemma CreateKeepsCovered(c: Catalog, s: State, now: Time, req: OrderRequest, key: Option<string>, id: Id, a: Account)
    requires c.Valid() && CoveredInv(c, s) && a.store in s.stores && 0 <= req.total
    ensures CoveredInv(c, CommitOrder(c, s, now, req, key, id, a).state)
  {
    hide EvaluateGrants, ConsumeOldest, OrderMinutes, PassAfterOrder, Remember;
    var s' := CommitOrder(c, s, now, req, key, id, a).state;
    var total := BalanceOf(s, a) + req.total;
    EvaluateGrantsMeaning(c, |c.tiers|, a, total, s.grants);
    assert c.tiers[..|c.tiers|] == c.tiers;
    assert forall b :: BalanceOf(s', b) == if b == a then total else BalanceOf(s, b);
  }

  lemma RefundKeepsCovered(c: Catalog, s: State, now: Time, id: Id, req: RefundRequest, key: Option<string>,
                           amount: int)
    requires CoveredInv(c, s) && OrdersOk(s) && id in s.orders && 0 < amount
    ensures CoveredInv(c, CommitRefund(c, s, now, id, req, key, amount).state)
  {
    hide MinutesToReclaim, Remember, FindTier;
    var s' := CommitRefund(c, s, now, id, req, key, amount).state;
    var a := s.orders[id].account;
    assert forall b :: b != a ==> BalanceOf(s', b) == BalanceOf(s, b);
    assert s'.grants == GrantsAfterRefund(c, s.grants, a, BalanceOf(s', a));
    assert s'.coupons == CouponsAfterRefund(c, s.grants, s.coupons, a, BalanceOf(s', a));
  }

  lemma ChooseKeepsCovered(c: Catalog, s: State, now: Time, claims: Claims, g: GrantKey, benefit: Id, asCoupon: bool,
                           order: Option<Id>)
    requires CoveredInv(c, s)
    ensures CoveredInv(c, ChooseReward(c, s, now, claims, g, benefit, asCoupon, order).state)
  {
    hide ChooseReward, Reached;
    var s' := ChooseReward(c, s, now, claims, g, benefit, asCoupon, order).state;
    ChooseWrites(c, s, now, claims, g, benefit, asCoupon, order);
    assert forall b :: BalanceOf(s', b) == BalanceOf(s, b);
  }

  lemma ChooseWrites(c: Catalog, s: State, now: Time, claims: Claims, g: GrantKey, benefit: Id, asCoupon: bool,
                     order: Option<Id>)
    ensures var t := ChooseReward(c, s, now, claims, g, benefit, asCoupon, order).state;
            && t.balances == s.balances
            && (|| (t.grants == s.grants && t.coupons == s.coupons)
                || (&& g in s.grants && s.grants[g] == AwaitingChoice && t.grants == s.grants[g := Fulfilled]
                    && (|| t.coupons == s.coupons
                        || t.coupons == s.coupons[g := Coupon(benefit, Available, now + 7 * DAY)])))
  {
    hide ChooseRefusal, AddDayPass, IsDayPass;
  }

  predicate OnlyUsedUp(before: map<GrantKey, Coupon>, after: map<GrantKey, Coupon>) {
    && after.Keys == before.Keys
    && forall g :: g in before && after[g].status == Available ==> before[g].status == Available
  }

  lemma RedeemUsesUp(s: State, now: Time, claims: Claims, g: GrantKey)
    ensures OnlyUsedUp(s.coupons, RedeemCoupon(s, now, claims, g).state.coupons)
  {
    hide RedeemCoupon;
    RedeemWrites(s, now, claims, g);
  }

  lemma ListUsesUp(s: State, now: Time, claims: Claims)
    ensures OnlyUsedUp(s.coupons, ListCoupons(s, now, claims).state.coupons)
  {
    hide Owns;
  }

  lemma OthersLeaveChoices(c: Catalog, s: State, step: Step)
    requires !MovesMoney(step) && !step.ChooseStep? && !step.RedeemStep? && !step.ListCouponsStep? && !step.Aborted?
    ensures var s' := Next(c, s, step);
            s'.grants == s.grants && s'.redemptions == s.redemptions && s'.coupons == s.coupons
  {
    hide CreateOrder, RefundOrder, ChooseReward, RedeemCoupon, ListCoupons, ActivatePass, ExtendPass, ExpirePass,
         BlockPass, ExpireDuePasses, PublishPolicy;
  }

  /** Using or expiring coupons only ever makes them unavailable. */
  lemma CouponsOnlyUsedUp(c: Catalog, s: State, step: Step)
    requires !MovesMoney(step) && !step.ChooseStep?
    ensures var s' := Next(c, s, step);
            && s'.grants == s.grants && s'.redemptions == s.redemptions && s'.coupons.Keys == s.coupons.Keys
            && forall g :: g in s.coupons && s'.coupons[g].status == Available ==> s.coupons[g].status == Available
  {
    hide RedeemCoupon, ListCoupons;
    match step
    case RedeemStep(now, claims, g) => RedeemUsesUp(s, now, claims, g);
    case ListCouponsStep(now, claims) => ListUsesUp(s, now, claims);
    case Aborted(request) =>
      hide Next;
      AbortKeepsTables(c, s, request);
    case _ =>
      hide Next;
      OthersLeaveChoices(c, s, step);
  }

  lemma OthersKeepCovered(c: Catalog, s: State, step: Step)
    requires CoveredInv(c, s) && !MovesMoney(step) && !step.ChooseStep?
    ensures CoveredInv(c, Next(c, s, step))
  {
    hide Next, FindTier, Reached;
    OthersLeaveMoney(c, s, step);
    CouponsOnlyUsedUp(c, s, step);
    assert forall b :: BalanceOf(Next(c, s, step), b) == BalanceOf(s, b);
  }

  lemma StepKeepsCovered(c: Catalog, s: State, step: Step)
    requires c.Valid() && OrdersOk(s) && CoveredInv(c, s)
    ensures CoveredInv(c, Next(c, s, step))
  {
    hide OrderAnswer, RefundAnswer, CommitOrder, CommitRefund, ChooseReward, RedeemCoupon, ListCoupons, ActivatePass,
         ExtendPass, ExpirePass, BlockPass, ExpireDuePasses, CoveredInv, OrdersOk;
    match step
    case CreateOrderStep(now, order, key, id) =>
      if OrderAnswer(c, s, order, key, id).None? {
        CreateKeepsCovered(c, s, now, order, key, id, OrderAccount(s.stores[order.store], order));
      }
    case RefundStep(now, id, refund, key, networkUp) =>
      if RefundAnswer(s, now, id, refund, key, networkUp).None? {
        RefundKeepsCovered(c, s, now, id, refund, key, RefundAmount(s.orders[id], refund));
      }
    case ChooseStep(now, claims, g, benefit, asCoupon, current) =>
      ChooseKeepsCovered(c, s, now, claims, g, benefit, asCoupon, current);
    case _ => OthersKeepCovered(c, s, step);
  }

  /**
   * Through any mix of orders, refunds, choices and redemptions, no unused reward outlives the spending that earned it.
   */
  lemma {:induction false} UnusedRewardsCovered(c: Catalog, s: State, run: seq<Step>)
    requires c.Valid() && Initial(s)
    ensures CoveredInv(c, Exec(c, s, run))
  {
    if run != [] {
      UnusedRewardsCovered(c, s, run[..|run| - 1]);
      MoneyConserved(c, s, run[..|run| - 1]);
      StepKeepsCovered(c, Exec(c, s, run[..|run| - 1]), run[|run| - 1]);
    }
  }

  // ---------- Tiers are earned at most once a day ----------

  /** The highest balance the account reached at any point of the run. */
  function HighWater(c: Catalog, s: State, run: seq<Step>, a: Account): int {
    if run == [] then 0
    else Max(HighWater(c, s, run[..|run| - 1], a), BalanceOf(Exec(c, s, run), a))
  }

  /** Whether the step is an order carried out for the account that reports the tier as newly earned. */
  predicate Reports(c: Catalog, s: State, step: Step, a: Account, tier: Id) {
    && step.CreateOrderStep?
    && OrderAnswer(c, s, step.order, step.key, step.id).None?
    && OrderAccount(s.stores[step.order.store], step.order) == a
    && tier in Apply(c, s, step).outcome.response.newTiers
  }

  function ReportCount(c: Catalog, s: State, run: seq<Step>, a: Account, tier: Id): nat {
    if run == [] then 0
    else
      var before := run[..|run| - 1];
      ReportCount(c, s, before, a, tier) + if Reports(c, Exec(c, s, before), run[|run| - 1], a, tier) then 1 else 0
  }

  lemma CommitEarns(c: Catalog, s: State, now: Time, req: OrderRequest, key: Option<string>, id: Id, a: Account,
                    g: GrantKey)
    requires c.Valid() && a.store in s.stores
    ensures var r := CommitOrder(c, s, now, req, key, id, a);
            var earned := g.account == a && g.tier in r.outcome.response.newTiers;
            && (g in r.state.grants <==> g in s.grants || earned)
            && (earned ==> g !in s.grants && a in r.state.balances && Reached(c, a, g.tier, BalanceOf(r.state, a)))
            && r.state.balances == Deposit(s.balances, a, req.total)
            && (Reached(c, a, g.tier, BalanceOf(r.state, a)) ==> GrantKey(a, g.tier) in r.state.grants)
  {
    hide EvaluateGrants, ConsumeOldest, OrderMinutes, PassAfterOrder, Remember, FindTier;
    EvaluateGrantsMeaning(c, |c.tiers|, a, BalanceOf(s, a) + req.total, s.grants);
    assert c.tiers[..|c.tiers|] == c.tiers;
    FindTierFinds(c.tiers, g.tier);
  }

  lemma RefundKeepsGrants(c: Catalog, s: State, now: Time, id: Id, req: RefundRequest, key: Option<string>, amount: int)
    requires id in s.orders
    ensures CommitRefund(c, s, now, id, req, key, amount).state.grants.Keys == s.grants.Keys
  {
  }

  lemma ChooseKeepsGrants(c: Catalog, s: State, now: Time, claims: Claims, g: GrantKey, benefit: Id, asCoupon: bool,
                          order: Option<Id>)
    ensures ChooseReward(c, s, now, claims, g, benefit, asCoupon, order).state.grants.Keys == s.grants.Keys
  {
    hide ChooseRefusal, AddDayPass, IsDayPass;
  }

  /** No step but an order adds grants, none removes them, and an order adds exactly the tiers it reports. */
  lemma GrantsOnlyEarned(c: Catalog, s: State, step: Step, a: Account, tier: Id)
    requires c.Valid()
    ensures var s', g := Next(c, s, step), GrantKey(a, tier);
            && (g in s'.grants <==> g in s.grants || Reports(c, s, step, a, tier))
            && (Reports(c, s, step, a, tier) ==>
                  g !in s.grants && a in s'.balances && Reached(c, a, tier, BalanceOf(s', a)))
  {
    hide OrderAnswer, RefundAnswer, CommitOrder, CommitRefund, ChooseReward, RedeemCoupon, ListCoupons, ActivatePass,
         ExtendPass, ExpirePass, BlockPass, ExpireDuePasses, FindTier;
    match step
    case CreateOrderStep(now, order, key, id) =>
      if OrderAnswer(c, s, order, key, id).None? {
        CommitEarns(c, s, now, order, key, id, OrderAccount(s.stores[order.store], order), GrantKey(a, tier));
      }
    case RefundStep(now, id, refund, key, networkUp) =>
      if RefundAnswer(s, now, id, refund, key, networkUp).None? {
        RefundKeepsGrants(c, s, now, id, refund, key, RefundAmount(s.orders[id], refund));
      }
    case ChooseStep(now, claims, g, benefit, asCoupon, current) => ChooseKeepsGrants(c, s, now, claims, g, benefit,
        asCoupon, current);
    case _ => CouponsOnlyUsedUp(c, s, step);
  }

  /** A step that raises a balance is an order, and everything the new balance reaches then has a grant. */
  lemma RaisesEarn(c: Catalog, s: State, step: Step, a: Account, tier: Id)
    requires c.Valid() && MoneyInv(s)
    requires var s' := Next(c, s, step); a in s'.balances && (a !in s.balances || BalanceOf(s, a) < BalanceOf(s', a))
    requires Reached(c, a, tier, BalanceOf(Next(c, s, step), a))
    ensures GrantKey(a, tier) in Next(c, s, step).grants
  {
    hide OrderAnswer, CommitOrder, ChooseReward, RedeemCoupon, ListCoupons, ActivatePass, ExtendPass, ExpirePass,
         BlockPass, ExpireDuePasses, FindTier;
    match step
    case CreateOrderStep(now, order, key, id) =>
      if OrderAnswer(c, s, order, key, id).None? {
        var b := OrderAccount(s.stores[order.store], order);
        CommitEarns(c, s, now, order, key, id, b, GrantKey(a, tier));
        assert a == b;
      }
    case RefundStep(_, id, refund, _, _) =>
      if id in s.orders {
        BalanceNonNegative(s, s.orders[id].account);
      }
    case _ => OthersLeaveMoney(c, s, step);
  }

  lemma BalancesStay(c: Catalog, s: State, step: Step)
    ensures s.balances.Keys <= Next(c, s, step).balances.Keys
  {
    hide OrderAnswer, RefundAnswer, ChooseReward, RedeemCoupon, ListCoupons, ActivatePass, ExtendPass, ExpirePass,
         BlockPass, ExpireDuePasses;
    if !MovesMoney(step) {
      OthersLeaveMoney(c, s, step);
    }
  }

  lemma {:induction false} HighWaterBounds(c: Catalog, s: State, run: seq<Step>, a: Account)
    requires Initial(s)
    ensures 0 <= HighWater(c, s, run, a) && BalanceOf(Exec(c, s, run), a) <= HighWater(c, s, run, a)
    ensures a !in Exec(c, s, run).balances ==> HighWater(c, s, run, a) == 0
  {
    if run != [] {
      HighWaterBounds(c, s, run[..|run| - 1], a);
      BalancesStay(c, Exec(c, s, run[..|run| - 1]), run[|run| - 1]);
    }
  }

  /**
   * After any run, the tiers holding a grant are exactly those the account's highest balance reached, and each was
   * reported as new by exactly one order: refunding and ordering again never earns a tier twice.
   */
  lemma {:induction false} TiersEarnedOnce(c: Catalog, s: State, run: seq<Step>, a: Account, tier: Id)
    requires c.Valid() && Initial(s)
    ensures var t, g := Exec(c, s, run), GrantKey(a, tier);
            && (g in t.grants <==> a in t.balances && Reached(c, a, tier, HighWater(c, s, run, a)))
            && ReportCount(c, s, run, a, tier) == if g in t.grants then 1 else 0
  {
    hide Apply, Reports, FindTier;
    if run != [] {
      var before, step := run[..|run| - 1], run[|run| - 1];
      var t, t' := Exec(c, s, before), Exec(c, s, run);
      TiersEarnedOnce(c, s, before, a, tier);
      MoneyConserved(c, s, before);
      UnusedRewardsCovered(c, s, before);
      GrantsOnlyEarned(c, t, step, a, tier);
      StepKeepsMoney(c, t, step);
      BalanceNonNegative(t, a);
      BalanceNonNegative(t', a);
      BalancesStay(c, t, step);
      HighWaterBounds(c, s, before, a);
      if a in t'.balances && Reached(c, a, tier, BalanceOf(t', a)) && (a !in t.balances
          || BalanceOf(t, a) < BalanceOf(t', a)) {
        RaisesEarn(c, t, step, a, tier);
      }
    }
  }
}
