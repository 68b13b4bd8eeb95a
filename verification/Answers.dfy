/** What an order or a refund answers is what the tables say afterwards. */
module Answers {
  import opened Common
  import opened WifiPass
  import opened LedgerModel
  import opened LedgerSteps
  import opened Conservation
  import opened Rewards
  import opened Choices

  lemma BalanceIsSum(s: State, a: Account)
    requires MoneyInv(s)
    ensures BalanceOf(s, a) == Sum(s.orders, NetOf(a))
  {
  }

  // ---------- Orders ----------

  /** The answer's totals and pass are the account's. */
  predicate TellsAccount(answer: Response, s: State, id: Id, a: Account) {
    && answer.OrderCreated? && answer.order == id && answer.day == a.day
    && id in s.orders && s.orders[id].account == a
    && answer.dailyTotal == BalanceOf(s, a)
    && a in s.passes && answer.wifiPass == s.passes[a]
  }

  /** The answer lists exactly the tiers newly granted. */
  ghost predicate TellsGrants(answer: Response, s: State, s': State, a: Account) {
    answer.OrderCreated? &&
    forall tier :: tier in answer.newTiers <==> GrantKey(a, tier) in s'.grants && GrantKey(a, tier) !in s.grants
  }

  /** The answer names the oldest waiting reward, which now belongs to the order; it is the only one that changed. */
  predicate TellsReward(answer: Response, s: State, s': State, id: Id, a: Account) {
    && answer.OrderCreated?
    && (answer.applied.None? ==>
          s'.redemptions == s.redemptions && forall i :: 0 <= i < |s.redemptions| ==> !Waiting(s.redemptions[i], a))
    && (answer.applied.Some? ==>
          exists k :: 0 <= k < |s.redemptions| && Waiting(s.redemptions[k], a)
              && (forall i :: 0 <= i < k ==> !Waiting(s.redemptions[i], a))
              && s.redemptions[k].grant == answer.applied.value
              && s'.redemptions == s.redemptions[k := s.redemptions[k].(order := Some(id))])
  }

  lemma CommitTells(c: Catalog, s: State, now: Time, req: OrderRequest, key: Option<string>, id: Id, a: Account)
    requires c.Valid() && a.store in s.stores
    ensures var r := CommitOrder(c, s, now, req, key, id, a);
            && r.outcome.Done?
            && TellsAccount(r.outcome.response, r.state, id, a)
            && TellsGrants(r.outcome.response, s, r.state, a)
            && TellsReward(r.outcome.response, s, r.state, id, a)
  {
    hide EvaluateGrants, ConsumeOldest, OrderMinutes, PassAfterOrder, Remember, Reached;
    EvaluateGrantsMeaning(c, |c.tiers|, a, BalanceOf(s, a) + req.total, s.grants);
    assert c.tiers[..|c.tiers|] == c.tiers;
    var k := ConsumeOldestMeaning(s.redemptions, a, id);
  }

  /**
   * An accepted order answers the account's spending, which is the sum of its net orders, its pass, exactly the tiers
   * newly granted, and the immediate reward that now belongs to the order, the only one that changed.
   */
  lemma OrderAnswersTruly(c: Catalog, s: State, now: Time, req: OrderRequest, key: Option<string>, id: Id)
    requires c.Valid() && MoneyInv(s) && OrderAnswer(c, s, req, key, id).None?
    ensures var r, a := CreateOrder(c, s, now, req, key, id), OrderAccount(s.stores[req.store], req);
            && r.outcome.Done?
            && TellsAccount(r.outcome.response, r.state, id, a)
                && BalanceOf(r.state, a) == Sum(r.state.orders, NetOf(a))
            && TellsGrants(r.outcome.response, s, r.state, a)
            && TellsReward(r.outcome.response, s, r.state, id, a)
  {
    hide OrderAnswer, CommitOrder, TellsAccount, TellsGrants, TellsReward, MoneyInv;
    var a := OrderAccount(s.stores[req.store], req);
    CreateKeepsMoney(c, s, now, req, key, id, a);
    BalanceIsSum(CommitOrder(c, s, now, req, key, id, a).state, a);
    CommitTells(c, s, now, req, key, id, a);
  }

  // ---------- Refunds ----------

  /** The answer's amounts, status and pass are the order's and its account's. */
  predicate TellsRefund(answer: Response, s: State, s': State, id: Id) {
    && answer.OrderRefunded? && answer.order == id && id in s.orders && id in s'.orders
    && answer.refunded == s'.orders[id].refunded == s.orders[id].refunded + answer.amount
    && answer.status == s'.orders[id].status
    && var a := s.orders[id].account;
       && answer.dailyTotal == BalanceOf(s', a)
       && a in s.passes && a in s'.passes && answer.pass == Some(s'.passes[a])
       && 0 <= answer.minutesRevoked
       && var moved := s.passes[a].expiresAt - s'.passes[a].expiresAt;
          (answer.minutesRevoked - 1) * MINUTE < moved <= answer.minutesRevoked * MINUTE
  }

  /**
   * The new balance is the reason, and the only one, a waiting grant is taken back; the answer lists those of the
   * account.
   */
  ghost predicate TellsRevoked(c: Catalog, answer: Response, s: State, s': State, a: Account) {
    && answer.OrderRefunded? && s'.grants.Keys == s.grants.Keys
    && (forall tier :: tier in answer.revokedTiers <==>
          && GrantKey(a, tier) in s.grants && s.grants[GrantKey(a, tier)] == AwaitingChoice
          && s'.grants[GrantKey(a, tier)] == GrantRevoked)
    && (forall g :: g in s.grants && s.grants[g] == AwaitingChoice ==>
          (s'.grants[g] == GrantRevoked <==> g.account == a && OutOfReach(c, g.tier, answer.dailyTotal)))
  }

  /** The minutes reported are what the expiry moved by, rounded up. */
  lemma ReclaimCounts(p: Pass, minutes: int, now: Time)
    ensures var r := Reclaim(p, minutes, now);
            0 <= r.removed && (r.removed - 1) * MINUTE < p.expiresAt - r.pass.expiresAt <= r.removed * MINUTE
  {
  }

  lemma CommitTellsRefund(c: Catalog, s: State, now: Time, id: Id, req: RefundRequest, key: Option<string>, amount: int)
    requires id in s.orders && s.orders[id].account in s.passes
    ensures var r := CommitRefund(c, s, now, id, req, key, amount);
            && r.outcome.Done? && r.outcome.response.amount == amount
            && TellsRefund(r.outcome.response, s, r.state, id)
  {
    hide GrantsAfterRefund, CouponsAfterRefund, TiersLost, Remember, MinutesToReclaim, Reclaim;
    ReclaimCounts(s.passes[s.orders[id].account], MinutesToReclaim(s.orders[id], amount), now);
  }

  lemma CommitTellsRevoked(c: Catalog, s: State, now: Time, id: Id, req: RefundRequest, key: Option<string>,
                           amount: int)
    requires id in s.orders
    ensures var r := CommitRefund(c, s, now, id, req, key, amount);
            r.outcome.Done? && TellsRevoked(c, r.outcome.response, s, r.state, s.orders[id].account)
  {
    hide CouponsAfterRefund, Remember, MinutesToReclaim, Reclaim, OutOfReach, Withdraw;
    var r, a := CommitRefund(c, s, now, id, req, key, amount), s.orders[id].account;
    RevokedTiers(c, s.grants, a, r.outcome.response.dailyTotal);
    hide GrantsAfterRefund, TiersLost;
  }

  lemma RevokedTiers(c: Catalog, grants: map<GrantKey, GrantStatus>, a: Account, total: int)
    ensures var grants', lost := GrantsAfterRefund(c, grants, a, total), TiersLost(c, grants, a, total);
            && grants'.Keys == grants.Keys
            && (forall tier :: tier in lost <==>
                  && GrantKey(a, tier) in grants && grants[GrantKey(a, tier)] == AwaitingChoice
                  && grants'[GrantKey(a, tier)] == GrantRevoked)
            && (forall g :: g in grants && grants[g] == AwaitingChoice ==>
                  (grants'[g] == GrantRevoked <==> g.account == a && OutOfReach(c, g.tier, total)))
  {
    hide OutOfReach;
  }

  /** A refund answers what it did: the amounts, the account's spending and pass, and exactly the grants taken back. */
  lemma RefundAnswersTruly(c: Catalog, s: State, now: Time, id: Id, req: RefundRequest, key: Option<string>,
                           networkUp: bool)
    requires MoneyInv(s) && RefundAnswer(s, now, id, req, key, networkUp).None?
    ensures var r, a := RefundOrder(c, s, now, id, req, key, networkUp), s.orders[id].account;
            && r.outcome.Done?
            && TellsRefund(r.outcome.response, s, r.state, id)
            && BalanceOf(r.state, a) == Sum(r.state.orders, NetOf(a))
            && BalanceOf(r.state, a) == Sum(s.orders, NetOf(a)) - r.outcome.response.amount
            && TellsRevoked(c, r.outcome.response, s, r.state, a)
  {
    hide RefundAnswer, CommitRefund, TellsRefund, TellsRevoked, BalancesMatch, DaysMatch, StoresOk;
    var amount, a := RefundAmount(s.orders[id], req), s.orders[id].account;
    var s' := CommitRefund(c, s, now, id, req, key, amount).state;
    RefundKeepsMoney(c, s, now, id, req, key, amount);
    BalanceIsSum(s', a);
    CommitTellsRefund(c, s, now, id, req, key, amount);
    CommitTellsRevoked(c, s, now, id, req, key, amount);
    RefundLowersSum(c, s, now, id, req, key, amount);
  }

  lemma RefundLowersSum(c: Catalog, s: State, now: Time, id: Id, req: RefundRequest, key: Option<string>, amount: int)
    requires id in s.orders
    ensures var s', a := CommitRefund(c, s, now, id, req, key, amount).state, s.orders[id].account;
            Sum(s'.orders, NetOf(a)) == Sum(s.orders, NetOf(a)) - amount
  {
    hide GrantsAfterRefund, CouponsAfterRefund, TiersLost, Remember, MinutesToReclaim, Reclaim, Withdraw;
    var a := s.orders[id].account;
    SumWrite(s.orders, NetOf(a), id, RefundedOrder(s.orders[id], amount));
  }
}
