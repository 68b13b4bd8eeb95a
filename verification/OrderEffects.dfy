/**
 * When an order or a refund is accepted and what it changes, said without the functions that compute it
 * (app/routers/pos.py, app/services/policy.py).
 */
module OrderEffects {
  import opened Common
  import opened BusinessDay
  import opened Proration
  import opened WifiPolicy
  import opened WifiPass
  import opened LedgerModel
  import opened LedgerSteps
  import opened Conservation
  import opened Rewards
  import opened Choices

  // ---------- The minutes of an order ----------

  predicate Reaches(amount: int, tiers: seq<Tier>, i: int) {
    0 <= i < |tiers| && tiers[i].minAmount <= amount
  }

  /** The minutes of the most generous tier the amount reaches, or nothing when it reaches none. */
  ghost predicate IsBest(minutes: int, amount: int, tiers: seq<Tier>) {
    && (forall i :: Reaches(amount, tiers, i) ==> tiers[i].minutes <= minutes)
    && if exists i :: Reaches(amount, tiers, i) then
         exists i :: Reaches(amount, tiers, i) && tiers[i].minutes == minutes
       else minutes == 0
  }

  /**
   * The first order of a day brings the base and the best of the first-order tiers, any other the best of the
   * additional-order tiers; a list that is not configured is the built-in one.
   */
  ghost predicate Grants(minutes: int, amount: int, p: Policy, first: bool) {
    if first then
      IsBest(minutes - (if p.baseMinutes.Some? then p.baseMinutes.value else 120), amount,
             if p.firstTiers == [] then [Tier(10_000, 30), Tier(15_000, 60)] else p.firstTiers)
    else
      IsBest(minutes, amount,
             if p.additionalTiers == [] then [Tier(5_000, 60), Tier(10_000, 120)] else p.additionalTiers)
  }

  lemma BestIsBest(amount: int, tiers: seq<Tier>)
    ensures IsBest(BonusMinutes(amount, tiers), amount, tiers)
  {
    hide BonusMinutes, Applicable;
    BonusMinutesIsBest(amount, tiers);
    if exists i :: Reaches(amount, tiers, i) {
      var i :| Reaches(amount, tiers, i);
      assert tiers[i].minAmount <= amount;
      var j :| 0 <= j < |tiers| && tiers[j].minAmount <= amount && tiers[j].minutes == BonusMinutes(amount, tiers);
      assert Reaches(amount, tiers, j);
    } else {
      forall i | 0 <= i < |tiers| ensures amount < tiers[i].minAmount {
        assert !Reaches(amount, tiers, i);
      }
    }
  }

  /** A policy grants one number of minutes to an amount. */
  lemma GrantsOne(m: int, n: int, amount: int, p: Policy, first: bool)
    requires Grants(m, amount, p, first) && Grants(n, amount, p, first)
    ensures m == n
  {
  }

  lemma MinutesGranted(s: State, a: Account, amount: int)
    requires a.store in s.stores
    ensures Grants(OrderMinutes(s, a, amount), amount, s.stores[a.store].policy, a !in s.passes)
  {
    hide BonusMinutes, IsBest;
    var p := s.stores[a.store].policy;
    BestIsBest(amount, ConfiguredTiers(p.firstTiers, FIRST_ORDER_TIERS));
    BestIsBest(amount, ConfiguredTiers(p.additionalTiers, ADDITIONAL_ORDER_TIERS));
  }

  // ---------- Which orders are accepted ----------

  /** The item is sold by the store, and costs what the request says, or else its price. */
  predicate ItemCosts(products: map<Id, Product>, store: Id, item: OrderItem, cost: int) {
    && item.product in products && products[item.product].store == store && products[item.product].active
    && cost == item.quantity * if item.unitPrice.Some? then item.unitPrice.value else products[item.product].price
  }

  /** `sums` adds up the items one by one. */
  predicate AddsUp(products: map<Id, Product>, store: Id, items: seq<OrderItem>, sums: seq<int>) {
    && |sums| == |items| + 1 && sums[0] == 0
    && forall i :: 0 <= i < |items| ==> ItemCosts(products, store, items[i], sums[i + 1] - sums[i])
  }

  ghost predicate Costs(products: map<Id, Product>, store: Id, items: seq<OrderItem>, total: int) {
    exists sums :: AddsUp(products, store, items, sums) && sums[|items|] == total
  }

  lemma PricedLast(products: map<Id, Product>, store: Id, items: seq<OrderItem>)
    requires items != []
    ensures var before, last := PricedTotal(products, store, items[..|items| - 1]), items[|items| - 1];
            var priced := PricedTotal(products, store, items);
            && (priced.Some? ==> before.Some? && ItemCosts(products, store, last, priced.value - before.value))
            && (forall cost :: before.Some? && ItemCosts(products, store, last, cost) ==>
                  priced == Some(before.value + cost))
  {
  }

  lemma {:induction false} PricedCosts(products: map<Id, Product>, store: Id, items: seq<OrderItem>)
    requires PricedTotal(products, store, items).Some?
    ensures Costs(products, store, items, PricedTotal(products, store, items).value)
  {
    if items == [] {
      assert AddsUp(products, store, items, [0]);
    } else {
      hide PricedTotal, ItemCosts;
      var front, total := items[..|items| - 1], PricedTotal(products, store, items).value;
      PricedLast(products, store, items);
      PricedCosts(products, store, front);
      var sums :| AddsUp(products, store, front, sums) && sums[|front|] == PricedTotal(products, store, front).value;
      assert AddsUp(products, store, items, sums + [total]);
    }
  }

  lemma {:induction false} CostsPriced(products: map<Id, Product>, store: Id, items: seq<OrderItem>, sums: seq<int>)
    requires AddsUp(products, store, items, sums)
    ensures PricedTotal(products, store, items) == Some(sums[|items|])
  {
    if items != [] {
      hide PricedTotal, ItemCosts;
      assert AddsUp(products, store, items[..|items| - 1], sums[..|items|]);
      CostsPriced(products, store, items[..|items| - 1], sums[..|items|]);
      PricedLast(products, store, items);
    }
  }

  lemma PricedIff(products: map<Id, Product>, store: Id, items: seq<OrderItem>, total: int)
    ensures PricedTotal(products, store, items) == Some(total) <==> Costs(products, store, items, total)
  {
    hide PricedTotal, AddsUp;
    if PricedTotal(products, store, items).Some? {
      PricedCosts(products, store, items);
    }
    if Costs(products, store, items, total) {
      var sums := CostsSums(products, store, items, total);
      CostsPriced(products, store, items, sums);
    }
  }

  lemma CostsSums(products: map<Id, Product>, store: Id, items: seq<OrderItem>, total: int) returns (sums: seq<int>)
    requires Costs(products, store, items, total)
    ensures AddsUp(products, store, items, sums) && |sums| == |items| + 1 && sums[|items|] == total
  {
    sums :| AddsUp(products, store, items, sums) && sums[|items|] == total;
  }

  /** A key is long enough, not too long, and was not used in its scope; without a key there is nothing to check. */
  predicate FreshKey(s: State, scope: Scope, key: Option<string>) {
    key.Some? && key.value != "" ==> 8 <= |key.value| <= 200 && (scope, key.value) !in s.records
  }

  /** A key that was used in its scope for this very request. */
  predicate RepeatedKey(s: State, scope: Scope, key: Option<string>, request: Request) {
    && key.Some? && 8 <= |key.value| <= 200
    && (scope, key.value) in s.records && s.records[(scope, key.value)].request == request
  }

  /** What the schema asks of an order. */
  predicate Formed(req: OrderRequest) {
    && req.items != [] && 0 <= req.total
    && forall i :: 0 <= i < |req.items| ==>
         1 <= req.items[i].quantity && (req.items[i].unitPrice.Some? ==> 0 <= req.items[i].unitPrice.value)
  }

  ghost predicate NewNumber(s: State, req: OrderRequest) {
    forall o :: o in s.orders ==> s.orders[o].account.store != req.store || s.orders[o].externalId != req.externalId
  }

  /** What the store asks of an order. */
  ghost predicate MayOrder(c: Catalog, s: State, req: OrderRequest, key: Option<string>, id: Id) {
    && Formed(req) && req.store in s.stores && req.customer.Some?
    && FreshKey(s, PosOrderScope(req.store), key) && NewNumber(s, req)
    && Costs(c.products, req.store, req.items, req.total)
    && (var a := Account(req.store, req.customer.value, BusinessDate(req.paidAt, s.stores[req.store].clock));
        a in s.passes ==> var status := s.passes[a].status; !status.Blocked? && !status.Cancelled? && !status.Failed?)
    && id !in s.orders
  }

  lemma FreshKeyIff(s: State, scope: Scope, key: Option<string>, request: Request)
    ensures Replay(s.records, scope, key, request).None? <==> FreshKey(s, scope, key)
  {
  }

  lemma MayOrderIff(c: Catalog, s: State, req: OrderRequest, key: Option<string>, id: Id)
    ensures OrderAnswer(c, s, req, key, id).None? <==> MayOrder(c, s, req, key, id)
  {
    hide Replay, FreshKey, Costs, PricedTotal, BusinessDate;
    FreshKeyIff(s, PosOrderScope(req.store), key, OrderBody(req));
    PricedIff(c.products, req.store, req.items, req.total);
  }

  // ---------- What an accepted order changes ----------

  /** Time is added to what is left of a pass; a pass that ran out comes back to life. */
  predicate Extended(p: Pass, q: Pass, minutes: int, now: Time) {
    && q.expiresAt == (if now <= p.expiresAt then p.expiresAt else now) + minutes * 60 * SECOND
    && q.status == (if p.status.Expired? then Active else p.status)
    && q.version == p.version + 1
    && q.issuedAt == p.issuedAt && q.activatedAt == p.activatedAt && q.reference == p.reference
  }

  /** No pass but this one is changed, made or removed. */
  predicate OnlyPass(t: map<Account, Pass>, u: map<Account, Pass>, a: Account) {
    && (forall b :: b in t && b != a ==> b in u && u[b] == t[b])
    && (forall b :: b in u && b != a ==> b in t)
  }

  /**
   * An accepted order is written with the minutes its store's policy grants it, its account's pass is issued with them
   * or extended by them, and nothing else of the orders and passes changes.
   */
  lemma OrderEffect(c: Catalog, s: State, now: Time, req: OrderRequest, key: Option<string>, id: Id)
    requires MayOrder(c, s, req, key, id)
    ensures var r := Apply(c, s, CreateOrderStep(now, req, key, id));
            var a := Account(req.store, req.customer.value, BusinessDate(req.paidAt, s.stores[req.store].clock));
            && r.outcome.Done? && r.outcome.code == 201
            && id in r.state.orders
            && var minutes := r.state.orders[id].wifiMinutes;
               && Grants(minutes, req.total, s.stores[req.store].policy, a !in s.passes)
               && r.state.orders == s.orders[id := Order(a, req.externalId, req.total, 0, minutes, Paid, req.paidAt)]
               && a in r.state.passes && OnlyPass(s.passes, r.state.passes, a)
               && (if a in s.passes then Extended(s.passes[a], r.state.passes[a], minutes, now)
                   else r.state.passes[a] == Pass(Issued, now, None, now + minutes * 60 * SECOND, 1, None))
               && r.state.balances
                  == s.balances[a := if a in s.balances then
                                       Balance(s.balances[a].total + req.total, s.balances[a].version)
                                     else Balance(req.total, 1)]
               && r.state.stores == s.stores && r.state.coupons == s.coupons && r.state.calls == s.calls
  {
    hide MayOrder, OrderAnswer, OrderMinutes, EvaluateGrants, ConsumeOldest, Remember, Grants, BusinessDate;
    MayOrderIff(c, s, req, key, id);
    MinutesGranted(s, OrderAccount(s.stores[req.store], req), req.total);
  }

  /** An order that is not accepted changes nothing; a repeat gets the answer on record, any other an error. */
  lemma OrderRefused(c: Catalog, s: State, now: Time, req: OrderRequest, key: Option<string>, id: Id)
    requires !MayOrder(c, s, req, key, id)
    ensures var r := Apply(c, s, CreateOrderStep(now, req, key, id));
            var scope, known := PosOrderScope(req.store), Formed(req) && req.store in s.stores;
            && r.state == s
            && (known && RepeatedKey(s, scope, key, OrderBody(req)) ==>
                  var record := s.records[(scope, key.value)]; r.outcome == Done(record.code, record.response))
            && (r.outcome.Done? ==> known && RepeatedKey(s, scope, key, OrderBody(req)))
            && (r.outcome == Rejected(404) <==> Formed(req) && !known)
            && (r.outcome == Rejected(422) <==>
                  || !Formed(req)
                  || (known && key.Some? && key.value != "" && !(8 <= |key.value| <= 200))
                  || (known && FreshKey(s, scope, key) && NewNumber(s, req)
                      && (req.customer.None? || !Costs(c.products, req.store, req.items, req.total))))
            && (r.outcome.Done? || r.outcome.code in {404, 409, 422})
  {
    hide Costs, PricedTotal, BusinessDate;
    MayOrderIff(c, s, req, key, id);
    PricedIff(c.products, req.store, req.items, req.total);
  }

  // ---------- Which refunds are accepted ----------

  /** The minutes a refund takes back: what the refunded part comes to now, less what it came to before. */
  ghost predicate TakenBack(o: Order, amount: int, minutes: int) {
    exists before ::
      && IsCeilingShare(before, o.wifiMinutes, o.total, o.refunded)
      && IsCeilingShare(before + minutes, o.wifiMinutes, o.total, o.refunded + amount)
  }

  lemma TakenBackIs(o: Order, amount: int)
    requires OrderOk(o) && 0 < amount <= o.total - o.refunded
    ensures TakenBack(o, amount, MinutesToReclaim(o, amount)) && 0 <= MinutesToReclaim(o, amount)
  {
    hide Prorated, IsCeilingShare;
    ProratedIsCeiling(o.wifiMinutes, o.total, o.refunded);
    ProratedIsCeiling(o.wifiMinutes, o.total, o.refunded + amount);
    var before := Prorated(o.wifiMinutes, o.total, o.refunded);
    assert before + MinutesToReclaim(o, amount) == Prorated(o.wifiMinutes, o.total, o.refunded + amount);
    ProratedMonotone(o.wifiMinutes, o.total, o.refunded, o.refunded + amount);
  }

  lemma TakenBackOnly(o: Order, amount: int, m: int, n: int)
    requires 0 < o.total && TakenBack(o, amount, m) && TakenBack(o, amount, n)
    ensures m == n
  {
    hide IsCeilingShare;
    var b :| IsCeilingShare(b, o.wifiMinutes, o.total, o.refunded)
             && IsCeilingShare(b + m, o.wifiMinutes, o.total, o.refunded + amount);
    var d :| IsCeilingShare(d, o.wifiMinutes, o.total, o.refunded)
             && IsCeilingShare(d + n, o.wifiMinutes, o.total, o.refunded + amount);
    CeilingShareUnique(b, d, o.wifiMinutes, o.total, o.refunded);
    CeilingShareUnique(b + m, d + n, o.wifiMinutes, o.total, o.refunded + amount);
  }

  predicate Running(p: Pass, now: Time) {
    !p.status.Expired? && !p.status.Blocked? && !p.status.Cancelled? && !p.status.Failed? && now < p.expiresAt
  }

  /** Taking the minutes back leaves a running pass no time, which ends it at the controller. */
  predicate EndsWith(passes: map<Account, Pass>, a: Account, minutes: int, now: Time) {
    a in passes && Running(passes[a], now) && 0 < minutes && passes[a].expiresAt <= now + minutes * 60 * SECOND
  }

  /** What the store asks of a refund. */
  ghost predicate MayRefund(s: State, now: Time, id: Id, req: RefundRequest, key: Option<string>, networkUp: bool) {
    && id in s.orders && s.orders[id].account.store == req.store
    && FreshKey(s, RefundScope(id), key)
    && var left := s.orders[id].total - s.orders[id].refunded;
       var amount := if req.amount.Some? then req.amount.value else left;
       && 0 < amount <= left
       && (networkUp || forall minutes :: TakenBack(s.orders[id], amount, minutes) ==>
             !EndsWith(s.passes, s.orders[id].account, minutes, now))
  }

  /** A refund that is not accepted changes nothing; a repeat gets the answer on record, any other an error. */
  lemma RefundRefused(c: Catalog, s: State, now: Time, id: Id, req: RefundRequest, key: Option<string>, networkUp: bool)
    requires OrdersOk(s) && !MayRefund(s, now, id, req, key, networkUp)
    ensures var r := Apply(c, s, RefundStep(now, id, req, key, networkUp));
            var formed := req.amount.Some? ==> 1 <= req.amount.value;
            var known := formed && id in s.orders && s.orders[id].account.store == req.store;
            && r.state == s
            && (known && RepeatedKey(s, RefundScope(id), key, RefundBody(req)) ==>
                  var record := s.records[(RefundScope(id), key.value)];
                  r.outcome == Done(record.code, record.response))
            && (r.outcome.Done? ==> known && RepeatedKey(s, RefundScope(id), key, RefundBody(req)))
            && (r.outcome == Rejected(404) <==> formed && !known)
            && (r.outcome == Rejected(409) <==>
                  && known && key.Some? && 8 <= |key.value| <= 200 && (RefundScope(id), key.value) in s.records
                  && !RepeatedKey(s, RefundScope(id), key, RefundBody(req)))
            && (r.outcome == Rejected(500) ==> !networkUp)
            && (r.outcome.Done? || r.outcome.code in {404, 409, 422, 500})
  {
    hide MayRefund, NeedsNetwork;
    MayRefundIff(s, now, id, req, key, networkUp);
  }

  lemma NeedsNetworkIff(s: State, id: Id, amount: int, now: Time)
    requires id in s.orders && OrderOk(s.orders[id]) && 0 < amount <= s.orders[id].total - s.orders[id].refunded
    ensures NeedsNetwork(s, id, amount, now) <==>
              EndsWith(s.passes, s.orders[id].account, MinutesToReclaim(s.orders[id], amount), now)
  {
    hide MinutesToReclaim;
  }

  lemma MayRefundIff(s: State, now: Time, id: Id, req: RefundRequest, key: Option<string>, networkUp: bool)
    requires OrdersOk(s)
    ensures RefundAnswer(s, now, id, req, key, networkUp).None? <==> MayRefund(s, now, id, req, key, networkUp)
  {
    hide Replay, FreshKey, NeedsNetwork, EndsWith, TakenBack, MinutesToReclaim;
    FreshKeyIff(s, RefundScope(id), key, RefundBody(req));
    if id in s.orders {
      var o, amount := s.orders[id], RefundAmount(s.orders[id], req);
      if 0 < amount <= o.total - o.refunded {
        NeedsNetworkIff(s, id, amount, now);
        TakenBackIs(o, amount);
        forall minutes | TakenBack(o, amount, minutes) ensures minutes == MinutesToReclaim(o, amount) {
          TakenBackOnly(o, amount, minutes, MinutesToReclaim(o, amount));
        }
      }
    }
  }

  // ---------- What an accepted refund changes ----------

  /** A running pass loses the minutes; when none of its time remains it is over, and holds no session. */
  predicate Shortened(p: Pass, q: Pass, minutes: int, now: Time) {
    if !Running(p, now) || minutes <= 0 then q == p
    else if p.expiresAt <= now + minutes * 60 * SECOND then
      q == p.(expiresAt := now, version := p.version + 1, status := Expired, reference := None)
    else q == p.(expiresAt := p.expiresAt - minutes * 60 * SECOND, version := p.version + 1)
  }

  lemma ReclaimShortens(p: Pass, minutes: int, now: Time)
    ensures Shortened(p, Reclaim(p, minutes, now).pass, minutes, now)
  {
  }

  /** The order and its account's pass after a refund, and what the controller was asked. */
  lemma RefundEffect(c: Catalog, s: State, now: Time, id: Id, req: RefundRequest, key: Option<string>, networkUp: bool)
    requires OrdersOk(s) && MayRefund(s, now, id, req, key, networkUp)
    ensures var r, o := Apply(c, s, RefundStep(now, id, req, key, networkUp)), s.orders[id];
            var amount, a := (if req.amount.Some? then req.amount.value else o.total - o.refunded), o.account;
            && r.outcome.Done? && r.outcome.code == 200
            && r.state.orders
               == s.orders[id := o.(refunded := o.refunded + amount,
                                    status := if amount == o.total - o.refunded then Refunded else PartiallyRefunded)]
            && a in s.passes && a in r.state.passes && OnlyPass(s.passes, r.state.passes, a)
            && (exists minutes :: TakenBack(o, amount, minutes)
                  && Shortened(s.passes[a], r.state.passes[a], minutes, now)
                  && r.state.calls == if EndsWith(s.passes, a, minutes, now)
                                      then Call(s.calls, a, Revoke(s.passes[a].reference)) else s.calls)
            && a in s.balances
            && r.state.balances
               == s.balances[a := Balance(if amount < s.balances[a].total then s.balances[a].total - amount else 0,
                                          s.balances[a].version + 1)]
            && r.state.stores == s.stores && r.state.redemptions == s.redemptions
  {
    hide MayRefund, RefundAnswer, MinutesToReclaim, GrantsAfterRefund, CouponsAfterRefund, TiersLost,
         Remember, TakenBack, Reclaim, Shortened, EndsWith, Call;
    MayRefundIff(s, now, id, req, key, networkUp);
    var o := s.orders[id];
    var amount, a := RefundAmount(o, req), o.account;
    var minutes := MinutesToReclaim(o, amount);
    TakenBackIs(o, amount);
    NeedsNetworkIff(s, id, amount, now);
    ReclaimShortens(s.passes[a], minutes, now);
    assert Shortened(s.passes[a], Next(c, s, RefundStep(now, id, req, key, networkUp)).passes[a], minutes, now);
  }

  // ---------- The rewards a refund takes back ----------

  /** The tier asks for more than the account's orders are still worth. */
  ghost predicate OutPriced(c: Catalog, orders: map<Id, Order>, g: GrantKey) {
    exists i :: 0 <= i < |c.tiers| && c.tiers[i].id == g.tier && Sum(orders, NetOf(g.account)) < c.tiers[i].threshold
  }

  lemma OutPricedIff(c: Catalog, orders: map<Id, Order>, g: GrantKey)
    requires c.Valid()
    ensures OutPriced(c, orders, g) <==> OutOfReach(c, g.tier, Sum(orders, NetOf(g.account)))
  {
    FindTierFinds(c.tiers, g.tier);
  }

  lemma CommitTakesRewards(c: Catalog, s: State, now: Time, id: Id, req: RefundRequest, key: Option<string>,
                           amount: int, total: int)
    requires id in s.orders && s.orders[id].account in s.balances
    requires total == Max(0, s.balances[s.orders[id].account].total - amount)
    requires forall g :: g in s.coupons ==> g in s.grants && s.grants[g] == Fulfilled
    ensures var s', a := CommitRefund(c, s, now, id, req, key, amount).state, s.orders[id].account;
            && s'.coupons.Keys == s.coupons.Keys && s'.grants.Keys == s.grants.Keys
            && (forall g :: g in s.coupons ==>
                  s'.coupons[g] == if g.account == a && s.coupons[g].status == Available && OutOfReach(c, g.tier, total)
                                   then s.coupons[g].(status := CouponRevoked) else s.coupons[g])
            && (forall g :: g in s.grants ==>
                  s'.grants[g] == if g.account == a && s.grants[g] == AwaitingChoice && OutOfReach(c, g.tier, total)
                                  then GrantRevoked else s.grants[g])
            && BalanceOf(s', a) == total
  {
    hide OutOfReach, MinutesToReclaim, Reclaim, TiersLost, Remember, Call;
  }

  ghost predicate TakesRewards(c: Catalog, t: State, t': State, a: Account) {
    && t'.coupons.Keys == t.coupons.Keys && t'.grants.Keys == t.grants.Keys
    && (forall g :: g in t.coupons ==>
          t'.coupons[g] == if g.account == a && t.coupons[g].status == Available && OutPriced(c, t'.orders, g)
                           then t.coupons[g].(status := CouponRevoked) else t.coupons[g])
    && (forall g :: g in t.grants ==>
          t'.grants[g] == if g.account == a && t.grants[g] == AwaitingChoice && OutPriced(c, t'.orders, g)
                          then GrantRevoked else t.grants[g])
  }

  lemma CommitTakesRewardsIff(c: Catalog, t: State, now: Time, id: Id, req: RefundRequest, key: Option<string>,
                              amount: int)
    requires c.Valid() && MoneyInv(t) && ChoicesInv(t) && id in t.orders && 0 < amount <= Net(t.orders[id])
    ensures TakesRewards(c, t, CommitRefund(c, t, now, id, req, key, amount).state, t.orders[id].account)
  {
    hide CommitRefund, DaysMatch, StoresOk, OutOfReach, RedemptionsOk, OutPriced;
    var a := t.orders[id].account;
    var t' := CommitRefund(c, t, now, id, req, key, amount).state;
    var total := Max(0, t.balances[a].total - amount);
    RefundKeepsMoney(c, t, now, id, req, key, amount);
    CommitTakesRewards(c, t, now, id, req, key, amount, total);
    forall g: GrantKey | g.account == a ensures OutOfReach(c, g.tier, total) <==> OutPriced(c, t'.orders, g) {
      assert Sum(t'.orders, NetOf(a)) == total;
      OutPricedIff(c, t'.orders, g);
    }
  }

  /**
   * After any run, a refund takes back a waiting grant, and revokes an unused coupon, if and only if it belongs to the
   * order's account and its tier asks for more than the account's orders are then still worth. Every other grant and
   * coupon stays as it was.
   */
  lemma RefundTakesRewardsIff(c: Catalog, s: State, run: seq<Step>, now: Time, id: Id, req: RefundRequest,
                              key: Option<string>, networkUp: bool)
    requires c.Valid() && Initial(s) && MayRefund(Exec(c, s, run), now, id, req, key, networkUp)
    ensures var t := Exec(c, s, run);
            TakesRewards(c, t, Next(c, t, RefundStep(now, id, req, key, networkUp)), t.orders[id].account)
  {
    hide Exec, RefundAnswer, CommitRefund, BalancesMatch, DaysMatch, StoresOk, ChoicesInv, TakesRewards;
    var t := Exec(c, s, run);
    MoneyConserved(c, s, run);
    ChoicesSettled(c, s, run);
    MayRefundIff(t, now, id, req, key, networkUp);
    CommitTakesRewardsIff(c, t, now, id, req, key, RefundAmount(t.orders[id], req));
  }
}
