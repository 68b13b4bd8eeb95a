/** Money is conserved: balances, orders and the day's sales stay in step through every run. */
module Conservation {
  import opened Common
  import opened BusinessDay
  import opened WifiPolicy
  import opened WifiPass
  import opened LedgerModel
  import opened LedgerSteps

  function Net(o: Order): int {
    o.total - o.refunded
  }

  /** An order's contribution to one account's balance. */
  ghost function NetOf(a: Account): (Id, Order) -> int {
    (id, o: Order) => if o.account == a then Net(o) else 0
  }

  predicate At(a: Account, store: Id, day: Day) {
    a.store == store && a.day == day
  }

  /** An order's contribution to a store's business day. */
  ghost function NetAt(store: Id, day: Day): (Id, Order) -> int {
    (id, o: Order) => if At(o.account, store, day) then Net(o) else 0
  }

  /** A customer's contribution to a store's business day. */
  ghost function BalanceAt(store: Id, day: Day): (Account, Balance) -> int {
    (a, b: Balance) => if At(a, store, day) then b.total else 0
  }

  /** Refunds stay within the order's total and the status tells how much was refunded. */
  predicate OrderOk(o: Order) {
    && 0 <= o.refunded <= o.total
    && 0 <= o.wifiMinutes
    && (o.status == Paid <==> o.refunded == 0)
    && (o.status == Refunded <==> 0 < o.refunded == o.total)
  }

  predicate StoresOk(s: State) {
    forall i :: i in s.stores ==> s.stores[i].clock.Valid() && ValidPolicy(s.stores[i].policy)
  }

  predicate OrdersOk(s: State) {
    forall id :: id in s.orders ==>
      OrderOk(s.orders[id]) && s.orders[id].account in s.balances && s.orders[id].account in s.passes
  }

  ghost predicate BalancesMatch(balances: map<Account, Balance>, orders: map<Id, Order>) {
    forall a :: (if a in balances then balances[a].total else 0) == Sum(orders, NetOf(a))
  }

  ghost predicate DaysMatch(balances: map<Account, Balance>, orders: map<Id, Order>) {
    forall store, day :: Sum(balances, BalanceAt(store, day)) == Sum(orders, NetAt(store, day))
  }

  ghost predicate MoneyInv(s: State) {
    && StoresOk(s) && OrdersOk(s) && BalancesMatch(s.balances, s.orders) && DaysMatch(s.balances, s.orders)
    && s.passes.Keys == s.balances.Keys
  }

  lemma InitialMoney(s: State)
    requires Initial(s)
    ensures MoneyInv(s)
  {
  }

  /** A balance covers what is left of each of the account's orders, so a refund never meets its clamp at zero. */
  lemma BalanceCovers(s: State, id: Id)
    requires MoneyInv(s) && id in s.orders
    ensures s.orders[id].account in s.balances
    ensures Net(s.orders[id]) <= s.balances[s.orders[id].account].total
  {
    var a := s.orders[id].account;
    assert forall k :: k in s.orders ==> OrderOk(s.orders[k]);
    SumBounds(s.orders, NetOf(a));
    assert NetOf(a)(id, s.orders[id]) <= Sum(s.orders, NetOf(a));
    assert BalanceOf(s, a) == Sum(s.orders, NetOf(a));
  }

  lemma BalanceNonNegative(s: State, a: Account)
    requires MoneyInv(s)
    ensures 0 <= BalanceOf(s, a)
  {
    assert forall k :: k in s.orders ==> OrderOk(s.orders[k]);
    SumBounds(s.orders, NetOf(a));
  }

  /** Writing one order and moving its account's balance by the same amount keeps every total in step. */
  lemma MoveTogether(s: State, id: Id, order: Order, balance: Balance)
    requires MoneyInv(s)
    requires id in s.orders ==> s.orders[id].account == order.account
    requires balance.total - BalanceOf(s, order.account)
             == Net(order) - (if id in s.orders then Net(s.orders[id]) else 0)
    ensures var orders, balances := s.orders[id := order], s.balances[order.account := balance];
            BalancesMatch(balances, orders) && DaysMatch(balances, orders)
  {
    var orders, balances := s.orders[id := order], s.balances[order.account := balance];
    forall a ensures (if a in balances then balances[a].total else 0) == Sum(orders, NetOf(a)) {
      SumWrite(s.orders, NetOf(a), id, order);
      assert BalanceOf(s, a) == Sum(s.orders, NetOf(a));
    }
    forall store, day ensures Sum(balances, BalanceAt(store, day)) == Sum(orders, NetAt(store, day)) {
      SumWrite(s.orders, NetAt(store, day), id, order);
      SumWrite(s.balances, BalanceAt(store, day), order.account, balance);
      assert Sum(s.balances, BalanceAt(store, day)) == Sum(s.orders, NetAt(store, day));
    }
  }

  lemma MinutesNonNegative(s: State, a: Account, amount: int)
    requires StoresOk(s) && a.store in s.stores
    ensures 0 <= OrderMinutes(s, a, amount)
  {
    OrderMinutesNonNegative(amount, s.stores[a.store].policy);
  }

  lemma CreateKeepsMoney(c: Catalog, s: State, now: Time, req: OrderRequest, key: Option<string>, id: Id, a: Account)
    requires MoneyInv(s) && a.store in s.stores && id !in s.orders && 0 <= req.total
    ensures MoneyInv(CommitOrder(c, s, now, req, key, id, a).state)
  {
    hide EvaluateGrants, ConsumeOldest, PassAfterOrder, OrderMinutes, Remember, BalancesMatch, DaysMatch;
    var s' := CommitOrder(c, s, now, req, key, id, a).state;
    assert 0 <= OrderMinutes(s, a, req.total) by { MinutesNonNegative(s, a, req.total); }
    MoveTogether(s, id, s'.orders[id], s'.balances[a]);
  }

  lemma RefundKeepsMoney(c: Catalog, s: State, now: Time, id: Id, req: RefundRequest, key: Option<string>, amount: int)
    requires MoneyInv(s) && id in s.orders && 0 < amount <= Net(s.orders[id])
    ensures MoneyInv(CommitRefund(c, s, now, id, req, key, amount).state)
  {
    hide GrantsAfterRefund, CouponsAfterRefund, TiersLost, Reclaim, MinutesToReclaim, Remember, BalancesMatch,
         DaysMatch;
    var s' := CommitRefund(c, s, now, id, req, key, amount).state;
    BalanceCovers(s, id);
    MoveTogether(s, id, s'.orders[id], s'.balances[s.orders[id].account]);
  }

  predicate MovesMoney(step: Step) {
    step.CreateOrderStep? || step.RefundStep?
  }

  /** Only orders and refunds touch orders and balances; only orders add passes. */
  lemma OthersLeaveMoney(c: Catalog, s: State, step: Step)
    requires !MovesMoney(step)
    ensures var s' := Next(c, s, step);
            s'.orders == s.orders && s'.balances == s.balances && s'.passes.Keys == s.passes.Keys
            && (!step.PublishStep? ==> s'.stores == s.stores)
  {
    hide CreateOrder, RefundOrder, ChooseReward, RedeemCoupon, ListCoupons, ActivatePass, ExtendPass, ExpirePass,
         BlockPass, ExpireDuePasses, PublishPolicy;
    if step.Aborted? {
      hide Next;
      AbortKeepsTables(c, s, step.request);
    }
  }

  lemma SameMoney(s: State, s': State)
    requires MoneyInv(s) && StoresOk(s')
    requires s'.orders == s.orders && s'.balances == s.balances && s'.passes.Keys == s.passes.Keys
    ensures MoneyInv(s')
  {
    hide BalancesMatch, DaysMatch;
  }

  lemma PublishKeepsStores(s: State, admin: Id, version: int, policy: Policy)
    requires StoresOk(s)
    ensures StoresOk(PublishPolicy(s, admin, version, policy).state)
  {
  }

  lemma OthersKeepMoney(c: Catalog, s: State, step: Step)
    requires MoneyInv(s) && !MovesMoney(step)
    ensures MoneyInv(Next(c, s, step))
  {
    hide PublishPolicy, BalancesMatch, DaysMatch, OrdersOk, ValidPolicy, CreateOrder, RefundOrder, ChooseReward,
         RedeemCoupon, ListCoupons, ActivatePass, ExtendPass, ExpirePass, BlockPass, ExpireDuePasses;
    OthersLeaveMoney(c, s, step);
    assert StoresOk(Next(c, s, step)) by {
      if step.PublishStep? {
        PublishKeepsStores(s, step.admin, step.version, step.policy);
      }
    }
    SameMoney(s, Next(c, s, step));
  }

  lemma StepKeepsMoney(c: Catalog, s: State, step: Step)
    requires MoneyInv(s)
    ensures MoneyInv(Next(c, s, step))
  {
    hide OrderAnswer, RefundAnswer, CommitOrder, CommitRefund, ChooseReward, RedeemCoupon, ListCoupons, ActivatePass,
         ExtendPass, ExpirePass, BlockPass, ExpireDuePasses, PublishPolicy, MoneyInv;
    match step
    case CreateOrderStep(now, order, key, id) =>
      if OrderAnswer(c, s, order, key, id).None? {
        CreateKeepsMoney(c, s, now, order, key, id, OrderAccount(s.stores[order.store], order));
      }
    case RefundStep(now, id, refund, key, networkUp) =>
      if RefundAnswer(s, now, id, refund, key, networkUp).None? {
        RefundKeepsMoney(c, s, now, id, refund, key, RefundAmount(s.orders[id], refund));
      }
    case _ => OthersKeepMoney(c, s, step);
  }

  /** In every reachable state every balance is the sum of what is left of the account's orders, and so is every day. */
  lemma {:induction false} MoneyConserved(c: Catalog, s: State, run: seq<Step>)
    requires Initial(s)
    ensures MoneyInv(Exec(c, s, run))
  {
    if run == [] {
      InitialMoney(s);
    } else {
      MoneyConserved(c, s, run[..|run| - 1]);
      StepKeepsMoney(c, Exec(c, s, run[..|run| - 1]), run[|run| - 1]);
    }
  }
}
