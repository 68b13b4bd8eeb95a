/** Two ledgers in lockstep: one carries out a run, the other the same run with one order and its refunds cut out. */
module OrderCut {
  import opened Common
  import opened BusinessDay
  import opened WifiPass
  import opened LedgerModel
  import opened LedgerSteps
  import opened Conservation
  import opened Rewards
  import opened Choices
  import opened ExpiryAccount

  /** An order to be taken out of a run: its number, its account, its external number and the keys it was sent with. */
  datatype Cut = Cut(order: Id, account: Account, externalId: Id, keys: set<string>)

  /** The step is a request to place the order or to refund it. */
  predicate Concerns(step: Step, cut: Cut) {
    match step
    case CreateOrderStep(_, req, _, id) =>
      id == cut.order || (req.store == cut.account.store && req.externalId == cut.externalId)
    case RefundStep(_, id, _, _, _) => id == cut.order
    case _ => false
  }

  /** The run in which the order was never placed. */
  function Without(run: seq<Step>, cut: Cut): seq<Step> {
    if run == [] then []
    else
      var before, last := run[..|run| - 1], run[|run| - 1];
      if Concerns(last, cut) then Without(before, cut) else Without(before, cut) + [last]
  }

  /**
   * Other orders of the store do not use the order's keys, no reward is spent on it, its pass is not closed by hand,
   * and the controller answers.
   */
  predicate Clear(step: Step, cut: Cut) {
    match step
    case CreateOrderStep(_, req, key, _) =>
      HasKey(key) && req.store == cut.account.store ==> (Concerns(step, cut) <==> key.value in cut.keys)
    case RefundStep(_, id, _, _, networkUp) => id == cut.order || networkUp
    case ChooseStep(_, _, _, _, _, current) => current != Some(cut.order)
    case ExpireStep(_, a, _, _) => a != cut.account
    case BlockStep(_, a, _, _) => a != cut.account
    case ExpireDueStep(_, net) => net.Up?
    case _ => true
  }

  // ---------- What the two runs have in common ----------

  /** Keys no request for the order can use. */
  predicate Apart(scope: Scope, key: string, cut: Cut) {
    scope != RefundScope(cut.order) && !(scope == PosOrderScope(cut.account.store) && key in cut.keys)
  }

  predicate RecordsAlike(t: Records, u: Records, cut: Cut) {
    && (forall k :: k in t && Apart(k.0, k.1, cut) ==> k in u)
    && (forall k :: k in u && Apart(k.0, k.1, cut) ==> k in t)
  }

  predicate PassAlike(p: Pass, q: Pass, own: bool) {
    if own then p.issuedAt == q.issuedAt && !Closed(p.status) && !Closed(q.status) else p == q
  }

  predicate PassesAlike(t: map<Account, Pass>, u: map<Account, Pass>, cut: Cut) {
    t.Keys == u.Keys && forall a :: a in t ==> PassAlike(t[a], u[a], a == cut.account)
  }

  ghost predicate BalancesAlike(t: map<Account, Balance>, u: map<Account, Balance>, cut: Cut) {
    forall a :: a != cut.account ==> (a in t <==> a in u) && (a in t ==> t[a] == u[a])
  }

  ghost predicate GrantsAlike(t: map<GrantKey, GrantStatus>, u: map<GrantKey, GrantStatus>, cut: Cut) {
    forall g: GrantKey :: g.account != cut.account ==> (g in t <==> g in u) && (g in t ==> t[g] == u[g])
  }

  predicate IsCut(o: Order, cut: Cut) {
    o.account == cut.account && o.externalId == cut.externalId
  }

  /** `t` ran with the order, `u` without it: everything that is not the account's own is the same. */
  ghost predicate Lockstep(t: State, u: State, cut: Cut) {
    && t.stores == u.stores
    && u.orders == Drop(t.orders, cut.order)
    && (cut.order in t.orders ==> IsCut(t.orders[cut.order], cut))
    && RecordsAlike(t.records, u.records, cut)
    && PassesAlike(t.passes, u.passes, cut)
    && BalancesAlike(t.balances, u.balances, cut)
    && GrantsAlike(t.grants, u.grants, cut)
  }

  lemma DropWrite(orders: map<Id, Order>, o: Id, id: Id, order: Order)
    ensures Drop(orders[id := order], o) == if id == o then Drop(orders, o) else Drop(orders, o)[id := order]
  {
  }

  lemma BalanceWrite(t: map<Account, Balance>, u: map<Account, Balance>, a: Account, x: Balance, y: Balance, cut: Cut)
    requires BalancesAlike(t, u, cut) && (a != cut.account ==> x == y)
    ensures BalancesAlike(t[a := x], u[a := y], cut)
    ensures a == cut.account ==> BalancesAlike(t[a := x], u, cut)
  {
  }

  /** The account's balance is the same in both runs unless it is the cut order's own. */
  lemma SameBalance(t: State, u: State, a: Account, cut: Cut)
    requires BalancesAlike(t.balances, u.balances, cut) && a != cut.account
    ensures (a in t.balances <==> a in u.balances) && BalanceOf(t, a) == BalanceOf(u, a)
    ensures a in t.balances ==> t.balances[a] == u.balances[a]
  {
  }

  lemma DepositsAlike(t: State, u: State, a: Account, amount: int, cut: Cut)
    requires BalancesAlike(t.balances, u.balances, cut)
    ensures BalancesAlike(Deposit(t.balances, a, amount), Deposit(u.balances, a, amount), cut)
    ensures a == cut.account ==> BalancesAlike(Deposit(t.balances, a, amount), u.balances, cut)
  {
    hide BalancesAlike;
    if a != cut.account {
      SameBalance(t, u, a, cut);
    }
    BalanceWrite(t.balances, u.balances, a, Deposit(t.balances, a, amount)[a], Deposit(u.balances, a, amount)[a], cut);
  }

  lemma WithdrawalsAlike(t: State, u: State, a: Account, amount: int, cut: Cut)
    requires BalancesAlike(t.balances, u.balances, cut)
    ensures BalancesAlike(Withdraw(t.balances, a, amount), Withdraw(u.balances, a, amount), cut)
    ensures a == cut.account ==> BalancesAlike(Withdraw(t.balances, a, amount), u.balances, cut)
  {
  }

  // ---------- Orders ----------

  /** A grant after an order is one there was before, or one of a tier the balance reaches. */
  lemma GrantAfterOrder(c: Catalog, a: Account, total: int, grants: map<GrantKey, GrantStatus>, g: GrantKey)
    requires c.Valid()
    ensures var grants' := EvaluateGrants(c.tiers, a, total, grants).grants;
            && (g in grants' <==> g in grants || (g.account == a && Reached(c, a, g.tier, total)))
            && (g in grants' ==> grants'[g] == if g in grants then grants[g] else AwaitingChoice)
  {
    EvaluateGrantsMeaning(c, |c.tiers|, a, total, grants);
    assert c.tiers[..|c.tiers|] == c.tiers;
    FindTierFinds(c.tiers, g.tier);
  }

  lemma GrantsStayAlike(c: Catalog, t: State, u: State, a: Account, total: int, total': int, cut: Cut)
    requires c.Valid() && GrantsAlike(t.grants, u.grants, cut) && (a != cut.account ==> total == total')
    ensures GrantsAlike(EvaluateGrants(c.tiers, a, total, t.grants).grants,
                        EvaluateGrants(c.tiers, a, total', u.grants).grants, cut)
  {
    hide EvaluateGrants, Reached;
    var x, y := EvaluateGrants(c.tiers, a, total, t.grants).grants, EvaluateGrants(c.tiers, a, total', u.grants).grants;
    forall g: GrantKey | g.account != cut.account ensures (g in x <==> g in y) && (g in x ==> x[g] == y[g]) {
      GrantAfterOrder(c, a, total, t.grants, g);
      GrantAfterOrder(c, a, total', u.grants, g);
    }
  }

  lemma ReplayAlike(t: Records, u: Records, cut: Cut, scope: Scope, key: Option<string>, request: Request)
    requires RecordsAlike(t, u, cut) && (HasKey(key) ==> Apart(scope, key.value, cut))
    ensures Replay(t, scope, key, request).None? <==> Replay(u, scope, key, request).None?
  {
  }

  lemma RememberAlike(t: Records, u: Records, cut: Cut, scope: Scope, key: Option<string>, request: Request, code: int,
                      x: Response, y: Response)
    requires RecordsAlike(t, u, cut)
    ensures RecordsAlike(Remember(t, scope, key, request, code, x), Remember(u, scope, key, request, code, y), cut)
    ensures (HasKey(key) ==> !Apart(scope, key.value, cut)) ==>
            RecordsAlike(Remember(t, scope, key, request, code, x), u, cut)
  {
  }

  lemma ExternalAlike(t: State, u: State, cut: Cut, store: Id, externalId: Id)
    requires Lockstep(t, u, cut) && (store != cut.account.store || externalId != cut.externalId)
    ensures ExternalIdUsed(t.orders, store, externalId) <==> ExternalIdUsed(u.orders, store, externalId)
  {
    if ExternalIdUsed(t.orders, store, externalId) {
      var o :| o in t.orders && t.orders[o].account.store == store && t.orders[o].externalId == externalId;
      assert o in u.orders;
    }
  }

  /** Another order is accepted in both runs or in neither. */
  lemma OrderAnswersAlike(c: Catalog, t: State, u: State, now: Time, req: OrderRequest, key: Option<string>, id: Id,
                          cut: Cut)
    requires Lockstep(t, u, cut)
    requires var step := CreateOrderStep(now, req, key, id); !Concerns(step, cut) && Clear(step, cut)
    ensures OrderAnswer(c, t, req, key, id).None? <==> OrderAnswer(c, u, req, key, id).None?
  {
    hide WellFormedOrder, PricedTotal, ExternalIdUsed, Replay, RecordsAlike, BalancesAlike, GrantsAlike, BusinessDate;
    ReplayAlike(t.records, u.records, cut, PosOrderScope(req.store), key, OrderBody(req));
    ExternalAlike(t, u, cut, req.store, req.externalId);
  }

  lemma PassAfterOrderAlike(t: State, u: State, a: Account, amount: int, now: Time, cut: Cut)
    requires a.store in t.stores && t.stores == u.stores && PassesAlike(t.passes, u.passes, cut)
    ensures OrderMinutes(t, a, amount) == OrderMinutes(u, a, amount)
    ensures var minutes := OrderMinutes(t, a, amount);
            PassesAlike(t.passes[a := PassAfterOrder(t, a, minutes, now)],
                        u.passes[a := PassAfterOrder(u, a, minutes, now)], cut)
  {
    hide OrderMinutes;
    assert OrderMinutes(t, a, amount) == OrderMinutes(u, a, amount) by { SameMinutes(t, u, a, amount); }
  }

  lemma SameMinutes(t: State, u: State, a: Account, amount: int)
    requires a.store in t.stores && t.stores == u.stores && t.passes.Keys == u.passes.Keys
    ensures OrderMinutes(t, a, amount) == OrderMinutes(u, a, amount)
  {
  }

  lemma CommitOrdersAlike(c: Catalog, t: State, u: State, now: Time, req: OrderRequest, key: Option<string>, id: Id,
                          a: Account, cut: Cut)
    requires c.Valid() && Lockstep(t, u, cut) && a.store in t.stores && id != cut.order
    ensures Lockstep(CommitOrder(c, t, now, req, key, id, a).state, CommitOrder(c, u, now, req, key, id, a).state, cut)
  {
    hide EvaluateGrants, ConsumeOldest, OrderMinutes, PassAfterOrder, Remember, Deposit, Drop, BalanceOf,
         RecordsAlike, GrantsAlike, PassesAlike, BalancesAlike, IsCut;
    var x, y := CommitOrder(c, t, now, req, key, id, a), CommitOrder(c, u, now, req, key, id, a);
    PassAfterOrderAlike(t, u, a, req.total, now, cut);
    DepositsAlike(t, u, a, req.total, cut);
    if a != cut.account {
      SameBalance(t, u, a, cut);
    }
    GrantsStayAlike(c, t, u, a, BalanceOf(t, a) + req.total, BalanceOf(u, a) + req.total, cut);
    RememberAlike(t.records, u.records, cut, PosOrderScope(req.store), key, OrderBody(req), 201,
                  x.outcome.response, y.outcome.response);
    DropWrite(t.orders, cut.order, id, x.state.orders[id]);
  }

  /** What an order earns concerns its own account only. */
  lemma OwnGrantsApart(c: Catalog, t: State, u: State, total: int, cut: Cut)
    requires c.Valid() && GrantsAlike(t.grants, u.grants, cut)
    ensures GrantsAlike(EvaluateGrants(c.tiers, cut.account, total, t.grants).grants, u.grants, cut)
  {
    hide EvaluateGrants, Reached;
    var x := EvaluateGrants(c.tiers, cut.account, total, t.grants).grants;
    forall g: GrantKey | g.account != cut.account
      ensures (g in x <==> g in t.grants) && (g in t.grants ==> x[g] == t.grants[g]) {
      GrantAfterOrder(c, cut.account, total, t.grants, g);
    }
  }

  lemma OwnExtensionApart(t: State, u: State, minutes: int, now: Time, cut: Cut)
    requires PassesAlike(t.passes, u.passes, cut) && cut.account in t.passes
    ensures PassesAlike(t.passes[cut.account := PassAfterOrder(t, cut.account, minutes, now)], u.passes, cut)
  {
  }

  /** Placing the order itself moves only the run that has it. */
  lemma OwnOrderOneSided(c: Catalog, t: State, u: State, now: Time, req: OrderRequest, key: Option<string>, id: Id,
                         cut: Cut)
    requires c.Valid() && Lockstep(t, u, cut) && cut.account in t.passes && cut.account.store in t.stores
    requires id == cut.order && req.externalId == cut.externalId && req.store == cut.account.store
    requires HasKey(key) ==> key.value in cut.keys
    ensures Lockstep(CommitOrder(c, t, now, req, key, id, cut.account).state, u, cut)
  {
    hide EvaluateGrants, ConsumeOldest, OrderMinutes, PassAfterOrder, Remember, Deposit, Drop, BalanceOf,
         RecordsAlike, GrantsAlike, PassesAlike, BalancesAlike;
    var a := cut.account;
    var x := CommitOrder(c, t, now, req, key, id, a);
    RememberAlike(t.records, u.records, cut, PosOrderScope(req.store), key, OrderBody(req), 201,
                  x.outcome.response, x.outcome.response);
    OwnGrantsApart(c, t, u, BalanceOf(t, a) + req.total, cut);
    OwnExtensionApart(t, u, OrderMinutes(t, a, req.total), now, cut);
    DepositsAlike(t, u, a, req.total, cut);
    DropWrite(t.orders, cut.order, id, x.state.orders[id]);
  }

  // ---------- Refunds ----------

  lemma RefundAnswersAlike(t: State, u: State, now: Time, id: Id, req: RefundRequest, key: Option<string>, cut: Cut)
    requires Lockstep(t, u, cut) && id != cut.order
    ensures RefundAnswer(t, now, id, req, key, true).None? <==> RefundAnswer(u, now, id, req, key, true).None?
    ensures id in t.orders <==> id in u.orders
    ensures id in t.orders ==> u.orders[id] == t.orders[id]
  {
    hide Replay, RecordsAlike, BalancesAlike, GrantsAlike, PassesAlike, NeedsNetwork;
    ReplayAlike(t.records, u.records, cut, RefundScope(id), key, RefundBody(req));
  }

  lemma RefundPassesAlike(t: State, u: State, a: Account, minutes: int, now: Time, cut: Cut)
    requires PassesAlike(t.passes, u.passes, cut)
    ensures a in t.passes ==>
              PassesAlike(t.passes[a := Reclaim(t.passes[a], minutes, now).pass],
                          u.passes[a := Reclaim(u.passes[a], minutes, now).pass], cut)
    ensures a in t.passes && a == cut.account ==>
              PassesAlike(t.passes[a := Reclaim(t.passes[a], minutes, now).pass], u.passes, cut)
  {
  }

  lemma RefundGrantsAlike(c: Catalog, t: State, u: State, a: Account, total: int, total': int, cut: Cut)
    requires GrantsAlike(t.grants, u.grants, cut) && (a != cut.account ==> total == total')
    ensures GrantsAlike(GrantsAfterRefund(c, t.grants, a, total), GrantsAfterRefund(c, u.grants, a, total'), cut)
    ensures a == cut.account ==> GrantsAlike(GrantsAfterRefund(c, t.grants, a, total), u.grants, cut)
  {
    hide OutOfReach;
  }

  lemma CommitRefundsAlike(c: Catalog, t: State, u: State, now: Time, id: Id, req: RefundRequest, key: Option<string>,
                           amount: int, cut: Cut)
    requires Lockstep(t, u, cut) && id != cut.order && id in t.orders && id in u.orders && u.orders[id] == t.orders[id]
    ensures Lockstep(CommitRefund(c, t, now, id, req, key, amount).state,
                     CommitRefund(c, u, now, id, req, key, amount).state, cut)
  {
    hide Remember, Reclaim, MinutesToReclaim, GrantsAfterRefund, CouponsAfterRefund, TiersLost, Withdraw, Drop,
         RefundedOrder, RecordsAlike, PassesAlike, GrantsAlike, BalancesAlike;
    var x, y := CommitRefund(c, t, now, id, req, key, amount), CommitRefund(c, u, now, id, req, key, amount);
    var order := RefundedOrder(t.orders[id], amount);
    var a := order.account;
    SameKeys(t, u, cut);
    RefundPassesAlike(t, u, a, MinutesToReclaim(t.orders[id], amount), now, cut);
    WithdrawalsAlike(t, u, a, amount, cut);
    if a != cut.account {
      SameBalance(x.state, y.state, a, cut);
    }
    RefundGrantsAlike(c, t, u, a, BalanceOf(x.state, a), BalanceOf(y.state, a), cut);
    RememberAlike(t.records, u.records, cut, RefundScope(id), key, RefundBody(req), 200, x.outcome.response,
        y.outcome.response);
    DropWrite(t.orders, cut.order, id, order);
  }

  lemma SameKeys(t: State, u: State, cut: Cut)
    requires Lockstep(t, u, cut)
    ensures t.passes.Keys == u.passes.Keys
  {
  }

  /** Refunding the order itself moves only the run that has it. */
  lemma OwnRefundOneSided(c: Catalog, t: State, u: State, now: Time, req: RefundRequest, key: Option<string>,
                          amount: int, cut: Cut)
    requires Lockstep(t, u, cut) && cut.order in t.orders
    ensures Lockstep(CommitRefund(c, t, now, cut.order, req, key, amount).state, u, cut)
  {
    hide Remember, Reclaim, MinutesToReclaim, GrantsAfterRefund, CouponsAfterRefund, TiersLost, Withdraw, Drop,
         RecordsAlike, PassesAlike, GrantsAlike, BalancesAlike;
    var x := CommitRefund(c, t, now, cut.order, req, key, amount);
    var a := cut.account;
    RefundPassesAlike(t, u, a, MinutesToReclaim(t.orders[cut.order], amount), now, cut);
    WithdrawalsAlike(t, u, a, amount, cut);
    RefundGrantsAlike(c, t, u, a, BalanceOf(x.state, a), 0, cut);
    RememberAlike(t.records, u.records, cut, RefundScope(cut.order), key, RefundBody(req), 200,
                  x.outcome.response, x.outcome.response);
    DropWrite(t.orders, cut.order, cut.order, RefundedOrder(t.orders[cut.order], amount));
  }

  // ---------- The other requests ----------

  /** Nothing but passes and grants moved; the rest of the tables is as alike as before. */
  lemma StillLockstep(t: State, u: State, t': State, u': State, cut: Cut)
    requires Lockstep(t, u, cut)
    requires t'.stores == u'.stores && t'.orders == t.orders && u'.orders == u.orders
    requires t'.records == t.records && u'.records == u.records
    requires t'.balances == t.balances && u'.balances == u.balances
    requires PassesAlike(t'.passes, u'.passes, cut) && GrantsAlike(t'.grants, u'.grants, cut)
    ensures Lockstep(t', u', cut)
  {
    hide PassesAlike, GrantsAlike, RecordsAlike, BalancesAlike;
  }

  /** Refused choices apart, a choice is possible exactly when its grant waits, and the rest of its conditions hold. */
  lemma ChoicesAlike(c: Catalog, t: State, u: State, claims: Claims, g: GrantKey, benefit: Id, asCoupon: bool,
                     order: Option<Id>,
                     cut: Cut)
    requires Lockstep(t, u, cut) && ChoicesInv(t) && ChoicesInv(u) && order != Some(cut.order)
             && g.account != cut.account
    ensures ChooseRefusal(c, t, claims, g, benefit, asCoupon, order).None? <==>
            ChooseRefusal(c, u, claims, g, benefit, asCoupon, order).None?
  {
    hide RecordsAlike, BalancesAlike;
    WaitingIsUnspent(t, g);
    WaitingIsUnspent(u, g);
    assert OrderBelongs(t.orders, order, g.account) <==> OrderBelongs(u.orders, order, g.account);
    hide OrderBelongs, Drop, ChoicesInv, Redeems;
  }

  lemma WaitingIsUnspent(s: State, g: GrantKey)
    requires ChoicesInv(s)
    ensures g in s.grants && s.grants[g] == AwaitingChoice ==> g !in s.coupons && !Redeems(s.redemptions, g)
  {
  }

  lemma GrantWrite(t: map<GrantKey, GrantStatus>, u: map<GrantKey, GrantStatus>, g: GrantKey, cut: Cut)
    requires GrantsAlike(t, u, cut)
    ensures GrantsAlike(t[g := Fulfilled], u[g := Fulfilled], cut)
    ensures g.account == cut.account ==>
              GrantsAlike(t[g := Fulfilled], u, cut) && GrantsAlike(t, u[g := Fulfilled], cut)
  {
  }

  lemma DayPassesAlike(t: State, u: State, a: Account, cut: Cut)
    requires PassesAlike(t.passes, u.passes, cut) && t.stores == u.stores && a in t.passes && a.store in t.stores
    ensures PassesAlike(AddDayPass(t, a), AddDayPass(u, a), cut)
    ensures a == cut.account ==>
              PassesAlike(AddDayPass(t, a), u.passes, cut) && PassesAlike(t.passes, AddDayPass(u, a), cut)
  {
    hide BusinessDayEnd;
  }

  /** The passes after a choice. */
  function ChosenPasses(c: Catalog, s: State, g: GrantKey, benefit: Id, asCoupon: bool,
                        accepted: bool): map<Account, Pass>
    requires accepted && IsDayPass(c, benefit, asCoupon) ==> g.account in s.passes && g.account.store in s.stores
  {
    if accepted && IsDayPass(c, benefit, asCoupon) then AddDayPass(s, g.account) else s.passes
  }

  lemma ChosenPassesAlike(c: Catalog, t: State, u: State, g: GrantKey, benefit: Id, asCoupon: bool, x: bool, y: bool,
                          cut: Cut)
    requires Lockstep(t, u, cut) && (g.account != cut.account ==> x == y)
    requires x && IsDayPass(c, benefit, asCoupon) ==> g.account in t.passes && g.account.store in t.stores
    requires y && IsDayPass(c, benefit, asCoupon) ==> g.account in u.passes && g.account.store in u.stores
    ensures PassesAlike(ChosenPasses(c, t, g, benefit, asCoupon, x), ChosenPasses(c, u, g, benefit, asCoupon, y), cut)
  {
    hide IsDayPass, AddDayPass, PassesAlike, RecordsAlike, BalancesAlike, GrantsAlike, Drop;
    SameKeys(t, u, cut);
    if IsDayPass(c, benefit, asCoupon) && (x || y) {
      DayPassesAlike(t, u, g.account, cut);
    }
  }

  function ChosenGrants(s: State, g: GrantKey, accepted: bool): map<GrantKey, GrantStatus> {
    if accepted then s.grants[g := Fulfilled] else s.grants
  }

  lemma ChoiceEffect(c: Catalog, s: State, now: Time, claims: Claims, g: GrantKey, benefit: Id, asCoupon: bool,
                     order: Option<Id>)
    ensures var s' := ChooseReward(c, s, now, claims, g, benefit, asCoupon, order).state;
            var accepted := ChooseRefusal(c, s, claims, g, benefit, asCoupon, order).None?;
            && s'.grants == ChosenGrants(s, g, accepted)
            && (accepted && IsDayPass(c, benefit, asCoupon) ==> g.account in s.passes && g.account.store in s.stores)
            && s'.passes == ChosenPasses(c, s, g, benefit, asCoupon, accepted)
  {
    hide ChooseRefusal, AddDayPass, IsDayPass;
  }

  lemma ChooseAlike(c: Catalog, t: State, u: State, now: Time, claims: Claims, g: GrantKey, benefit: Id, asCoupon: bool,
                    order: Option<Id>, cut: Cut)
    requires Lockstep(t, u, cut) && ChoicesInv(t) && ChoicesInv(u) && order != Some(cut.order)
    ensures Lockstep(ChooseReward(c, t, now, claims, g, benefit, asCoupon, order).state,
                     ChooseReward(c, u, now, claims, g, benefit, asCoupon, order).state, cut)
  {
    hide ChooseReward, ChooseRefusal, IsDayPass, ChosenPasses, PassesAlike, GrantsAlike, RecordsAlike, BalancesAlike,
         Drop, ChoicesInv;
    if g.account != cut.account {
      ChoicesAlike(c, t, u, claims, g, benefit, asCoupon, order, cut);
    }
    var x := ChooseRefusal(c, t, claims, g, benefit, asCoupon, order).None?;
    var y := ChooseRefusal(c, u, claims, g, benefit, asCoupon, order).None?;
    ChoiceEffect(c, t, now, claims, g, benefit, asCoupon, order);
    ChoiceEffect(c, u, now, claims, g, benefit, asCoupon, order);
    ChosenPassesAlike(c, t, u, g, benefit, asCoupon, x, y, cut);
    GrantWrite(t.grants, u.grants, g, cut);
    StillLockstep(t, u, ChooseReward(c, t, now, claims, g, benefit, asCoupon, order).state,
                  ChooseReward(c, u, now, claims, g, benefit, asCoupon, order).state, cut);
  }

  lemma PassWrite(t: map<Account, Pass>, u: map<Account, Pass>, a: Account, p: Pass, q: Pass, cut: Cut)
    requires PassesAlike(t, u, cut) && PassAlike(p, q, a == cut.account)
    ensures PassesAlike(t[a := p], u[a := q], cut)
  {
  }

  lemma SamePass(t: map<Account, Pass>, u: map<Account, Pass>, a: Account, cut: Cut)
    requires PassesAlike(t, u, cut)
    ensures a in t <==> a in u
    ensures a in t ==> PassAlike(t[a], u[a], a == cut.account)
  {
  }

  function TriedActivation(p: Pass, now: Time, session: Option<Id>): Pass {
    if !Activatable(p) then p
    else if p.expiresAt <= now then p.(status := Expired)
    else if session.None? then p
    else Activate(p, session.value, now)
  }

  lemma ActivateWrites(s: State, now: Time, claims: Claims, a: Account, session: Option<Id>)
    ensures ActivatePass(s, now, claims, a, session).state.passes
            == if a in s.passes && Owns(claims, a) then s.passes[a := TriedActivation(s.passes[a], now, session)]
               else s.passes
  {
    hide Activate, Call;
  }

  lemma ActivateAlike(t: State, u: State, now: Time, claims: Claims, a: Account, session: Option<Id>, cut: Cut)
    requires PassesAlike(t.passes, u.passes, cut)
    ensures PassesAlike(ActivatePass(t, now, claims, a, session).state.passes,
                        ActivatePass(u, now, claims, a, session).state.passes, cut)
  {
    hide PassesAlike, Owns, ActivatePass;
    ActivateWrites(t, now, claims, a, session);
    ActivateWrites(u, now, claims, a, session);
    SamePass(t.passes, u.passes, a, cut);
    if a in t.passes {
      PassWrite(t.passes, u.passes, a, TriedActivation(t.passes[a], now, session),
                TriedActivation(u.passes[a], now, session), cut);
    }
  }

  lemma ExtendAlike(t: State, u: State, now: Time, admin: Id, a: Account, requested: Option<Id>, minutes: int, cut: Cut)
    requires PassesAlike(t.passes, u.passes, cut)
    ensures var x := ExtendPass(t, now, admin, a, requested, minutes);
            var y := ExtendPass(u, now, admin, a, requested, minutes);
            PassesAlike(x.state.passes, y.state.passes, cut) && (x.outcome.Done? <==> y.outcome.Done?)
  {
    hide PassesAlike, ExtendPass;
    ExtendWrites(t, now, admin, a, requested, minutes);
    ExtendWrites(u, now, admin, a, requested, minutes);
    SamePass(t.passes, u.passes, a, cut);
    if a in t.passes && !Closed(t.passes[a].status) {
      PassWrite(t.passes, u.passes, a, Extend(t.passes[a], minutes, now), Extend(u.passes[a], minutes, now), cut);
    }
  }

  predicate MayManage(admin: Id, a: Account, requested: Option<Id>) {
    a.store == admin && (requested.None? || requested.value == a.store)
  }

  function TriedEnd(p: Pass, networkUp: bool): Pass {
    if (Terminal(p.status) && !p.status.Failed?) || !networkUp then p else Close(p, Cancelled)
  }

  function TriedBlock(p: Pass, networkUp: bool): Pass {
    if Terminal(p.status) || !networkUp then p else Close(p, Blocked)
  }

  lemma EndWrites(s: State, admin: Id, a: Account, requested: Option<Id>, networkUp: bool)
    ensures ExpirePass(s, admin, a, requested, networkUp).state.passes
            == if a in s.passes && MayManage(admin, a, requested) then s.passes[a := TriedEnd(s.passes[a], networkUp)]
               else s.passes
  {
    hide Call, Close;
  }

  lemma BlockWrites(s: State, admin: Id, a: Account, requested: Option<Id>, networkUp: bool)
    ensures BlockPass(s, admin, a, requested, networkUp).state.passes
            == if a in s.passes && MayManage(admin, a, requested) then s.passes[a := TriedBlock(s.passes[a], networkUp)]
               else s.passes
  {
    hide Call, Close;
  }

  lemma EndAlike(t: State, u: State, admin: Id, a: Account, requested: Option<Id>, networkUp: bool, cut: Cut)
    requires PassesAlike(t.passes, u.passes, cut) && a != cut.account
    ensures PassesAlike(ExpirePass(t, admin, a, requested, networkUp).state.passes,
                        ExpirePass(u, admin, a, requested, networkUp).state.passes, cut)
    ensures PassesAlike(BlockPass(t, admin, a, requested, networkUp).state.passes,
                        BlockPass(u, admin, a, requested, networkUp).state.passes, cut)
  {
    hide PassesAlike, ExpirePass, BlockPass, TriedEnd, TriedBlock;
    EndWrites(t, admin, a, requested, networkUp);
    EndWrites(u, admin, a, requested, networkUp);
    BlockWrites(t, admin, a, requested, networkUp);
    BlockWrites(u, admin, a, requested, networkUp);
    SamePass(t.passes, u.passes, a, cut);
    if a in t.passes {
      var p := t.passes[a];
      PassWrite(t.passes, u.passes, a, TriedEnd(p, networkUp), TriedEnd(p, networkUp), cut);
      PassWrite(t.passes, u.passes, a, TriedBlock(p, networkUp), TriedBlock(p, networkUp), cut);
    }
  }

  lemma DueAlike(t: State, u: State, now: Time, cut: Cut)
    requires PassesAlike(t.passes, u.passes, cut)
    ensures PassesAlike(ExpireDuePasses(t, now, Up).state.passes, ExpireDuePasses(u, now, Up).state.passes, cut)
  {
    hide RevokeAll;
  }

  // ---------- Steps ----------

  /** Orders, refunds, extensions, and choices of other accounts take effect in both ledgers or in neither. */
  predicate AcceptedAlike(c: Catalog, t: State, u: State, step: Step, cut: Cut) {
    match step
    case CreateOrderStep(_, req, key, id) =>
      OrderAnswer(c, t, req, key, id).None? <==> OrderAnswer(c, u, req, key, id).None?
    case RefundStep(now, id, req, key, networkUp) =>
      RefundAnswer(t, now, id, req, key, networkUp).None? <==> RefundAnswer(u, now, id, req, key, networkUp).None?
    case ChooseStep(_, claims, g, benefit, asCoupon, order) =>
      g.account != cut.account ==>
        (ChooseRefusal(c, t, claims, g, benefit, asCoupon, order).None? <==>
         ChooseRefusal(c, u, claims, g, benefit, asCoupon, order).None?)
    case ExtendStep(now, admin, a, requested, minutes) =>
      ExtendPass(t, now, admin, a, requested, minutes).outcome.Done? <==>
      ExtendPass(u, now, admin, a, requested, minutes).outcome.Done?
    case _ => true
  }

  lemma OthersAccepted(c: Catalog, t: State, u: State, step: Step, cut: Cut)
    requires ChoicesInv(t) && ChoicesInv(u)
    requires Lockstep(t, u, cut) && !Concerns(step, cut) && Clear(step, cut)
    ensures AcceptedAlike(c, t, u, step, cut)
  {
    hide OrderAnswer, RefundAnswer, ChooseRefusal, ExtendPass, ChoicesInv, PassesAlike, GrantsAlike, RecordsAlike,
         BalancesAlike, Drop;
    match step
    case CreateOrderStep(now, req, key, id) => OrderAnswersAlike(c, t, u, now, req, key, id, cut);
    case RefundStep(now, id, req, key, _) => RefundAnswersAlike(t, u, now, id, req, key, cut);
    case ChooseStep(_, claims, g, benefit, asCoupon, order) =>
      if g.account != cut.account {
        ChoicesAlike(c, t, u, claims, g, benefit, asCoupon, order, cut);
      }
    case ExtendStep(now, admin, a, requested, minutes) => ExtendAlike(t, u, now, admin, a, requested, minutes, cut);
    case _ =>
  }

  /** Any other request is accepted alike and keeps the two ledgers in lockstep. */
  lemma BothMove(c: Catalog, t: State, u: State, step: Step, cut: Cut)
    requires c.Valid() && ChoicesInv(t) && ChoicesInv(u)
    requires Lockstep(t, u, cut) && !Concerns(step, cut) && Clear(step, cut)
    ensures Lockstep(Next(c, t, step), Next(c, u, step), cut)
    ensures AcceptedAlike(c, t, u, step, cut)
  {
    hide OrderAnswer, RefundAnswer, CommitOrder, CommitRefund, ChooseReward, ChoicesInv, RedeemCoupon, ListCoupons,
         ActivatePass, ExtendPass, ExpirePass, BlockPass, ExpireDuePasses, PublishPolicy, Lockstep, PassesAlike,
         AcceptedAlike;
    OthersAccepted(c, t, u, step, cut);
    match step
    case CreateOrderStep(now, req, key, id) =>
      OrderAnswersAlike(c, t, u, now, req, key, id, cut);
      SameStores(t, u, cut);
      if OrderAnswer(c, t, req, key, id).None? {
        CommitOrdersAlike(c, t, u, now, req, key, id, OrderAccount(t.stores[req.store], req), cut);
      }
    case RefundStep(now, id, refund, key, _) =>
      RefundAnswersAlike(t, u, now, id, refund, key, cut);
      if RefundAnswer(t, now, id, refund, key, true).None? {
        CommitRefundsAlike(c, t, u, now, id, refund, key, RefundAmount(t.orders[id], refund), cut);
      }
    case ChooseStep(now, claims, g, benefit, asCoupon, current) =>
      ChooseAlike(c, t, u, now, claims, g, benefit, asCoupon, current, cut);
    case PublishStep(admin, version, policy) => PublishAlike(t, u, admin, version, policy, cut);
    case Aborted(_) => AbortAlike(c, t, u, step, cut);
    case _ => PassStepAlike(c, t, u, step, cut);
  }

  lemma SameStores(t: State, u: State, cut: Cut)
    requires Lockstep(t, u, cut)
    ensures t.stores == u.stores
  {
  }

  lemma PublishAlike(t: State, u: State, admin: Id, version: int, policy: WifiPolicy.Policy, cut: Cut)
    requires Lockstep(t, u, cut)
    ensures Lockstep(PublishPolicy(t, admin, version, policy).state, PublishPolicy(u, admin, version, policy).state,
            cut)
  {
    hide WellFormedPolicy, WifiPolicy.Publishable, PassesAlike, GrantsAlike, RecordsAlike, BalancesAlike, Drop;
  }

  lemma PassStepAlike(c: Catalog, t: State, u: State, step: Step, cut: Cut)
    requires Lockstep(t, u, cut) && Clear(step, cut) && !MovesMoney(step) && !step.ChooseStep? && !step.PublishStep? &&
             !step.Aborted?
    ensures Lockstep(Next(c, t, step), Next(c, u, step), cut)
  {
    hide RedeemCoupon, ListCoupons, ActivatePass, ExtendPass, ExpirePass, BlockPass, ExpireDuePasses, PassesAlike,
         GrantsAlike, RecordsAlike, BalancesAlike, Drop;
    match step
    case ActivateStep(now, claims, a, session) => ActivateAlike(t, u, now, claims, a, session, cut);
    case ExtendStep(now, admin, a, requested, minutes) => ExtendAlike(t, u, now, admin, a, requested, minutes, cut);
    case ExpireStep(admin, a, requested, networkUp) => EndAlike(t, u, admin, a, requested, networkUp, cut);
    case BlockStep(admin, a, requested, networkUp) => EndAlike(t, u, admin, a, requested, networkUp, cut);
    case ExpireDueStep(now, net) => DueAlike(t, u, now, cut);
    case _ =>
  }

  /** A request that is aborted touches no table. */
  lemma AbortAlike(c: Catalog, t: State, u: State, step: Step, cut: Cut)
    requires Lockstep(t, u, cut) && step.Aborted?
    ensures Lockstep(Next(c, t, step), Next(c, u, step), cut)
  {
    hide Next, Handle, PassesAlike, GrantsAlike, RecordsAlike, BalancesAlike, Drop;
    AbortKeepsTables(c, t, step.request);
    AbortKeepsTables(c, u, step.request);
    StillLockstep(t, u, Next(c, t, step), Next(c, u, step), cut);
  }

  /**
   * The only request concerning the order that is accepted as an order is the one that places it, on a pass there is.
   */
  predicate Own(c: Catalog, s: State, step: Step, cut: Cut) {
    step.CreateOrderStep? && Concerns(step, cut) && OrderAnswer(c, s, step.order, step.key, step.id).None? ==>
      && step.id == cut.order && step.order.externalId == cut.externalId
      && OrderAccount(s.stores[step.order.store], step.order) == cut.account
      && cut.account in s.passes
  }

  /** A request concerning the order moves only the run that has it. */
  lemma OneSideMoves(c: Catalog, t: State, u: State, step: Step, cut: Cut)
    requires c.Valid() && Lockstep(t, u, cut) && Concerns(step, cut) && Clear(step, cut) && Own(c, t, step, cut)
    ensures Lockstep(Next(c, t, step), u, cut)
  {
    hide OrderAnswer, RefundAnswer, CommitOrder, CommitRefund, Lockstep, BusinessDate;
    match step
    case CreateOrderStep(now, req, key, id) =>
      if OrderAnswer(c, t, req, key, id).None? {
        OwnOrderOneSided(c, t, u, now, req, key, id, cut);
      }
    case RefundStep(now, id, refund, key, networkUp) =>
      if RefundAnswer(t, now, id, refund, key, networkUp).None? {
        OwnRefundOneSided(c, t, u, now, refund, key, RefundAmount(t.orders[id], refund), cut);
      }
  }

  /** Extensions succeed in both runs or in neither. */
  lemma BothAdd(c: Catalog, t: State, u: State, step: Step, a: Account, cut: Cut)
    requires Lockstep(t, u, cut)
    ensures Added(c, t, step, a) == Added(c, u, step, a)
  {
    hide ExtendPass, PassesAlike, GrantsAlike, RecordsAlike, BalancesAlike;
    if step.ExtendStep? {
      ExtendAlike(t, u, step.now, step.admin, step.account, step.requested, step.minutes, cut);
    }
  }
}
