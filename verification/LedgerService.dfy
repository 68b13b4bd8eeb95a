/**
 * The back end as it runs: rows and tables that requests update in place. Every method is proved to do to the tables
 * exactly what its function in LedgerSteps does to their values.
 */
module LedgerService {
  import opened Common
  import opened BusinessDay
  import opened Proration
  import opened WifiPolicy
  import opened WifiPass
  import opened LedgerModel
  import Steps = LedgerSteps

  /** A pass row (app/models.py); the code changes its fields one by one. */
  class PassRow {
    var status: PassStatus
    var issuedAt: Time
    var activatedAt: Option<Time>
    var expiresAt: Time
    var version: int
    var reference: Option<Id>

    function Value(): Pass
      reads this
    {
      Pass(status, issuedAt, activatedAt, expiresAt, version, reference)
    }

    constructor (minutes: int, now: Time)
      ensures Value() == Issue(minutes, now)
    {
      status := Issued;
      issuedAt := now;
      activatedAt := None;
      expiresAt := now + minutes * MINUTE;
      version := 1;
      reference := None;
    }

    method Extend(minutes: int, now: Time)
      modifies this
      ensures Value() == WifiPass.Extend(old(Value()), minutes, now)
    {
      expiresAt := Max(expiresAt, now) + minutes * MINUTE;
      version := version + 1;
      if status == Expired {
        status := Active;
      }
    }

    /** Returns the removed minutes and, when the pass ends, asks for its session to be revoked. */
    method Reclaim(minutes: int, now: Time) returns (removed: int, revokes: bool)
      modifies this
      ensures Reclaimed(Value(), removed, revokes) == WifiPass.Reclaim(old(Value()), minutes, now)
    {
      if minutes <= 0 || Terminal(status) {
        return 0, false;
      }
      if expiresAt <= now {
        return 0, false;
      }
      var next := Max(now, expiresAt - minutes * MINUTE);
      removed := (expiresAt - next + MINUTE - 1) / MINUTE;
      if next == expiresAt {
        return 0, false;
      }
      expiresAt := next;
      version := version + 1;
      revokes := next <= now;
      if revokes {
        status := Expired;
        reference := None;
      }
    }

    /** Discards what was not committed. */
    method Load(p: Pass)
      modifies this
      ensures Value() == p
    {
      status, issuedAt, activatedAt, expiresAt, version, reference :=
        p.status, p.issuedAt, p.activatedAt, p.expiresAt, p.version, p.reference;
    }

    method Close(closed: PassStatus)
      modifies this
      ensures Value() == WifiPass.Close(old(Value()), closed)
    {
      status := closed;
      reference := None;
      version := version + 1;
    }
  }

  class Ledger {
    const catalog: Catalog
    var stores: map<Id, Store>
    var orders: map<Id, Order>
    var balances: map<Account, Balance>
    var passes: map<Account, PassRow>
    var grants: map<GrantKey, GrantStatus>
    var coupons: map<GrantKey, Coupon>
    var redemptions: seq<Redemption>
    var records: Records
    var calls: CallLog

    /** Different accounts have different rows. */
    ghost predicate Valid()
      reads `passes
    {
      forall a, b :: a in passes && b in passes && a != b ==> passes[a] != passes[b]
    }

    ghost function Rows(): set<PassRow>
      reads `passes
    {
      set a | a in passes :: passes[a]
    }

    ghost function PassValues(): map<Account, Pass>
      reads `passes, Rows()
    {
      map a | a in passes :: passes[a].Value()
    }

    /** The values of all tables. */
    ghost function Snapshot(): State
      reads this, Rows()
    {
      State(stores, orders, balances, PassValues(), grants, coupons, redemptions, records, calls)
    }

    constructor (catalog: Catalog, stores: map<Id, Store>)
      ensures Valid() && this.catalog == catalog
      ensures Snapshot() == State(stores, map[], map[], map[], map[], map[], [], map[], map[])
    {
      this.catalog := catalog;
      this.stores := stores;
      orders, balances, passes, grants, coupons := map[], map[], map[], map[], map[];
      redemptions, records, calls := [], map[], map[];
      new;
      assert PassValues() == map[];
    }

    // ---------- Orders ----------

    /** Sums the items, stopping at the first that is not sold here. */
    method PriceItems(store: Id, items: seq<OrderItem>) returns (priced: Option<int>)
      ensures priced == Steps.PricedTotal(catalog.products, store, items)
    {
      var total := 0;
      for i := 0 to |items|
        invariant Steps.PricedTotal(catalog.products, store, items[..i]) == Some(total)
      {
        assert items[..i + 1][..i] == items[..i];
        var item := items[i];
        if item.product !in catalog.products
           || catalog.products[item.product].store != store
           || !catalog.products[item.product].active {
          UnpricedStays(catalog.products, store, items, i + 1);
          return None;
        }
        var price := if item.unitPrice.Some? then item.unitPrice.value else catalog.products[item.product].price;
        total := total + item.quantity * price;
      }
      assert items[..|items|] == items;
      return Some(total);
    }

    /** Adds the amount to the balance and grants every reached tier that has no grant yet. */
    method EvaluateGrants(a: Account, amount: int) returns (total: int, earned: seq<Id>)
      modifies `balances, `grants
      ensures total == (if a in old(balances) then old(balances)[a].total else 0) + amount
      ensures balances == Steps.Deposit(old(balances), a, amount)
      ensures Steps.Evaluated(grants, earned) == Steps.EvaluateGrants(catalog.tiers, a, total, old(grants))
    {
      if a !in balances {
        balances := balances[a := Balance(0, 1)];
      }
      total := balances[a].total + amount;
      balances := balances[a := balances[a].(total := total)];
      assert balances == Steps.Deposit(old(balances), a, amount);
      earned := [];
      for i := 0 to |catalog.tiers|
        invariant balances == Steps.Deposit(old(balances), a, amount)
        invariant Steps.Evaluated(grants, earned) == Steps.EvaluateGrants(catalog.tiers[..i], a, total, old(grants))
      {
        assert catalog.tiers[..i + 1][..i] == catalog.tiers[..i];
        var tier := catalog.tiers[i];
        var g := GrantKey(a, tier.id);
        if tier.store == a.store && tier.threshold <= total && g !in grants {
          grants := grants[g := AwaitingChoice];
          earned := earned + [tier.id];
        }
      }
      assert catalog.tiers[..|catalog.tiers|] == catalog.tiers;
    }

    /** Finds the oldest waiting immediate reward of the account and marks it consumed by the order. */
    method ConsumeRedemption(a: Account, order: Id) returns (applied: Option<GrantKey>)
      modifies `redemptions
      ensures Steps.Consumed(redemptions, applied) == Steps.ConsumeOldest(old(redemptions), a, order)
    {
      for i := 0 to |redemptions|
        invariant redemptions == old(redemptions)
        invariant forall j :: 0 <= j < i ==> !(redemptions[j].grant.account == a && redemptions[j].order.None?)
      {
        if redemptions[i].grant.account == a && redemptions[i].order.None? {
          ConsumesFirst(redemptions, a, order, i);
          redemptions := redemptions[i := redemptions[i].(order := Some(order))];
          return Some(redemptions[i].grant);
        }
      }
      ConsumesFirst(redemptions, a, order, |redemptions|);
      return None;
    }

    method CreateOrder(now: Time, req: OrderRequest, key: Option<string>, id: Id) returns (outcome: Outcome)
      requires Valid()
      modifies this, Rows()
      ensures Valid() && fresh(Rows() - old(Rows()))
      ensures Result(Snapshot(), outcome) == Steps.CreateOrder(catalog, old(Snapshot()), now, req, key, id)
    {
      if !Steps.WellFormedOrder(req) {
        return Rejected(422);
      }
      if req.store !in stores {
        return Rejected(404);
      }
      var replay := Steps.Replay(records, PosOrderScope(req.store), key, OrderBody(req));
      if replay.Some? {
        return replay.value;
      }
      if Steps.ExternalIdUsed(orders, req.store, req.externalId) {
        return Rejected(409);
      }
      var priced := PriceItems(req.store, req.items);
      if priced.None? || priced.value != req.total {
        return Rejected(422);
      }
      if req.customer.None? {
        return Rejected(422);
      }
      var a := Steps.OrderAccount(stores[req.store], req);
      if a in passes && Closed(passes[a].status) {
        return Rejected(409);
      }
      if id in orders {
        return Rejected(409);
      }
      outcome := CommitOrder(now, req, key, id, a);
    }

    method IssueOrExtend(a: Account, amount: int, now: Time) returns (minutes: int, pass: Pass)
      requires Valid() && a.store in stores
      modifies `passes, Rows()
      ensures Valid() && fresh(Rows() - old(Rows()))
      ensures minutes == Steps.OrderMinutes(old(Snapshot()), a, amount)
      ensures pass == Steps.PassAfterOrder(old(Snapshot()), a, minutes, now)
      ensures PassValues() == old(PassValues())[a := pass]
    {
      var policy := stores[a.store].policy;
      if a !in passes {
        minutes := FirstOrderMinutes(amount, policy);
        var row := new PassRow(minutes, now);
        passes := passes[a := row];
      } else {
        minutes := AdditionalOrderMinutes(amount, policy);
        passes[a].Extend(minutes, now);
      }
      pass := passes[a].Value();
    }

    /** Books the order on its account: the order row, the waiting reward it consumes, the balance and its grants. */
    method BookOrder(req: OrderRequest, id: Id, a: Account, minutes: int) returns (total: int, earned: seq<Id>,
                     applied: Option<GrantKey>)
      modifies `orders, `redemptions, `balances, `grants
      ensures orders == old(orders)[id := Order(a, req.externalId, req.total, 0, minutes, Paid, req.paidAt)]
      ensures Steps.Consumed(redemptions, applied) == Steps.ConsumeOldest(old(redemptions), a, id)
      ensures total == (if a in old(balances) then old(balances)[a].total else 0) + req.total
      ensures balances == Steps.Deposit(old(balances), a, req.total)
      ensures Steps.Evaluated(grants, earned) == Steps.EvaluateGrants(catalog.tiers, a, total, old(grants))
    {
      orders := orders[id := Order(a, req.externalId, req.total, 0, minutes, Paid, req.paidAt)];
      applied := ConsumeRedemption(a, id);
      total, earned := EvaluateGrants(a, req.total);
    }

    method CommitOrder(now: Time, req: OrderRequest, key: Option<string>, id: Id, a: Account) returns (outcome: Outcome)
      requires Valid() && a.store in stores
      modifies this, Rows()
      ensures Valid() && fresh(Rows() - old(Rows()))
      ensures Result(Snapshot(), outcome) == Steps.CommitOrder(catalog, old(Snapshot()), now, req, key, id, a)
    {
      hide PassValues, Valid, Steps.OrderMinutes, Steps.PassAfterOrder, Steps.Deposit, Steps.EvaluateGrants,
           Steps.ConsumeOldest, Steps.Remember;
      var minutes, pass := IssueOrExtend(a, req.total, now);
      var total, earned, applied := BookOrder(req, id, a, minutes);
      var response := OrderCreated(id, a.day, total, earned, applied, pass);
      records := Steps.Remember(records, PosOrderScope(req.store), key, OrderBody(req), 201, response);
      outcome := Done(201, response);
    }

    // ---------- Refunds ----------

    /** Takes back waiting grants and unused coupons whose tier the balance no longer reaches. */
    method WithdrawRewards(a: Account, total: int) returns (revoked: set<Id>)
      modifies `grants, `coupons
      ensures grants == Steps.GrantsAfterRefund(catalog, old(grants), a, total)
      ensures coupons == Steps.CouponsAfterRefund(catalog, old(grants), old(coupons), a, total)
      ensures revoked == Steps.TiersLost(catalog, old(grants), a, total)
    {
      hide Steps.OutOfReach, Steps.FindTier;
      var todo := set g | g in grants && g.account == a && grants[g] != GrantRevoked;
      revoked := {};
      while todo != {}
        invariant forall g :: g in todo ==> g in old(grants) && g.account == a && old(grants)[g] != GrantRevoked
        invariant grants.Keys == old(grants).Keys && coupons.Keys == old(coupons).Keys
        invariant forall g :: g in grants ==>
                    grants[g] == if g !in todo && Steps.GrantLost(catalog, old(grants), a, total, g)
                                 then GrantRevoked else old(grants)[g]
        invariant forall g :: g in coupons ==>
                    coupons[g] == if g !in todo && Steps.CouponLost(catalog, old(grants), old(coupons), a, total, g)
                                  then old(coupons)[g].(status := CouponRevoked) else old(coupons)[g]
        invariant revoked == LostOutside(catalog, old(grants), a, total, todo)
        decreases todo
      {
        var g :| g in todo;
        OneLost(catalog, old(grants), a, total, todo, g);
        todo := todo - {g};
        if Steps.OutOfReach(catalog, g.tier, total) {
          var lost := WithdrawGrant(g);
          revoked := revoked + if lost then {g.tier} else {};
        }
      }
    }

    /** Takes back one grant if it still waits for a choice, and its coupon if that is unused. */
    method WithdrawGrant(g: GrantKey) returns (lost: bool)
      requires g in grants
      modifies `grants, `coupons
      ensures lost <==> old(grants)[g] == AwaitingChoice
      ensures grants == if lost then old(grants)[g := GrantRevoked] else old(grants)
      ensures coupons == if g in old(coupons) && old(coupons)[g].status == Available
                         then old(coupons)[g := old(coupons)[g].(status := CouponRevoked)] else old(coupons)
    {
      lost := grants[g] == AwaitingChoice;
      if lost {
        grants := grants[g := GrantRevoked];
      }
      if g in coupons && coupons[g].status == Available {
        coupons := coupons[g := coupons[g].(status := CouponRevoked)];
      }
    }

    /**
     * Takes minutes back from the account's pass, if it has one, and revokes its session when the pass ends; when the
     * controller fails then, the row is left half changed.
     */
    method ReclaimMinutes(a: Account, minutes: int, now: Time, networkUp: bool)
      returns (ok: bool, removed: int, pass: Option<Pass>)
      requires Valid()
      modifies `calls, Rows()
      ensures Valid()
      ensures ok <==> !(a in passes && WifiPass.Reclaim(old(passes[a].Value()), minutes, now).revokes && !networkUp)
      ensures a !in passes ==> removed == 0 && pass == None && PassValues() == old(PassValues()) && calls == old(calls)
      ensures ok && a in passes ==>
                var r := WifiPass.Reclaim(old(passes[a].Value()), minutes, now);
                && removed == r.removed && pass == Some(r.pass)
                && PassValues() == old(PassValues())[a := r.pass]
                && calls == if r.revokes then Call(old(calls), a, Revoke(old(passes[a].reference))) else old(calls)
      ensures !ok ==> calls == old(calls)
    {
      ok, removed, pass := true, 0, None;
      if a in passes {
        var row := passes[a];
        var reference := row.reference;
        var revokes;
        removed, revokes := row.Reclaim(minutes, now);
        if revokes {
          if !networkUp {
            return false, removed, None;
          }
          calls := Call(calls, a, Revoke(reference));
        }
        pass := Some(row.Value());
      }
    }

    method RefundOrder(now: Time, id: Id, req: RefundRequest, key: Option<string>, networkUp: bool)
      returns (outcome: Outcome)
      requires Valid()
      modifies this, Rows()
      ensures Valid() && passes == old(passes)
      ensures Result(Snapshot(), outcome) == Steps.RefundOrder(catalog, old(Snapshot()), now, id, req, key, networkUp)
    {
      hide Steps.CommitRefund, Steps.NeedsNetwork, Steps.Replay, PassValues, Valid;
      if req.amount.Some? && req.amount.value < 1 {
        return Rejected(422);
      }
      if id !in orders || orders[id].account.store != req.store {
        return Rejected(404);
      }
      var replay := Steps.Replay(records, RefundScope(id), key, RefundBody(req));
      if replay.Some? {
        return replay.value;
      }
      var order := orders[id];
      var refundable := order.total - order.refunded;
      var amount := if req.amount.Some? then req.amount.value else refundable;
      if amount <= 0 || amount > refundable {
        return Rejected(422);
      }
      var saved := Save();
      PassValuesKeys();
      var ok;
      ok, outcome := CommitRefund(now, id, req, key, amount, networkUp);
      if !ok {
        Rollback(saved);
        return Rejected(500);
      }
    }

    /** Books the refund on the order and on the balance, which never drops below zero. */
    method MoveMoney(id: Id, amount: int) returns (total: int)
      requires id in orders
      modifies `orders, `balances
      ensures orders == old(orders)[id := Steps.RefundedOrder(old(orders)[id], amount)]
      ensures var a := old(orders)[id].account;
              && balances == Steps.Withdraw(old(balances), a, amount)
              && total == if a in balances then balances[a].total else 0
    {
      var order := orders[id];
      var a := order.account;
      var refunded := order.refunded + amount;
      orders := orders[id := order.(refunded := refunded,
                                    status := if refunded == order.total then Refunded else PartiallyRefunded)];
      total := 0;
      if a in balances {
        total := Max(0, balances[a].total - amount);
        balances := balances[a := Balance(total, balances[a].version + 1)];
      }
    }

    /** Books the refund and takes the minutes back, which fails when the controller does. */
    method TakeBack(id: Id, amount: int, now: Time, networkUp: bool)
      returns (ok: bool, total: int, removed: int, pass: Option<Pass>)
      requires Valid() && id in orders
      modifies `orders, `balances, `calls, Rows()
      ensures Valid()
      ensures orders == old(orders)[id := Steps.RefundedOrder(old(orders)[id], amount)]
      ensures balances == Steps.Withdraw(old(balances), old(orders)[id].account, amount)
      ensures var a := old(orders)[id].account; total == if a in balances then balances[a].total else 0
      ensures ok <==> networkUp || !Steps.NeedsNetwork(old(Snapshot()), id, amount, now)
      ensures var a, minutes := old(orders)[id].account, Steps.MinutesToReclaim(old(orders)[id], amount);
              && (a !in passes ==>
                    removed == 0 && pass == None && PassValues() == old(PassValues()) && calls == old(calls))
              && (ok && a in passes ==>
                    var r := WifiPass.Reclaim(old(PassValues())[a], minutes, now);
                    && removed == r.removed && pass == Some(r.pass) && PassValues() == old(PassValues())[a := r.pass]
                    && calls == if r.revokes then Call(old(calls), a, Revoke(old(PassValues())[a].reference))
                                else old(calls))
      ensures !ok ==> calls == old(calls)
    {
      hide PassValues, Valid, Steps.Withdraw, WifiPass.Reclaim, Prorated, Call;
      var previous := orders[id];
      PassValuesHas(previous.account);
      total := MoveMoney(id, amount);
      var before := Prorated(previous.wifiMinutes, previous.total, previous.refunded);
      var target := Prorated(previous.wifiMinutes, previous.total, orders[id].refunded);
      ok, removed, pass := ReclaimMinutes(previous.account, target - before, now, networkUp);
    }

    /** Refunds the order and commits, unless the controller fails on the way. */
    method CommitRefund(now: Time, id: Id, req: RefundRequest, key: Option<string>, amount: int, networkUp: bool)
      returns (ok: bool, outcome: Outcome)
      requires Valid() && id in orders
      modifies this, Rows()
      ensures Valid() && passes == old(passes)
      ensures ok <==> networkUp || !Steps.NeedsNetwork(old(Snapshot()), id, amount, now)
      ensures ok ==>
                Result(Snapshot(), outcome) == Steps.CommitRefund(catalog, old(Snapshot()), now, id, req, key, amount)
      ensures !ok ==> calls == old(calls)
    {
      hide PassValues, Valid, Steps.Withdraw, Steps.GrantsAfterRefund, Steps.CouponsAfterRefund, Steps.TiersLost,
           Steps.Remember, Steps.OutOfReach, WifiPass.Reclaim, Steps.MinutesToReclaim, Steps.NeedsNetwork, Call;
      var a := orders[id].account;
      PassValuesHas(a);
      var total, removed, pass;
      ok, total, removed, pass := TakeBack(id, amount, now, networkUp);
      if !ok {
        return false, Rejected(500);
      }
      var revoked := WithdrawRewards(a, total);
      var response := OrderRefunded(id, orders[id].status, orders[id].refunded, amount, total, revoked, removed, pass);
      records := Steps.Remember(records, RefundScope(id), key, RefundBody(req), 200, response);
      outcome := Done(200, response);
    }

    lemma PassValuesHas(a: Account)
      ensures PassValues().Keys == passes.Keys
      ensures a in passes ==> PassValues()[a] == passes[a].Value()
    {
    }

    // ---------- Rewards and coupons ----------

    method ApplyDayPass(a: Account)
      requires Valid() && a in passes && a.store in stores
      modifies Rows()
      ensures Valid()
      ensures var end := BusinessDayEnd(a.day, stores[a.store].clock);
              PassValues() == old(PassValues())[a := WifiPass.ApplyDayPass(old(passes[a].Value()), end)]
    {
      var row := passes[a];
      row.expiresAt := Max(row.expiresAt, BusinessDayEnd(a.day, stores[a.store].clock));
      row.version := row.version + 1;
    }

    method ChooseReward(now: Time, claims: Steps.Claims, g: GrantKey, benefit: Id, asCoupon: bool, order: Option<Id>)
      returns (outcome: Outcome)
      requires Valid()
      modifies `grants, `coupons, `redemptions, Rows()
      ensures Valid()
      ensures Result(Snapshot(), outcome)
              == Steps.ChooseReward(catalog, old(Snapshot()), now, claims, g, benefit, asCoupon, order)
    {
      hide PassValues, Valid, Steps.Redeems, WifiPass.ApplyDayPass, BusinessDayEnd;
      var a := g.account;
      PassValuesHas(a);
      if g !in grants || !Steps.Owns(claims, a) {
        return Rejected(404);
      }
      if benefit !in catalog.benefits {
        return Rejected(404);
      }
      if order.Some? && (order.value !in orders || orders[order.value].account.store != a.store
                         || orders[order.value].account.customer != a.customer) {
        return Rejected(404);
      }
      var dayPass := !asCoupon && catalog.benefits[benefit].dayPass;
      if dayPass {
        if a.store !in stores || a !in passes {
          return Rejected(422);
        }
        if Terminal(passes[a].status) {
          return Rejected(409);
        }
      }
      if grants[g] != AwaitingChoice || catalog.benefits[benefit].tier != g.tier {
        return Rejected(409);
      }
      if (asCoupon && g in coupons) || (!asCoupon && Steps.Redeems(redemptions, g)) {
        return Rejected(409);
      }
      grants := grants[g := Fulfilled];
      if asCoupon {
        coupons := coupons[g := Coupon(benefit, Available, now + 7 * DAY)];
      } else {
        if dayPass {
          ApplyDayPass(a);
        }
        redemptions := redemptions + [Redemption(g, benefit, order)];
      }
      return Done(200, RewardChosen(g, benefit, asCoupon));
    }

    method RedeemCoupon(now: Time, claims: Steps.Claims, g: GrantKey) returns (outcome: Outcome)
      modifies `coupons
      ensures Result(Snapshot(), outcome) == Steps.RedeemCoupon(old(Snapshot()), now, claims, g)
    {
      if g !in coupons || !Steps.Owns(claims, g.account) {
        return Rejected(404);
      }
      if coupons[g].status != Available {
        return Rejected(409);
      }
      if coupons[g].expiresAt <= now {
        coupons := coupons[g := coupons[g].(status := CouponExpired)];
        return Rejected(410);
      }
      coupons := coupons[g := coupons[g].(status := Redeemed)];
      return Done(200, CouponUsed(g, coupons[g].benefit));
    }

    /** Walks the customer's coupon box and expires what is past its date. */
    method ListCoupons(now: Time, claims: Steps.Claims) returns (outcome: Outcome)
      modifies `coupons
      ensures Result(Snapshot(), outcome) == Steps.ListCoupons(old(Snapshot()), now, claims)
    {
      var todo := set g | g in coupons && Steps.Owns(claims, g.account);
      while todo != {}
        invariant forall g :: g in todo ==> g in coupons && Steps.Owns(claims, g.account)
        invariant coupons.Keys == old(coupons).Keys
        invariant forall g :: g in coupons ==>
                    coupons[g] == if g !in todo && Steps.CouponLapsed(old(coupons)[g], now)
                        && Steps.Owns(claims, g.account)
                                  then old(coupons)[g].(status := CouponExpired) else old(coupons)[g]
        decreases todo
      {
        var g :| g in todo;
        todo := todo - {g};
        if coupons[g].status == Available && coupons[g].expiresAt <= now {
          coupons := coupons[g := coupons[g].(status := CouponExpired)];
        }
      }
      return Done(200, CouponsListed);
    }

    // ---------- Passes ----------

    method ActivatePass(now: Time, claims: Steps.Claims, a: Account, session: Option<Id>) returns (outcome: Outcome)
      requires Valid()
      modifies `calls, Rows()
      ensures Valid()
      ensures Result(Snapshot(), outcome) == Steps.ActivatePass(old(Snapshot()), now, claims, a, session)
    {
      hide PassValues, Valid, Call, Steps.Owns, WifiPass.Activate;
      PassValuesHas(a);
      if a !in passes || !Steps.Owns(claims, a) {
        return Rejected(404);
      }
      var row := passes[a];
      if row.status != Issued && row.status != Activating {
        return Rejected(409);
      }
      if row.expiresAt <= now {
        MarkExpired(a);
        return Rejected(409);
      }
      if session.None? {
        return Rejected(502);
      }
      var shown := StartSession(a, session.value, now);
      return Done(200, PassShown(shown));
    }

    method MarkExpired(a: Account)
      requires Valid() && a in passes
      modifies Rows()
      ensures Valid()
      ensures PassValues() == old(PassValues())[a := old(passes[a].Value()).(status := Expired)]
    {
      passes[a].status := Expired;
    }

    method StartSession(a: Account, session: Id, now: Time) returns (shown: Pass)
      requires Valid() && a in passes
      modifies `calls, Rows()
      ensures Valid()
      ensures shown == WifiPass.Activate(old(passes[a].Value()), session, now)
      ensures PassValues() == old(PassValues())[a := shown]
      ensures calls == Call(old(calls), a, Authorize(session))
    {
      var row := passes[a];
      row.status := Active;
      row.activatedAt := Some(now);
      row.reference := Some(session);
      calls := Call(calls, a, Authorize(session));
      shown := row.Value();
    }

    method ExtendPass(now: Time, admin: Id, a: Account, requested: Option<Id>, minutes: int) returns (outcome: Outcome)
      requires Valid()
      modifies Rows()
      ensures Valid()
      ensures Result(Snapshot(), outcome) == Steps.ExtendPass(old(Snapshot()), now, admin, a, requested, minutes)
    {
      if minutes < 1 {
        return Rejected(422);
      }
      if a !in passes {
        return Rejected(404);
      }
      if a.store != admin || (requested.Some? && requested.value != a.store) {
        return Rejected(403);
      }
      var row := passes[a];
      if Closed(row.status) {
        return Rejected(409);
      }
      row.Extend(minutes, now);
      assert PassValues() == old(PassValues())[a := row.Value()];
      return Done(200, PassShown(row.Value()));
    }

    method ExpirePass(admin: Id, a: Account, requested: Option<Id>, networkUp: bool) returns (outcome: Outcome)
      requires Valid()
      modifies `calls, Rows()
      ensures Valid()
      ensures Result(Snapshot(), outcome) == Steps.ExpirePass(old(Snapshot()), admin, a, requested, networkUp)
    {
      if a !in passes {
        return Rejected(404);
      }
      if a.store != admin || (requested.Some? && requested.value != a.store) {
        return Rejected(403);
      }
      var row := passes[a];
      if row.status != Expired && row.status != Blocked && row.status != Cancelled {
        if !networkUp {
          return Rejected(502);
        }
        calls := Call(calls, a, Revoke(row.reference));
        row.Close(Cancelled);
        assert PassValues() == old(PassValues())[a := row.Value()];
      }
      return Done(200, PassShown(row.Value()));
    }

    method BlockPass(admin: Id, a: Account, requested: Option<Id>, networkUp: bool) returns (outcome: Outcome)
      requires Valid()
      modifies `calls, Rows()
      ensures Valid()
      ensures Result(Snapshot(), outcome) == Steps.BlockPass(old(Snapshot()), admin, a, requested, networkUp)
    {
      if a !in passes {
        return Rejected(404);
      }
      if a.store != admin || (requested.Some? && requested.value != a.store) {
        return Rejected(403);
      }
      var row := passes[a];
      if row.status == Blocked {
        return Done(200, PassShown(row.Value()));
      }
      if Terminal(row.status) {
        return Rejected(409);
      }
      if !networkUp {
        return Rejected(502);
      }
      calls := Call(calls, a, Revoke(row.reference));
      row.Close(Blocked);
      assert PassValues() == old(PassValues())[a := row.Value()];
      return Done(200, PassShown(row.Value()));
    }

    /** Revokes the session of one pass and ends it. */
    method EndOne(a: Account)
      requires Valid() && a in passes
      modifies `calls, Rows()
      ensures Valid()
      ensures PassValues() == old(PassValues())[a := WifiPass.Close(old(passes[a].Value()), Expired)]
      ensures calls == Call(old(calls), a, Revoke(old(passes[a].reference)))
    {
      calls := Call(calls, a, Revoke(passes[a].reference));
      passes[a].Close(Expired);
    }

    /** Ends the listed passes one after the other, as far as the controller answers. */
    method EndAll(order: seq<Account>, answers: nat) returns (count: nat)
      requires Valid() && Distinct(order) && forall a :: a in order ==> a in passes
      modifies `calls, Rows()
      ensures Valid() && count == Min(answers, |order|)
      ensures PassValues() == Steps.EndPasses(old(PassValues()), Accounts(order[..count]))
      ensures calls == Steps.RevokeAll(old(calls), old(PassValues()), Accounts(order[..count]))
    {
      hide PassValues, Valid, WifiPass.Close, Call, Steps.EndPasses, Steps.RevokeAll;
      ghost var start, log := PassValues(), calls;
      EndNone(log, start);
      PassValuesKeys();
      count := 0;
      assert Accounts(order[..0]) == {};
      while count < |order| && count < answers
        invariant count <= |order| && count <= answers
        invariant Valid() && PassValues().Keys == passes.Keys == start.Keys
        invariant PassValues() == Steps.EndPasses(start, Accounts(order[..count]))
        invariant calls == Steps.RevokeAll(log, start, Accounts(order[..count]))
      {
        var a := order[count];
        OneMore(order, count);
        PassValuesHas(a);
        EndAnother(log, start, Accounts(order[..count]), a);
        EndOne(a);
        PassValuesKeys();
        count := count + 1;
      }
    }

    // ---------- Transactions ----------

    /** What is committed. */
    method Save() returns (saved: State)
      ensures saved == Snapshot()
    {
      var rows := map a | a in passes :: passes[a].Value();
      assert rows == PassValues();
      saved := State(stores, orders, balances, rows, grants, coupons, redemptions, records, calls);
    }

    /** Drops the rows that were not committed. */
    method KeepRows(committed: set<Account>)
      requires Valid() && committed <= passes.Keys
      modifies `passes
      ensures Valid() && Rows() <= old(Rows()) && passes.Keys == committed
      ensures forall a :: a in passes ==> passes[a] == old(passes[a])
    {
      passes := map a | a in passes && a in committed :: passes[a];
    }

    /** Returns every table to what was committed; the controller is not asked to take anything back. */
    method Rollback(saved: State)
      requires Valid() && saved.passes.Keys <= passes.Keys
      modifies this, Rows()
      ensures Valid() && Snapshot() == saved.(calls := old(calls)) && Rows() <= old(Rows())
      ensures passes.Keys == saved.passes.Keys && forall a :: a in passes ==> passes[a] == old(passes[a])
    {
      RestoreTables(saved);
      RestoreRows(saved.passes);
      hide PassValues, Valid;
    }

    method RestoreTables(saved: State)
      modifies `stores, `orders, `balances, `grants, `coupons, `redemptions, `records
      ensures stores == saved.stores && orders == saved.orders && balances == saved.balances && grants == saved.grants
      ensures coupons == saved.coupons && redemptions == saved.redemptions && records == saved.records
    {
      stores, orders, balances, grants := saved.stores, saved.orders, saved.balances, saved.grants;
      coupons, redemptions, records := saved.coupons, saved.redemptions, saved.records;
    }

    method RestoreRows(saved: map<Account, Pass>)
      requires Valid() && saved.Keys <= passes.Keys
      modifies `passes, Rows()
      ensures Valid() && PassValues() == saved && Rows() <= old(Rows())
      ensures passes.Keys == saved.Keys && forall a :: a in passes ==> passes[a] == old(passes[a])
    {
      hide PassValues, Valid;
      KeepRows(saved.Keys);
      LoadAll(saved);
    }

    method LoadAll(saved: map<Account, Pass>)
      requires Valid() && saved.Keys == passes.Keys
      modifies Rows()
      ensures Valid() && PassValues() == saved
    {
      var todo := passes.Keys;
      while todo != {}
        invariant Valid() && todo <= passes.Keys
        invariant forall a :: a in passes && a !in todo ==> passes[a].Value() == saved[a]
        decreases todo
      {
        var a :| a in todo;
        passes[a].Load(saved[a]);
        todo := todo - {a};
      }
    }

    lemma PassValuesKeys()
      ensures PassValues().Keys == passes.Keys
    {
    }

    /**
     * Ends the passes the query lists. The controller answers `answers` calls; at the next one the loop fails, and the
     * session rolls its rows back, not the revocations already made.
     */
    method ExpireDuePasses(now: Time, order: seq<Account>, answers: nat) returns (outcome: Outcome)
      requires Valid() && Distinct(order) && Accounts(order) == Steps.DueAccounts(PassValues(), now)
      modifies `calls, Rows()
      ensures Valid()
      ensures Result(Snapshot(), outcome)
              == Steps.ExpireDuePasses(old(Snapshot()), now, Steps.DownAfter(Accounts(order[..Min(answers, |order|)])))
    {
      hide WifiPass.Close, Calls, Steps.EndPasses, Steps.RevokeAll, Steps.DueAccounts, Steps.ExpireDuePasses, Accounts;
      var saved := map a | a in passes :: passes[a].Value();
      assert saved == PassValues();
      DueOnes(PassValues(), now, order);
      LoopOutcome(Snapshot(), now, order, Min(answers, |order|));
      var count := EndAll(order, answers);
      if count < |order| {
        LoadAll(saved);
        return Rejected(500);
      }
      return Done(200, PassesExpired(count));
    }

    method PublishPolicy(admin: Id, version: int, policy: Policy) returns (outcome: Outcome)
      modifies `stores
      ensures Result(Snapshot(), outcome) == Steps.PublishPolicy(old(Snapshot()), admin, version, policy)
    {
      if !Steps.WellFormedPolicy(policy) {
        return Rejected(422);
      }
      if admin !in stores {
        return Rejected(404);
      }
      if version != stores[admin].policyVersion {
        return Rejected(409);
      }
      if !Publishable(policy) {
        return Rejected(422);
      }
      stores := stores[admin := stores[admin].(policy := policy, policyVersion := version + 1)];
      return Done(200, PolicyPublished(version + 1));
    }

    // ---------- Requests ----------

    method ListAll(due: set<Account>) returns (order: seq<Account>)
      ensures Distinct(order) && Accounts(order) == due && |order| == |due|
    {
      order := [];
      var todo := due;
      while todo != {}
        invariant todo <= due && Accounts(order) == due - todo && Distinct(order) && |order| == |due| - |todo|
        decreases todo
      {
        var a :| a in todo;
        assert a !in Accounts(order) && due - (todo - {a}) == (due - todo) + {a};
        Joined(order, [a]);
        order := order + [a];
        todo := todo - {a};
      }
    }

    method FindDue(now: Time) returns (due: set<Account>)
      ensures due == Steps.DueAccounts(PassValues(), now)
    {
      due := set a | a in passes && Due(passes[a].Value(), now);
    }

    /** The expiry loop in some order that the controller answers as far as `net` says. */
    method RunExpiryLoop(now: Time, net: Steps.Controller) returns (outcome: Outcome)
      requires Valid()
      modifies `calls, Rows()
      ensures Valid()
      ensures Result(Snapshot(), outcome) == Steps.ExpireDuePasses(old(Snapshot()), now, net)
    {
      hide PassValues, Valid, Steps.DueAccounts, Steps.ExpireDuePasses, Steps.Answered;
      var due := FindDue(now);
      var reached := Steps.Answered(net, due);
      var order := ListReached(due, reached);
      ReachesAlike(Snapshot(), now, net, reached);
      outcome := ExpireDuePasses(now, order, |reached|);
    }

    /** Some order of the due passes in which the controller fails after those reached. */
    method ListReached(due: set<Account>, reached: set<Account>) returns (order: seq<Account>)
      requires reached <= due
      ensures Distinct(order) && Accounts(order) == due
      ensures |reached| <= |order| && Accounts(order[..|reached|]) == reached
    {
      var first := ListAll(reached);
      var rest := ListAll(due - reached);
      Joined(first, rest);
      order := first + rest;
      assert reached + (due - reached) == due && order[..|first|] == first;
    }

    /** Carries out one request up to its commit. */
    method Handle(step: Steps.Step) returns (outcome: Outcome)
      requires Valid()
      modifies this, Rows()
      ensures Valid() && fresh(Rows() - old(Rows()))
      ensures Result(Snapshot(), outcome) == Steps.Handle(catalog, old(Snapshot()), step)
    {
      hide Valid, PassValues, Steps.CreateOrder, Steps.RefundOrder, Steps.ChooseReward, Steps.RedeemCoupon,
           Steps.ListCoupons, Steps.ActivatePass, Steps.ExtendPass, Steps.ExpirePass, Steps.BlockPass,
           Steps.ExpireDuePasses, Steps.PublishPolicy;
      match step {
        case CreateOrderStep(now, order, key, id) => outcome := CreateOrder(now, order, key, id);
        case RefundStep(now, id, refund, key, networkUp) => outcome := RefundOrder(now, id, refund, key, networkUp);
        case ChooseStep(now, claims, g, benefit, asCoupon, current) =>
          outcome := ChooseReward(now, claims, g, benefit, asCoupon, current);
        case RedeemStep(now, claims, g) => outcome := RedeemCoupon(now, claims, g);
        case ListCouponsStep(now, claims) => outcome := ListCoupons(now, claims);
        case ActivateStep(now, claims, a, session) => outcome := ActivatePass(now, claims, a, session);
        case ExtendStep(now, admin, a, requested, minutes) => outcome := ExtendPass(now, admin, a, requested, minutes);
        case ExpireStep(admin, a, requested, networkUp) => outcome := ExpirePass(admin, a, requested, networkUp);
        case BlockStep(admin, a, requested, networkUp) => outcome := BlockPass(admin, a, requested, networkUp);
        case ExpireDueStep(now, net) => outcome := RunExpiryLoop(now, net);
        case PublishStep(admin, version, policy) => outcome := PublishPolicy(admin, version, policy);
        case Aborted(_) => outcome := Rejected(500);
      }
    }

    /** Carries out one request and commits; one that is aborted is rolled back after its calls were made. */
    method Apply(step: Steps.Step) returns (outcome: Outcome)
      requires Valid()
      modifies this, Rows()
      ensures Valid() && fresh(Rows() - old(Rows()))
      ensures Result(Snapshot(), outcome) == Steps.Apply(catalog, old(Snapshot()), step)
    {
      hide Valid, PassValues, Steps.Handle;
      if !step.Aborted? {
        outcome := Handle(step);
        return;
      }
      var saved := Save();
      outcome := Handle(step.request);
      var left := Save();
      if left != saved {
        PassesStay(catalog, saved, step.request);
        PassValuesKeys();
        Rollback(saved);
        outcome := Rejected(500);
      }
    }
  }

  lemma Joined(first: seq<Account>, rest: seq<Account>)
    requires Distinct(first) && Distinct(rest) && Accounts(first) !! Accounts(rest)
    ensures Distinct(first + rest) && Accounts(first + rest) == Accounts(first) + Accounts(rest)
  {
    assert forall i :: 0 <= i < |first| ==> first[i] in Accounts(first);
    assert forall i :: 0 <= i < |rest| ==> rest[i] in Accounts(rest);
  }

  lemma PassesStay(c: Catalog, s: State, step: Steps.Step)
    ensures s.passes.Keys <= Steps.Handle(c, s, step).state.passes.Keys
  {
    hide Steps.OrderAnswer, Steps.RefundAnswer, Steps.EvaluateGrants, Steps.ConsumeOldest, Steps.Remember,
         Steps.Deposit, Steps.PassAfterOrder, Steps.OrderMinutes, Steps.GrantsAfterRefund, Steps.CouponsAfterRefund,
         Steps.TiersLost, Steps.Withdraw, Steps.MinutesToReclaim, WifiPass.Reclaim, Steps.ChooseReward,
         Steps.RedeemCoupon, Steps.ListCoupons, Steps.ActivatePass, Steps.ExtendPass, Steps.ExpirePass,
         Steps.BlockPass, Steps.ExpireDuePasses, Steps.PublishPolicy;
  }

  /** Only which due passes the controller answers for matters. */
  lemma ReachesAlike(s: State, now: Time, net: Steps.Controller, reached: set<Account>)
    requires reached == Steps.Answered(net, Steps.DueAccounts(s.passes, now))
    ensures Steps.ExpireDuePasses(s, now, net) == Steps.ExpireDuePasses(s, now, Steps.DownAfter(reached))
  {
    hide Steps.DueAccounts, Steps.EndPasses, Steps.RevokeAll;
    assert Steps.DueAccounts(s.passes, now) * reached == reached;
  }

  predicate Distinct(order: seq<Account>) {
    forall i, j :: 0 <= i < j < |order| ==> order[i] != order[j]
  }

  function Accounts(order: seq<Account>): set<Account> {
    set a | a in order
  }

  lemma OneMore(order: seq<Account>, n: nat)
    requires Distinct(order) && n < |order|
    ensures order[n] !in Accounts(order[..n]) && Accounts(order[..n + 1]) == Accounts(order[..n]) + {order[n]}
    ensures order[n] in order
  {
    assert order[..n + 1] == order[..n] + [order[n]];
  }

  /** Tiers lost to a refund, those of the grants still to be looked at left out. */
  function LostOutside(c: Catalog, grants: map<GrantKey, GrantStatus>, a: Account, total: int, todo: set<GrantKey>):
    set<Id>
  {
    set g | g in grants && g !in todo && Steps.GrantLost(c, grants, a, total, g) :: g.tier
  }

  lemma OneLost(c: Catalog, grants: map<GrantKey, GrantStatus>, a: Account, total: int, todo: set<GrantKey>,
                g: GrantKey)
    requires g in todo && g in grants
    ensures LostOutside(c, grants, a, total, todo - {g})
            == LostOutside(c, grants, a, total, todo)
               + if Steps.GrantLost(c, grants, a, total, g) then {g.tier} else {}
  {
    hide Steps.GrantLost;
    var before, after := LostOutside(c, grants, a, total, todo), LostOutside(c, grants, a, total, todo - {g});
    forall tier | tier in after ensures tier in before || (tier == g.tier && Steps.GrantLost(c, grants, a, total, g)) {
      var h :| h in grants && h !in todo - {g} && Steps.GrantLost(c, grants, a, total, h) && h.tier == tier;
    }
    forall tier | tier in before ensures tier in after {
      var h :| h in grants && h !in todo && Steps.GrantLost(c, grants, a, total, h) && h.tier == tier;
      assert h !in todo - {g};
    }
  }

  /** Only the whole list reaches every account of the list. */
  lemma FirstOnes(order: seq<Account>, n: nat)
    requires Distinct(order) && n <= |order|
    ensures Accounts(order[..n]) <= Accounts(order) && |Accounts(order[..n])| == n
    ensures Accounts(order[..n]) == Accounts(order) <==> n == |order|
  {
    hide Accounts;
    CountOnes(order, n);
    NotAllOnes(order, n);
  }

  lemma {:induction false} CountOnes(order: seq<Account>, n: nat)
    requires Distinct(order) && n <= |order|
    ensures |Accounts(order[..n])| == n
  {
    if n > 0 {
      hide Accounts, Distinct;
      OneMore(order, n - 1);
      CountOnes(order, n - 1);
    } else {
      assert Accounts(order[..0]) == {};
    }
  }

  lemma NotAllOnes(order: seq<Account>, n: nat)
    requires Distinct(order) && n <= |order|
    ensures Accounts(order[..n]) <= Accounts(order)
    ensures Accounts(order[..n]) == Accounts(order) <==> n == |order|
  {
    if n < |order| {
      assert order[n] in Accounts(order) && order[n] !in Accounts(order[..n]);
    } else {
      assert order[..n] == order;
    }
  }

  lemma EndNone(log: CallLog, start: map<Account, Pass>)
    ensures Steps.EndPasses(start, {}) == start && Steps.RevokeAll(log, start, {}) == log
  {
  }

  lemma DueOnes(values: map<Account, Pass>, now: Time, order: seq<Account>)
    requires Accounts(order) == Steps.DueAccounts(values, now)
    ensures forall a :: a in order ==> a in values
  {
    assert forall a :: a in order ==> a in Accounts(order);
  }

  /** What the specification of the loop says when the controller answers the first `count` calls. */
  lemma LoopOutcome(s: State, now: Time, order: seq<Account>, count: nat)
    requires Distinct(order) && count <= |order| && Accounts(order) == Steps.DueAccounts(s.passes, now)
    ensures Accounts(order[..count]) <= s.passes.Keys
    ensures Steps.ExpireDuePasses(s, now, Steps.DownAfter(Accounts(order[..count])))
            == if count < |order|
               then Result(s.(calls := Steps.RevokeAll(s.calls, s.passes, Accounts(order[..count]))), Rejected(500))
               else Result(s.(passes := Steps.EndPasses(s.passes, Accounts(order[..count])),
                              calls := Steps.RevokeAll(s.calls, s.passes, Accounts(order[..count]))),
                           Done(200, PassesExpired(count)))
  {
    hide Steps.EndPasses, Steps.RevokeAll, Accounts;
    var due, reached := Accounts(order), Accounts(order[..count]);
    FirstOnes(order, count);
    assert due * reached == reached;
  }

  /** Ending one more pass. */
  lemma EndAnother(log: CallLog, start: map<Account, Pass>, done: set<Account>, a: Account)
    requires done <= start.Keys && a in start && a !in done
    ensures Steps.EndPasses(start, done)[a] == start[a]
    ensures Steps.EndPasses(start, done + {a}) == Steps.EndPasses(start, done)[a := WifiPass.Close(start[a], Expired)]
    ensures Steps.RevokeAll(log, start, done + {a})
            == Call(Steps.RevokeAll(log, start, done), a, Revoke(start[a].reference))
  {
  }

  /** An item that cannot be priced spoils every longer list. */
  lemma {:induction false} UnpricedStays(products: map<Id, Product>, store: Id, items: seq<OrderItem>, n: nat)
    requires n <= |items| && Steps.PricedTotal(products, store, items[..n]).None?
    ensures Steps.PricedTotal(products, store, items).None?
    decreases |items| - n
  {
    if n < |items| {
      assert items[..n + 1][..n] == items[..n];
      UnpricedStays(products, store, items, n + 1);
    } else {
      assert items[..n] == items;
    }
  }

  /** The first waiting reward of the account is the one consumed. */
  lemma {:induction false} ConsumesFirst(redemptions: seq<Redemption>, a: Account, order: Id, n: nat)
    requires n <= |redemptions|
    requires forall j :: 0 <= j < n ==> !(redemptions[j].grant.account == a && redemptions[j].order.None?)
    requires n < |redemptions| ==> redemptions[n].grant.account == a && redemptions[n].order.None?
    ensures Steps.ConsumeOldest(redemptions, a, order)
            == if n == |redemptions| then Steps.Consumed(redemptions, None)
               else Steps.Consumed(redemptions[n := redemptions[n].(order := Some(order))], Some(redemptions[n].grant))
  {
    if n > 0 {
      var later := redemptions[1..];
      ConsumesFirst(later, a, order, n - 1);
      if n < |redemptions| {
        var consumed := redemptions[n].(order := Some(order));
        assert later[n - 1] == redemptions[n];
        assert [redemptions[0]] + later[n - 1 := consumed] == redemptions[n := consumed];
      }
    }
  }
}
