/** Small runs from an empty ledger on which a promise fails; each shows that a condition of a theorem is needed. */
module Counterexamples {
  import opened Common
  import opened BusinessDay
  import opened WifiPolicy
  import opened WifiPass
  import opened LedgerModel
  import opened LedgerSteps
  import opened PassLifecycle
  import opened Sessions
  import opened OrderCut
  import opened RefundUndone
  import opened ExpiryAccount
  import Sales

  /** One store selling one product at a price of 1, without reward tiers, under the default policy. */
  const SHOP: Catalog := Catalog(map[0 := Product(0, 1, true)], [], map[])

  const STORES: map<Id, Store> := map[0 := Store(Clock(Some(0), None), Policy(Some(120), [], []), 1)]

  function Opening(): (s: State)
    ensures Initial(s)
  {
    State(STORES, map[], map[], map[], map[], map[], [], map[], map[])
  }

  /** What the customer has in the store on the first day. */
  function Holder(customer: Id): Account {
    Account(0, customer, 0)
  }

  function Buy(customer: Id, amount: nat, now: Time, id: Id): Step {
    CreateOrderStep(now, OrderRequest(0, id, Some(customer), "", [OrderItem(0, amount, None)], amount, now), None, id)
  }

  function Refund(id: Id, now: Time): Step {
    RefundStep(now, id, RefundRequest(0, None, 0), None, true)
  }

  lemma Continues(c: Catalog, s: State, run: seq<Step>, step: Step)
    ensures Exec(c, s, run + [step]) == Next(c, Exec(c, s, run), step)
  {
    assert (run + [step])[..|run|] == run;
  }

  /** An order of the first day is accepted when its number is new and its pass is not closed. */
  lemma Buys(s: State, customer: Id, amount: nat, now: Time, id: Id)
    requires s.stores == STORES && 0 < amount && 0 <= now < DAY
    requires forall o :: o in s.orders ==> o != id && s.orders[o].externalId != id
    requires Holder(customer) in s.passes ==> !Closed(s.passes[Holder(customer)].status)
    requires s.redemptions == []
    ensures var a := Holder(customer);
            var minutes := OrderMinutes(s, a, amount);
            Next(SHOP, s, Buy(customer, amount, now, id))
            == s.(orders := s.orders[id := Order(a, id, amount, 0, minutes, Paid, now)],
                  balances := Deposit(s.balances, a, amount),
                  passes := s.passes[a := PassAfterOrder(s, a, minutes, now)])
  {
    hide OrderMinutes, PassAfterOrder, Deposit;
    var req := Buy(customer, amount, now, id).order;
    assert req.items[..0] == [];
    assert PricedTotal(SHOP.products, 0, req.items) == Some(amount);
    assert OrderAccount(s.stores[0], req) == Holder(customer);
    assert OrderAnswer(SHOP, s, req, None, id).None?;
  }

  /** The default policy on the amounts used here. */
  lemma DefaultMinutes(amount: int)
    ensures amount < 5_000 ==> FirstOrderMinutes(amount, Policy(Some(120), [], [])) == 120
    ensures amount == 10_000 ==> FirstOrderMinutes(amount, Policy(Some(120), [], [])) == 150
    ensures amount == 10_000 ==> AdditionalOrderMinutes(amount, Policy(Some(120), [], [])) == 120
  {
    assert FIRST_ORDER_TIERS[1..] == [Tier(15_000, 60)] && FIRST_ORDER_TIERS[1..][1..] == [];
    assert ADDITIONAL_ORDER_TIERS[1..] == [Tier(10_000, 120)] && ADDITIONAL_ORDER_TIERS[1..][1..] == [];
    if amount == 10_000 {
      assert Applicable(amount, FIRST_ORDER_TIERS[1..]) == [];
      assert Applicable(amount, FIRST_ORDER_TIERS) == [30];
      assert Applicable(amount, ADDITIONAL_ORDER_TIERS) == [60, 120];
    } else if amount < 5_000 {
      assert Applicable(amount, FIRST_ORDER_TIERS[1..]) == [];
      assert Applicable(amount, FIRST_ORDER_TIERS) == [];
    }
  }

  // ---------- An expiry loop that fails half-way ----------

  function TwoActive(): seq<Step> {
    [Buy(1, 1, 0, 1)] + [Buy(2, 1, 0, 2)]
    + [ActivateStep(0, Claims(0, 1), Holder(1), Some(11))] + [ActivateStep(0, Claims(0, 2), Holder(2), Some(12))]
  }

  function Running(session: Id): Pass {
    Pass(Active, 0, Some(0), 120 * MINUTE, 1, Some(session))
  }

  lemma TwoActiveState()
    ensures var t := Exec(SHOP, Opening(), TwoActive());
            && t.passes == map[Holder(1) := Running(11), Holder(2) := Running(12)]
            && t.calls == map[Holder(1) := [Authorize(11)], Holder(2) := [Authorize(12)]]
  {
    hide Exec, Next, Initial;
    var s := Opening();
    var one, two := [Buy(1, 1, 0, 1)], [Buy(1, 1, 0, 1)] + [Buy(2, 1, 0, 2)];
    var three := two + [ActivateStep(0, Claims(0, 1), Holder(1), Some(11))];
    DefaultMinutes(1);
    assert Exec(SHOP, s, []) == s by { StartsThere(); }
    assert [] + one == one;
    Continues(SHOP, s, [], Buy(1, 1, 0, 1));
    Buys(s, 1, 1, 0, 1);
    Continues(SHOP, s, one, Buy(2, 1, 0, 2));
    Buys(Exec(SHOP, s, one), 2, 1, 0, 2);
    Continues(SHOP, s, two, ActivateStep(0, Claims(0, 1), Holder(1), Some(11)));
    Activates(Exec(SHOP, s, two), 1, 11);
    Continues(SHOP, s, three, ActivateStep(0, Claims(0, 2), Holder(2), Some(12)));
    Activates(Exec(SHOP, s, three), 2, 12);
    assert [] + [Authorize(11)] == [Authorize(11)] && [] + [Authorize(12)] == [Authorize(12)];
    assert Exec(SHOP, s, three).calls == map[Holder(1) := [Authorize(11)]];
  }

  lemma StartsThere()
    ensures Exec(SHOP, Opening(), []) == Opening()
  {
  }

  lemma Activates(s: State, customer: Id, session: Id)
    requires Holder(customer) in s.passes && s.passes[Holder(customer)] == Issue(120, 0)
    ensures Next(SHOP, s, ActivateStep(0, Claims(0, customer), Holder(customer), Some(session)))
            == s.(passes := s.passes[Holder(customer) := Running(session)],
                  calls := Call(s.calls, Holder(customer), Authorize(session)))
  {
  }

  /** The controller closes the first session and fails on the second. */
  function Halfway(): seq<Step> {
    TwoActive() + [ExpireDueStep(121 * MINUTE, DownAfter({Holder(1)}))]
  }

  lemma FailsHalfway(s: State)
    requires s.passes == map[Holder(1) := Running(11), Holder(2) := Running(12)]
    requires s.calls == map[Holder(1) := [Authorize(11)], Holder(2) := [Authorize(12)]]
    ensures var t := ExpireDuePasses(s, 121 * MINUTE, DownAfter({Holder(1)})).state;
            && t.passes == s.passes
            && t.calls == map[Holder(1) := [Authorize(11), Revoke(Some(11))], Holder(2) := [Authorize(12)]]
  {
    assert DueAccounts(s.passes, 121 * MINUTE) == {Holder(1), Holder(2)};
    hide DueAccounts;
    assert Answered(DownAfter({Holder(1)}), {Holder(1), Holder(2)}) == {Holder(1)};
    assert Holder(2) !in {Holder(1)};
    assert [Authorize(11)] + [Revoke(Some(11))] == [Authorize(11), Revoke(Some(11))];
    assert RevokeAll(s.calls, s.passes, {Holder(1)})
        == map[Holder(1) := [Authorize(11), Revoke(Some(11))], Holder(2) := [Authorize(12)]];
  }

  lemma HalfwayState()
    ensures var t := Exec(SHOP, Opening(), Halfway());
            && t.passes == map[Holder(1) := Running(11), Holder(2) := Running(12)]
            && t.calls == map[Holder(1) := [Authorize(11), Revoke(Some(11))], Holder(2) := [Authorize(12)]]
  {
    hide Exec, TwoActive, ExpireDuePasses;
    TwoActiveState();
    Continues(SHOP, Opening(), TwoActive(), ExpireDueStep(121 * MINUTE, DownAfter({Holder(1)})));
    FailsHalfway(Exec(SHOP, Opening(), TwoActive()));
  }

  lemma EndsFirst(s: State)
    requires s.passes == map[Holder(1) := Running(11), Holder(2) := Running(12)]
    requires Holder(1) in s.calls && s.calls[Holder(1)] == [Authorize(11), Revoke(Some(11))]
    ensures var t := ExpireDuePasses(s, 122 * MINUTE, Up).state;
            Holder(1) in t.calls && t.calls[Holder(1)] == [Authorize(11), Revoke(Some(11)), Revoke(Some(11))]
  {
    hide EndPasses, RevokeAll, DueAccounts;
    FirstIsDue(s.passes);
    RevokedToo(s.calls, s.passes, DueAccounts(s.passes, 122 * MINUTE), Holder(1));
    var closed := Revoke(Some(11));
    assert [Authorize(11), closed] + [closed] == [Authorize(11), closed, closed];
  }

  lemma FirstIsDue(passes: map<Account, Pass>)
    requires Holder(1) in passes && passes[Holder(1)] == Running(11)
    ensures Holder(1) in DueAccounts(passes, 122 * MINUTE) && DueAccounts(passes, 122 * MINUTE) <= passes.Keys
  {
  }

  lemma RevokedToo(calls: CallLog, passes: map<Account, Pass>, due: set<Account>, a: Account)
    requires due <= passes.Keys && a in due
    ensures var after := RevokeAll(calls, passes, due);
            a in after && after[a] == Calls(calls, a) + [Revoke(passes[a].reference)]
  {
  }

  lemma SecondLoop()
    ensures var u := Exec(SHOP, Opening(), Halfway() + [ExpireDueStep(122 * MINUTE, Up)]);
            Holder(1) in u.calls && u.calls[Holder(1)] == [Authorize(11), Revoke(Some(11)), Revoke(Some(11))]
  {
    hide Exec, Halfway, ExpireDuePasses;
    HalfwayState();
    Continues(SHOP, Opening(), Halfway(), ExpireDueStep(122 * MINUTE, Up));
    EndsFirst(Exec(SHOP, Opening(), Halfway()));
  }

  /** The first pass still claims a session that is gone, and the next loop closes it once more. */
  lemma HalfwayFailure()
    ensures !SessionsInOrder(Exec(SHOP, Opening(), Halfway()))
    ensures !SessionsInOrder(Exec(SHOP, Opening(), Halfway() + [ExpireDueStep(122 * MINUTE, Up)]))
  {
    hide Exec, Halfway;
    var t := Exec(SHOP, Opening(), Halfway());
    var u := Exec(SHOP, Opening(), Halfway() + [ExpireDueStep(122 * MINUTE, Up)]);
    HalfwayState();
    SecondLoop();
    var log, longer := t.calls[Holder(1)], u.calls[Holder(1)];
    LogGrows([], Authorize(11));
    LogGrows([Authorize(11)], Revoke(Some(11)));
    LogGrows([Authorize(11), Revoke(Some(11))], Revoke(Some(11)));
    assert log == [Authorize(11)] + [Revoke(Some(11))] && longer == log + [Revoke(Some(11))];
    assert SessionsRevoked(longer) == 2;
    assert Live([Authorize(11)] + [Revoke(Some(11))]) == {};
    assert Holder(1) in t.passes && t.passes[Holder(1)].reference == Some(11);
    assert (Holder(1), t.passes[Holder(1)].reference.value) in HeldSessions(t);
    assert (Holder(1), 11) !in OpenSessions(t);
  }

  // ---------- A refunded order that issued its pass ----------

  /** The first order of the day, refunded after a second one. */
  function FirstRefunded(): seq<Step> {
    [Buy(1, 1, 0, 1)] + [Buy(1, 10_000, 10 * MINUTE, 2)] + [Refund(1, 10 * MINUTE)]
  }

  const FIRST: Cut := Cut(1, Account(0, 1, 0), 1, {})

  lemma FirstBuy()
    ensures var t := Exec(SHOP, Opening(), [Buy(1, 1, 0, 1)]);
            && t.stores == STORES && t.redemptions == [] && t.records == map[]
            && t.orders == map[1 := Order(Holder(1), 1, 1, 0, 120, Paid, 0)]
            && t.passes == map[Holder(1) := Issue(120, 0)] && t.balances == map[Holder(1) := Balance(1, 1)]
            && t.calls == map[]
  {
    hide Exec, Next, Initial;
    StartsThere();
    DefaultMinutes(1);
    assert [] + [Buy(1, 1, 0, 1)] == [Buy(1, 1, 0, 1)];
    Continues(SHOP, Opening(), [], Buy(1, 1, 0, 1));
    Buys(Opening(), 1, 1, 0, 1);
  }

  lemma SecondBuy()
    ensures var t := Exec(SHOP, Opening(), [Buy(1, 1, 0, 1)] + [Buy(1, 10_000, 10 * MINUTE, 2)]);
            && t.records == map[] && 1 in t.orders
            && t.orders[1] == Order(Holder(1), 1, 1, 0, 120, Paid, 0)
            && t.passes == map[Holder(1) := Extend(Issue(120, 0), 120, 10 * MINUTE)]
  {
    hide Exec, Next, Initial;
    FirstBuy();
    DefaultMinutes(10_000);
    Continues(SHOP, Opening(), [Buy(1, 1, 0, 1)], Buy(1, 10_000, 10 * MINUTE, 2));
    Buys(Exec(SHOP, Opening(), [Buy(1, 1, 0, 1)]), 1, 10_000, 10 * MINUTE, 2);
  }

  lemma RefundReclaims()
    ensures var t := Exec(SHOP, Opening(), FirstRefunded());
            && Placed(t, FIRST) && t.orders[1].status == Refunded
            && Holder(1) in t.passes && t.passes[Holder(1)].expiresAt == 120 * MINUTE
  {
    hide Exec, Next, Initial;
    SecondBuy();
    var run := [Buy(1, 1, 0, 1)] + [Buy(1, 10_000, 10 * MINUTE, 2)];
    Continues(SHOP, Opening(), run, Refund(1, 10 * MINUTE));
    RefundsFirst(Exec(SHOP, Opening(), run));
  }

  lemma RefundsFirst(s: State)
    requires s.records == map[] && 1 in s.orders && s.orders[1] == Order(Holder(1), 1, 1, 0, 120, Paid, 0)
    requires s.passes == map[Holder(1) := Extend(Issue(120, 0), 120, 10 * MINUTE)]
    ensures var t := Next(SHOP, s, Refund(1, 10 * MINUTE));
            && Placed(t, FIRST) && t.orders[1].status == Refunded
            && Holder(1) in t.passes && t.passes[Holder(1)].expiresAt == 120 * MINUTE
  {
    hide CommitRefund, RefundAnswer;
    AllOfFirst();
    AcceptsFirst(s);
    ReclaimsFirst();
    RefundWrites(s, 1, RefundRequest(0, None, 0), 1, 10 * MINUTE);
  }

  lemma AcceptsFirst(s: State)
    requires s.records == map[] && 1 in s.orders && s.orders[1] == Order(Holder(1), 1, 1, 0, 120, Paid, 0)
    ensures RefundAnswer(s, 10 * MINUTE, 1, RefundRequest(0, None, 0), None, true) == None
    ensures RefundAmount(s.orders[1], RefundRequest(0, None, 0)) == 1
  {
    hide NeedsNetwork;
  }

  lemma RefundWrites(s: State, id: Id, req: RefundRequest, amount: int, now: Time)
    requires id in s.orders
    ensures var t, a := CommitRefund(SHOP, s, now, id, req, None, amount).state, s.orders[id].account;
            && t.orders == s.orders[id := RefundedOrder(s.orders[id], amount)]
            && (a in s.passes ==>
                  t.passes == s.passes[a := Reclaim(s.passes[a], MinutesToReclaim(s.orders[id], amount), now).pass])
  {
    hide GrantsAfterRefund, CouponsAfterRefund, TiersLost, Withdraw, MinutesToReclaim, Reclaim, Remember, Call;
  }

  lemma AllOfFirst()
    ensures MinutesToReclaim(Order(Holder(1), 1, 1, 0, 120, Paid, 0), 1) == 120
  {
  }

  lemma ReclaimsFirst()
    ensures Reclaim(Extend(Issue(120, 0), 120, 10 * MINUTE), 120, 10 * MINUTE).pass.expiresAt == 120 * MINUTE
  {
  }

  lemma NeverPlaced()
    ensures Without(FirstRefunded(), FIRST) == [Buy(1, 10_000, 10 * MINUTE, 2)]
    ensures var u := Exec(SHOP, Opening(), [Buy(1, 10_000, 10 * MINUTE, 2)]);
            Holder(1) in u.passes && u.passes[Holder(1)].expiresAt == 160 * MINUTE
  {
    hide Exec, Next, Initial;
    var one, two, three := [Buy(1, 1, 0, 1)], [Buy(1, 1, 0, 1)] + [Buy(1, 10_000, 10 * MINUTE, 2)], FirstRefunded();
    assert three[..2] == two && two[..1] == one && one[..0] == [];
    assert Without(one, FIRST) == [];
    assert Without(two, FIRST) == [Buy(1, 10_000, 10 * MINUTE, 2)];
    StartsThere();
    DefaultMinutes(10_000);
    assert [] + [Buy(1, 10_000, 10 * MINUTE, 2)] == [Buy(1, 10_000, 10 * MINUTE, 2)];
    Continues(SHOP, Opening(), [], Buy(1, 10_000, 10 * MINUTE, 2));
    Buys(Opening(), 1, 10_000, 10 * MINUTE, 2);
  }

  lemma BothPunctual()
    ensures AllPunctual(SHOP, Opening(), FirstRefunded(), Holder(1))
    ensures AllPunctual(SHOP, Opening(), [Buy(1, 10_000, 10 * MINUTE, 2)], Holder(1))
  {
    hide Exec, Next, Initial;
    var run := FirstRefunded();
    StartsThere();
    FirstBuy();
    SecondBuy();
    forall i | 0 <= i < |run| ensures Punctual(SHOP, Exec(SHOP, Opening(), run[..i]), run[i], Holder(1)) {
      if i == 0 {
        assert run[..0] == [];
      } else if i == 1 {
        assert run[..1] == [Buy(1, 1, 0, 1)];
      } else {
        assert run[..2] == [Buy(1, 1, 0, 1)] + [Buy(1, 10_000, 10 * MINUTE, 2)];
      }
    }
    var alone := [Buy(1, 10_000, 10 * MINUTE, 2)];
    assert alone[..0] == [];
  }

  /**
   * All is as FullRefundRestoresExpiry asks, except that the refunded order issued the pass: without it the second
   * order would have issued one, later and with the minutes of a first order.
   */
  lemma IssuingOrderLeavesTrace()
    ensures SHOP.Valid() && AllClear(FirstRefunded(), FIRST)
    ensures var t, u := Exec(SHOP, Opening(), FirstRefunded()), Exec(SHOP, Opening(), Without(FirstRefunded(), FIRST));
            && Placed(t, FIRST) && t.orders[1].status == Refunded
            && AllPunctual(SHOP, Opening(), FirstRefunded(), Holder(1))
            && AllPunctual(SHOP, Opening(), Without(FirstRefunded(), FIRST), Holder(1))
            && Holder(1) in t.passes && t.passes[Holder(1)].expiresAt == 120 * MINUTE
            && Holder(1) in u.passes && u.passes[Holder(1)].expiresAt == 160 * MINUTE
  {
    hide Exec, AllPunctual;
    RefundReclaims();
    NeverPlaced();
    BothPunctual();
  }

  // ---------- A stored row that outlives its orders ----------

  lemma SoleRefund()
    ensures var t := Exec(SHOP, Opening(), [Buy(1, 1, 0, 1)] + [Refund(1, 0)]);
            t.orders == map[1 := Order(Holder(1), 1, 1, 1, 120, Refunded, 0)]
  {
    hide Exec, Next, Initial;
    FirstBuy();
    Continues(SHOP, Opening(), [Buy(1, 1, 0, 1)], Refund(1, 0));
    RefundsAtOnce(Exec(SHOP, Opening(), [Buy(1, 1, 0, 1)]));
  }

  lemma RefundsAtOnce(s: State)
    requires s.records == map[] && s.orders == map[1 := Order(Holder(1), 1, 1, 0, 120, Paid, 0)]
    ensures Next(SHOP, s, Refund(1, 0)).orders == map[1 := Order(Holder(1), 1, 1, 1, 120, Refunded, 0)]
  {
    hide GrantsAfterRefund, CouponsAfterRefund, TiersLost, Withdraw, MinutesToReclaim, Reclaim, Remember;
    assert RefundAnswer(s, 0, 1, RefundRequest(0, None, 0), None, true).None?;
  }

  /** The orders at two summaries: one after the sale, one after its refund. */
  function SaleAndRefund(): seq<map<Id, Order>> {
    [Exec(SHOP, Opening(), [Buy(1, 1, 0, 1)]).orders,
     Exec(SHOP, Opening(), [Buy(1, 1, 0, 1)] + [Refund(1, 0)]).orders]
  }

  /** Whatever the two summaries are, the stored row still shows the sale, which the orders do not. */
  lemma RowOutlivesRefund(before: Sales.Summary, after: Sales.Summary)
    ensures var made := [Sales.Made(before, SaleAndRefund()[0], 0), Sales.Made(after, SaleAndRefund()[1], 0)];
            Sales.MadeOf(made, 0, 0) ==>
              && Sales.BucketAt(Sales.RowsAfter(made), Sales.Hour(0)) != Sales.Bucket(0, 0)
              && Sales.TrueBucket(SaleAndRefund()[1], 0, 0, 0, Sales.Hour(0)) == Sales.Bucket(0, 0)
  {
    hide Exec, Sales.RowsAfter;
    FirstBuy();
    SoleRefund();
    var tables, hour := SaleAndRefund(), Sales.Hour(0);
    var made := [Sales.Made(before, tables[0], 0), Sales.Made(after, tables[1], 0)];
    assert Sales.InBucket(tables[0][1], 0, 0, 0, hour);
    assert Sales.Saw(made[0], 0, 0, hour);
    NoSales(tables[1]);
    hide SaleAndRefund, Sales.Saw, Sales.Summarises;
    if Sales.MadeOf(made, 0, 0) {
      Sales.SummaryShows(made[1], 0, 0, hour);
      Sales.StoredRowTrueIff(made, 0, 0, hour);
      assert made[1].orders == tables[1];
    }
  }

  lemma NoSales(orders: map<Id, Order>)
    requires orders == map[1 := Order(Holder(1), 1, 1, 1, 120, Refunded, 0)]
    ensures Sales.TrueBucket(orders, 0, 0, 0, Sales.Hour(0)) == Sales.Bucket(0, 0)
  {
    var none: map<Id, Order> := map[];
    SumSkipsZeros(orders, none, Sales.CountIn(0, 0, 0, Sales.Hour(0)));
    SumSkipsZeros(orders, none, Sales.NetIn(0, 0, 0, Sales.Hour(0)));
  }

  // ---------- A request that fails after its call ----------

  /** The activation opens a session and fails before its commit, and the customer tries again. */
  function TriedTwice(): seq<Step> {
    [Buy(1, 1, 0, 1)] + [Aborted(ActivateStep(0, Claims(0, 1), Holder(1), Some(11)))]
    + [ActivateStep(0, Claims(0, 1), Holder(1), Some(12))]
  }

  lemma AbortsActivation(s: State)
    requires s.passes == map[Holder(1) := Issue(120, 0)] && s.calls == map[]
    ensures Next(SHOP, s, Aborted(ActivateStep(0, Claims(0, 1), Holder(1), Some(11))))
            == s.(calls := map[Holder(1) := [Authorize(11)]])
  {
    assert [] + [Authorize(11)] == [Authorize(11)];
    Activates(s, 1, 11);
  }

  /** The controller has two sessions for the pass, which holds the second; after the first attempt it held none. */
  lemma AbortedActivation()
    ensures var t := Exec(SHOP, Opening(), TriedTwice()[..2]);
            Holder(1) in t.passes && t.passes[Holder(1)] == Issue(120, 0) && !SessionsInOrder(t)
    ensures var u := Exec(SHOP, Opening(), TriedTwice());
            Holder(1) in u.passes && u.passes[Holder(1)] == Running(12) && !SessionsInOrder(u)
  {
    hide Exec, Next, Initial;
    var one, abort := [Buy(1, 1, 0, 1)], Aborted(ActivateStep(0, Claims(0, 1), Holder(1), Some(11)));
    var again := ActivateStep(0, Claims(0, 1), Holder(1), Some(12));
    FirstBuy();
    var s, t := Exec(SHOP, Opening(), one), Exec(SHOP, Opening(), one + [abort]);
    Continues(SHOP, Opening(), one, abort);
    AbortsActivation(s);
    Continues(SHOP, Opening(), one + [abort], again);
    Activates(t, 1, 12);
    assert TriedTwice()[..2] == one + [abort];
    var u := Exec(SHOP, Opening(), TriedTwice());
    LogGrows([], Authorize(11));
    LogGrows([Authorize(11)], Authorize(12));
    assert [] + [Authorize(11)] == [Authorize(11)];
    assert u.calls[Holder(1)] == [Authorize(11)] + [Authorize(12)];
    assert Live([Authorize(11)]) == {11};
    assert (Holder(1), 11) in OpenSessions(t);
  }
}
