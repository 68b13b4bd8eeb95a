/**
 * What the remaining requests about passes change, and why a pass is closed (app/routers/public.py,
 * app/routers/admin.py, app/services/wifi.py).
 */
module PassEffects {
  import opened Common
  import opened BusinessDay
  import opened WifiPolicy
  import opened WifiPass
  import opened LedgerModel
  import opened LedgerSteps
  import opened Conservation
  import opened OrderEffects
  import opened RewardEffects

  // ---------- Activating ----------

  /** Everything but this pass and the calls made for it is as it was. */
  predicate OnlyThis(s: State, s': State, a: Account, p: Pass, calls: CallLog) {
    s' == s.(passes := s.passes[a := p], calls := calls)
  }

  /**
   * A customer's own pass that was not used yet goes online when the controller opens a session for it, which it then
   * holds. Found too late it is marked as expired without asking the controller. In all other cases nothing changes.
   */
  lemma ActivateEffect(c: Catalog, s: State, now: Time, claims: Claims, a: Account, session: Option<Id>)
    ensures var r := Apply(c, s, ActivateStep(now, claims, a, session));
            var found := a in s.passes && claims == Claims(a.store, a.customer);
            var unused := found && (s.passes[a].status.Issued? || s.passes[a].status.Activating?);
            && (r.outcome.Done? <==> unused && now < s.passes[a].expiresAt && session.Some?)
            && (r.outcome.Done? ==>
                  && OnlyThis(s, r.state, a,
                              s.passes[a].(status := Active, activatedAt := Some(now), reference := session),
                              Call(s.calls, a, Authorize(session.value)))
                  && r.outcome == Done(200, PassShown(r.state.passes[a])))
            && (unused && s.passes[a].expiresAt <= now ==>
                  OnlyThis(s, r.state, a, s.passes[a].(status := Expired), s.calls))
            && (!r.outcome.Done? && !(unused && s.passes[a].expiresAt <= now) ==> r.state == s)
            && (r.outcome == Rejected(404) <==> !found)
            && (r.outcome == Rejected(502) <==> unused && now < s.passes[a].expiresAt && session.None?)
            && (r.outcome.Done? || r.outcome.code in {404, 409, 502})
  {
    hide Call;
    if a in s.passes {
      assert s == s.(passes := s.passes[a := s.passes[a]]);
    }
  }

  // ---------- Administrators ----------

  predicate Manages(s: State, admin: Id, a: Account, requested: Option<Id>) {
    a in s.passes && a.store == admin && (requested.None? || requested.value == admin)
  }

  /** Only a store's own administrator reaches a pass, and is told so when it is another store's. */
  predicate TurnedAway(r: Result, s: State, admin: Id, a: Account, requested: Option<Id>) {
    && (r.outcome == Rejected(404) <==> a !in s.passes)
    && (r.outcome == Rejected(403) <==> a in s.passes && !Manages(s, admin, a, requested))
  }

  lemma AccessMeans(s: State, admin: Id, a: Account, requested: Option<Id>)
    ensures AdminAccess(s, admin, a, requested)
            == if a !in s.passes then Some(404) else if !Manages(s, admin, a, requested) then Some(403) else None
  {
  }

  predicate Ended(p: Pass) {
    p.status.Blocked? || p.status.Cancelled? || p.status.Failed?
  }

  /** A pass is extended if and only if its own administrator adds at least a minute to one that was not closed. */
  lemma ExtendEffect(c: Catalog, s: State, now: Time, admin: Id, a: Account, requested: Option<Id>, minutes: int)
    ensures var r := Apply(c, s, ExtendStep(now, admin, a, requested, minutes));
            && (r.outcome.Done? <==> 1 <= minutes && Manages(s, admin, a, requested) && !Ended(s.passes[a]))
            && (r.outcome.Done? ==>
                  && a in r.state.passes && Extended(s.passes[a], r.state.passes[a], minutes, now)
                  && OnlyThis(s, r.state, a, r.state.passes[a], s.calls)
                  && r.outcome == Done(200, PassShown(r.state.passes[a])))
            && (!r.outcome.Done? ==> r.state == s)
            && (if minutes < 1 then r.outcome == Rejected(422) else TurnedAway(r, s, admin, a, requested))
            && (r.outcome == Rejected(409) <==> 1 <= minutes && Manages(s, admin, a, requested) && Ended(s.passes[a]))
  {
  }

  /** The pass got its final status, its session was revoked, and nothing else changed. */
  predicate ClosedAs(s: State, s': State, a: Account, status: PassStatus) {
    && a in s.passes
    && OnlyThis(s, s', a, s.passes[a].(status := status, reference := None, version := s.passes[a].version + 1),
                Call(s.calls, a, Revoke(s.passes[a].reference)))
  }

  predicate Over(p: Pass) {
    p.status.Expired? || p.status.Blocked? || p.status.Cancelled?
  }

  /** Ending a pass by hand cancels it unless it is over already; the controller can refuse. */
  lemma ExpireEffect(c: Catalog, s: State, admin: Id, a: Account, requested: Option<Id>, networkUp: bool)
    ensures var r := Apply(c, s, ExpireStep(admin, a, requested, networkUp));
            var mine := Manages(s, admin, a, requested);
            var over := mine && Over(s.passes[a]);
            && TurnedAway(r, s, admin, a, requested)
            && (r.outcome.Done? <==> mine && (over || networkUp))
            && (r.outcome.Done? ==> a in r.state.passes && r.outcome == Done(200, PassShown(r.state.passes[a])))
            && (mine && !over && networkUp ==> ClosedAs(s, r.state, a, Cancelled))
            && (!mine || over || !networkUp ==> r.state == s)
            && (r.outcome == Rejected(502) <==> mine && !over && !networkUp)
  {
    hide Call, AdminAccess;
    AccessMeans(s, admin, a, requested);
  }

  /** A running pass can be blocked; a blocked one stays blocked, and one that is over in another way is refused. */
  lemma BlockEffect(c: Catalog, s: State, admin: Id, a: Account, requested: Option<Id>, networkUp: bool)
    ensures var r := Apply(c, s, BlockStep(admin, a, requested, networkUp));
            var mine := Manages(s, admin, a, requested);
            && TurnedAway(r, s, admin, a, requested)
            && (r.outcome.Done? <==>
                  mine && (s.passes[a].status.Blocked? || (Live(s.passes[a]) && networkUp)))
            && (r.outcome.Done? ==> a in r.state.passes && r.outcome == Done(200, PassShown(r.state.passes[a])))
            && (mine && Live(s.passes[a]) && networkUp ==> ClosedAs(s, r.state, a, Blocked))
            && (!mine || !Live(s.passes[a]) || !networkUp ==> r.state == s)
            && (r.outcome == Rejected(409) <==>
                  mine && !Live(s.passes[a]) && !s.passes[a].status.Blocked?)
            && (r.outcome == Rejected(502) <==> mine && Live(s.passes[a]) && !networkUp)
  {
    hide Call, AdminAccess;
    AccessMeans(s, admin, a, requested);
  }

  // ---------- The expiry loop ----------

  predicate Lapsed(p: Pass, now: Time) {
    (p.status.Active? || p.status.ExpiringSoon?) && p.expiresAt <= now
  }

  /** What the controller was asked for the pass by a loop that reached it. */
  predicate AskedOnce(s: State, s': State, a: Account, asked: bool) {
    Calls(s'.calls, a) == Calls(s.calls, a) + if asked && a in s.passes then [Revoke(s.passes[a].reference)] else []
  }

  function AllLapsed(s: State, now: Time): set<Account> {
    set a | a in s.passes && Lapsed(s.passes[a], now)
  }

  /** The passes that ran out are expired, and no other pass changed. */
  predicate ExpiredThese(s: State, s': State, lapsed: set<Account>) {
    && s'.passes.Keys == s.passes.Keys
    && forall a :: a in s.passes ==>
         var p := s.passes[a];
         s'.passes[a] == if a in lapsed then p.(status := Expired, reference := None, version := p.version + 1) else p
  }

  /**
   * When the controller answers, exactly the passes in use that ran out are expired, each one's session is revoked
   * once, and they are counted. When it fails, no pass changes, and only what it answered before was asked.
   */
  lemma DueEffect(c: Catalog, s: State, now: Time, net: Controller)
    ensures var r, lapsed := Apply(c, s, ExpireDueStep(now, net)), AllLapsed(s, now);
            && r.state == s.(passes := r.state.passes, calls := r.state.calls)
            && (if net.Up? || lapsed <= net.answered then
                  && r.outcome == Done(200, PassesExpired(|lapsed|)) && ExpiredThese(s, r.state, lapsed)
                  && (forall a :: AskedOnce(s, r.state, a, a in lapsed))
                else
                  && r.outcome == Rejected(500) && r.state.passes == s.passes
                  && (forall a :: AskedOnce(s, r.state, a, a in lapsed && a in net.answered)))
  {
    hide EndPasses, RevokeAll, AskedOnce, DueAccounts, AllLapsed, ExpiredThese;
    var r, due := Apply(c, s, ExpireDueStep(now, net)), DueAccounts(s.passes, now);
    DueLapsed(s, now);
    EndsThese(s, r.state, due);
    var reached := Answered(net, due);
    forall a ensures AskedOnce(s, r.state, a, a in reached) {
      AsksThese(s, r.state, reached, a);
    }
    assert forall a :: a in reached <==> a in due && (net.Up? || a in net.answered);
  }

  lemma DueLapsed(s: State, now: Time)
    ensures DueAccounts(s.passes, now) == AllLapsed(s, now) <= s.passes.Keys
  {
  }

  lemma EndsThese(s: State, s': State, due: set<Account>)
    ensures s'.passes == EndPasses(s.passes, due) ==> ExpiredThese(s, s', due)
  {
  }

  lemma AsksThese(s: State, s': State, reached: set<Account>, a: Account)
    requires reached <= s.passes.Keys && s'.calls == RevokeAll(s.calls, s.passes, reached)
    ensures AskedOnce(s, s', a, a in reached)
  {
    assert Calls(s.calls, a) + [] == Calls(s.calls, a);
  }

  // ---------- Publishing a policy ----------

  /** At most eight tiers, none with a negative amount or negative minutes, and a base of at most a day. */
  predicate Bounded(policy: Policy) {
    && policy.baseMinutes.Some? && 1 <= policy.baseMinutes.value <= 24 * 60
    && |policy.firstTiers| <= 8 && |policy.additionalTiers| <= 8
    && forall t :: t in policy.firstTiers + policy.additionalTiers ==> 0 <= t.minAmount && 0 <= t.minutes
  }

  predicate Rising(tiers: seq<Tier>) {
    forall i, j :: 0 <= i < j < |tiers| ==> tiers[i].minAmount < tiers[j].minAmount
  }

  /** A policy is published if and only if it is sound and names the store's current version, which rises by one. */
  lemma PublishIff(c: Catalog, s: State, admin: Id, version: int, policy: Policy)
    ensures var r := Apply(c, s, PublishStep(admin, version, policy));
            && (r.outcome.Done? <==>
                  && Bounded(policy) && Rising(policy.firstTiers) && Rising(policy.additionalTiers)
                  && admin in s.stores && s.stores[admin].policyVersion == version)
            && (r.outcome.Done? ==>
                  && r.state == s.(stores := s.stores[admin := Store(s.stores[admin].clock, policy, version + 1)])
                  && r.outcome == Done(200, PolicyPublished(version + 1)))
            && (!r.outcome.Done? ==> r.state == s)
            && (r.outcome == Rejected(404) <==> Bounded(policy) && admin !in s.stores)
            && (r.outcome == Rejected(409) <==>
                  Bounded(policy) && admin in s.stores && version != s.stores[admin].policyVersion)
            && (r.outcome.Done? || r.outcome.code in {404, 409, 422})
  {
    BoundsAgree(policy);
    hide WellFormedPolicy, Bounded;
    PublishableIsAscending(policy.firstTiers);
    PublishableIsAscending(policy.additionalTiers);
  }

  lemma BoundsAgree(policy: Policy)
    ensures WellFormedPolicy(policy) <==> Bounded(policy)
  {
    var all := policy.firstTiers + policy.additionalTiers;
    if Bounded(policy) {
      assert forall i :: 0 <= i < |policy.firstTiers| ==> policy.firstTiers[i] in all;
      assert forall i :: 0 <= i < |policy.additionalTiers| ==> policy.additionalTiers[i] in all;
    }
  }

  // ---------- Why a pass is closed ----------

  /** The step closes the pass by hand with this status. */
  predicate Closes(s: State, step: Step, a: Account, status: PassStatus) {
    match step
    case ExpireStep(admin, b, requested, networkUp) =>
      && b == a && networkUp && Manages(s, admin, a, requested) && status == Cancelled
      && (Live(s.passes[a]) || s.passes[a].status.Failed?)
    case BlockStep(admin, b, requested, networkUp) =>
      b == a && networkUp && Manages(s, admin, a, requested) && status == Blocked && Live(s.passes[a])
    case _ => false
  }

  predicate EverClosed(c: Catalog, s: State, run: seq<Step>, a: Account, status: PassStatus) {
    run != []
    && var before := run[..|run| - 1];
       Closes(Exec(c, s, before), run[|run| - 1], a, status) || EverClosed(c, s, before, a, status)
  }

  predicate Has(passes: map<Account, Pass>, a: Account, status: PassStatus) {
    a in passes && passes[a].status == status
  }

  /** No other pass changed, and this one's closed status did not. */
  predicate Unclosed(t: map<Account, Pass>, u: map<Account, Pass>, b: Account) {
    && OnlyPass(t, u, b) && b in u
    && (if b in t then Ended(t[b]) || Ended(u[b]) ==> t[b].status == u[b].status else !Ended(u[b]))
  }

  lemma UnclosedKeeps(t: map<Account, Pass>, u: map<Account, Pass>, b: Account, a: Account, status: PassStatus)
    requires Unclosed(t, u, b) && Closed(status)
    ensures Has(u, a, status) <==> Has(t, a, status)
  {
  }

  lemma OrderCloses(c: Catalog, s: State, step: Step, a: Account, status: PassStatus)
    requires step.CreateOrderStep? && Closed(status)
    ensures Has(Next(c, s, step).passes, a, status) <==> Has(s.passes, a, status)
  {
    hide MayOrder, Apply, BusinessDate, Grants;
    if MayOrder(c, s, step.order, step.key, step.id) {
      OrderEffect(c, s, step.now, step.order, step.key, step.id);
      KnownStore(c, s, step.order, step.key, step.id);
      var b := Account(step.order.store, step.order.customer.value,
                       BusinessDate(step.order.paidAt, s.stores[step.order.store].clock));
      UnclosedKeeps(s.passes, Next(c, s, step).passes, b, a, status);
    } else {
      OrderRefused(c, s, step.now, step.order, step.key, step.id);
    }
  }

  lemma KnownStore(c: Catalog, s: State, req: OrderRequest, key: Option<string>, id: Id)
    requires MayOrder(c, s, req, key, id)
    ensures req.store in s.stores && req.customer.Some?
  {
  }

  lemma RefundCloses(c: Catalog, s: State, step: Step, a: Account, status: PassStatus)
    requires OrdersOk(s) && step.RefundStep? && Closed(status)
    ensures Has(Next(c, s, step).passes, a, status) <==> Has(s.passes, a, status)
  {
    hide MayRefund, Apply, TakenBack, EndsWith, Call;
    if MayRefund(s, step.now, step.id, step.refund, step.key, step.networkUp) {
      RefundEffect(c, s, step.now, step.id, step.refund, step.key, step.networkUp);
      KnownOrder(s, step.now, step.id, step.refund, step.key, step.networkUp);
      var b := s.orders[step.id].account;
      UnclosedKeeps(s.passes, Next(c, s, step).passes, b, a, status);
    } else {
      RefundRefused(c, s, step.now, step.id, step.refund, step.key, step.networkUp);
    }
  }

  lemma KnownOrder(s: State, now: Time, id: Id, req: RefundRequest, key: Option<string>, networkUp: bool)
    requires MayRefund(s, now, id, req, key, networkUp)
    ensures id in s.orders
  {
  }

  lemma ChoiceCloses(c: Catalog, s: State, step: Step, a: Account, status: PassStatus)
    requires step.ChooseStep? && Closed(status)
    ensures Has(Next(c, s, step).passes, a, status) <==> Has(s.passes, a, status)
  {
    hide ChooseRefusal, BusinessDayEnd;
  }

  lemma OneStatus(s: State, s': State, b: Account, p: Pass, calls: CallLog, a: Account, status: PassStatus)
    requires b in s.passes && OnlyThis(s, s', b, p, calls)
    ensures Has(s'.passes, a, status) <==> if a == b then p.status == status else Has(s.passes, a, status)
  {
  }

  lemma ActivateCloses(c: Catalog, s: State, step: Step, a: Account, status: PassStatus)
    requires step.ActivateStep? && Closed(status)
    ensures Has(Next(c, s, step).passes, a, status) <==> Has(s.passes, a, status)
  {
    hide Apply, Call, OnlyThis;
    var r, b := Apply(c, s, step), step.account;
    ActivateEffect(c, s, step.now, step.claims, b, step.session);
    if r.outcome.Done? {
      var p := s.passes[b].(status := Active, activatedAt := Some(step.now), reference := step.session);
      OneStatus(s, r.state, b, p, Call(s.calls, b, Authorize(step.session.value)), a, status);
    } else if r.state != s {
      OneStatus(s, r.state, b, s.passes[b].(status := Expired), s.calls, a, status);
    }
  }

  lemma ExtendCloses(c: Catalog, s: State, step: Step, a: Account, status: PassStatus)
    requires step.ExtendStep? && Closed(status)
    ensures Has(Next(c, s, step).passes, a, status) <==> Has(s.passes, a, status)
  {
    hide Apply;
    ExtendEffect(c, s, step.now, step.admin, step.account, step.requested, step.minutes);
  }

  lemma ClosedStatus(s: State, s': State, b: Account, final: PassStatus, a: Account, status: PassStatus)
    requires ClosedAs(s, s', b, final)
    ensures Has(s'.passes, a, status) <==> if a == b then final == status else Has(s.passes, a, status)
  {
    hide Call;
  }

  lemma ExpireCloses(c: Catalog, s: State, step: Step, a: Account, status: PassStatus)
    requires step.ExpireStep? && (status.Blocked? || status.Cancelled?)
    ensures Has(Next(c, s, step).passes, a, status) <==> Has(s.passes, a, status) || Closes(s, step, a, status)
  {
    hide Apply, ClosedAs;
    ExpireEffect(c, s, step.admin, step.account, step.requested, step.networkUp);
    if Manages(s, step.admin, step.account, step.requested) && step.networkUp && !Over(s.passes[step.account]) {
      ClosedStatus(s, Next(c, s, step), step.account, Cancelled, a, status);
    }
  }

  lemma BlockCloses(c: Catalog, s: State, step: Step, a: Account, status: PassStatus)
    requires step.BlockStep? && (status.Blocked? || status.Cancelled?)
    ensures Has(Next(c, s, step).passes, a, status) <==> Has(s.passes, a, status) || Closes(s, step, a, status)
  {
    hide Apply, ClosedAs;
    BlockEffect(c, s, step.admin, step.account, step.requested, step.networkUp);
    if Manages(s, step.admin, step.account, step.requested) && step.networkUp && Live(s.passes[step.account]) {
      ClosedStatus(s, Next(c, s, step), step.account, Blocked, a, status);
    }
  }

  lemma DueCloses(c: Catalog, s: State, step: Step, a: Account, status: PassStatus)
    requires step.ExpireDueStep? && Closed(status)
    ensures Has(Next(c, s, step).passes, a, status) <==> Has(s.passes, a, status)
  {
    hide Apply;
    DueEffect(c, s, step.now, step.net);
  }

  lemma OthersClose(c: Catalog, s: State, step: Step, a: Account, status: PassStatus)
    requires step.RedeemStep? || step.ListCouponsStep? || step.PublishStep? || step.Aborted?
    ensures Next(c, s, step).passes == s.passes
  {
    hide CreateOrder, RefundOrder, ChooseReward, RedeemCoupon, ListCoupons, ActivatePass, ExtendPass, ExpirePass,
         BlockPass, ExpireDuePasses, PublishPolicy;
  }

  lemma StepCloses(c: Catalog, s: State, step: Step, a: Account, status: PassStatus)
    requires OrdersOk(s) && (status.Blocked? || status.Cancelled?)
    ensures Has(Next(c, s, step).passes, a, status) <==> Has(s.passes, a, status) || Closes(s, step, a, status)
  {
    hide Next, Has, OrdersOk, Manages;
    match step
    case CreateOrderStep(_, _, _, _) => OrderCloses(c, s, step, a, status);
    case RefundStep(_, _, _, _, _) => RefundCloses(c, s, step, a, status);
    case ChooseStep(_, _, _, _, _, _) => ChoiceCloses(c, s, step, a, status);
    case ActivateStep(_, _, _, _) => ActivateCloses(c, s, step, a, status);
    case ExtendStep(_, _, _, _, _) => ExtendCloses(c, s, step, a, status);
    case ExpireStep(_, _, _, _) => ExpireCloses(c, s, step, a, status);
    case BlockStep(_, _, _, _) => BlockCloses(c, s, step, a, status);
    case ExpireDueStep(_, _) => DueCloses(c, s, step, a, status);
    case _ => OthersClose(c, s, step, a, status);
  }

  /**
   * After any run a pass is blocked, or cancelled, if and only if its store's administrator blocked it, or ended it,
   * while it was live and the controller answered. Orders, refunds, expiry and aborted requests never close a pass.
   */
  lemma {:induction false} ClosedIff(c: Catalog, s: State, run: seq<Step>, a: Account, status: PassStatus)
    requires Initial(s) && (status.Blocked? || status.Cancelled?)
    ensures Has(Exec(c, s, run).passes, a, status) <==> EverClosed(c, s, run, a, status)
  {
    if run != [] {
      hide Next, Closes, Has, BalancesMatch, DaysMatch, StoresOk, OrdersOk;
      var before := run[..|run| - 1];
      ClosedIff(c, s, before, a, status);
      MoneyConserved(c, s, before);
      StepCloses(c, Exec(c, s, before), run[|run| - 1], a, status);
    } else {
      assert s.passes == map[];
    }
  }
}
