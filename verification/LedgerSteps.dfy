/** What each request does to the tables: one function per endpoint, on values. */
module LedgerSteps {
  import opened Common
  import opened BusinessDay
  import opened Proration
  import opened WifiPolicy
  import opened WifiPass
  import opened LedgerModel

  // ---------- Keyed requests (app/routers/pos.py) ----------

  predicate HasKey(key: Option<string>) {
    key.Some? && key.value != ""
  }

  /** The answer a keyed request gets without being carried out, if any. */
  function Replay(records: Records, scope: Scope, key: Option<string>, request: Request): Option<Outcome> {
    if !HasKey(key) then None
    else if !(8 <= |key.value| <= 200) then Some(Rejected(422))
    else if (scope, key.value) !in records then None
    else
      var record := records[(scope, key.value)];
      if record.request != request then Some(Rejected(409)) else Some(Done(record.code, record.response))
  }

  function Remember(records: Records, scope: Scope, key: Option<string>, request: Request,
                    code: int, response: Response): Records {
    if HasKey(key) then records[(scope, key.value) := Record(request, code, response)] else records
  }

  // ---------- Orders ----------

  /** Bounds enforced on a request before the endpoint runs (app/schemas.py). */
  predicate WellFormedOrder(req: OrderRequest) {
    && req.items != []
    && 0 <= req.total
    && forall i :: 0 <= i < |req.items| ==>
         1 <= req.items[i].quantity && (req.items[i].unitPrice.Some? ==> 0 <= req.items[i].unitPrice.value)
  }

  predicate ExternalIdUsed(orders: map<Id, Order>, store: Id, externalId: Id) {
    exists o :: o in orders && orders[o].account.store == store && orders[o].externalId == externalId
  }

  /** The price of the items, or None when one of them is not sold in this store. */
  function PricedTotal(products: map<Id, Product>, store: Id, items: seq<OrderItem>): Option<int> {
    if items == [] then Some(0)
    else
      var last := items[|items| - 1];
      var rest := PricedTotal(products, store, items[..|items| - 1]);
      if rest.None? || last.product !in products then None
      else
        var product := products[last.product];
        if product.store != store || !product.active then None
        else
          Some(rest.value
               + last.quantity * (if last.unitPrice.Some? then last.unitPrice.value else product.price))
  }

  function OrderAccount(store: Store, req: OrderRequest): Account
    requires req.customer.Some?
  {
    Account(req.store, req.customer.value, BusinessDate(req.paidAt, store.clock))
  }

  function OrderMinutes(s: State, a: Account, amount: int): int
    requires a.store in s.stores
  {
    if a in s.passes then AdditionalOrderMinutes(amount, s.stores[a.store].policy)
    else FirstOrderMinutes(amount, s.stores[a.store].policy)
  }

  function PassAfterOrder(s: State, a: Account, minutes: int, now: Time): Pass {
    if a in s.passes then Extend(s.passes[a], minutes, now) else Issue(minutes, now)
  }

  function BalanceOf(s: State, a: Account): int {
    if a in s.balances then s.balances[a].total else 0
  }

  function Deposit(balances: map<Account, Balance>, a: Account, amount: int): map<Account, Balance> {
    if a in balances then balances[a := balances[a].(total := balances[a].total + amount)]
    else balances[a := Balance(amount, 1)]
  }

  datatype Consumed = Consumed(redemptions: seq<Redemption>, applied: Option<GrantKey>)

  /** The oldest waiting immediate reward of the account is consumed by the order. */
  function ConsumeOldest(redemptions: seq<Redemption>, a: Account, order: Id): Consumed {
    if redemptions == [] then Consumed([], None)
    else if redemptions[0].grant.account == a && redemptions[0].order.None? then
      Consumed([redemptions[0].(order := Some(order))] + redemptions[1..], Some(redemptions[0].grant))
    else
      var rest := ConsumeOldest(redemptions[1..], a, order);
      Consumed([redemptions[0]] + rest.redemptions, rest.applied)
  }

  datatype Evaluated = Evaluated(grants: map<GrantKey, GrantStatus>, earned: seq<Id>)

  /** Every tier the balance reaches gets a grant unless it already has one (app/services/rewards.py). */
  function EvaluateGrants(tiers: seq<RewardTier>, a: Account, total: int,
                          grants: map<GrantKey, GrantStatus>): Evaluated {
    if tiers == [] then Evaluated(grants, [])
    else
      var before := EvaluateGrants(tiers[..|tiers| - 1], a, total, grants);
      var t := tiers[|tiers| - 1];
      if t.store == a.store && t.threshold <= total && GrantKey(a, t.id) !in before.grants then
        Evaluated(before.grants[GrantKey(a, t.id) := AwaitingChoice], before.earned + [t.id])
      else before
  }

  /** The answer to an order that is not carried out: a bad request, a conflict, or the repeat of an accepted one. */
  function OrderAnswer(c: Catalog, s: State, req: OrderRequest, key: Option<string>, id: Id): (answer: Option<Outcome>)
    ensures answer.None? ==> 0 <= req.total && req.store in s.stores && req.customer.Some? && id !in s.orders
    ensures answer.None? ==>
              var a := OrderAccount(s.stores[req.store], req); a in s.passes ==> !Closed(s.passes[a].status)
  {
    if !WellFormedOrder(req) then Some(Rejected(422))
    else if req.store !in s.stores then Some(Rejected(404))
    else
      var replay := Replay(s.records, PosOrderScope(req.store), key, OrderBody(req));
      if replay.Some? then replay
      else if ExternalIdUsed(s.orders, req.store, req.externalId) then Some(Rejected(409))
      else
        var priced := PricedTotal(c.products, req.store, req.items);
        if priced.None? || priced.value != req.total then Some(Rejected(422))
        else if req.customer.None? then Some(Rejected(422))
        else
          var a := OrderAccount(s.stores[req.store], req);
          if a in s.passes && Closed(s.passes[a].status) then Some(Rejected(409))
          else if id in s.orders then Some(Rejected(409))
          else None
  }

  function CreateOrder(c: Catalog, s: State, now: Time, req: OrderRequest, key: Option<string>, id: Id): Result {
    var answer := OrderAnswer(c, s, req, key, id);
    if answer.Some? then Result(s, answer.value)
    else CommitOrder(c, s, now, req, key, id, OrderAccount(s.stores[req.store], req))
  }

  function CommitOrder(c: Catalog, s: State, now: Time, req: OrderRequest, key: Option<string>, id: Id,
                       a: Account): Result
    requires a.store in s.stores
  {
    var minutes := OrderMinutes(s, a, req.total);
    var pass := PassAfterOrder(s, a, minutes, now);
    var total := BalanceOf(s, a) + req.total;
    var consumed := ConsumeOldest(s.redemptions, a, id);
    var evaluated := EvaluateGrants(c.tiers, a, total, s.grants);
    var response := OrderCreated(id, a.day, total, evaluated.earned, consumed.applied, pass);
    Result(s.(orders := s.orders[id := Order(a, req.externalId, req.total, 0, minutes, Paid, req.paidAt)],
              balances := Deposit(s.balances, a, req.total),
              passes := s.passes[a := pass],
              grants := evaluated.grants,
              redemptions := consumed.redemptions,
              records := Remember(s.records, PosOrderScope(req.store), key, OrderBody(req), 201, response)),
           Done(201, response))
  }

  // ---------- Refunds ----------

  function FindTier(tiers: seq<RewardTier>, id: Id): Option<RewardTier> {
    if tiers == [] then None
    else if tiers[|tiers| - 1].id == id then Some(tiers[|tiers| - 1])
    else FindTier(tiers[..|tiers| - 1], id)
  }

  /** The tier exists and the balance no longer reaches it. */
  predicate OutOfReach(c: Catalog, tier: Id, total: int) {
    var t := FindTier(c.tiers, tier);
    t.Some? && t.value.threshold > total
  }

  /** Waiting grants the refund takes back. */
  predicate GrantLost(c: Catalog, grants: map<GrantKey, GrantStatus>, a: Account, total: int, g: GrantKey)
    requires g in grants
  {
    g.account == a && grants[g] == AwaitingChoice && OutOfReach(c, g.tier, total)
  }

  /** Unused coupons the refund takes back. */
  predicate CouponLost(c: Catalog, grants: map<GrantKey, GrantStatus>, coupons: map<GrantKey, Coupon>, a: Account,
                       total: int, g: GrantKey)
    requires g in coupons
  {
    && g.account == a && g in grants && grants[g] != GrantRevoked
    && coupons[g].status == Available && OutOfReach(c, g.tier, total)
  }

  function GrantsAfterRefund(c: Catalog, grants: map<GrantKey, GrantStatus>, a: Account,
                             total: int): map<GrantKey, GrantStatus> {
    map g | g in grants :: if GrantLost(c, grants, a, total, g) then GrantRevoked else grants[g]
  }

  function CouponsAfterRefund(c: Catalog, grants: map<GrantKey, GrantStatus>, coupons: map<GrantKey, Coupon>,
                              a: Account, total: int): map<GrantKey, Coupon> {
    map g | g in coupons ::
      if CouponLost(c, grants, coupons, a, total, g) then coupons[g].(status := CouponRevoked) else coupons[g]
  }

  function TiersLost(c: Catalog, grants: map<GrantKey, GrantStatus>, a: Account, total: int): set<Id> {
    set g | g in grants && GrantLost(c, grants, a, total, g) :: g.tier
  }

  function Withdraw(balances: map<Account, Balance>, a: Account, amount: int): map<Account, Balance> {
    if a in balances then
      balances[a := Balance(Max(0, balances[a].total - amount), balances[a].version + 1)]
    else balances
  }

  function RefundedOrder(o: Order, amount: int): Order {
    var refunded := o.refunded + amount;
    o.(refunded := refunded, status := if refunded == o.total then Refunded else PartiallyRefunded)
  }

  /** The minutes this refund takes back on top of earlier ones. */
  function MinutesToReclaim(o: Order, amount: int): int {
    Prorated(o.wifiMinutes, o.total, o.refunded + amount) - Prorated(o.wifiMinutes, o.total, o.refunded)
  }

  /** The amount a refund asks for: what it names, or all that is left. */
  function RefundAmount(o: Order, req: RefundRequest): int {
    if req.amount.Some? then req.amount.value else o.total - o.refunded
  }

  /** The answer to a refund that is not carried out. */
  function RefundAnswer(s: State, now: Time, id: Id, req: RefundRequest, key: Option<string>,
                        networkUp: bool): (answer: Option<Outcome>)
    ensures answer.None? ==>
              id in s.orders && 0 < RefundAmount(s.orders[id], req) <= s.orders[id].total - s.orders[id].refunded
  {
    if req.amount.Some? && req.amount.value < 1 then Some(Rejected(422))
    else if id !in s.orders || s.orders[id].account.store != req.store then Some(Rejected(404))
    else
      var replay := Replay(s.records, RefundScope(id), key, RefundBody(req));
      var amount := RefundAmount(s.orders[id], req);
      if replay.Some? then replay
      else if amount <= 0 || amount > s.orders[id].total - s.orders[id].refunded then Some(Rejected(422))
      else if NeedsNetwork(s, id, amount, now) && !networkUp then Some(Rejected(500))
      else None
  }

  function RefundOrder(c: Catalog, s: State, now: Time, id: Id, req: RefundRequest, key: Option<string>,
                       networkUp: bool): Result {
    var answer := RefundAnswer(s, now, id, req, key, networkUp);
    if answer.Some? then Result(s, answer.value)
    else CommitRefund(c, s, now, id, req, key, RefundAmount(s.orders[id], req))
  }

  /** Whether the refund ends the pass, which calls the network controller. */
  predicate NeedsNetwork(s: State, id: Id, amount: int, now: Time)
    requires id in s.orders
  {
    var a := s.orders[id].account;
    a in s.passes && Reclaim(s.passes[a], MinutesToReclaim(s.orders[id], amount), now).revokes
  }

  function CommitRefund(c: Catalog, s: State, now: Time, id: Id, req: RefundRequest, key: Option<string>,
                        amount: int): Result
    requires id in s.orders
  {
    var order := RefundedOrder(s.orders[id], amount);
    var a := order.account;
    var balances := Withdraw(s.balances, a, amount);
    var total := if a in balances then balances[a].total else 0;
    var minutes := MinutesToReclaim(s.orders[id], amount);
    var reclaimed := if a in s.passes then Some(Reclaim(s.passes[a], minutes, now)) else None;
    var response := OrderRefunded(
                      id, order.status, order.refunded, amount, total,
                      TiersLost(c, s.grants, a, total),
                      if reclaimed.Some? then reclaimed.value.removed else 0,
                      if reclaimed.Some? then Some(reclaimed.value.pass) else None);
    Result(s.(orders := s.orders[id := order],
              balances := balances,
              passes := if reclaimed.Some? then s.passes[a := reclaimed.value.pass] else s.passes,
              grants := GrantsAfterRefund(c, s.grants, a, total),
              coupons := CouponsAfterRefund(c, s.grants, s.coupons, a, total),
              records := Remember(s.records, RefundScope(id), key, RefundBody(req), 200, response),
              calls := if reclaimed.Some? && reclaimed.value.revokes
                       then Call(s.calls, a, Revoke(s.passes[a].reference)) else s.calls),
           Done(200, response))
  }

  // ---------- Rewards and coupons (app/routers/public.py) ----------

  /** The store and customer a portal session speaks for. */
  datatype Claims = Claims(store: Id, customer: Id)

  predicate Owns(claims: Claims, a: Account) {
    a.store == claims.store && a.customer == claims.customer
  }

  /** The order a choice names, if any, is one of the account's customer in its store. */
  predicate OrderBelongs(orders: map<Id, Order>, order: Option<Id>, a: Account) {
    order.Some? ==>
      && order.value in orders
      && orders[order.value].account.store == a.store
      && orders[order.value].account.customer == a.customer
  }

  /** The uniqueness of a grant's redemption. */
  predicate Redeems(redemptions: seq<Redemption>, g: GrantKey) {
    exists i :: 0 <= i < |redemptions| && redemptions[i].grant == g
  }

  /** An immediate choice of a benefit that extends Wi-Fi to the end of the business day. */
  predicate IsDayPass(c: Catalog, benefit: Id, asCoupon: bool) {
    !asCoupon && benefit in c.benefits && c.benefits[benefit].dayPass
  }

  /** The refusal a choice gets, if any. */
  function ChooseRefusal(c: Catalog, s: State, claims: Claims, g: GrantKey, benefit: Id, asCoupon: bool,
                         order: Option<Id>): (code: Option<int>)
    ensures code.None? ==> g in s.grants && s.grants[g] == AwaitingChoice && OrderBelongs(s.orders, order, g.account)
    ensures code.None? ==> if asCoupon then g !in s.coupons else !Redeems(s.redemptions, g)
    ensures code.None? && IsDayPass(c, benefit, asCoupon) ==>
              g.account.store in s.stores && g.account in s.passes && !Terminal(s.passes[g.account].status)
  {
    var a := g.account;
    if g !in s.grants || !Owns(claims, a) then Some(404)
    else if benefit !in c.benefits then Some(404)
    else if !OrderBelongs(s.orders, order, a) then Some(404)
    else if IsDayPass(c, benefit, asCoupon) && (a.store !in s.stores || a !in s.passes) then Some(422)
    else if IsDayPass(c, benefit, asCoupon) && Terminal(s.passes[a].status) then Some(409)
    else if s.grants[g] != AwaitingChoice || c.benefits[benefit].tier != g.tier then Some(409)
    else if asCoupon && g in s.coupons then Some(409)
    else if !asCoupon && Redeems(s.redemptions, g) then Some(409)
    else None
  }

  function ChooseReward(c: Catalog, s: State, now: Time, claims: Claims, g: GrantKey, benefit: Id,
                        asCoupon: bool, order: Option<Id>): (r: Result)
    ensures r.state == s.(passes := r.state.passes, grants := r.state.grants, coupons := r.state.coupons,
                            redemptions := r.state.redemptions)
    ensures r.state.passes.Keys == s.passes.Keys
  {
    var refusal := ChooseRefusal(c, s, claims, g, benefit, asCoupon, order);
    if refusal.Some? then Reject(s, refusal.value)
    else
      Result(s.(grants := s.grants[g := Fulfilled],
                coupons := if asCoupon then s.coupons[g := Coupon(benefit, Available, now + 7 * DAY)] else s.coupons,
                passes := if IsDayPass(c, benefit, asCoupon) then AddDayPass(s, g.account) else s.passes,
                redemptions := if asCoupon then s.redemptions else s.redemptions + [Redemption(g, benefit, order)]),
             Done(200, RewardChosen(g, benefit, asCoupon)))
  }

  /** The account's pass runs at least until its business day closes. */
  function AddDayPass(s: State, a: Account): map<Account, Pass>
    requires a in s.passes && a.store in s.stores
  {
    s.passes[a := ApplyDayPass(s.passes[a], BusinessDayEnd(a.day, s.stores[a.store].clock))]
  }

  function RedeemCoupon(s: State, now: Time, claims: Claims, g: GrantKey): (r: Result)
    ensures r.state == s.(coupons := r.state.coupons)
    ensures r.state.coupons.Keys == s.coupons.Keys
  {
    if g !in s.coupons || !Owns(claims, g.account) then Reject(s, 404)
    else if s.coupons[g].status != Available then Reject(s, 409)
    else if s.coupons[g].expiresAt <= now then
      Reject(s.(coupons := s.coupons[g := s.coupons[g].(status := CouponExpired)]), 410)
    else
      Result(s.(coupons := s.coupons[g := s.coupons[g].(status := Redeemed)]),
             Done(200, CouponUsed(g, s.coupons[g].benefit)))
  }

  /** A coupon is left alone, or it was available and is marked as used or as expired. */
  lemma RedeemWrites(s: State, now: Time, claims: Claims, g: GrantKey)
    ensures var r := RedeemCoupon(s, now, claims, g);
            || (r.state.coupons == s.coupons && !r.outcome.Done?)
            || var status := if r.outcome.Done? then Redeemed else CouponExpired;
               && g in s.coupons && s.coupons[g].status == Available
               && r.state.coupons == s.coupons[g := s.coupons[g].(status := status)]
  {
    hide Owns;
  }

  /** Listing the coupon box expires what is past its date. */
  function ListCoupons(s: State, now: Time, claims: Claims): (r: Result)
    ensures r.state == s.(coupons := r.state.coupons)
    ensures r.state.coupons.Keys == s.coupons.Keys
  {
    Result(s.(coupons := map g | g in s.coupons ::
                           if CouponLapsed(s.coupons[g], now) && Owns(claims, g.account)
                           then s.coupons[g].(status := CouponExpired) else s.coupons[g]),
           Done(200, CouponsListed))
  }

  predicate CouponLapsed(coupon: Coupon, now: Time) {
    coupon.status == Available && coupon.expiresAt <= now
  }

  // ---------- Passes (app/routers/public.py, app/routers/admin.py, app/services/wifi.py) ----------

  function SetPass(s: State, a: Account, p: Pass): (r: State)
    requires a in s.passes
    ensures r == s.(passes := r.passes) && r.passes.Keys == s.passes.Keys
    ensures SameSpan(s.passes[a], p) ==> forall b :: b in s.passes ==> SameSpan(s.passes[b], r.passes[b])
  {
    s.(passes := s.passes[a := p])
  }

  predicate SameSpan(p: Pass, q: Pass) {
    p.issuedAt == q.issuedAt && p.expiresAt == q.expiresAt
  }

  /** `session` is the controller's answer; None when the controller fails. */
  function ActivatePass(s: State, now: Time, claims: Claims, a: Account, session: Option<Id>): (r: Result)
    ensures r.state == s.(passes := r.state.passes, calls := r.state.calls)
    ensures r.state.passes.Keys == s.passes.Keys
    ensures forall a :: a in s.passes ==> SameSpan(s.passes[a], r.state.passes[a])
  {
    if a !in s.passes || !Owns(claims, a) then Reject(s, 404)
    else if !Activatable(s.passes[a]) then Reject(s, 409)
    else if s.passes[a].expiresAt <= now then
      Reject(SetPass(s, a, s.passes[a].(status := Expired)), 409)
    else if session.None? then Reject(s, 502)
    else GoOnline(s, a, session.value, now)
  }

  function GoOnline(s: State, a: Account, session: Id, now: Time): (r: Result)
    requires a in s.passes
    ensures r.state == s.(passes := r.state.passes, calls := r.state.calls)
    ensures r.state.passes.Keys == s.passes.Keys
    ensures forall a :: a in s.passes ==> SameSpan(s.passes[a], r.state.passes[a])
  {
    var pass := Activate(s.passes[a], session, now);
    Result(SetPass(s, a, pass).(calls := Call(s.calls, a, Authorize(session))), Done(200, PassShown(pass)))
  }

  function AdminAccess(s: State, admin: Id, a: Account, requested: Option<Id>): Option<int> {
    if a !in s.passes then Some(404)
    else if a.store != admin || (requested.Some? && requested.value != a.store) then Some(403)
    else None
  }

  function ExtendPass(s: State, now: Time, admin: Id, a: Account, requested: Option<Id>, minutes: int): (r: Result)
    ensures r.state == s.(passes := r.state.passes, calls := r.state.calls)
    ensures r.state.passes.Keys == s.passes.Keys
  {
    if minutes < 1 then Reject(s, 422)
    else
      var access := AdminAccess(s, admin, a, requested);
      if access.Some? then Reject(s, access.value)
      else if Closed(s.passes[a].status) then Reject(s, 409)
      else
        var pass := Extend(s.passes[a], minutes, now);
        Result(SetPass(s, a, pass), Done(200, PassShown(pass)))
  }

  /** An extension is refused, or moves the expiry of one pass. */
  lemma ExtendWrites(s: State, now: Time, admin: Id, a: Account, requested: Option<Id>, minutes: int)
    ensures var r := ExtendPass(s, now, admin, a, requested, minutes);
            && (r.outcome.Done? <==>
                  1 <= minutes && AdminAccess(s, admin, a, requested).None? && !Closed(s.passes[a].status))
            && r.state.passes == if r.outcome.Done? then s.passes[a := Extend(s.passes[a], minutes, now)] else s.passes
  {
    hide Extend;
  }

  function ExpirePass(s: State, admin: Id, a: Account, requested: Option<Id>, networkUp: bool): (r: Result)
    ensures r.state == s.(passes := r.state.passes, calls := r.state.calls)
    ensures r.state.passes.Keys == s.passes.Keys
    ensures forall a :: a in s.passes ==> SameSpan(s.passes[a], r.state.passes[a])
  {
    var access := AdminAccess(s, admin, a, requested);
    if access.Some? then Reject(s, access.value)
    else if Terminal(s.passes[a].status) && !s.passes[a].status.Failed? then
      Result(s, Done(200, PassShown(s.passes[a])))
    else if !networkUp then Reject(s, 502)
    else EndPass(s, a, Cancelled)
  }

  function BlockPass(s: State, admin: Id, a: Account, requested: Option<Id>, networkUp: bool): (r: Result)
    ensures r.state == s.(passes := r.state.passes, calls := r.state.calls)
    ensures r.state.passes.Keys == s.passes.Keys
    ensures forall a :: a in s.passes ==> SameSpan(s.passes[a], r.state.passes[a])
  {
    var access := AdminAccess(s, admin, a, requested);
    if access.Some? then Reject(s, access.value)
    else if s.passes[a].status == Blocked then Result(s, Done(200, PassShown(s.passes[a])))
    else if Terminal(s.passes[a].status) then Reject(s, 409)
    else if !networkUp then Reject(s, 502)
    else EndPass(s, a, Blocked)
  }

  function EndPass(s: State, a: Account, status: PassStatus): Result
    requires a in s.passes
  {
    var pass := Close(s.passes[a], status);
    Result(SetPass(s, a, pass).(calls := Call(s.calls, a, Revoke(s.passes[a].reference))),
           Done(200, PassShown(pass)))
  }

  function DueAccounts(passes: map<Account, Pass>, now: Time): set<Account> {
    set a | a in passes && Due(passes[a], now)
  }

  function EndPasses(passes: map<Account, Pass>, due: set<Account>): (r: map<Account, Pass>)
    ensures r.Keys == passes.Keys && forall a :: a in passes ==> SameSpan(passes[a], r[a])
  {
    map a | a in passes :: if a in due then Close(passes[a], Expired) else passes[a]
  }

  function RevokeAll(calls: CallLog, passes: map<Account, Pass>, due: set<Account>): CallLog
    requires due <= passes.Keys
  {
    map a | a in calls.Keys + due ::
      if a in due then Calls(calls, a) + [Revoke(passes[a].reference)] else calls[a]
  }

  /** How the controller behaves through a loop of calls: it answers all, or fails at the first call outside a set. */
  datatype Controller = Up | DownAfter(answered: set<Account>)

  function Answered(net: Controller, due: set<Account>): (reached: set<Account>)
    ensures reached <= due
  {
    match net
    case Up => due
    case DownAfter(answered) => due * answered
  }

  /** When a call fails the tables are rolled back, but the sessions revoked before it stay revoked. */
  function ExpireDuePasses(s: State, now: Time, net: Controller): (r: Result)
    ensures r.state == s.(passes := r.state.passes, calls := r.state.calls)
    ensures r.state.passes.Keys == s.passes.Keys
    ensures forall a :: a in s.passes ==> SameSpan(s.passes[a], r.state.passes[a])
  {
    var due := DueAccounts(s.passes, now);
    var reached := Answered(net, due);
    if reached != due then Result(s.(calls := RevokeAll(s.calls, s.passes, reached)), Rejected(500))
    else
      Result(s.(passes := EndPasses(s.passes, due), calls := RevokeAll(s.calls, s.passes, due)),
             Done(200, PassesExpired(|due|)))
  }

  predicate WellFormedTiers(tiers: seq<Tier>) {
    |tiers| <= 8 && NonNegative(tiers) && forall i :: 0 <= i < |tiers| ==> 0 <= tiers[i].minAmount
  }

  predicate WellFormedPolicy(p: Policy) {
    && p.baseMinutes.Some? && 1 <= p.baseMinutes.value <= 1440
    && WellFormedTiers(p.firstTiers) && WellFormedTiers(p.additionalTiers)
  }

  /** Publishing a policy checks its version, its tier order and the bounds of its schema. */
  function PublishPolicy(s: State, admin: Id, version: int, policy: Policy): (r: Result)
    ensures r.state == s.(stores := r.state.stores)
  {
    if !WellFormedPolicy(policy) then Reject(s, 422)
    else if admin !in s.stores then Reject(s, 404)
    else if version != s.stores[admin].policyVersion then Reject(s, 409)
    else if !Publishable(policy) then Reject(s, 422)
    else
      var store := s.stores[admin].(policy := policy, policyVersion := version + 1);
      Result(s.(stores := s.stores[admin := store]), Done(200, PolicyPublished(version + 1)))
  }

  // ---------- Runs ----------

  datatype Step =
    | CreateOrderStep(now: Time, order: OrderRequest, key: Option<string>, id: Id)
    | RefundStep(now: Time, id: Id, refund: RefundRequest, key: Option<string>, networkUp: bool)
    | ChooseStep(now: Time, claims: Claims, grant: GrantKey, benefit: Id, asCoupon: bool, current: Option<Id>)
    | RedeemStep(now: Time, claims: Claims, grant: GrantKey)
    | ListCouponsStep(now: Time, claims: Claims)
    | ActivateStep(now: Time, claims: Claims, account: Account, session: Option<Id>)
    | ExtendStep(now: Time, admin: Id, account: Account, requested: Option<Id>, minutes: int)
    | ExpireStep(admin: Id, account: Account, requested: Option<Id>, networkUp: bool)
    | BlockStep(admin: Id, account: Account, requested: Option<Id>, networkUp: bool)
    | ExpireDueStep(now: Time, net: Controller)
    | PublishStep(admin: Id, version: int, policy: Policy)
    | Aborted(request: Step)

  /** What a request does when nothing goes wrong before its commit. */
  function Handle(c: Catalog, s: State, step: Step): Result {
    match step
    case CreateOrderStep(now, order, key, id) => CreateOrder(c, s, now, order, key, id)
    case RefundStep(now, id, refund, key, networkUp) => RefundOrder(c, s, now, id, refund, key, networkUp)
    case ChooseStep(now, claims, g, benefit, asCoupon, current) =>
      ChooseReward(c, s, now, claims, g, benefit, asCoupon, current)
    case RedeemStep(now, claims, g) => RedeemCoupon(s, now, claims, g)
    case ListCouponsStep(now, claims) => ListCoupons(s, now, claims)
    case ActivateStep(now, claims, a, session) => ActivatePass(s, now, claims, a, session)
    case ExtendStep(now, admin, a, requested, minutes) => ExtendPass(s, now, admin, a, requested, minutes)
    case ExpireStep(admin, a, requested, networkUp) => ExpirePass(s, admin, a, requested, networkUp)
    case BlockStep(admin, a, requested, networkUp) => BlockPass(s, admin, a, requested, networkUp)
    case ExpireDueStep(now, net) => ExpireDuePasses(s, now, net)
    case PublishStep(admin, version, policy) => PublishPolicy(s, admin, version, policy)
    case Aborted(_) => Reject(s, 500)
  }

  /**
   * A request that fails before its commit, while publishing its event or committing: its tables are rolled back, the
   * calls it made to the controller are not.
   */
  function Abort(s: State, r: Result): Result {
    if r.state == s then r else Result(s.(calls := r.state.calls), Rejected(500))
  }

  function Request(step: Step): Step {
    if step.Aborted? then step.request else step
  }

  function Apply(c: Catalog, s: State, step: Step): Result {
    var r := Handle(c, s, Request(step));
    if step.Aborted? then Abort(s, r) else r
  }

  function Next(c: Catalog, s: State, step: Step): State {
    Apply(c, s, step).state
  }

  /** Of an aborted request nothing remains but its calls. */
  lemma AbortKeepsTables(c: Catalog, s: State, request: Step)
    ensures Next(c, s, Aborted(request)) == s.(calls := Handle(c, s, request).state.calls)
  {
    hide Handle;
  }

  /** The state after a run of requests, in the order they commit. */
  function Exec(c: Catalog, s: State, run: seq<Step>): State {
    if run == [] then s else Next(c, Exec(c, s, run[..|run| - 1]), run[|run| - 1])
  }

  /** Stores are configured; nothing has happened yet. */
  predicate Initial(s: State) {
    && (forall i :: i in s.stores ==> s.stores[i].clock.Valid() && ValidPolicy(s.stores[i].policy))
    && s == State(s.stores, map[], map[], map[], map[], map[], [], map[], map[])
  }
}
