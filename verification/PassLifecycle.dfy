/** How a pass may change over a run, and what the network controller is told about it. */
module PassLifecycle {
  import opened Common
  import opened BusinessDay
  import opened WifiPass
  import opened LedgerModel
  import opened LedgerSteps

  /** What every step, and so every run, preserves of one pass. */
  predicate Evolves(p: Pass, q: Pass) {
    && p.issuedAt == q.issuedAt
    && p.version <= q.version
    && (p.version == q.version ==> p.expiresAt == q.expiresAt)
    && (p.status.Blocked? || p.status.Cancelled? ==> p == q)
    && (q.status.Issued? ==> p.status.Issued?)
  }

  /**
   * The controller's history of one pass: sessions are opened before one is held; while a session is held, only that
   * one is revoked; once the pass holds none again, no revocation names a session.
   */
  predicate Proper(log: seq<NetworkCall>, held: Option<Id>)
    decreases |log|
  {
    if log == [] then held.None?
    else
      var front := log[..|log| - 1];
      match log[|log| - 1]
      case Authorize(session) =>
        SessionsRevoked(front) == 0 && Proper(front, None) && (held.None? || held == Some(session))
      case Revoke(None) => held.None? && Proper(front, None)
      case Revoke(Some(session)) => (held.None? || held == Some(session)) && Proper(front, Some(session))
  }

  /** Only active passes hold a session, and no session of a pass that was never activated was revoked. */
  predicate PassOk(p: Pass, log: seq<NetworkCall>) {
    && (p.status.Issued? || p.status.Active? || p.status.Expired? || p.status.Blocked? || p.status.Cancelled?)
    && 1 <= p.version
    && (p.reference.Some? ==> p.status.Active?)
    && (p.status.Issued? ==> SessionsRevoked(log) == 0)
    && Proper(log, p.reference)
  }

  predicate PassInv(s: State) {
    && (forall a :: a in s.passes ==> PassOk(s.passes[a], Calls(s.calls, a)))
    && (forall a :: a in s.calls ==> a in s.passes)
  }

  /** The sessions a history leaves open. */
  function Live(log: seq<NetworkCall>): set<Id> {
    if log == [] then {}
    else
      var before := Live(log[..|log| - 1]);
      match log[|log| - 1]
      case Authorize(session) => before + {session}
      case Revoke(None) => before
      case Revoke(Some(session)) => before - {session}
  }

  function Authorisations(log: seq<NetworkCall>): nat {
    if log == [] then 0
    else Authorisations(log[..|log| - 1]) + if log[|log| - 1].Authorize? then 1 else 0
  }

  function SessionsRevoked(log: seq<NetworkCall>): nat {
    if log == [] then 0
    else SessionsRevoked(log[..|log| - 1]) + if log[|log| - 1].Revoke? && log[|log| - 1].reference.Some? then 1 else 0
  }

  function Count(held: Option<Id>): nat {
    if held.Some? then 1 else 0
  }

  /**
   * In a proper history without any call nothing is open; with one authorisation, its session is open until it is
   * revoked, and it is the one held.
   */
  lemma {:induction false} ProperMeaning(log: seq<NetworkCall>, held: Option<Id>)
    requires Proper(log, held)
    ensures held.Some? || 0 < SessionsRevoked(log) ==> 1 <= Authorisations(log)
    ensures Authorisations(log) == 0 ==> Live(log) == {}
    ensures Authorisations(log) == 1 && 0 < SessionsRevoked(log) ==> Live(log) == {}
    ensures Authorisations(log) == 1 && SessionsRevoked(log) == 0 ==> Live(log) != {}
    ensures Authorisations(log) == 1 && SessionsRevoked(log) == 0 && held.Some? ==> Live(log) == {held.value}
  {
    if log != [] {
      var front := log[..|log| - 1];
      match log[|log| - 1]
      case Authorize(_) => ProperMeaning(front, None);
      case Revoke(None) => ProperMeaning(front, None);
      case Revoke(Some(session)) => ProperMeaning(front, Some(session));
    }
  }

  /** Sessions opened other than the one the pass held at some time. */
  function Unclaimed(log: seq<NetworkCall>, held: Option<Id>): int {
    Authorisations(log) - if held.Some? || 0 < SessionsRevoked(log) then 1 else 0
  }

  /** Revocations of a session other than the one with which the pass let go of it. */
  function Spare(log: seq<NetworkCall>, held: Option<Id>): int {
    SessionsRevoked(log) - if held.None? && 0 < SessionsRevoked(log) then 1 else 0
  }

  /** The calls that opened or closed a session without the pass taking notice. */
  function Unnoticed(log: seq<NetworkCall>, held: Option<Id>): int {
    Unclaimed(log, held) + Spare(log, held)
  }

  lemma LogGrows(log: seq<NetworkCall>, call: NetworkCall)
    ensures (log + [call])[..|log + [call]| - 1] == log
    ensures Authorisations(log + [call]) == Authorisations(log) + if call.Authorize? then 1 else 0
    ensures SessionsRevoked(log + [call]) == SessionsRevoked(log) + if call.Revoke? then Count(call.reference) else 0
  {
    assert (log + [call])[..|log|] == log;
  }

  /** Revoking what is held keeps a history proper, whether or not the pass lets go of it. */
  lemma RevokeKeepsProper(log: seq<NetworkCall>, held: Option<Id>)
    requires Proper(log, held)
    ensures var log' := log + [Revoke(held)];
            && Proper(log', None) && Unnoticed(log', None) == Unnoticed(log, held)
            && Proper(log', held) && Unnoticed(log', held) == Unnoticed(log, held) + Count(held)
            && (held.None? ==> SessionsRevoked(log') == SessionsRevoked(log))
  {
    LogGrows(log, Revoke(held));
  }

  /** Opening a session for a pass that never held one keeps its history proper, whether or not the pass takes it. */
  lemma AuthorizeKeepsProper(log: seq<NetworkCall>, session: Id)
    requires Proper(log, None) && SessionsRevoked(log) == 0
    ensures var log' := log + [Authorize(session)];
            && Proper(log', Some(session)) && Unnoticed(log', Some(session)) == Unnoticed(log, None)
            && Proper(log', None) && Unnoticed(log', None) == Unnoticed(log, None) + 1
            && SessionsRevoked(log') == 0
  {
    LogGrows(log, Authorize(session));
  }

  /**
   * A transition of one pass with the call it makes, if any; `unnoticed` counts sessions opened or closed behind its
   * back.
   */
  predicate Transition(p: Pass, log: seq<NetworkCall>, q: Pass, log': seq<NetworkCall>, unnoticed: nat) {
    && Evolves(p, q)
    && (PassOk(p, log) ==>
          PassOk(q, log') && Unnoticed(log', q.reference) == Unnoticed(log, p.reference) + unnoticed)
  }

  lemma ExtendTransition(p: Pass, log: seq<NetworkCall>, minutes: int, now: Time)
    requires !Closed(p.status)
    ensures Transition(p, log, Extend(p, minutes, now), log, 0)
  {
  }

  lemma ReclaimTransition(p: Pass, log: seq<NetworkCall>, minutes: int, now: Time)
    ensures var r := Reclaim(p, minutes, now);
            Transition(p, log, r.pass, if r.revokes then log + [Revoke(p.reference)] else log, 0)
  {
    if PassOk(p, log) {
      RevokeKeepsProper(log, p.reference);
    }
  }

  lemma CloseTransition(p: Pass, log: seq<NetworkCall>, status: PassStatus)
    requires status.Expired? || status.Blocked? || status.Cancelled?
    requires !p.status.Blocked? && !p.status.Cancelled?
    ensures Transition(p, log, Close(p, status), log + [Revoke(p.reference)], 0)
  {
    if PassOk(p, log) {
      RevokeKeepsProper(log, p.reference);
    }
  }

  lemma ActivateTransition(p: Pass, log: seq<NetworkCall>, session: Id, now: Time)
    requires Activatable(p)
    ensures Transition(p, log, Activate(p, session, now), log + [Authorize(session)], 0)
    ensures Transition(p, log, p.(status := Expired), log, 0)
  {
    if PassOk(p, log) {
      AuthorizeKeepsProper(log, session);
    }
  }

  lemma DayPassTransition(p: Pass, log: seq<NetworkCall>, dayEnd: Time)
    requires !Terminal(p.status)
    ensures Transition(p, log, ApplyDayPass(p, dayEnd), log, 0)
  {
  }

  /**
   * Every pass of `s` made a transition to `s'`, those in `unnoticed` with a session call behind their back; a new one
   * starts sound.
   */
  ghost predicate AllTransition(s: State, s': State, unnoticed: set<Account>) {
    && s.passes.Keys <= s'.passes.Keys
    && (forall a :: a in s.passes ==>
          Transition(s.passes[a], Calls(s.calls, a), s'.passes[a], Calls(s'.calls, a), if a in unnoticed then 1 else 0))
    && (forall a :: a in s'.passes && a !in s.passes ==>
          PassOk(s'.passes[a], []) && Calls(s'.calls, a) == Calls(s.calls, a))
    && s'.calls.Keys <= s.calls.Keys + s.passes.Keys
  }

  lemma Unmoved(s: State, s': State)
    requires s'.passes == s.passes && s'.calls == s.calls
    ensures AllTransition(s, s', {})
  {
  }

  lemma OneMoves(s: State, s': State, a: Account, q: Pass, log: seq<NetworkCall>)
    requires a in s.passes && s'.passes == s.passes[a := q]
    requires s'.calls == s.calls[a := log] || (s'.calls == s.calls && log == Calls(s.calls, a))
    requires Transition(s.passes[a], Calls(s.calls, a), q, log, 0)
    ensures AllTransition(s, s', {})
  {
  }

  lemma OrderMoves(c: Catalog, s: State, now: Time, req: OrderRequest, key: Option<string>, id: Id, a: Account)
    requires a.store in s.stores && (a in s.passes ==> !Closed(s.passes[a].status))
    ensures AllTransition(s, CommitOrder(c, s, now, req, key, id, a).state, {})
  {
    hide Extend, OrderMinutes, EvaluateGrants, ConsumeOldest, Remember, Transition, Deposit;
    var s' := CommitOrder(c, s, now, req, key, id, a).state;
    if a in s.passes {
      ExtendTransition(s.passes[a], Calls(s.calls, a), OrderMinutes(s, a, req.total), now);
      OneMoves(s, s', a, s'.passes[a], Calls(s.calls, a));
    } else {
      forall b | b in s.passes ensures Transition(s.passes[b], Calls(s.calls, b), s'.passes[b], Calls(s'.calls, b), 0) {
        Stays(s.passes[b], Calls(s.calls, b));
      }
    }
  }

  lemma Stays(p: Pass, log: seq<NetworkCall>)
    ensures Transition(p, log, p, log, 0)
  {
  }

  lemma RefundMoves(c: Catalog, s: State, now: Time, id: Id, req: RefundRequest, key: Option<string>, amount: int)
    requires id in s.orders
    ensures AllTransition(s, CommitRefund(c, s, now, id, req, key, amount).state, {})
  {
    hide Reclaim, MinutesToReclaim, GrantsAfterRefund, CouponsAfterRefund, Remember, Transition, Withdraw;
    var s' := CommitRefund(c, s, now, id, req, key, amount).state;
    var a := s.orders[id].account;
    if a in s.passes {
      ReclaimTransition(s.passes[a], Calls(s.calls, a), MinutesToReclaim(s.orders[id], amount), now);
      OneMoves(s, s', a, s'.passes[a], Calls(s'.calls, a));
    } else {
      Unmoved(s, s');
    }
  }

  lemma ChooseMoves(c: Catalog, s: State, now: Time, claims: Claims, g: GrantKey, benefit: Id, asCoupon: bool,
                    order: Option<Id>)
    ensures AllTransition(s, ChooseReward(c, s, now, claims, g, benefit, asCoupon, order).state, {})
  {
    hide ApplyDayPass, Transition, AllTransition, ChooseRefusal;
    var s' := ChooseReward(c, s, now, claims, g, benefit, asCoupon, order).state;
    if s'.passes == s.passes {
      Unmoved(s, s');
    } else {
      var a := g.account;
      DayPassTransition(s.passes[a], Calls(s.calls, a), BusinessDayEnd(a.day, s.stores[a.store].clock));
      OneMoves(s, s', a, s'.passes[a], Calls(s.calls, a));
    }
  }

  lemma ActivateMoves(s: State, now: Time, claims: Claims, a: Account, session: Option<Id>)
    ensures AllTransition(s, ActivatePass(s, now, claims, a, session).state, {})
  {
    hide Activate, Transition, AllTransition;
    var s' := ActivatePass(s, now, claims, a, session).state;
    if s' == s {
      Unmoved(s, s');
    } else {
      ActivateTransition(s.passes[a], Calls(s.calls, a), if session.Some? then session.value else 0, now);
      OneMoves(s, s', a, s'.passes[a], Calls(s'.calls, a));
    }
  }

  lemma ExtendMoves(s: State, now: Time, admin: Id, a: Account, requested: Option<Id>, minutes: int)
    ensures AllTransition(s, ExtendPass(s, now, admin, a, requested, minutes).state, {})
  {
    hide Extend, Transition, AllTransition;
    var s' := ExtendPass(s, now, admin, a, requested, minutes).state;
    if s' == s {
      Unmoved(s, s');
    } else {
      ExtendTransition(s.passes[a], Calls(s.calls, a), minutes, now);
      OneMoves(s, s', a, s'.passes[a], Calls(s.calls, a));
    }
  }

  lemma EndMoves(s: State, a: Account, status: PassStatus)
    requires a in s.passes && !s.passes[a].status.Blocked? && !s.passes[a].status.Cancelled?
    requires status.Blocked? || status.Cancelled?
    ensures AllTransition(s, EndPass(s, a, status).state, {})
  {
    hide Close, Transition, AllTransition;
    var s' := EndPass(s, a, status).state;
    CloseTransition(s.passes[a], Calls(s.calls, a), status);
    OneMoves(s, s', a, s'.passes[a], Calls(s'.calls, a));
  }

  /** A pass whose session is revoked in a request that goes wrong later: the pass goes on holding it. */
  lemma EarlyTransition(p: Pass, log: seq<NetworkCall>)
    ensures Transition(p, log, p, log + [Revoke(p.reference)], Count(p.reference))
  {
    if PassOk(p, log) {
      RevokeKeepsProper(log, p.reference);
    }
  }

  /** A pass for which a session is opened in a request that goes wrong later: the pass stays without it. */
  lemma StrayTransition(p: Pass, log: seq<NetworkCall>, session: Id)
    requires Activatable(p)
    ensures Transition(p, log, p, log + [Authorize(session)], 1)
  {
    if PassOk(p, log) {
      AuthorizeKeepsProper(log, session);
    }
  }

  /** The last call, if one was added, opened or closed a session. */
  predicate TouchesSession(log: seq<NetworkCall>, log': seq<NetworkCall>) {
    log' != log && log' != [] && (log'[|log'| - 1].Authorize? || log'[|log'| - 1].reference.Some?)
  }

  /**
   * Passes whose session the step opens or closes without their taking notice: an expiry loop failed after revoking
   * it, or a request was aborted after its call.
   */
  function LeftBehind(c: Catalog, s: State, step: Step): set<Account> {
    match step
    case ExpireDueStep(now, net) =>
      var due := DueAccounts(s.passes, now);
      var reached := Answered(net, due);
      if reached == due then {} else set a | a in reached && s.passes[a].reference.Some?
    case Aborted(request) =>
      var calls := Handle(c, s, request).state.calls;
      set a | a in s.passes && TouchesSession(Calls(s.calls, a), Calls(calls, a))
    case _ => {}
  }

  lemma DueOneMoves(passes: map<Account, Pass>, calls: CallLog, due: set<Account>, a: Account)
    requires due <= passes.Keys && a in passes
    requires a in due ==> !Terminal(passes[a].status)
    ensures Transition(passes[a], Calls(calls, a), EndPasses(passes, due)[a], Calls(RevokeAll(calls, passes, due), a),
            0)
    ensures Transition(passes[a], Calls(calls, a), passes[a], Calls(RevokeAll(calls, passes, due), a),
                       if a in due then Count(passes[a].reference) else 0)
  {
    hide Close, Transition;
    if a in due {
      CloseTransition(passes[a], Calls(calls, a), Expired);
      EarlyTransition(passes[a], Calls(calls, a));
    } else {
      Stays(passes[a], Calls(calls, a));
    }
  }

  lemma DueAllMove(s: State, s': State, due: set<Account>, now: Time)
    requires due <= s.passes.Keys && forall a :: a in due ==> Due(s.passes[a], now)
    requires s'.passes == EndPasses(s.passes, due) && s'.calls == RevokeAll(s.calls, s.passes, due)
    ensures AllTransition(s, s', {})
  {
    hide Close, Transition;
    forall a | a in s.passes
      ensures Transition(s.passes[a], Calls(s.calls, a), s'.passes[a], Calls(s'.calls, a), 0) {
      DueOneMoves(s.passes, s.calls, due, a);
    }
  }

  lemma ReachedAllRevoked(s: State, s': State, reached: set<Account>, now: Time)
    requires reached <= s.passes.Keys && forall a :: a in reached ==> Due(s.passes[a], now)
    requires s'.passes == s.passes && s'.calls == RevokeAll(s.calls, s.passes, reached)
    ensures AllTransition(s, s', set a | a in reached && s.passes[a].reference.Some?)
  {
    hide Close, Transition;
    var early := set a | a in reached && s.passes[a].reference.Some?;
    forall a | a in s.passes
      ensures Transition(s.passes[a], Calls(s.calls, a), s'.passes[a], Calls(s'.calls, a),
              if a in early then 1 else 0) {
      DueOneMoves(s.passes, s.calls, reached, a);
    }
  }

  lemma DueMoves(c: Catalog, s: State, now: Time, net: Controller)
    ensures AllTransition(s, ExpireDuePasses(s, now, net).state, LeftBehind(c, s, ExpireDueStep(now, net)))
  {
    hide EndPasses, RevokeAll, AllTransition, Answered;
    var s' := ExpireDuePasses(s, now, net).state;
    var due := DueAccounts(s.passes, now);
    if Answered(net, due) == due {
      DueAllMove(s, s', due, now);
    } else {
      ReachedAllRevoked(s, s', Answered(net, due), now);
    }
  }

  // ---------- The calls of one request ----------

  /** What a request may add to the history of one pass: a new session for a fresh pass, or the end of what it holds. */
  predicate MayCall(p: Pass, log: seq<NetworkCall>, log': seq<NetworkCall>) {
    || log' == log
    || log' == log + [Revoke(p.reference)]
    || (Activatable(p) && log' != [] && log' == log + [log'[|log'| - 1]] && log'[|log'| - 1].Authorize?)
  }

  ghost predicate AllMayCall(s: State, calls: CallLog) {
    && calls.Keys <= s.calls.Keys + s.passes.Keys
    && (forall a :: a in s.passes ==> MayCall(s.passes[a], Calls(s.calls, a), Calls(calls, a)))
    && (forall a :: a !in s.passes ==> Calls(calls, a) == Calls(s.calls, a))
  }

  lemma NoCalls(s: State)
    ensures AllMayCall(s, s.calls)
  {
  }

  lemma OneCalls(s: State, a: Account, call: NetworkCall)
    requires a in s.passes && (call == Revoke(s.passes[a].reference) || (Activatable(s.passes[a]) && call.Authorize?))
    ensures AllMayCall(s, Call(s.calls, a, call))
  {
  }

  lemma ManyCall(s: State, due: set<Account>)
    requires due <= s.passes.Keys
    ensures AllMayCall(s, RevokeAll(s.calls, s.passes, due))
  {
  }

  lemma OrderCalls(c: Catalog, s: State, now: Time, req: OrderRequest, key: Option<string>, id: Id)
    ensures CreateOrder(c, s, now, req, key, id).state.calls == s.calls
  {
    hide OrderAnswer, OrderMinutes, PassAfterOrder, EvaluateGrants, ConsumeOldest, Remember, Deposit, BusinessDate;
  }

  lemma RefundCalls(c: Catalog, s: State, now: Time, id: Id, req: RefundRequest, key: Option<string>, networkUp: bool)
    ensures AllMayCall(s, RefundOrder(c, s, now, id, req, key, networkUp).state.calls)
  {
    hide RefundAnswer, AllMayCall, MinutesToReclaim, GrantsAfterRefund, CouponsAfterRefund, TiersLost, Remember,
         Withdraw, Reclaim, Call;
    NoCalls(s);
    if RefundAnswer(s, now, id, req, key, networkUp).None? && s.orders[id].account in s.passes {
      OneCalls(s, s.orders[id].account, Revoke(s.passes[s.orders[id].account].reference));
    }
  }

  lemma PassCalls(c: Catalog, s: State, step: Step)
    requires !MovesTables(step) && !step.Aborted?
    ensures AllMayCall(s, Handle(c, s, step).state.calls)
  {
    hide AllMayCall, Call, RevokeAll, EndPasses, DueAccounts, Answered, Activate, Close, Owns;
    NoCalls(s);
    match step
    case ActivateStep(now, claims, a, session) =>
      if a in s.passes && session.Some? && Activatable(s.passes[a]) {
        OneCalls(s, a, Authorize(session.value));
      }
    case ExpireStep(_, a, _, _) =>
      if a in s.passes {
        OneCalls(s, a, Revoke(s.passes[a].reference));
      }
    case BlockStep(_, a, _, _) =>
      if a in s.passes {
        OneCalls(s, a, Revoke(s.passes[a].reference));
      }
    case ExpireDueStep(now, net) => DueCalls(s, now, net);
  }

  lemma DueCalls(s: State, now: Time, net: Controller)
    ensures AllMayCall(s, ExpireDuePasses(s, now, net).state.calls)
  {
    hide AllMayCall, RevokeAll, EndPasses;
    ManyCall(s, DueAccounts(s.passes, now));
    ManyCall(s, Answered(net, DueAccounts(s.passes, now)));
  }

  /** The requests that do not only deal with a pass and its session. */
  predicate MovesTables(step: Step) {
    step.CreateOrderStep? || step.RefundStep? || step.ChooseStep? || step.RedeemStep? || step.ListCouponsStep?
    || step.ExtendStep? || step.PublishStep?
  }

  lemma RequestCalls(c: Catalog, s: State, step: Step)
    ensures AllMayCall(s, Handle(c, s, step).state.calls)
  {
    hide AllMayCall, CreateOrder, RefundOrder, ChooseReward, RedeemCoupon, ListCoupons, ActivatePass, ExtendPass,
         ExpirePass, BlockPass, ExpireDuePasses, PublishPolicy;
    NoCalls(s);
    if step.CreateOrderStep? {
      OrderCalls(c, s, step.now, step.order, step.key, step.id);
    } else if step.RefundStep? {
      RefundCalls(c, s, step.now, step.id, step.refund, step.key, step.networkUp);
    } else if step.ExtendStep? {
      ExtendCalls(s, step.now, step.admin, step.account, step.requested, step.minutes);
    } else if !MovesTables(step) && !step.Aborted? {
      PassCalls(c, s, step);
    }
  }

  lemma ExtendCalls(s: State, now: Time, admin: Id, a: Account, requested: Option<Id>, minutes: int)
    ensures ExtendPass(s, now, admin, a, requested, minutes).state.calls == s.calls
  {
    hide Extend;
  }

  lemma OneAborts(p: Pass, log: seq<NetworkCall>, log': seq<NetworkCall>)
    requires MayCall(p, log, log')
    ensures Transition(p, log, p, log', if TouchesSession(log, log') then 1 else 0)
  {
    hide Transition;
    if log' == log {
      Stays(p, log);
    } else if log' == log + [Revoke(p.reference)] {
      EarlyTransition(p, log);
    } else {
      StrayTransition(p, log, log'[|log'| - 1].session);
    }
  }

  lemma PassesAbort(s: State, calls: CallLog, unnoticed: set<Account>)
    requires AllMayCall(s, calls)
    requires unnoticed == set a | a in s.passes && TouchesSession(Calls(s.calls, a), Calls(calls, a))
    ensures AllTransition(s, s.(calls := calls), unnoticed)
  {
    hide Transition, MayCall, TouchesSession, Calls;
    forall a | a in s.passes
      ensures Transition(s.passes[a], Calls(s.calls, a), s.passes[a], Calls(calls, a), if a in unnoticed then 1 else 0)
    {
      OneAborts(s.passes[a], Calls(s.calls, a), Calls(calls, a));
    }
  }

  lemma AbortMoves(c: Catalog, s: State, request: Step)
    ensures AllTransition(s, Next(c, s, Aborted(request)), LeftBehind(c, s, Aborted(request)))
  {
    hide Handle, Next, AllTransition, AllMayCall, TouchesSession;
    AbortKeepsTables(c, s, request);
    RequestCalls(c, s, request);
    PassesAbort(s, Handle(c, s, request).state.calls, LeftBehind(c, s, Aborted(request)));
  }

  lemma StepMoves(c: Catalog, s: State, step: Step)
    ensures AllTransition(s, Next(c, s, step), LeftBehind(c, s, step))
  {
    hide OrderAnswer, RefundAnswer, CommitOrder, CommitRefund, ChooseReward, RedeemCoupon, ListCoupons, ActivatePass,
         ExtendPass, EndPass, ExpireDuePasses, PublishPolicy, AllTransition, Abort;
    var s' := Next(c, s, step);
    match step
    case CreateOrderStep(now, order, key, id) =>
      if OrderAnswer(c, s, order, key, id).None? {
        OrderMoves(c, s, now, order, key, id, OrderAccount(s.stores[order.store], order));
      } else {
        Unmoved(s, s');
      }
    case RefundStep(now, id, refund, key, networkUp) =>
      if RefundAnswer(s, now, id, refund, key, networkUp).None? {
        RefundMoves(c, s, now, id, refund, key, RefundAmount(s.orders[id], refund));
      } else {
        Unmoved(s, s');
      }
    case ChooseStep(now, claims, g, benefit, asCoupon, current) =>
      ChooseMoves(c, s, now, claims, g, benefit, asCoupon, current);
    case ActivateStep(now, claims, a, session) => ActivateMoves(s, now, claims, a, session);
    case ExtendStep(now, admin, a, requested, minutes) => ExtendMoves(s, now, admin, a, requested, minutes);
    case ExpireStep(admin, a, requested, networkUp) =>
      if s' == s { Unmoved(s, s'); } else { EndMoves(s, a, Cancelled); }
    case BlockStep(admin, a, requested, networkUp) =>
      if s' == s { Unmoved(s, s'); } else { EndMoves(s, a, Blocked); }
    case ExpireDueStep(now, net) => DueMoves(c, s, now, net);
    case Aborted(request) => AbortMoves(c, s, request);
    case _ => Unmoved(s, s');
  }

  /** In every reachable state every pass and its controller history are sound. */
  lemma {:induction false} PassesSound(c: Catalog, s: State, run: seq<Step>)
    requires Initial(s)
    ensures PassInv(Exec(c, s, run))
  {
    if run != [] {
      var before := Exec(c, s, run[..|run| - 1]);
      PassesSound(c, s, run[..|run| - 1]);
      StepMoves(c, before, run[|run| - 1]);
    }
  }

  /** Between any two points of a run: blocked and cancelled are final, and one version never has two expiries. */
  lemma {:induction false} PassHistory(c: Catalog, s: State, run: seq<Step>, a: Account)
    requires a in s.passes
    ensures a in Exec(c, s, run).passes && Evolves(s.passes[a], Exec(c, s, run).passes[a])
  {
    if run != [] {
      PassHistory(c, s, run[..|run| - 1], a);
      StepMoves(c, Exec(c, s, run[..|run| - 1]), run[|run| - 1]);
    }
  }

  lemma NothingDue(t: State, now: Time, net: Controller)
    requires DueAccounts(t.passes, now) == {}
    ensures ExpireDuePasses(t, now, net) == Result(t, Done(200, PassesExpired(0)))
  {
    hide DueAccounts;
    var u := ExpireDuePasses(t, now, net).state;
    assert u.passes == t.passes && u.calls == t.calls;
  }

  /** The expiry loop leaves no due pass behind, and running it again at the same time finds nothing to do. */
  lemma ExpiryLoopSettles(s: State, now: Time, net: Controller)
    requires ExpireDuePasses(s, now, net).outcome.Done?
    ensures var t := ExpireDuePasses(s, now, net).state;
            && DueAccounts(t.passes, now) == {}
            && ExpireDuePasses(t, now, net) == Result(t, Done(200, PassesExpired(0)))
  {
    hide Calls;
    var t := ExpireDuePasses(s, now, net).state;
    assert DueAccounts(t.passes, now) == {};
    NothingDue(t, now, net);
  }
}
