/**
 * What the Django services, views and workers change, said without the functions that compute it (wifi/services.py,
 * wifi/workers.py, api/extended_views.py).
 */
module ScheduleEffects {
  import opened Common
  import opened BusinessDay
  import opened WifiPolicy
  import opened WifiPass
  import opened LedgerModel
  import opened PassSchedule
  import OrderEffects

  // ---------- Issuing and extending ----------

  /** The minutes of the tier with the highest minimum the amount reaches, or nothing when it reaches none. */
  ghost predicate IsHighest(minutes: int, amount: int, tiers: seq<Tier>) {
    if exists i :: OrderEffects.Reaches(amount, tiers, i) then
      exists i :: OrderEffects.Reaches(amount, tiers, i) && tiers[i].minutes == minutes
        && forall j :: OrderEffects.Reaches(amount, tiers, j) ==> tiers[j].minAmount <= tiers[i].minAmount
    else minutes == 0
  }

  lemma TierMinutesHighest(amount: int, tiers: seq<Tier>)
    ensures IsHighest(TierMinutes(amount, tiers), amount, tiers)
  {
    hide HighestReached;
    HighestReachedIsHighest(amount, tiers);
    var best := HighestReached(amount, tiers);
    if best.Some? {
      var i :| 0 <= i < |tiers| && tiers[i] == best.value && tiers[i].minAmount <= amount;
      assert OrderEffects.Reaches(amount, tiers, i);
    }
  }

  /** The instant at which quiet hours end on the local date of `now`. */
  predicate EndsQuiet(q: Time, now: Time, until: int, offset: int) {
    var midnight := q - until;
    (midnight + offset) % DAY == 0 && midnight <= now < midnight + DAY
  }

  /** Quiet hours keep a pass until they end, when it is bought before that and would run out earlier. */
  ghost predicate LastsUntil(end: Time, paid: Time, now: Time, plan: Plan, offset: int) {
    if plan.quietUntil.None? then end == paid
    else exists q :: EndsQuiet(q, now, plan.quietUntil.value, offset) && end == if now < q && paid < q then q else paid
  }

  lemma QuietHoursKeep(paid: Time, now: Time, plan: Plan, offset: int)
    ensures var end := AfterQuietHours(paid, now, plan, offset);
            paid <= end && LastsUntil(end, paid, now, plan, offset)
  {
    if plan.quietUntil.Some? {
      var q := (now + offset) / DAY * DAY + plan.quietUntil.value - offset;
      assert EndsQuiet(q, now, plan.quietUntil.value, offset);
    }
  }

  lemma OneQuietEnd(q: Time, r: Time, now: Time, until: int, offset: int)
    requires EndsQuiet(q, now, until, offset) && EndsQuiet(r, now, until, offset)
    ensures q == r
  {
    var j, k := (q - until + offset) / DAY, (r - until + offset) / DAY;
    assert q - until + offset == j * DAY && r - until + offset == k * DAY;
    assert j == k;
  }

  /** The end of quiet hours is one instant, so the expiry is one, too. */
  lemma LastsOnce(x: Time, y: Time, paid: Time, now: Time, plan: Plan, offset: int)
    requires LastsUntil(x, paid, now, plan, offset) && LastsUntil(y, paid, now, plan, offset)
    ensures x == y && paid <= x
  {
    if plan.quietUntil.Some? {
      var until := plan.quietUntil.value;
      var q :| EndsQuiet(q, now, until, offset) && x == if now < q && paid < q then q else paid;
      var r :| EndsQuiet(r, now, until, offset) && y == if now < r && paid < r then r else paid;
      hide EndsQuiet;
      OneQuietEnd(q, r, now, until, offset);
    }
  }

  /** The owner has a pass that is not blocked, cancelled or failed. */
  predicate HasOpen(passes: map<Id, TimedPass>, owner: Account) {
    exists id :: id in passes && Usable(passes[id], owner)
  }

  predicate Usable(p: TimedPass, owner: Account) {
    p.owner == owner && !p.status.Blocked? && !p.status.Cancelled? && !p.status.Failed?
  }

  /** The owner's first usable pass by key, or a new one. */
  predicate IsTarget(passes: map<Id, TimedPass>, owner: Account, freshId: Id, id: Id) {
    if HasOpen(passes, owner) then
      id in passes && Usable(passes[id], owner) && forall j :: j in passes && Usable(passes[j], owner) ==> id <= j
    else id == freshId && id !in passes
  }

  /** The pass an order would go to. */
  function Target(passes: map<Id, TimedPass>, owner: Account, freshId: Id): Id {
    var existing := FirstOpen(passes, owner);
    if existing.Some? then existing.value else freshId
  }

  lemma TargetMeans(passes: map<Id, TimedPass>, owner: Account, freshId: Id)
    ensures FirstOpen(passes, owner).Some? <==> HasOpen(passes, owner)
    ensures HasOpen(passes, owner) || freshId !in passes ==>
              IsTarget(passes, owner, freshId, Target(passes, owner, freshId))
  {
    hide FirstOpen;
    if HasOpen(passes, owner) {
      var id :| id in passes && Usable(passes[id], owner);
      FirstOpenFinds(passes, owner, id);
    }
    forall id | id in passes ensures Open(passes[id], owner) <==> Usable(passes[id], owner) {
    }
  }

  /** The jobs of the pass's new version, each at its time; a notice that would come too late is left out. */
  predicate NewJobs(jobs: seq<Action>, id: Id, p: TimedPass, now: Time) {
    var notice := p.expiresAt - 10 * 60 * SECOND;
    var expiry := Action(id, ExpirePass, p.expiresAt, p.version, None, 0);
    var revocation := Action(id, RevokeNetworkAccess, p.expiresAt, p.version, None, 0);
    jobs == if now < notice
            then [expiry, Action(id, SendExpiringNotification, notice, p.version, None, 0), revocation]
            else [expiry, revocation]
  }

  /** A new pass runs for the base and the tier its first order reaches. */
  ghost predicate Issues(q: TimedPass, owner: Account, amount: int, now: Time, plan: Plan, offset: int) {
    exists minutes ::
      && IsHighest(minutes, amount, plan.firstTiers)
      && LastsUntil(q.expiresAt, now + (plan.base + minutes) * 60 * SECOND, now, plan, offset)
      && q == TimedPass(owner, Issued, now, None, q.expiresAt, 1, None)
  }

  /** An additional order adds its tier's minutes to what is left, and brings an expired pass back if it has any. */
  ghost predicate Prolongs(p: TimedPass, q: TimedPass, amount: int, now: Time, plan: Plan, offset: int) {
    exists minutes ::
      && IsHighest(minutes, amount, plan.additionalTiers)
      && LastsUntil(q.expiresAt, (if now <= p.expiresAt then p.expiresAt else now) + minutes * 60 * SECOND, now, plan,
                    offset)
      && q == p.(expiresAt := q.expiresAt, version := p.version + 1,
                 status := if p.status.Expired? && minutes != 0 then Active else p.status)
  }

  lemma IssuedIssues(owner: Account, amount: int, now: Time, plan: Plan, offset: int)
    ensures Issues(IssuedPass(owner, amount, now, plan, offset), owner, amount, now, plan, offset)
  {
    hide TierMinutes, IsHighest, AfterQuietHours, LastsUntil;
    var minutes := TierMinutes(amount, plan.firstTiers);
    TierMinutesHighest(amount, plan.firstTiers);
    QuietHoursKeep(now + (plan.base + minutes) * 60 * SECOND, now, plan, offset);
  }

  lemma ExtendedProlongs(p: TimedPass, amount: int, now: Time, plan: Plan, offset: int)
    ensures Prolongs(p, ExtendedPass(p, amount, now, plan, offset), amount, now, plan, offset)
  {
    hide TierMinutes, IsHighest, AfterQuietHours, LastsUntil;
    var minutes := TierMinutes(amount, plan.additionalTiers);
    TierMinutesHighest(amount, plan.additionalTiers);
    QuietHoursKeep(Max(p.expiresAt, now) + minutes * MINUTE, now, plan, offset);
  }

  /**
   * An order is accepted if and only if a policy is published, a fresh key being free. It prolongs the owner's first
   * usable pass or issues a new one, schedules the jobs of that version after all others, and changes nothing else.
   */
  lemma OrderEffect(s: Schedule, owner: Account, amount: int, now: Time, plan: Option<Plan>, offset: int, freshId: Id)
    ensures var r := Apply(s, IssueStep(owner, amount, now, plan, offset, freshId));
            && (r.reply == Ok <==> plan.Some? && (HasOpen(s.passes, owner) || freshId !in s.passes))
            && (r.reply != Ok ==> r.schedule == s)
            && (r.reply == Ok ==>
                  exists id ::
                    && IsTarget(s.passes, owner, freshId, id)
                    && OrderedOn(s, r.schedule, owner, amount, now, plan.value, offset, id))
  {
    hide FirstOpen, IssuedPass, ExtendedPass, Issues, Prolongs, NewActions, NewJobs, IsTarget, HasOpen;
    TargetMeans(s.passes, owner, freshId);
    if plan.Some? && (HasOpen(s.passes, owner) || freshId !in s.passes) {
      var id := Target(s.passes, owner, freshId);
      var r := Apply(s, IssueStep(owner, amount, now, plan, offset, freshId));
      if id in s.passes {
        ExtendedProlongs(s.passes[id], amount, now, plan.value, offset);
      }
      IssuedIssues(owner, amount, now, plan.value, offset);
      JobsAdded(id, r.schedule.passes[id], now);
      assert r.schedule.actions[|s.actions|..] == NewActions(id, r.schedule.passes[id], now);
      TargetKnown(s.passes, owner, freshId, id);
      assert OrderedOn(s, r.schedule, owner, amount, now, plan.value, offset, id);
    }
  }

  lemma TargetKnown(passes: map<Id, TimedPass>, owner: Account, freshId: Id, id: Id)
    requires IsTarget(passes, owner, freshId, id)
    ensures id in passes <==> HasOpen(passes, owner)
  {
  }

  lemma JobsAdded(id: Id, p: TimedPass, now: Time)
    ensures NewJobs(NewActions(id, p, now), id, p, now)
  {
  }

  /** What an accepted order leaves behind. */
  ghost predicate OrderedOn(s: Schedule, t: Schedule, owner: Account, amount: int, now: Time, plan: Plan, offset: int,
                            id: Id) {
    && id in t.passes && t.passes == s.passes[id := t.passes[id]] && t.effects == s.effects
    && (if id in s.passes then Prolongs(s.passes[id], t.passes[id], amount, now, plan, offset)
        else Issues(t.passes[id], owner, amount, now, plan, offset))
    && s.actions <= t.actions && NewJobs(t.actions[|s.actions|..], id, t.passes[id], now)
  }

  // ---------- Activating, and the administrator's views ----------

  /** Only this pass and the effects changed. */
  predicate OnlyThis(s: Schedule, t: Schedule, id: Id, p: TimedPass, more: seq<Effect>) {
    t == s.(passes := s.passes[id := p], effects := s.effects + more)
  }

  /** An activation takes the session the controller opens; everything else, a pass found too late too, is undone. */
  lemma ActivateEffect(s: Schedule, id: Id, customer: Id, now: Time, session: Option<Id>)
    ensures var r := Apply(s, ActivateStep(id, customer, now, session));
            && (r.reply == Ok <==>
                  && id in s.passes && s.passes[id].owner.customer == customer
                  && (s.passes[id].status.Issued? || s.passes[id].status.Activating?)
                  && now < s.passes[id].expiresAt && session.Some?)
            && (r.reply == Ok ==>
                  OnlyThis(s, r.schedule, id,
                           s.passes[id].(status := Active, activatedAt := Some(now), reference := session),
                           [Authorized(id, session.value)]))
            && (r.reply != Ok ==> r.schedule == s)
  {
  }

  /** A day pass sets the expiry to the close of the business day, which can be earlier. */
  lemma DayPassEffect(s: Schedule, id: Id, clock: Clock)
    ensures var r := Apply(s, DayPassStep(id, clock));
            && (r.reply == Ok <==> id in s.passes)
            && (r.reply == Ok ==>
                  OnlyThis(s, r.schedule, id,
                           s.passes[id].(expiresAt := BusinessDayEnd(s.passes[id].owner.day, clock),
                                         version := s.passes[id].version + 1), []))
            && (r.reply != Ok ==> r.schedule == s)
  {
  }

  /** Of the two extension views only one brings an expired pass back. */
  lemma ExtendEffect(s: Schedule, id: Id, store: Id, now: Time, minutes: int, revives: bool)
    ensures var r := Apply(s, AdminExtendStep(id, store, now, minutes, revives));
            && (r.reply == Ok <==> 1 <= minutes && id in s.passes && s.passes[id].owner.store == store)
            && (r.reply == Ok ==>
                  var p := s.passes[id];
                  OnlyThis(s, r.schedule, id,
                           p.(expiresAt := (if now <= p.expiresAt then p.expiresAt else now) + minutes * 60 * SECOND,
                              version := p.version + 1,
                              status := if p.status.Expired? && revives then Active else p.status), []))
            && (r.reply != Ok ==> r.schedule == s)
  {
  }

  /** Blocking drops the session without a call; unblocking makes a pass active again unless it ran out. */
  lemma BlockEffect(s: Schedule, id: Id, store: Id, now: Time)
    ensures var b, u := Apply(s, AdminBlockStep(id, store)), Apply(s, AdminUnblockStep(id, store, now));
            var known := id in s.passes && s.passes[id].owner.store == store;
            && (b.reply == Ok <==> known) && (u.reply == Ok <==> known && now < s.passes[id].expiresAt)
            && (b.reply == Ok ==> OnlyThis(s, b.schedule, id, s.passes[id].(status := Blocked, reference := None), []))
            && (u.reply == Ok ==> OnlyThis(s, u.schedule, id, s.passes[id].(status := Active), []))
            && (b.reply != Ok ==> b.schedule == s) && (u.reply != Ok ==> u.schedule == s)
  {
  }

  /** The pass is over: expired with a new version, its session revoked, its expiry announced. */
  predicate EndsNow(s: Schedule, t: Schedule, id: Id) {
    && id in s.passes
    && OnlyThis(s, t, id, s.passes[id].(status := Expired, reference := None, version := s.passes[id].version + 1),
                [Revoked(id, s.passes[id].reference), ExpiryAnnounced(id)])
  }

  /** The view ends any pass that is not over, the loop any that is in use and ran out; neither closes one. */
  lemma ExpireEffect(s: Schedule, id: Id, now: Time)
    ensures var v, w := Apply(s, AdminExpireStep(id)), Apply(s, ExpireDueStep(id, now));
            var over := id in s.passes && (var status := s.passes[id].status;
                                           status.Expired? || status.Blocked? || status.Cancelled?);
            var lapsed := id in s.passes && (var p := s.passes[id];
                            (p.status.Active? || p.status.ExpiringSoon?) && p.expiresAt <= now);
            && (v.reply == Ok <==> id in s.passes)
            && (if id in s.passes && !over then EndsNow(s, v.schedule, id) else v.schedule == s)
            && (w.reply == Completed <==> lapsed)
            && (if lapsed then EndsNow(s, w.schedule, id) else w.schedule == s)
  {
  }

  // ---------- The workers ----------

  /** When an action is carried out, skipped, too early or done already, and what that leaves of it. */
  lemma ExecuteIff(s: Schedule, i: nat, now: Time)
    requires ScheduleInv(s)
    ensures var r := Apply(s, ExecuteStep(i, now));
            && (r.reply == Refused <==> |s.actions| <= i)
            && (i < |s.actions| ==>
                  var a := s.actions[i];
                  && a.pass in s.passes
                  && var version := s.passes[a.pass].version;
                     && (r.reply == AlreadyCompleted <==> a.completedAt.Some?)
                     && (r.reply == StaleVersionSkipped <==> a.completedAt.None? && a.version < version)
                     && (r.reply == NotDue <==> a.completedAt.None? && a.version == version && now < a.executeAt)
                     && (r.reply == Completed <==> a.completedAt.None? && a.version == version && a.executeAt <= now)
                     && r.schedule.actions
                        == if r.reply == AlreadyCompleted then s.actions
                           else s.actions[i := a.(attempts := a.attempts + 1,
                                                  completedAt := if r.reply == NotDue then None else Some(now))])
            && (r.reply != Completed ==> r.schedule.passes == s.passes && r.schedule.effects == s.effects)
  {
    assert i < |s.actions| ==> Stamped(s, s.actions[i]);
  }

  /** What a completed action did: only its pass can have changed, and the world saw `more`. */
  predicate Did(s: Schedule, t: Schedule, id: Id, p: TimedPass, more: seq<Effect>) {
    t.passes == s.passes[id := p] && t.effects == s.effects + more
  }

  /**
   * In every reachable state a completed expiry action makes its pass expired, and nothing else, and announces that
   * once, unless the pass was over already; a notice tells the expiry the pass has and changes none; a revocation asks
   * for the session the pass holds and makes it let go of it.
   */
  lemma CompletedEffect(run: seq<Step>, i: nat, now: Time)
    requires Execute(Exec(run), i, now).reply == Completed
    ensures var s, t := Exec(run), Next(Exec(run), ExecuteStep(i, now));
            && i < |s.actions| && s.actions[i].pass in s.passes
            && var id, p := s.actions[i].pass, s.passes[s.actions[i].pass];
               match s.actions[i].kind
               case ExpirePass =>
                 if p.status.Expired? || p.status.Cancelled? || p.status.Blocked? then Did(s, t, id, p, [])
                 else Did(s, t, id, p.(status := Expired), [ExpiryAnnounced(id)])
               case SendExpiringNotification => Did(s, t, id, p, [Notified(id, p.expiresAt)])
               case RevokeNetworkAccess => Did(s, t, id, p.(reference := None), [Revoked(id, p.reference)])
  {
    hide Exec;
    var s := Exec(run);
    StampsSound(run);
    ExecuteIff(s, i, now);
    assert Stamped(s, s.actions[i]);
    assert s.effects + [] == s.effects;
    assert s.passes[s.actions[i].pass := s.passes[s.actions[i].pass]] == s.passes;
  }

  // ---------- Why a pass is closed ----------

  predicate Blocks(s: Schedule, step: Step, id: Id) {
    step.AdminBlockStep? && step.id == id && id in s.passes && s.passes[id].owner.store == step.store
  }

  predicate Unblocks(s: Schedule, step: Step, id: Id) {
    && step.AdminUnblockStep? && step.id == id && id in s.passes && s.passes[id].owner.store == step.store
    && step.now < s.passes[id].expiresAt
  }

  /** The pass was blocked and not unblocked since. */
  predicate BlockedLast(run: seq<Step>, id: Id) {
    run != []
    && var before, last := run[..|run| - 1], run[|run| - 1];
       Blocks(Exec(before), last, id) || (!Unblocks(Exec(before), last, id) && BlockedLast(before, id))
  }

  predicate IsBlocked(s: Schedule, id: Id) {
    id in s.passes && s.passes[id].status.Blocked?
  }

  predicate NeverClosedOtherwise(s: Schedule, id: Id) {
    id in s.passes ==> !s.passes[id].status.Cancelled? && !s.passes[id].status.Failed?
  }

  lemma StepBlocks(s: Schedule, step: Step, id: Id)
    requires NeverClosedOtherwise(s, id)
    ensures var t := Next(s, step);
            && NeverClosedOtherwise(t, id)
            && (IsBlocked(t, id) <==> Blocks(s, step, id) || (!Unblocks(s, step, id) && IsBlocked(s, id)))
  {
    hide AfterQuietHours, TierMinutes, FirstOpen, BusinessDayEnd, CallsSince;
    if step.IssueStep? {
      NotTheBlockedOne(s, step);
    }
  }

  lemma NotTheBlockedOne(s: Schedule, step: Step)
    requires step.IssueStep?
    ensures var found := FirstOpen(s.passes, step.owner);
            found.Some? ==> found.value in s.passes && !Closed(s.passes[found.value].status)
  {
  }

  /**
   * After any run a pass is closed if and only if an administrator blocked it and did not unblock it since: no worker,
   * order, activation, day pass, extension or ending closes one, so the next order of the day finds it.
   */
  lemma {:induction false} ClosedIff(run: seq<Step>, id: Id)
    ensures var s := Exec(run);
            && (id in s.passes && Closed(s.passes[id].status) <==> BlockedLast(run, id))
            && (IsBlocked(s, id) <==> BlockedLast(run, id)) && NeverClosedOtherwise(s, id)
  {
    if run != [] {
      hide Next, Blocks, Unblocks;
      var before, last := run[..|run| - 1], run[|run| - 1];
      ClosedIff(before, id);
      StepBlocks(Exec(before), last, id);
    }
  }
}
