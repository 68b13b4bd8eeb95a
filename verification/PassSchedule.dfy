/**
 * The Django back end's deferred actions: who writes a pass (wifi/services.py, api/extended_views.py) and how the
 * workers carry out actions stamped with the version of the pass they were made for (wifi/workers.py).
 */
module PassSchedule {
  import opened Common
  import opened BusinessDay
  import opened WifiPolicy
  import opened WifiPass
  import opened LedgerModel

  datatype TimedPass = TimedPass(
    owner: Account,
    status: PassStatus,
    issuedAt: Time,
    activatedAt: Option<Time>,
    expiresAt: Time,
    version: int,
    reference: Option<Id>)

  datatype Kind = ExpirePass | SendExpiringNotification | RevokeNetworkAccess

  datatype Action = Action(
    pass: Id,
    kind: Kind,
    executeAt: Time,
    version: int,
    completedAt: Option<Time>,
    attempts: int)

  /** What the outside world sees. */
  datatype Effect =
    | Authorized(pass: Id, session: Id)
    | Revoked(pass: Id, reference: Option<Id>)
    | Notified(pass: Id, expiresAt: Time)
    | ExpiryAnnounced(pass: Id)

  /** Actions are numbered in the order they are created. */
  datatype Schedule = Schedule(passes: map<Id, TimedPass>, actions: seq<Action>, effects: seq<Effect>)

  datatype Reply =
    | Completed | AlreadyCompleted | StaleVersionSkipped | NotDue
    | Ok | Refused | ControllerFailed | RolledBack

  datatype Answer = Answer(schedule: Schedule, reply: Reply)

  const NOTICE: int := 10 * MINUTE

  /** The published policy; `quietUntil` is the local time of day quiet hours end, when they are enabled. */
  datatype Plan = Plan(base: int, firstTiers: seq<Tier>, additionalTiers: seq<Tier>, quietUntil: Option<int>)

  // ---------- Issuing and extending ----------

  predicate Open(p: TimedPass, owner: Account) {
    p.owner == owner && !Closed(p.status)
  }

  predicate IsFirstOpen(passes: map<Id, TimedPass>, owner: Account, id: Id) {
    id in passes && Open(passes[id], owner) && forall j :: j in passes && Open(passes[j], owner) ==> id <= j
  }

  /** The row the lookup returns, in primary-key order: the first of the owner's passes that is not closed. */
  function FirstOpen(passes: map<Id, TimedPass>, owner: Account): (found: Option<Id>)
    ensures found.Some? ==> IsFirstOpen(passes, owner, found.value)
  {
    if exists id :: id in passes && IsFirstOpen(passes, owner, id) then
      var id :| id in passes && IsFirstOpen(passes, owner, id);
      Some(id)
    else None
  }

  /** Quiet hours keep a pass alive until they end, if it would expire earlier that morning. */
  function AfterQuietHours(expiresAt: Time, now: Time, plan: Plan, offset: int): Time {
    if plan.quietUntil.None? then expiresAt
    else
      var local := now + offset;
      var quietLocal := local / DAY * DAY + plan.quietUntil.value;
      if local < quietLocal && expiresAt < quietLocal - offset then quietLocal - offset else expiresAt
  }

  function IssuedPass(owner: Account, amount: int, now: Time, plan: Plan, offset: int): TimedPass {
    var minutes := plan.base + TierMinutes(amount, plan.firstTiers);
    TimedPass(owner, Issued, now, None, AfterQuietHours(now + minutes * MINUTE, now, plan, offset), 1, None)
  }

  /** What an additional order does before quiet hours are looked at. */
  function Additional(p: TimedPass, minutes: int, now: Time): TimedPass {
    p.(expiresAt := Max(p.expiresAt, now) + minutes * MINUTE,
       version := p.version + 1,
       status := if p.status == Expired && minutes != 0 then Active else p.status)
  }

  function ExtendedPass(p: TimedPass, amount: int, now: Time, plan: Plan, offset: int): TimedPass {
    var q := Additional(p, TierMinutes(amount, plan.additionalTiers), now);
    q.(expiresAt := AfterQuietHours(q.expiresAt, now, plan, offset))
  }

  function Planned(id: Id, p: TimedPass, kind: Kind): Action {
    Action(id, kind, Deadline(p, kind), p.version, None, 0)
  }

  /** When an action of this kind is meant to run. */
  function Deadline(p: TimedPass, kind: Kind): Time {
    if kind == SendExpiringNotification then p.expiresAt - NOTICE else p.expiresAt
  }

  function NewActions(id: Id, p: TimedPass, now: Time): seq<Action> {
    [Planned(id, p, ExpirePass)]
    + (if p.expiresAt - NOTICE > now then [Planned(id, p, SendExpiringNotification)] else [])
    + [Planned(id, p, RevokeNetworkAccess)]
  }

  function SavePass(s: Schedule, id: Id, p: TimedPass): Schedule {
    s.(passes := s.passes[id := p])
  }

  function IssueOrExtend(s: Schedule, owner: Account, amount: int, now: Time, plan: Option<Plan>, offset: int,
                         freshId: Id): Answer {
    if plan.None? then Answer(s, Refused)
    else
      var existing := FirstOpen(s.passes, owner);
      if existing.None? && freshId in s.passes then Answer(s, Refused)
      else
        var id := if existing.Some? then existing.value else freshId;
        var p := if existing.Some? then ExtendedPass(s.passes[id], amount, now, plan.value, offset)
                 else IssuedPass(owner, amount, now, plan.value, offset);
        Answer(Schedule(s.passes[id := p], s.actions + NewActions(id, p, now), s.effects), Ok)
  }

  // ---------- The other writers of a pass ----------

  /** A pass found too late is refused: the transaction that marked it expired is rolled back. */
  function Activate(s: Schedule, id: Id, customer: Id, now: Time, session: Option<Id>): Answer {
    if id !in s.passes || s.passes[id].owner.customer != customer then Answer(s, Refused)
    else
      var p := s.passes[id];
      if !p.status.Issued? && !p.status.Activating? then Answer(s, Refused)
      else if p.expiresAt <= now || session.None? then Answer(s, Refused)
      else
        Answer(SavePass(s, id, p.(status := Active, activatedAt := Some(now), reference := session))
                 .(effects := s.effects + [Authorized(id, session.value)]), Ok)
  }

  /** The expiry becomes the close of the business day, whether that is later or earlier. */
  function ApplyDayPass(s: Schedule, id: Id, clock: Clock): Answer {
    if id !in s.passes then Answer(s, Refused)
    else
      var p := s.passes[id];
      Answer(SavePass(s, id, p.(expiresAt := BusinessDayEnd(p.owner.day, clock), version := p.version + 1)), Ok)
  }

  /** The manual action view; `revives` is what the dedicated extension view does on top. */
  function AdminExtend(s: Schedule, id: Id, store: Id, now: Time, minutes: int, revives: bool): Answer {
    if minutes < 1 || id !in s.passes || s.passes[id].owner.store != store then Answer(s, Refused)
    else
      var p := s.passes[id];
      Answer(SavePass(s, id, p.(expiresAt := Max(p.expiresAt, now) + minutes * MINUTE,
                                version := p.version + 1,
                                status := if revives && p.status == Expired then Active else p.status)), Ok)
  }

  function AdminBlock(s: Schedule, id: Id, store: Id): Answer {
    if id !in s.passes || s.passes[id].owner.store != store then Answer(s, Refused)
    else Answer(SavePass(s, id, s.passes[id].(status := Blocked, reference := None)), Ok)
  }

  function AdminUnblock(s: Schedule, id: Id, store: Id, now: Time): Answer {
    if id !in s.passes || s.passes[id].owner.store != store || s.passes[id].expiresAt <= now then Answer(s, Refused)
    else Answer(SavePass(s, id, s.passes[id].(status := Active)), Ok)
  }

  function Ended(p: TimedPass): TimedPass {
    p.(status := Expired, reference := None, version := p.version + 1)
  }

  function End(s: Schedule, id: Id): Schedule
    requires id in s.passes
  {
    SavePass(s, id, Ended(s.passes[id]))
      .(effects := s.effects + [Revoked(id, s.passes[id].reference), ExpiryAnnounced(id)])
  }

  function AdminExpire(s: Schedule, id: Id): Answer {
    if id !in s.passes then Answer(s, Refused)
    else if Terminal(s.passes[id].status) && !s.passes[id].status.Failed? then Answer(s, Ok)
    else Answer(End(s, id), Ok)
  }

  // ---------- The workers ----------

  function Attempted(a: Action): Action {
    a.(attempts := a.attempts + 1)
  }

  /** What a due action of the current version does. */
  function Perform(s: Schedule, a: Action, now: Time): Schedule
    requires a.pass in s.passes
  {
    var p := s.passes[a.pass];
    match a.kind
    case ExpirePass =>
      if p.expiresAt <= now && !p.status.Expired? && !p.status.Cancelled? && !p.status.Blocked? then
        SavePass(s, a.pass, p.(status := Expired)).(effects := s.effects + [ExpiryAnnounced(a.pass)])
      else s
    case SendExpiringNotification => s.(effects := s.effects + [Notified(a.pass, p.expiresAt)])
    case RevokeNetworkAccess =>
      SavePass(s, a.pass, p.(reference := None)).(effects := s.effects + [Revoked(a.pass, p.reference)])
  }

  function Execute(s: Schedule, i: nat, now: Time): Answer {
    if i >= |s.actions| || s.actions[i].pass !in s.passes then Answer(s, Refused)
    else
      var a := s.actions[i];
      if a.completedAt.Some? then Answer(s, AlreadyCompleted)
      else if a.version != s.passes[a.pass].version then
        Answer(s.(actions := s.actions[i := Attempted(a).(completedAt := Some(now))]), StaleVersionSkipped)
      else if a.executeAt > now then Answer(s.(actions := s.actions[i := Attempted(a)]), NotDue)
      else Answer(Perform(s, a, now).(actions := s.actions[i := Attempted(a).(completedAt := Some(now))]), Completed)
  }

  predicate IsOverdue(p: TimedPass, now: Time) {
    (p.status.Active? || p.status.ExpiringSoon?) && p.expiresAt <= now
  }

  /** One pass of the expiry loop, checked again under its lock. */
  function ExpireDuePass(s: Schedule, id: Id, now: Time): Answer {
    if id !in s.passes then Answer(s, Refused)
    else if !IsOverdue(s.passes[id], now) then Answer(s, NotDue)
    else Answer(End(s, id), Completed)
  }

  // ---------- Runs ----------

  /** A batch of the workers is a sequence of single executions, so batches need no step of their own. */
  datatype Step =
    | IssueStep(owner: Account, amount: int, now: Time, plan: Option<Plan>, offset: int, freshId: Id)
    | ActivateStep(id: Id, customer: Id, now: Time, session: Option<Id>)
    | DayPassStep(id: Id, clock: Clock)
    | AdminExtendStep(id: Id, store: Id, now: Time, minutes: int, revives: bool)
    | AdminBlockStep(id: Id, store: Id)
    | AdminUnblockStep(id: Id, store: Id, now: Time)
    | AdminExpireStep(id: Id)
    | ExecuteStep(action: nat, now: Time)
    | ExpireDueStep(id: Id, now: Time)
    | Aborted(request: Step)

  /** What a step does when its transaction commits. */
  function Handle(s: Schedule, step: Step): Answer {
    match step
    case IssueStep(owner, amount, now, plan, offset, freshId) =>
      IssueOrExtend(s, owner, amount, now, plan, offset, freshId)
    case ActivateStep(id, customer, now, session) => Activate(s, id, customer, now, session)
    case DayPassStep(id, clock) => ApplyDayPass(s, id, clock)
    case AdminExtendStep(id, store, now, minutes, revives) => AdminExtend(s, id, store, now, minutes, revives)
    case AdminBlockStep(id, store) => AdminBlock(s, id, store)
    case AdminUnblockStep(id, store, now) => AdminUnblock(s, id, store, now)
    case AdminExpireStep(id) => AdminExpire(s, id)
    case ExecuteStep(i, now) => Execute(s, i, now)
    case ExpireDueStep(id, now) => ExpireDuePass(s, id, now)
    case Aborted(_) => Answer(s, Refused)
  }

  predicate IsCall(e: Effect) {
    e.Authorized? || e.Revoked?
  }

  /** The calls to the controller among what was added to the effects. */
  function CallsSince(before: seq<Effect>, after: seq<Effect>): seq<Effect> {
    if |after| <= |before| then []
    else
      var last := after[|after| - 1];
      CallsSince(before, after[..|after| - 1]) + if IsCall(last) then [last] else []
  }

  /**
   * A transaction that fails after its call to the controller: its rows, events and notices among them, are rolled
   * back, its call is not.
   */
  function Abort(s: Schedule, a: Answer): Answer {
    Answer(s.(effects := s.effects + CallsSince(s.effects, a.schedule.effects)), RolledBack)
  }

  function Intended(step: Step): Step {
    if step.Aborted? then step.request else step
  }

  function Apply(s: Schedule, step: Step): Answer {
    var a := Handle(s, Intended(step));
    if step.Aborted? then Abort(s, a) else a
  }

  function Next(s: Schedule, step: Step): Schedule {
    Apply(s, step).schedule
  }

  function Exec(run: seq<Step>): Schedule {
    if run == [] then Schedule(map[], [], []) else Next(Exec(run[..|run| - 1]), run[|run| - 1])
  }

  // ---------- Safety ----------

  /** An action is never ahead of its pass, and while it carries the current version it carries the current deadline. */
  predicate Stamped(s: Schedule, a: Action) {
    && a.pass in s.passes
    && a.version <= s.passes[a.pass].version
    && (a.version == s.passes[a.pass].version ==> a.executeAt == Deadline(s.passes[a.pass], a.kind))
  }

  predicate SameJob(a: Action, b: Action) {
    a.pass == b.pass && a.kind == b.kind && a.version == b.version
  }

  predicate ScheduleInv(s: Schedule) {
    && (forall i :: 0 <= i < |s.actions| ==> Stamped(s, s.actions[i]))
    && (forall i, j :: 0 <= i < j < |s.actions| ==> !SameJob(s.actions[i], s.actions[j]))
  }

  /** Saving a pass keeps every stamp sound when its version grows, or when its expiry stays. */
  predicate SoundSave(p: TimedPass, q: TimedPass) {
    p.version < q.version || (p.version == q.version && p.expiresAt == q.expiresAt)
  }

  lemma SaveKeepsInv(s: Schedule, s': Schedule, id: Id)
    requires ScheduleInv(s) && id in s.passes
    requires id in s'.passes && s'.passes == s.passes[id := s'.passes[id]] && SoundSave(s.passes[id], s'.passes[id])
    requires s'.actions == s.actions
    ensures ScheduleInv(s')
  {
    assert forall i :: 0 <= i < |s.actions| ==> Stamped(s, s.actions[i]);
  }

  /** A pass is saved with a new version, and new jobs of that version are added. */
  lemma NewJobsKeepInv(s: Schedule, s': Schedule, id: Id, p: TimedPass, jobs: seq<Action>)
    requires ScheduleInv(s) && s'.passes == s.passes[id := p] && s'.actions == s.actions + jobs
    requires forall i :: 0 <= i < |s.actions| && s.actions[i].pass == id ==> s.actions[i].version < p.version
    requires forall k :: 0 <= k < |jobs| ==> jobs[k] == Planned(id, p, jobs[k].kind)
    requires forall k, l :: 0 <= k < l < |jobs| ==> jobs[k].kind != jobs[l].kind
    ensures ScheduleInv(s')
  {
    assert forall i :: 0 <= i < |s.actions| ==> s'.actions[i] == s.actions[i] && Stamped(s, s.actions[i]);
    assert forall i :: |s.actions| <= i < |s'.actions| ==> s'.actions[i] == jobs[i - |s.actions|];
    assert forall i :: |s.actions| <= i < |s'.actions| ==> Stamped(s', s'.actions[i]);
  }

  lemma IssueKeepsInv(s: Schedule, owner: Account, amount: int, now: Time, plan: Option<Plan>, offset: int, freshId: Id)
    requires ScheduleInv(s)
    ensures ScheduleInv(IssueOrExtend(s, owner, amount, now, plan, offset, freshId).schedule)
  {
    hide AfterQuietHours, TierMinutes;
    var s' := IssueOrExtend(s, owner, amount, now, plan, offset, freshId).schedule;
    if s' != s {
      var existing := FirstOpen(s.passes, owner);
      var id := if existing.Some? then existing.value else freshId;
      var p := s'.passes[id];
      assert forall i :: 0 <= i < |s.actions| ==> Stamped(s, s.actions[i]);
      NewJobsKeepInv(s, s', id, p, NewActions(id, p, now));
    }
  }

  lemma ExecuteKeepsInv(s: Schedule, i: nat, now: Time)
    requires ScheduleInv(s)
    ensures ScheduleInv(Execute(s, i, now).schedule)
  {
    var s' := Execute(s, i, now).schedule;
    assert forall k :: 0 <= k < |s.actions| ==> Stamped(s, s.actions[k]);
    assert forall k :: 0 <= k < |s'.actions| ==>
      s'.actions[k] == s.actions[k].(completedAt := s'.actions[k].completedAt, attempts := s'.actions[k].attempts);
    assert forall id :: id in s.passes ==> id in s'.passes && SoundSave(s.passes[id], s'.passes[id])
                                           && s'.passes[id].version == s.passes[id].version;
  }

  lemma EffectsKeepInv(s: Schedule, s': Schedule)
    requires ScheduleInv(s) && s'.passes == s.passes && s'.actions == s.actions
    ensures ScheduleInv(s')
  {
    assert forall i :: 0 <= i < |s.actions| ==> Stamped(s, s.actions[i]);
  }

  lemma StepKeepsInv(s: Schedule, step: Step)
    requires ScheduleInv(s)
    ensures ScheduleInv(Next(s, step))
  {
    hide IssueOrExtend, Execute, ScheduleInv, CallsSince;
    var s' := Next(s, step);
    match step
    case IssueStep(owner, amount, now, plan, offset, freshId) =>
      IssueKeepsInv(s, owner, amount, now, plan, offset, freshId);
    case ExecuteStep(i, now) => ExecuteKeepsInv(s, i, now);
    case Aborted(_) => EffectsKeepInv(s, s');
    case _ =>
      if s' != s {
        SaveKeepsInv(s, s', step.id);
      }
  }

  /** Across issuing, extending, quiet hours, day passes and every administrator's action, stamps stay sound. */
  lemma {:induction false} StampsSound(run: seq<Step>)
    ensures ScheduleInv(Exec(run))
  {
    if run != [] {
      StampsSound(run[..|run| - 1]);
      StepKeepsInv(Exec(run[..|run| - 1]), run[|run| - 1]);
    }
  }

  /** The lookup finds a pass whenever the owner has one that is not closed. */
  lemma {:induction false} FirstOpenFinds(passes: map<Id, TimedPass>, owner: Account, id: Id)
    requires id in passes && Open(passes[id], owner)
    ensures FirstOpen(passes, owner).Some? && IsFirstOpen(passes, owner, FirstOpen(passes, owner).value)
    decreases id
  {
    if !IsFirstOpen(passes, owner, id) {
      var j :| j in passes && Open(passes[j], owner) && j < id;
      FirstOpenFinds(passes, owner, j);
    }
  }

  /**
   * In every reachable state, an action that is carried out runs at or after the deadline of the pass as it is now:
   * no scheduled revocation comes before the expiry, no notice more than ten minutes before it, and the expiry
   * action's own check of the clock never fails.
   */
  lemma ActionsRunOnTime(run: seq<Step>, i: nat, now: Time)
    requires Execute(Exec(run), i, now).reply == Completed
    ensures var s := Exec(run);
            var a := s.actions[i];
            var p := s.passes[a.pass];
            && a.executeAt == Deadline(p, a.kind) <= now
            && (a.kind == RevokeNetworkAccess ==> p.expiresAt <= now)
            && (a.kind == SendExpiringNotification ==> p.expiresAt - NOTICE <= now)
            && (a.kind == ExpirePass ==> Terminal(Execute(s, i, now).schedule.passes[a.pass].status))
  {
    StampsSound(run);
    assert Stamped(Exec(run), Exec(run).actions[i]);
  }

  /**
   * A notice reaches the customer within the last ten minutes exactly when the worker is less than ten minutes late.
   */
  lemma NoticeInTimeIff(run: seq<Step>, i: nat, now: Time)
    requires Execute(Exec(run), i, now).reply == Completed && Exec(run).actions[i].kind == SendExpiringNotification
    ensures var s := Exec(run);
            var p := s.passes[s.actions[i].pass];
            p.expiresAt - NOTICE <= now < p.expiresAt <==> now - s.actions[i].executeAt < NOTICE
  {
    ActionsRunOnTime(run, i, now);
  }

  /** A worker that comes late still sends the notice of an expiry that has passed. */
  lemma NoticeCanComeLate(owner: Account)
    ensures var run := [IssueStep(owner, 0, 0, Some(Plan(120, [], [], None)), 0, 7)];
            && |Exec(run).actions| == 3 && Exec(run).actions[1].kind == SendExpiringNotification
            && 7 in Exec(run).passes && Exec(run).passes[7].expiresAt == 120 * MINUTE
            && Execute(Exec(run), 1, 121 * MINUTE).reply == Completed
  {
    var step := IssueStep(owner, 0, 0, Some(Plan(120, [], [], None)), 0, 7);
    var empty := Schedule(map[], [], []);
    assert [step][..0] == [];
    assert Exec([]) == empty;
    assert Exec([step]) == Next(empty, step);
    assert FirstOpen(empty.passes, owner) == None;
  }

  // ---------- Stale actions and repeated ones ----------

  /** Versions never go back, and an action keeps what it was made for. */
  predicate Advances(s: Schedule, s': Schedule) {
    && (forall id :: id in s.passes ==> id in s'.passes && s.passes[id].version <= s'.passes[id].version)
    && |s.actions| <= |s'.actions|
    && (forall i :: 0 <= i < |s.actions| ==>
          && SameJob(s.actions[i], s'.actions[i])
          && (s.actions[i].completedAt.Some? ==> s'.actions[i].completedAt == s.actions[i].completedAt))
  }

  lemma StepAdvances(s: Schedule, step: Step)
    ensures Advances(s, Next(s, step))
  {
    hide AfterQuietHours, TierMinutes, FirstOpen, CallsSince, Execute;
    match step
    case ExecuteStep(i, now) => ExecuteAdvances(s, i, now);
    case _ =>
  }

  lemma ExecuteAdvances(s: Schedule, i: nat, now: Time)
    ensures Advances(s, Execute(s, i, now).schedule)
  {
  }

  lemma AdvancesChains(s: Schedule, t: Schedule, u: Schedule)
    requires Advances(s, t) && Advances(t, u)
    ensures Advances(s, u)
  {
    assert forall i :: 0 <= i < |s.actions| ==> SameJob(s.actions[i], t.actions[i]);
  }

  lemma {:induction false} RunAdvances(run: seq<Step>, n: nat)
    requires n <= |run|
    ensures Advances(Exec(run[..n]), Exec(run))
    decreases |run|
  {
    if n == |run| {
      assert run[..n] == run;
    } else {
      hide Apply, Advances;
      var before := run[..|run| - 1];
      assert before[..n] == run[..n];
      RunAdvances(before, n);
      StepAdvances(Exec(before), run[|run| - 1]);
      AdvancesChains(Exec(run[..n]), Exec(before), Exec(run));
    }
  }

  /**
   * Once a pass has moved to a later version, its earlier actions do nothing, whenever they are executed afterwards.
   */
  lemma StaleActionsAreInert(run: seq<Step>, n: nat, i: nat, now: Time)
    requires n <= |run| && i < |Exec(run[..n]).actions|
    requires var s := Exec(run[..n]);
             s.actions[i].pass in s.passes && s.actions[i].version < s.passes[s.actions[i].pass].version
    ensures var t := Exec(run);
            && Execute(t, i, now).schedule.passes == t.passes
            && Execute(t, i, now).schedule.effects == t.effects
            && (Execute(t, i, now).reply == StaleVersionSkipped || Execute(t, i, now).reply == AlreadyCompleted)
  {
    hide Exec;
    RunAdvances(run, n);
    assert SameJob(Exec(run[..n]).actions[i], Exec(run).actions[i]);
  }

  predicate CarriesOut(s: Schedule, step: Step, job: Action) {
    && step.ExecuteStep? && step.action < |s.actions|
    && SameJob(s.actions[step.action], job)
    && Execute(s, step.action, step.now).reply == Completed
  }

  /** How often a run carries out the job of a pass, an action kind and a version. */
  function TimesCarriedOut(run: seq<Step>, job: Action): nat {
    if run == [] then 0
    else
      var before := run[..|run| - 1];
      TimesCarriedOut(before, job) + if CarriesOut(Exec(before), run[|run| - 1], job) then 1 else 0
  }

  /** However often actions are executed, each job of each version of a pass is carried out at most once. */
  lemma {:induction false} JobsRunOnce(run: seq<Step>, job: Action)
    ensures TimesCarriedOut(run, job) <= 1
    ensures TimesCarriedOut(run, job) == 1 ==>
              exists i :: 0 <= i < |Exec(run).actions| && SameJob(Exec(run).actions[i], job)
                  && Exec(run).actions[i].completedAt.Some?
  {
    if run != [] {
      var before, step := run[..|run| - 1], run[|run| - 1];
      JobsRunOnce(before, job);
      StepAdvances(Exec(before), step);
      StampsSound(before);
      var s, s' := Exec(before), Exec(run);
      if TimesCarriedOut(before, job) == 1 {
        var i :| 0 <= i < |s.actions| && SameJob(s.actions[i], job) && s.actions[i].completedAt.Some?;
        assert SameJob(s'.actions[i], job) && s'.actions[i].completedAt.Some?;
      } else if CarriesOut(s, step, job) {
        assert s'.actions[step.action].completedAt.Some?;
      }
    }
  }

  // ---------- Which passes end by schedule ----------

  /** The schedule will revoke the pass at its current expiry. */
  predicate EndScheduled(s: Schedule, id: Id) {
    id in s.passes && exists i :: 0 <= i < |s.actions| && EndsPass(s.actions[i], id, s.passes[id].version)
  }

  predicate EndsPass(a: Action, id: Id, version: int) {
    a.pass == id && a.kind == RevokeNetworkAccess && a.version == version
  }

  /** The step issues the pass or extends it with an order. */
  predicate Orders(s: Schedule, step: Step, id: Id) {
    && step.IssueStep? && Apply(s, step).reply == Ok
    && id == (if FirstOpen(s.passes, step.owner).Some? then FirstOpen(s.passes, step.owner).value else step.freshId)
  }

  /** An order issued or extended the pass last; whatever else moved its version since would have taken its place. */
  predicate OrderedLast(run: seq<Step>, id: Id) {
    if run == [] then false
    else
      var before, last := run[..|run| - 1], run[|run| - 1];
      Orders(Exec(before), last, id) || (!MovesVersion(Exec(before), last, id) && OrderedLast(before, id))
  }

  predicate MovesVersion(s: Schedule, step: Step, id: Id) {
    id in s.passes && Next(s, step).passes.Keys >= {id} && Next(s, step).passes[id].version != s.passes[id].version
  }

  /** An order's actions carry the version it sets. */
  lemma OrderSchedulesEnd(s: Schedule, step: Step, id: Id)
    requires Orders(s, step, id)
    ensures EndScheduled(Next(s, step), id)
  {
    hide AfterQuietHours, TierMinutes, FirstOpen, CallsSince;
    var s' := Next(s, step);
    assert EndsPass(s'.actions[|s'.actions| - 1], id, s'.passes[id].version);
  }

  /** A step that is no order for the pass adds no action for it. */
  lemma OthersScheduleNothing(s: Schedule, step: Step, id: Id)
    requires !Orders(s, step, id)
    ensures var s' := Next(s, step);
            && (id in s'.passes <==> id in s.passes)
            && forall i :: |s.actions| <= i < |s'.actions| ==> s'.actions[i].pass != id
  {
    hide AfterQuietHours, TierMinutes, FirstOpen, CallsSince;
  }

  lemma EndStays(s: Schedule, step: Step, id: Id)
    requires ScheduleInv(s) && !Orders(s, step, id)
    ensures EndScheduled(Next(s, step), id) <==> EndScheduled(s, id) && !MovesVersion(s, step, id)
  {
    hide Next, Orders;
    var s' := Next(s, step);
    StepAdvances(s, step);
    OthersScheduleNothing(s, step, id);
    assert forall i :: 0 <= i < |s.actions| ==> Stamped(s, s.actions[i]);
    assert forall i :: 0 <= i < |s.actions| ==> SameJob(s.actions[i], s'.actions[i]);
    if EndScheduled(s, id) && !MovesVersion(s, step, id) {
      var i :| 0 <= i < |s.actions| && EndsPass(s.actions[i], id, s.passes[id].version);
      assert EndsPass(s'.actions[i], id, s'.passes[id].version);
    }
    if EndScheduled(s', id) {
      var i :| 0 <= i < |s'.actions| && EndsPass(s'.actions[i], id, s'.passes[id].version);
      assert i < |s.actions| && Stamped(s, s.actions[i]);
      assert EndsPass(s.actions[i], id, s.passes[id].version);
    }
  }

  /**
   * After any run a pass has a scheduled end exactly when the last step that set its version was an order: an
   * administrator's extension, a day pass or a forced expiry makes a version that no action carries.
   */
  lemma {:induction false} EndScheduledIff(run: seq<Step>, id: Id)
    ensures EndScheduled(Exec(run), id) <==> OrderedLast(run, id)
  {
    if run != [] {
      hide Next, Orders, MovesVersion, EndScheduled, ScheduleInv;
      var before, last := run[..|run| - 1], run[|run| - 1];
      EndScheduledIff(before, id);
      StampsSound(before);
      if Orders(Exec(before), last, id) {
        OrderSchedulesEnd(Exec(before), last, id);
      } else {
        EndStays(Exec(before), last, id);
      }
    }
  }

  // ---------- Sessions ----------

  function Opens(e: Effect, id: Id): nat {
    if e.Authorized? && e.pass == id then 1 else 0
  }

  function Closes(e: Effect, id: Id): nat {
    if e.Revoked? && e.pass == id && e.reference.Some? then 1 else 0
  }

  /** How many sessions were opened for the pass, and how often one was revoked. */
  function Opened(effects: seq<Effect>, id: Id): nat {
    if effects == [] then 0 else Opened(effects[..|effects| - 1], id) + Opens(effects[|effects| - 1], id)
  }

  function Revocations(effects: seq<Effect>, id: Id): nat {
    if effects == [] then 0 else Revocations(effects[..|effects| - 1], id) + Closes(effects[|effects| - 1], id)
  }

  lemma CountLast(effects: seq<Effect>, e: Effect, id: Id)
    ensures Opened(effects + [e], id) == Opened(effects, id) + Opens(e, id)
    ensures Revocations(effects + [e], id) == Revocations(effects, id) + Closes(e, id)
  {
    assert (effects + [e])[..|effects|] == effects;
  }

  function Held(s: Schedule, id: Id): int {
    if id in s.passes && s.passes[id].reference.Some? then 1 else 0
  }

  lemma {:induction false} CallsCount(before: seq<Effect>, after: seq<Effect>, id: Id)
    requires before <= after
    ensures Opened(before + CallsSince(before, after), id) == Opened(after, id)
    ensures Revocations(before + CallsSince(before, after), id) == Revocations(after, id)
    decreases |after|
  {
    hide Opened, Revocations;
    if after == before {
      assert before + [] == before;
    } else {
      var front, last := after[..|after| - 1], after[|after| - 1];
      var kept := before + CallsSince(before, front);
      CallsCount(before, front, id);
      CountLast(front, last, id);
      CountLast(kept, last, id);
      assert after == front + [last];
      assert before + CallsSince(before, after) == if IsCall(last) then kept + [last] else kept;
    }
  }

  /** A pass that can still be activated, or does not exist yet, never had a session. */
  predicate Untouched(s: Schedule, id: Id) {
    id in s.passes ==> s.passes[id].status.Issued? || s.passes[id].status.Activating?
  }

  predicate TakesSession(s: Schedule, t: Schedule, id: Id) {
    Held(s, id) == 0 && Held(t, id) == 1
  }

  predicate DropsSession(s: Schedule, t: Schedule, id: Id) {
    Held(s, id) == 1 && Held(t, id) == 0
  }

  /** Blocking a pass that holds a session drops the reference without revoking it. */
  predicate Forgets(s: Schedule, step: Step, id: Id) {
    step.AdminBlockStep? && DropsSession(s, Handle(s, step).schedule, id)
  }

  /** A session is opened when the pass takes it, once in its life, and revoked when the pass drops it. */
  predicate SessionMove(s: Schedule, t: Schedule, id: Id, forgets: bool) {
    && s.effects <= t.effects
    && Opened(t.effects, id) == Opened(s.effects, id) + (if TakesSession(s, t, id) then 1 else 0)
    && Revocations(t.effects, id)
       == Revocations(s.effects, id) + (if DropsSession(s, t, id) && !forgets then 1 else 0)
    && (TakesSession(s, t, id) ==> Untouched(s, id) && !Untouched(t, id))
    && (Untouched(t, id) ==> Untouched(s, id))
  }

  lemma IssueSessions(s: Schedule, owner: Account, amount: int, now: Time, plan: Option<Plan>, offset: int, freshId: Id,
                      id: Id)
    ensures SessionMove(s, IssueOrExtend(s, owner, amount, now, plan, offset, freshId).schedule, id, false)
  {
    hide AfterQuietHours, TierMinutes, FirstOpen, NewActions, Opened, Revocations;
  }

  lemma ActivateSessions(s: Schedule, p: Id, customer: Id, now: Time, session: Option<Id>, id: Id)
    requires Untouched(s, id) ==> Held(s, id) == 0
    ensures SessionMove(s, Activate(s, p, customer, now, session).schedule, id, false)
  {
    hide Opened, Revocations;
    if Activate(s, p, customer, now, session).reply == Ok {
      CountLast(s.effects, Authorized(p, session.value), id);
    }
  }

  lemma EndSessions(s: Schedule, p: Id, id: Id)
    requires p in s.passes
    ensures SessionMove(s, End(s, p), id, false)
  {
    hide Opened, Revocations;
    var e, f := Revoked(p, s.passes[p].reference), ExpiryAnnounced(p);
    CountLast(s.effects, e, id);
    CountLast(s.effects + [e], f, id);
    assert End(s, p).effects == s.effects + [e] + [f];
  }

  lemma ExecuteSessions(s: Schedule, i: nat, now: Time, id: Id)
    ensures SessionMove(s, Execute(s, i, now).schedule, id, false)
  {
    hide Opened, Revocations;
    var s' := Execute(s, i, now).schedule;
    if |s'.effects| > |s.effects| {
      assert s'.effects == s.effects + [s'.effects[|s.effects|]];
      CountLast(s.effects, s'.effects[|s.effects|], id);
    }
  }

  lemma HandleSessions(s: Schedule, step: Step, id: Id)
    requires Untouched(s, id) ==> Held(s, id) == 0
    ensures SessionMove(s, Handle(s, step).schedule, id, step.AdminBlockStep?)
  {
    hide IssueOrExtend, Activate, End, Execute, Opened, Revocations, BusinessDayEnd;
    match step
    case IssueStep(owner, amount, now, plan, offset, freshId) =>
      IssueSessions(s, owner, amount, now, plan, offset, freshId, id);
    case ActivateStep(p, customer, now, session) => ActivateSessions(s, p, customer, now, session, id);
    case AdminExpireStep(p) => if p in s.passes { EndSessions(s, p, id); }
    case ExecuteStep(i, now) => ExecuteSessions(s, i, now, id);
    case ExpireDueStep(p, now) => if p in s.passes { EndSessions(s, p, id); }
    case _ =>
  }

  /** Sessions of a pass opened by an aborted activation, revoked by an aborted step, or forgotten by a block. */
  datatype Unnoticed = Unnoticed(openings: nat, revocations: nat, forgotten: nat)

  function Unnotice(s: Schedule, step: Step, id: Id, u: Unnoticed): Unnoticed {
    var t := Handle(s, Intended(step)).schedule;
    if step.Aborted? && TakesSession(s, t, id) then u.(openings := u.openings + 1)
    else if step.Aborted? && DropsSession(s, t, id) && !step.request.AdminBlockStep? then
      u.(revocations := u.revocations + 1)
    else if Forgets(s, step, id) then u.(forgotten := u.forgotten + 1)
    else u
  }

  function AllUnnoticed(run: seq<Step>, id: Id): Unnoticed {
    if run == [] then Unnoticed(0, 0, 0)
    else
      var before := run[..|run| - 1];
      Unnotice(Exec(before), run[|run| - 1], id, AllUnnoticed(before, id))
  }

  predicate SessionsOk(s: Schedule, id: Id, u: Unnoticed) {
    var openings, revocations := Opened(s.effects, id) - u.openings, Revocations(s.effects, id) - u.revocations;
    && 0 <= openings <= 1 && 0 <= revocations
    && openings == revocations + Held(s, id) + u.forgotten
    && (Untouched(s, id) ==> openings == 0)
    && (0 < u.revocations ==> openings == 1)
  }

  lemma StepSessions(s: Schedule, step: Step, id: Id, u: Unnoticed)
    requires SessionsOk(s, id, u)
    ensures SessionsOk(Next(s, step), id, Unnotice(s, step, id, u))
  {
    hide Handle, Opened, Revocations, CallsSince;
    HandleSessions(s, Intended(step), id);
    if step.Aborted? {
      CallsCount(s.effects, Handle(s, step.request).schedule.effects, id);
    }
  }

  lemma {:induction false} SessionsSound(run: seq<Step>, id: Id)
    ensures SessionsOk(Exec(run), id, AllUnnoticed(run, id))
  {
    if run != [] {
      hide Next, SessionsOk, Unnotice;
      SessionsSound(run[..|run| - 1], id);
      StepSessions(Exec(run[..|run| - 1]), run[|run| - 1], id, AllUnnoticed(run[..|run| - 1], id));
    }
  }

  /**
   * Over any run, steps that failed after their call to the controller included, a pass takes at most one session, and
   * every session opened or revoked is accounted for. One session at most was opened, and it was revoked once or is
   * still held, if and only if no aborted step opened one, and the pass was blocked while holding its session exactly
   * as often as an aborted step had revoked it.
   */
  lemma SessionsAccounted(run: seq<Step>, id: Id)
    ensures var s, u := Exec(run), AllUnnoticed(run, id);
            var openings, revocations := Opened(s.effects, id), Revocations(s.effects, id);
            && 0 <= openings - u.openings <= 1
            && openings - u.openings == revocations - u.revocations + Held(s, id) + u.forgotten
            && (openings <= 1 && openings == revocations + Held(s, id) <==>
                  u.openings == 0 && u.revocations == u.forgotten)
  {
    hide Exec, Opened, Revocations;
    SessionsSound(run, id);
  }
}
