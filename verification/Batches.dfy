/** The Django worker's batches of due actions, and the controller that may refuse one of them (wifi/workers.py). */
module Batches {
  import opened Common
  import opened WifiPass
  import opened LedgerModel
  import opened PassSchedule

  // ---------- Batches nobody refuses ----------

  predicate IsDue(a: Action, now: Time) {
    a.completedAt.None? && a.executeAt <= now
  }

  /**
   * What the worker's query returns: the earliest due actions by deadline, all of them unless the limit cuts the
   * list.
   */
  predicate DueBatch(s: Schedule, now: Time, limit: nat, ids: seq<nat>) {
    && |ids| <= limit
    && (forall k :: 0 <= k < |ids| ==> ids[k] < |s.actions| && IsDue(s.actions[ids[k]], now))
    && (forall k, l :: 0 <= k < l < |ids| ==>
          ids[k] != ids[l] && s.actions[ids[k]].executeAt <= s.actions[ids[l]].executeAt)
    && (|ids| < limit ==> forall i :: 0 <= i < |s.actions| && IsDue(s.actions[i], now) ==> i in ids)
    && (forall i, k :: 0 <= i < |s.actions| && IsDue(s.actions[i], now) && i !in ids && 0 <= k < |ids| ==>
          s.actions[ids[k]].executeAt <= s.actions[i].executeAt)
  }

  function RunBatch(s: Schedule, ids: seq<nat>, now: Time): Schedule {
    if ids == [] then s else Execute(RunBatch(s, ids[..|ids| - 1], now), ids[|ids| - 1], now).schedule
  }

  /** Executing a batch creates no action, moves no deadline, and leaves nothing in it due. */
  lemma {:induction false} BatchWorks(s: Schedule, ids: seq<nat>, now: Time)
    requires forall i :: 0 <= i < |s.actions| ==> s.actions[i].pass in s.passes
    ensures var t := RunBatch(s, ids, now);
            && |t.actions| == |s.actions| && t.passes.Keys == s.passes.Keys
            && (forall i :: 0 <= i < |s.actions| ==>
                  var a := t.actions[i]; a == s.actions[i].(completedAt := a.completedAt, attempts := a.attempts))
            && (forall i :: 0 <= i < |s.actions| && !IsDue(s.actions[i], now) ==> !IsDue(t.actions[i], now))
            && (forall i :: 0 <= i < |s.actions| && i in ids ==> !IsDue(t.actions[i], now))
  {
    if ids != [] {
      var front := ids[..|ids| - 1];
      BatchWorks(s, front, now);
      assert ids == front + [ids[|ids| - 1]];
    }
  }

  /** When the limit does not cut the batch, nothing is due after it. */
  lemma BatchSettles(s: Schedule, now: Time, limit: nat, ids: seq<nat>)
    requires ScheduleInv(s) && DueBatch(s, now, limit, ids) && |ids| < limit
    ensures var t := RunBatch(s, ids, now);
            forall i :: 0 <= i < |t.actions| ==> !IsDue(t.actions[i], now)
  {
    assert forall i :: 0 <= i < |s.actions| ==> Stamped(s, s.actions[i]);
    BatchWorks(s, ids, now);
  }

  /** Until its revocation runs the pass keeps its version, its expiry and its session; afterwards it holds none. */
  predicate Revoking(s: Schedule, t: Schedule, i: nat, done: bool) {
    && i < |s.actions| && i < |t.actions| && s.actions[i].pass in s.passes && s.actions[i].pass in t.passes
    && var id := s.actions[i].pass;
       && t.passes[id].version == s.passes[id].version && t.passes[id].expiresAt == s.passes[id].expiresAt
       && if done then t.passes[id].reference == None && Revoked(id, s.passes[id].reference) in t.effects
          else t.passes[id].reference == s.passes[id].reference && t.actions[i] == s.actions[i]
  }

  /** Executing one action of a batch. */
  lemma ExecuteRevoking(s: Schedule, t: Schedule, i: nat, k: nat, now: Time, done: bool)
    requires ScheduleInv(t) && Revoking(s, t, i, done)
    requires s.actions[i].completedAt.None? && s.actions[i].executeAt <= now
    requires EndsPass(s.actions[i], s.actions[i].pass, s.passes[s.actions[i].pass].version)
    requires SameJob(t.actions[i], s.actions[i])
    ensures Revoking(s, Execute(t, k, now).schedule, i, done || k == i)
    ensures SameJob(Execute(t, k, now).schedule.actions[i], s.actions[i])
  {
    var u := Execute(t, k, now).schedule;
    assert |u.effects| == |t.effects| || u.effects == t.effects + [u.effects[|t.effects|]];
    if k < |t.actions| && k != i {
      assert !SameJob(t.actions[k], t.actions[i]);
    }
  }

  lemma {:induction false} BatchRevokes(s: Schedule, ids: seq<nat>, now: Time, i: nat)
    requires ScheduleInv(s) && i < |s.actions| && IsDue(s.actions[i], now) && s.actions[i].pass in s.passes
    requires EndsPass(s.actions[i], s.actions[i].pass, s.passes[s.actions[i].pass].version)
    ensures var t := RunBatch(s, ids, now);
            ScheduleInv(t) && Revoking(s, t, i, i in ids) && SameJob(t.actions[i], s.actions[i])
  {
    if ids != [] {
      hide Execute, ScheduleInv, Revoking;
      var front := ids[..|ids| - 1];
      BatchRevokes(s, front, now, i);
      var t := RunBatch(s, front, now);
      ExecuteKeepsInv(t, ids[|ids| - 1], now);
      ExecuteRevoking(s, t, i, ids[|ids| - 1], now, i in front);
      assert ids == front + [ids[|ids| - 1]];
    }
  }

  /** A batch leaves actions that are not in it alone, and no batch moves a version. */
  lemma {:induction false} OthersUntouched(s: Schedule, ids: seq<nat>, now: Time, i: nat)
    requires i < |s.actions| && i !in ids
    ensures var t := RunBatch(s, ids, now);
            && |t.actions| == |s.actions| && t.actions[i] == s.actions[i] && t.passes.Keys == s.passes.Keys
            && forall id :: id in s.passes ==>
                 t.passes[id].version == s.passes[id].version && t.passes[id].expiresAt == s.passes[id].expiresAt
  {
    if ids != [] {
      var front := ids[..|ids| - 1];
      assert ids == front + [ids[|ids| - 1]];
      OthersUntouched(s, front, now, i);
    }
  }

  // ---------- Refused revocations ----------

  /** Executing the action now asks the controller to revoke. */
  predicate Asks(s: Schedule, i: nat, now: Time) {
    Execute(s, i, now).reply == Completed && s.actions[i].kind == RevokeNetworkAccess
  }

  /** When the controller refuses, the action's own transaction is rolled back, its attempt included. */
  function TryExecute(s: Schedule, i: nat, now: Time, refused: bool): Answer {
    if Asks(s, i, now) && refused then Answer(s, ControllerFailed) else Execute(s, i, now)
  }

  /** How far a batch got. */
  datatype Batch = Batch(schedule: Schedule, done: nat)

  /** The first refused revocation ends the batch; what was executed before it stays. `refused` names actions. */
  function TryBatch(s: Schedule, ids: seq<nat>, now: Time, refused: set<nat>): Batch {
    if ids == [] then Batch(s, 0)
    else
      var front, last := ids[..|ids| - 1], ids[|ids| - 1];
      var b := TryBatch(s, front, now, refused);
      if b.done < |front| || (Asks(b.schedule, last, now) && last in refused) then b
      else Batch(Execute(b.schedule, last, now).schedule, |ids|)
  }

  predicate Stops(s: Schedule, ids: seq<nat>, now: Time, refused: set<nat>, k: nat)
    requires k < |ids|
  {
    Asks(RunBatch(s, ids[..k], now), ids[k], now) && ids[k] in refused
  }

  /** A batch carries out what precedes the first refused revocation, and nothing else. */
  lemma {:induction false} BatchStops(s: Schedule, ids: seq<nat>, now: Time, refused: set<nat>)
    ensures var b := TryBatch(s, ids, now, refused);
            && b.done <= |ids| && b.schedule == RunBatch(s, ids[..b.done], now)
            && (b.done < |ids| ==> Stops(s, ids, now, refused, b.done))
            && (forall k :: 0 <= k < b.done ==> !Stops(s, ids, now, refused, k))
  {
    if ids != [] {
      hide Asks;
      var front := ids[..|ids| - 1];
      BatchStops(s, front, now, refused);
      assert forall k :: 0 <= k <= |front| ==> front[..k] == ids[..k];
      assert forall k :: 0 <= k < |front| ==> (Stops(s, front, now, refused, k) <==> Stops(s, ids, now, refused, k));
      assert ids[..|ids|] == ids;
    } else {
      assert ids[..0] == [];
    }
  }

  /** What an action asks for does not depend on the actions before it in the batch. */
  lemma AsksStays(s: Schedule, ids: seq<nat>, now: Time, i: nat)
    requires i < |s.actions| && i !in ids
    ensures Asks(RunBatch(s, ids, now), i, now) <==> Asks(s, i, now)
  {
    OthersUntouched(s, ids, now, i);
  }

  /** Nothing in the batch asks for a revocation that is refused. */
  predicate NoneRefused(s: Schedule, ids: seq<nat>, now: Time, refused: set<nat>) {
    forall k :: 0 <= k < |ids| && Asks(s, ids[k], now) ==> ids[k] !in refused
  }

  lemma StopsIff(s: Schedule, now: Time, limit: nat, ids: seq<nat>, refused: set<nat>, k: nat)
    requires DueBatch(s, now, limit, ids) && k < |ids|
    ensures Stops(s, ids, now, refused, k) <==> Asks(s, ids[k], now) && ids[k] in refused
  {
    hide Asks, RunBatch;
    assert ids[k] !in ids[..k];
    AsksStays(s, ids[..k], now, ids[k]);
  }

  /** A batch is carried out to its end if and only if none of its actions asks for a revocation that is refused. */
  lemma BatchCompletesIff(s: Schedule, now: Time, limit: nat, ids: seq<nat>, refused: set<nat>)
    requires DueBatch(s, now, limit, ids)
    ensures TryBatch(s, ids, now, refused).done == |ids| <==> NoneRefused(s, ids, now, refused)
    ensures NoneRefused(s, ids, now, refused) ==> TryBatch(s, ids, now, refused).schedule == RunBatch(s, ids, now)
  {
    hide Asks, RunBatch, TryBatch, Stops, DueBatch;
    BatchStops(s, ids, now, refused);
    forall k | 0 <= k < |ids|
      ensures Stops(s, ids, now, refused, k) <==> Asks(s, ids[k], now) && ids[k] in refused {
      StopsIff(s, now, limit, ids, refused, k);
    }
    assert ids[..|ids|] == ids;
  }

  /** An uncut batch leaves nothing due if and only if none of its actions asks for a revocation that is refused. */
  lemma BatchSettlesIff(s: Schedule, now: Time, limit: nat, ids: seq<nat>, refused: set<nat>)
    requires ScheduleInv(s) && DueBatch(s, now, limit, ids) && |ids| < limit
    ensures var t := TryBatch(s, ids, now, refused).schedule;
            (forall i :: 0 <= i < |t.actions| ==> !IsDue(t.actions[i], now)) <==> NoneRefused(s, ids, now, refused)
  {
    hide Asks, RunBatch, TryBatch, Stops, ScheduleInv, NoneRefused;
    BatchCompletesIff(s, now, limit, ids, refused);
    var b := TryBatch(s, ids, now, refused);
    BatchStops(s, ids, now, refused);
    if NoneRefused(s, ids, now, refused) {
      BatchSettles(s, now, limit, ids);
    } else {
      var i := ids[b.done];
      assert i !in ids[..b.done];
      OthersUntouched(s, ids[..b.done], now, i);
      assert IsDue(b.schedule.actions[i], now);
    }
  }

  /**
   * The session of a pass whose revocation is pending and due is revoked by the batch it is in if and only if neither
   * that revocation nor one before it in the batch is refused.
   */
  lemma ScheduledEndHappensIff(s: Schedule, now: Time, limit: nat, ids: seq<nat>, refused: set<nat>, k: nat)
    requires ScheduleInv(s) && DueBatch(s, now, limit, ids) && k < |ids|
    requires var a := s.actions[ids[k]];
             a.pass in s.passes && s.passes[a.pass].reference.Some? && EndsPass(a, a.pass, s.passes[a.pass].version)
    ensures var t, id := TryBatch(s, ids, now, refused).schedule, s.actions[ids[k]].pass;
            && id in t.passes
            && (t.passes[id].reference == None <==> NoneRefused(s, ids[..k + 1], now, refused))
            && (t.passes[id].reference == None ==> Revoked(id, s.passes[id].reference) in t.effects)
  {
    hide Asks, RunBatch, TryBatch, Stops, ScheduleInv, DueBatch;
    var b := TryBatch(s, ids, now, refused);
    BatchStops(s, ids, now, refused);
    forall j | 0 <= j < |ids|
      ensures Stops(s, ids, now, refused, j) <==> Asks(s, ids[j], now) && ids[j] in refused {
      StopsIff(s, now, limit, ids, refused, j);
    }
    assert forall j :: 0 <= j < k + 1 ==> ids[..k + 1][j] == ids[j];
    InBatch(s, now, limit, ids, k, b.done);
    BatchRevokes(s, ids[..b.done], now, ids[k]);
  }

  lemma InBatch(s: Schedule, now: Time, limit: nat, ids: seq<nat>, k: nat, n: nat)
    requires DueBatch(s, now, limit, ids) && k < |ids| && n <= |ids|
    ensures ids[k] < |s.actions| && IsDue(s.actions[ids[k]], now)
    ensures ids[k] in ids[..n] <==> k < n
  {
    if k < n {
      assert ids[..n][k] == ids[k];
    }
  }

  // ---------- A refused revocation holds up the queue ----------

  /** One call of the worker. */
  datatype Round = Round(now: Time, limit: nat, ids: seq<nat>, refused: set<nat>)

  /**
   * The worker's calls, and what happens between them. A batch whose action fails after its revocation is one that is
   * refused there, followed by the action as an aborted step.
   */
  datatype Event = Works(round: Round) | Happens(step: Step)

  function AfterEvent(s: Schedule, e: Event): Schedule {
    match e
    case Works(r) => TryBatch(s, r.ids, r.now, r.refused).schedule
    case Happens(step) => Next(s, step)
  }

  function AfterAll(s: Schedule, events: seq<Event>): Schedule {
    if events == [] then s else AfterEvent(AfterAll(s, events[..|events| - 1]), events[|events| - 1])
  }

  /** A revocation of the pass's current version that was not carried out yet. */
  predicate PendingEnd(s: Schedule, i: nat) {
    && i < |s.actions| && s.actions[i].completedAt.None? && s.actions[i].pass in s.passes
    && EndsPass(s.actions[i], s.actions[i].pass, s.passes[s.actions[i].pass].version)
  }

  /** The step neither executes the action nor moves the version of its pass, and does not try to. */
  predicate Spares(s: Schedule, step: Step, i: nat)
    requires i < |s.actions|
  {
    var request := Intended(step);
    !(request.ExecuteStep? && request.action == i) && !MovesVersion(s, request, s.actions[i].pass)
  }

  /** The worker takes what its query returns and has `i` refused whenever it asks; other steps spare `i` and `j`. */
  ghost predicate Refuses(s: Schedule, e: Event, i: nat, j: nat) {
    match e
    case Works(r) => i in r.refused && DueBatch(s, r.now, r.limit, r.ids)
    case Happens(step) => i < |s.actions| && j < |s.actions| && Spares(s, step, i) && Spares(s, step, j)
  }

  ghost predicate KeepsRefusing(s: Schedule, events: seq<Event>, i: nat, j: nat) {
    forall n :: 0 <= n < |events| ==> Refuses(AfterAll(s, events[..n]), events[n], i, j)
  }

  /** A batch does not reach what comes after a refused revocation. */
  lemma NotReached(s: Schedule, r: Round, i: nat, j: nat)
    requires ScheduleInv(s) && PendingEnd(s, i) && i in r.refused && DueBatch(s, r.now, r.limit, r.ids)
    requires j < |s.actions| && (j == i || s.actions[i].executeAt < s.actions[j].executeAt)
    ensures var done := TryBatch(s, r.ids, r.now, r.refused).done; done <= |r.ids| && j !in r.ids[..done]
  {
    hide Asks, RunBatch, TryBatch, Stops, ScheduleInv;
    var done := TryBatch(s, r.ids, r.now, r.refused).done;
    BatchStops(s, r.ids, r.now, r.refused);
    if i in r.ids {
      var k :| 0 <= k < |r.ids| && r.ids[k] == i;
      assert Asks(s, i, r.now) by { PendingAsks(s, i, r.now); }
      StopsIff(s, r.now, r.limit, r.ids, r.refused, k);
      assert done <= k;
    }
  }

  lemma PendingAsks(s: Schedule, i: nat, now: Time)
    requires PendingEnd(s, i) && s.actions[i].executeAt <= now
    ensures Asks(s, i, now)
  {
  }

  /** The revocation stays pending for its deadline, and nobody asks the controller for one of its pass. */
  predicate StaysPending(s: Schedule, t: Schedule, j: nat) {
    && PendingEnd(s, j) && PendingEnd(t, j)
    && SameJob(t.actions[j], s.actions[j]) && t.actions[j].executeAt == s.actions[j].executeAt
    && Revocations(t.effects, s.actions[j].pass) == Revocations(s.effects, s.actions[j].pass)
  }

  predicate SameSession(s: Schedule, t: Schedule, j: nat)
    requires StaysPending(s, t, j)
  {
    t.passes[s.actions[j].pass].reference == s.passes[s.actions[j].pass].reference
  }

  lemma PendingChains(s: Schedule, t: Schedule, u: Schedule, j: nat)
    requires StaysPending(s, t, j) && StaysPending(t, u, j)
    ensures StaysPending(s, u, j) && (SameSession(s, t, j) && SameSession(t, u, j) ==> SameSession(s, u, j))
  {
  }

  lemma {:induction false} BatchKeepsInv(s: Schedule, ids: seq<nat>, now: Time)
    requires ScheduleInv(s)
    ensures ScheduleInv(RunBatch(s, ids, now))
  {
    if ids != [] {
      hide Execute, ScheduleInv;
      BatchKeepsInv(s, ids[..|ids| - 1], now);
      ExecuteKeepsInv(RunBatch(s, ids[..|ids| - 1], now), ids[|ids| - 1], now);
    }
  }

  /** A pass keeps its session as long as its one revocation is not executed. */
  lemma {:induction false} SessionStays(s: Schedule, ids: seq<nat>, now: Time, j: nat)
    requires ScheduleInv(s) && PendingEnd(s, j) && j !in ids
    ensures StaysPending(s, RunBatch(s, ids, now), j) && SameSession(s, RunBatch(s, ids, now), j)
  {
    if ids != [] {
      hide ScheduleInv, Execute, StaysPending, SameSession;
      var front, last := ids[..|ids| - 1], ids[|ids| - 1];
      assert ids == front + [last];
      SessionStays(s, front, now, j);
      var t := RunBatch(s, front, now);
      PendingMeans(s, t, j);
      BatchKeepsInv(s, front, now);
      SessionStaysOnce(t, last, now, j);
      PendingChains(s, t, Execute(t, last, now).schedule, j);
    }
  }

  lemma PendingMeans(s: Schedule, t: Schedule, j: nat)
    requires StaysPending(s, t, j)
    ensures PendingEnd(t, j) && j < |s.actions| && j < |t.actions|
    ensures t.actions[j].pass == s.actions[j].pass && t.actions[j].executeAt == s.actions[j].executeAt
  {
  }

  lemma SessionStaysOnce(s: Schedule, k: nat, now: Time, j: nat)
    requires ScheduleInv(s) && PendingEnd(s, j) && k != j
    ensures StaysPending(s, Execute(s, k, now).schedule, j) && SameSession(s, Execute(s, k, now).schedule, j)
  {
    hide Revocations, Opened;
    var t := Execute(s, k, now).schedule;
    if k < |s.actions| {
      assert !SameJob(s.actions[k], s.actions[j]);
      if |t.effects| > |s.effects| {
        assert t.effects == s.effects + [t.effects[|s.effects|]];
        CountLast(s.effects, t.effects[|s.effects|], s.actions[j].pass);
      }
    }
  }

  /** Requests that give the pass another session or drop its session without revoking it. */
  predicate Switches(e: Event, id: Id) {
    e.Happens? && (e.step.AdminBlockStep? || e.step.ActivateStep?) && e.step.id == id
  }

  lemma EndCounts(s: Schedule, p: Id, id: Id)
    requires p in s.passes && p != id
    ensures Revocations(End(s, p).effects, id) == Revocations(s.effects, id)
  {
    hide Revocations, Opened;
    CountLast(s.effects, Revoked(p, s.passes[p].reference), id);
    CountLast(s.effects + [Revoked(p, s.passes[p].reference)], ExpiryAnnounced(p), id);
    assert End(s, p).effects == s.effects + [Revoked(p, s.passes[p].reference)] + [ExpiryAnnounced(p)];
  }

  /** A committed step that spares the revocation. */
  lemma RequestSpares(s: Schedule, step: Step, j: nat)
    requires ScheduleInv(s) && PendingEnd(s, j) && !step.Aborted? && Spares(s, step, j)
    ensures StaysPending(s, Next(s, step), j)
    ensures Switches(Happens(step), s.actions[j].pass) || SameSession(s, Next(s, step), j)
  {
    hide Revocations, Opened, Execute, ScheduleInv, AfterQuietHours, IssuedPass, FirstOpen;
    match step
    case ExecuteStep(k, now) => SessionStaysOnce(s, k, now, j);
    case ActivateStep(id, customer, now, session) =>
      if Next(s, step) != s {
        CountLast(s.effects, Authorized(id, session.value), s.actions[j].pass);
      }
    case AdminExpireStep(id) => if Next(s, step) != s { EndCounts(s, id, s.actions[j].pass); }
    case ExpireDueStep(id, now) => if Next(s, step) != s { EndCounts(s, id, s.actions[j].pass); }
    case _ =>
  }

  lemma AbortSpares(s: Schedule, request: Step, j: nat)
    requires ScheduleInv(s) && PendingEnd(s, j) && Spares(s, Aborted(request), j)
    ensures StaysPending(s, Next(s, Aborted(request)), j) && SameSession(s, Next(s, Aborted(request)), j)
  {
    hide Revocations, Opened, Handle, CallsSince, ScheduleInv;
    if request.Aborted? {
      NothingToAbort(s, request);
    } else {
      hide MovesVersion;
      RequestSpares(s, request, j);
      EffectsGrow(s, request);
      CallsCount(s.effects, Next(s, request).effects, s.actions[j].pass);
    }
  }

  lemma NothingToAbort(s: Schedule, request: Step)
    requires request.Aborted?
    ensures Next(s, Aborted(request)) == s
  {
    assert s.effects + [] == s.effects;
  }

  lemma EffectsGrow(s: Schedule, step: Step)
    ensures s.effects <= Handle(s, step).schedule.effects
  {
    hide IssuedPass, ExtendedPass, FirstOpen;
  }

  /** What keeps a refused revocation from being carried out keeps every later one from it. */
  lemma EventSpares(s: Schedule, e: Event, i: nat, j: nat)
    requires ScheduleInv(s) && PendingEnd(s, i) && PendingEnd(s, j) && Refuses(s, e, i, j)
    requires j == i || s.actions[i].executeAt < s.actions[j].executeAt
    ensures StaysPending(s, AfterEvent(s, e), j)
    ensures Switches(e, s.actions[j].pass) || SameSession(s, AfterEvent(s, e), j)
  {
    hide ScheduleInv, Spares, StaysPending, SameSession, TryBatch, RunBatch, Stops, Next, DueBatch;
    match e
    case Works(r) =>
      NotReached(s, r, i, j);
      BatchStops(s, r.ids, r.now, r.refused);
      SessionStays(s, r.ids[..TryBatch(s, r.ids, r.now, r.refused).done], r.now, j);
    case Happens(step) =>
      if step.Aborted? {
        AbortSpares(s, step.request, j);
      } else {
        RequestSpares(s, step, j);
      }
  }

  lemma EventKeepsInv(s: Schedule, e: Event)
    requires ScheduleInv(s)
    ensures ScheduleInv(AfterEvent(s, e))
  {
    hide ScheduleInv, TryBatch, RunBatch, Stops, Next;
    match e
    case Works(r) =>
      BatchStops(s, r.ids, r.now, r.refused);
      BatchKeepsInv(s, r.ids[..TryBatch(s, r.ids, r.now, r.refused).done], r.now);
    case Happens(step) => StepKeepsInv(s, step);
  }

  /**
   * While the controller keeps refusing a revocation it stays due, and no batch gets beyond it: however often the
   * worker runs, and whatever else happens that moves neither pass's version, a revocation with a later deadline stays
   * pending, and nobody asks the controller to revoke the session of its pass; the pass holds the same session unless
   * it is blocked or activated.
   */
  lemma {:induction false} NothingGetsBeyond(s: Schedule, events: seq<Event>, i: nat, j: nat)
    requires ScheduleInv(s) && PendingEnd(s, i) && PendingEnd(s, j) && KeepsRefusing(s, events, i, j)
    requires j == i || s.actions[i].executeAt < s.actions[j].executeAt
    ensures var t := AfterAll(s, events);
            && ScheduleInv(t) && StaysPending(s, t, i) && StaysPending(s, t, j)
            && (SameSession(s, t, j) || exists n :: 0 <= n < |events| && Switches(events[n], s.actions[j].pass))
  {
    if events != [] {
      hide ScheduleInv, PendingEnd, StaysPending, SameSession, AfterEvent, Refuses, Switches;
      var before, e := events[..|events| - 1], events[|events| - 1];
      assert forall n :: 0 <= n < |before| ==> before[..n] == events[..n] && before[n] == events[n];
      assert KeepsRefusing(s, before, i, j);
      NothingGetsBeyond(s, before, i, j);
      var t := AfterAll(s, before);
      assert Refuses(AfterAll(s, events[..|before|]), e, i, j);
      PendingMeans(s, t, i);
      PendingMeans(s, t, j);
      EventKeepsInv(t, e);
      EventSpares(t, e, i, i) by { RefusesItself(t, e, i, j); }
      EventSpares(t, e, i, j);
      PendingChains(s, t, AfterEvent(t, e), i);
      PendingChains(s, t, AfterEvent(t, e), j);
    }
  }

  lemma RefusesItself(s: Schedule, e: Event, i: nat, j: nat)
    requires Refuses(s, e, i, j)
    ensures Refuses(s, e, i, i)
  {
  }

  // ---------- Two due revocations, the first refused ----------

  const PLAN: Plan := Plan(120, [], [], None)

  function Owner(customer: Id): Account {
    Account(0, customer, 0)
  }

  /** Two customers order a minute apart and go online. */
  function TwoOnline(): seq<Step> {
    [IssueStep(Owner(1), 0, 0, Some(PLAN), 0, 1)] + [ActivateStep(1, 1, 0, Some(11))]
    + [IssueStep(Owner(2), 0, MINUTE, Some(PLAN), 0, 2)] + [ActivateStep(2, 2, MINUTE, Some(12))]
  }

  function Online(customer: Id, since: Time): TimedPass {
    TimedPass(Owner(customer), Active, since, Some(since), since + 120 * MINUTE, 1, Some(10 + customer))
  }

  /** The actions of a pass, by deadline: its notice, its expiry and its revocation. */
  function Jobs(pass: Id, expiresAt: Time): seq<Action> {
    [Action(pass, ExpirePass, expiresAt, 1, None, 0),
     Action(pass, SendExpiringNotification, expiresAt - NOTICE, 1, None, 0),
     Action(pass, RevokeNetworkAccess, expiresAt, 1, None, 0)]
  }

  lemma Continues(run: seq<Step>, step: Step)
    ensures Exec(run + [step]) == Next(Exec(run), step)
  {
    assert (run + [step])[..|run|] == run;
  }

  lemma GoesOnline(s: Schedule, customer: Id, now: Time)
    requires customer !in s.passes && forall id :: id in s.passes ==> s.passes[id].owner != Owner(customer)
    ensures var t := Next(s, IssueStep(Owner(customer), 0, now, Some(PLAN), 0, customer));
            var u := Next(t, ActivateStep(customer, customer, now, Some(10 + customer)));
            && u.passes == s.passes[customer := Online(customer, now)]
            && u.actions == s.actions + Jobs(customer, now + 120 * MINUTE)
  {
    assert FirstOpen(s.passes, Owner(customer)) == None;
  }

  lemma TwoOnlineState()
    ensures var s := Exec(TwoOnline());
            && s.passes == map[1 := Online(1, 0), 2 := Online(2, MINUTE)]
            && s.actions == Jobs(1, 120 * MINUTE) + Jobs(2, 121 * MINUTE)
  {
    hide Exec, Next;
    var one := [IssueStep(Owner(1), 0, 0, Some(PLAN), 0, 1)];
    var two := one + [ActivateStep(1, 1, 0, Some(11))];
    var three := two + [IssueStep(Owner(2), 0, MINUTE, Some(PLAN), 0, 2)];
    assert Exec([]) == Schedule(map[], [], []) by { EmptyRun(); }
    assert [] + one == one;
    Continues([], one[0]);
    Continues(one, ActivateStep(1, 1, 0, Some(11)));
    Continues(two, IssueStep(Owner(2), 0, MINUTE, Some(PLAN), 0, 2));
    Continues(three, ActivateStep(2, 2, MINUTE, Some(12)));
    GoesOnline(Exec([]), 1, 0);
    GoesOnline(Exec(two), 2, MINUTE);
  }

  lemma EmptyRun()
    ensures Exec([]) == Schedule(map[], [], [])
  {
  }

  /** Everything that is due two hours and five minutes later, by deadline. */
  const DUE: seq<nat> := [1, 4, 0, 2, 3, 5]

  lemma DueInOrder(s: Schedule)
    requires s.passes == map[1 := Online(1, 0), 2 := Online(2, MINUTE)]
    requires s.actions == Jobs(1, 120 * MINUTE) + Jobs(2, 121 * MINUTE)
    ensures PendingEnd(s, 2) && PendingEnd(s, 5) && DueBatch(s, 125 * MINUTE, 500, DUE)
  {
  }

  /** The uncut batch ends at the first revocation; the second stays due and its pass keeps its session. */
  lemma RefusalHoldsUpOthers()
    ensures var s, now := Exec(TwoOnline()), 125 * MINUTE;
            var t := TryBatch(s, DUE, now, {2}).schedule;
            && DueBatch(s, now, 500, DUE)
            && 5 < |t.actions| && IsDue(t.actions[2], now) && IsDue(t.actions[5], now)
            && 2 in t.passes && t.passes[2].reference == Some(12)
  {
    hide Exec, TryBatch;
    var s, now := Exec(TwoOnline()), 125 * MINUTE;
    TwoOnlineState();
    StampsSound(TwoOnline());
    DueInOrder(s);
    hide ScheduleInv, DueBatch;
    var works := Works(Round(now, 500, DUE, {2}));
    assert AfterAll(s, []) == s;
    assert [works][..0] == [];
    assert AfterAll(s, [works]) == TryBatch(s, DUE, now, {2}).schedule;
    NothingGetsBeyond(s, [works], 2, 5);
  }
}
