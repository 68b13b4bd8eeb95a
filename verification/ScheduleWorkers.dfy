/** The Django services and workers as they run, updating passes and actions in place. */
module ScheduleWorkers {
  import opened Common
  import opened WifiPolicy
  import opened WifiPass
  import opened LedgerModel
  import opened PassSchedule
  import opened Batches

  class Worker {
    var passes: map<Id, TimedPass>
    var actions: seq<Action>
    var effects: seq<Effect>

    function Snapshot(): Schedule
      reads this
    {
      Schedule(passes, actions, effects)
    }

    constructor ()
      ensures Snapshot() == Schedule(map[], [], [])
    {
      passes, actions, effects := map[], [], [];
    }

    method AddAction(id: Id, kind: Kind, executeAt: Time, version: int)
      modifies `actions
      ensures actions == old(actions) + [Action(id, kind, executeAt, version, None, 0)]
    {
      actions := actions + [Action(id, kind, executeAt, version, None, 0)];
    }

    method SetTerm(id: Id, owner: Account, amount: int, now: Time, policy: Plan)
      modifies `passes
      ensures var before := old(passes);
              var first := policy.base + TierMinutes(amount, policy.firstTiers);
              var more := TierMinutes(amount, policy.additionalTiers);
              passes == before[id := if id in before then Additional(before[id], more, now)
                                     else TimedPass(owner, Issued, now, None, now + first * MINUTE, 1, None)]
    {
      if id !in passes {
        var minutes := policy.base + TierMinutes(amount, policy.firstTiers);
        passes := passes[id := TimedPass(owner, Issued, now, None, now + minutes * MINUTE, 1, None)];
      } else {
        var minutes := TierMinutes(amount, policy.additionalTiers);
        var p := passes[id];
        p := p.(expiresAt := Max(p.expiresAt, now) + minutes * MINUTE);
        p := p.(version := p.version + 1);
        if p.status == Expired && minutes != 0 {
          p := p.(status := Active);
        }
        passes := passes[id := p];
      }
    }

    method KeepThroughQuietHours(id: Id, now: Time, policy: Plan, offset: int)
      requires id in passes
      modifies `passes
      ensures var p := old(passes)[id];
              passes == old(passes)[id := p.(expiresAt := AfterQuietHours(p.expiresAt, now, policy, offset))]
    {
      if policy.quietUntil.Some? {
        var local := now + offset;
        var quietLocal := local / DAY * DAY + policy.quietUntil.value;
        if local < quietLocal {
          var quietUtc := quietLocal - offset;
          if passes[id].expiresAt < quietUtc {
            passes := passes[id := passes[id].(expiresAt := quietUtc)];
          }
        }
      }
    }

    method ScheduleActions(id: Id, now: Time)
      requires id in passes
      modifies `actions
      ensures actions == old(actions) + NewActions(id, passes[id], now)
    {
      var p := passes[id];
      AddAction(id, ExpirePass, p.expiresAt, p.version);
      var notificationAt := p.expiresAt - NOTICE;
      if notificationAt > now {
        AddAction(id, SendExpiringNotification, notificationAt, p.version);
      }
      AddAction(id, RevokeNetworkAccess, p.expiresAt, p.version);
    }

    method IssueOrExtendPass(owner: Account, amount: int, now: Time, plan: Option<Plan>, offset: int,
                             freshId: Id) returns (reply: Reply)
      modifies this
      ensures Answer(Snapshot(), reply) == IssueOrExtend(old(Snapshot()), owner, amount, now, plan, offset, freshId)
    {
      hide AfterQuietHours, TierMinutes, NewActions;
      if plan.None? {
        return Refused;
      }
      var existing := FirstOpen(passes, owner);
      if existing.None? && freshId in passes {
        return Refused;
      }
      var id := if existing.Some? then existing.value else freshId;
      SetTerm(id, owner, amount, now, plan.value);
      KeepThroughQuietHours(id, now, plan.value, offset);
      ScheduleActions(id, now);
      return Ok;
    }

    /** `refused` says whether the controller would refuse a revocation; the transaction is rolled back then. */
    method ExecuteScheduledAction(i: nat, now: Time, refused: bool) returns (reply: Reply)
      modifies this
      ensures Answer(Snapshot(), reply) == TryExecute(old(Snapshot()), i, now, refused)
    {
      if i >= |actions| || actions[i].pass !in passes {
        return Refused;
      }
      var action := actions[i];
      if action.completedAt.Some? {
        return AlreadyCompleted;
      }
      action := action.(attempts := action.attempts + 1);
      var p := passes[action.pass];
      if action.version != p.version {
        actions := actions[i := action.(completedAt := Some(now))];
        return StaleVersionSkipped;
      }
      if action.executeAt > now {
        actions := actions[i := action];
        return NotDue;
      }
      match action.kind {
        case ExpirePass =>
          if p.expiresAt <= now && p.status != Expired && p.status != Cancelled && p.status != Blocked {
            passes := passes[action.pass := p.(status := Expired)];
            effects := effects + [ExpiryAnnounced(action.pass)];
          }
        case SendExpiringNotification =>
          effects := effects + [Notified(action.pass, p.expiresAt)];
        case RevokeNetworkAccess =>
          if refused {
            return ControllerFailed;
          }
          effects := effects + [Revoked(action.pass, p.reference)];
          passes := passes[action.pass := p.(reference := None)];
      }
      actions := actions[i := action.(completedAt := Some(now))];
      return Completed;
    }

    /** Executes actions until the controller refuses a revocation. */
    method ExecuteAll(now: Time, ids: seq<nat>, refused: set<nat>) returns (replies: seq<Reply>, raised: bool)
      modifies this
      ensures TryBatch(old(Snapshot()), ids, now, refused) == Batch(Snapshot(), |replies|)
      ensures |replies| <= |ids| && (raised <==> |replies| < |ids|)
    {
      hide TryExecute, TryBatch;
      ghost var s := Snapshot();
      replies, raised := [], false;
      NoBatch(s, now, refused);
      while |replies| < |ids| && !raised
        invariant |replies| <= |ids| && TryBatch(s, ids[..|replies|], now, refused) == Batch(Snapshot(), |replies|)
        invariant raised ==> |replies| < |ids|
                             && TryBatch(s, ids[..|replies| + 1], now, refused) == Batch(Snapshot(), |replies|)
        decreases |ids| - |replies|, !raised
      {
        var k := |replies|;
        OneMoreTried(s, ids, now, refused, k);
        var reply := ExecuteScheduledAction(ids[k], now, ids[k] in refused);
        if reply == ControllerFailed {
          raised := true;
        } else {
          replies := replies + [reply];
        }
      }
      if raised {
        StaysStopped(s, ids, now, refused, |replies| + 1);
      }
      assert ids[..|ids|] == ids;
    }

    /** Executes what the due query returned until the controller refuses, which ends the call with its error. */
    method ProcessDueActions(now: Time, limit: nat, ids: seq<nat>, refused: set<nat>)
      returns (replies: seq<Reply>, raised: bool)
      requires ScheduleInv(Snapshot()) && DueBatch(Snapshot(), now, limit, ids)
      modifies this
      ensures TryBatch(old(Snapshot()), ids, now, refused) == Batch(Snapshot(), |replies|)
      ensures raised <==> |replies| < |ids|
      ensures raised <==> !NoneRefused(old(Snapshot()), ids, now, refused)
      ensures |ids| < limit ==> (raised <==> exists i :: 0 <= i < |actions| && IsDue(actions[i], now))
    {
      hide TryBatch, ScheduleInv, DueBatch, NoneRefused, IsDue;
      ghost var s := Snapshot();
      replies, raised := ExecuteAll(now, ids, refused);
      BatchCompletesIff(s, now, limit, ids, refused);
      if |ids| < limit {
        BatchSettlesIff(s, now, limit, ids, refused);
      }
    }

    method ExpireOne(id: Id, now: Time, refused: bool) returns (expired: bool, raised: bool)
      modifies this
      ensures raised <==> id in old(passes) && IsOverdue(old(passes)[id], now) && refused
      ensures expired <==> id in old(passes) && IsOverdue(old(passes)[id], now) && !refused
      ensures Snapshot() == if raised then old(Snapshot()) else ExpireDuePass(old(Snapshot()), id, now).schedule
      ensures actions == old(actions)
      ensures passes == if expired then old(passes)[id := Ended(old(passes)[id])] else old(passes)
      ensures effects == old(effects) + if expired then Ending(id, old(passes)[id]) else []
    {
      expired, raised := false, false;
      if id !in passes {
        return;
      }
      var p := passes[id];
      if p.status != Active && p.status != ExpiringSoon {
        return;
      }
      if p.expiresAt > now {
        return;
      }
      if refused {
        return false, true;
      }
      effects := effects + [Revoked(id, p.reference)];
      passes := passes[id := p.(status := Expired, reference := None, version := p.version + 1)];
      effects := effects + [ExpiryAnnounced(id)];
      return true, false;
    }

    /**
     * The expiry loop over the selected passes: those still due are ended, no other pass is touched. The first
     * revocation that is refused ends the loop with its error; `reached` passes were dealt with before.
     */
    method ExpireDuePasses(ids: seq<Id>, now: Time, refused: set<Id>) returns (expired: nat, reached: nat, raised: bool)
      modifies this
      ensures reached <= |ids| && (raised <==> reached < |ids|)
      ensures raised <==> !NoEndRefused(old(passes), ids, now, refused)
      ensures NoEndRefused(old(passes), ids[..reached], now, refused)
      ensures passes.Keys == old(passes).Keys && actions == old(actions)
      ensures forall id :: id in passes ==> passes[id] == AfterLoop(old(passes)[id], id in ids[..reached], now)
      ensures expired == |set id | id in old(passes) && id in ids[..reached] && IsOverdue(old(passes)[id], now)|
      ensures effects == old(effects) + Endings(old(passes), ids[..reached], now)
    {
      hide Ended, IsOverdue, Ending, ExpireDuePass, Endings, Looped, EndedBy;
      expired, reached, raised := 0, 0, false;
      NothingLooped(passes, now);
      while reached < |ids| && !raised
        invariant reached <= |ids| && actions == old(actions)
        invariant NoEndRefused(old(passes), ids[..reached], now, refused)
        invariant raised ==> reached < |ids| && ids[reached] in old(passes) && ids[reached] in refused
                             && IsOverdue(old(passes)[ids[reached]], now)
        invariant passes == Looped(old(passes), ids[..reached], now)
        invariant expired == |EndedBy(old(passes), ids[..reached], now)|
        invariant effects == old(effects) + Endings(old(passes), ids[..reached], now)
        decreases |ids| - reached, !raised
      {
        var id := ids[reached];
        assert ids[..reached + 1] == ids[..reached] + [id];
        OneEnding(old(passes), ids[..reached], id, now);
        LoopStep(old(passes), ids[..reached], id, now);
        var one;
        one, raised := ExpireOne(id, now, id in refused);
        if one {
          expired := expired + 1;
        }
        if !raised {
          reached := reached + 1;
        }
      }
      assert ids[..|ids|] == ids;
      LoopMeans(old(passes), ids[..reached], now);
    }
  }

  /** No pass of the list that is overdue has its revocation refused. */
  predicate NoEndRefused(passes: map<Id, TimedPass>, ids: seq<Id>, now: Time, refused: set<Id>) {
    forall k :: 0 <= k < |ids| && ids[k] in passes && IsOverdue(passes[ids[k]], now) ==> ids[k] !in refused
  }

  function AfterLoop(p: TimedPass, reached: bool, now: Time): TimedPass {
    if reached && IsOverdue(p, now) then Ended(p) else p
  }

  /** The passes after the loop dealt with those of the list. */
  function Looped(passes: map<Id, TimedPass>, ids: seq<Id>, now: Time): map<Id, TimedPass> {
    map id | id in passes :: AfterLoop(passes[id], id in ids, now)
  }

  function EndedBy(passes: map<Id, TimedPass>, ids: seq<Id>, now: Time): set<Id> {
    set id | id in passes && id in ids && IsOverdue(passes[id], now)
  }

  lemma NothingLooped(passes: map<Id, TimedPass>, now: Time)
    ensures Looped(passes, [], now) == passes && EndedBy(passes, [], now) == {}
    ensures Endings(passes, [], now) == []
  {
  }

  lemma LoopMeans(passes: map<Id, TimedPass>, ids: seq<Id>, now: Time)
    ensures var looped := Looped(passes, ids, now);
            && looped.Keys == passes.Keys
            && forall id :: id in passes ==> looped[id] == AfterLoop(passes[id], id in ids, now)
    ensures EndedBy(passes, ids, now) == set id | id in passes && id in ids && IsOverdue(passes[id], now)
  {
  }

  /** One more pass of the list: it is ended when it is overdue and was not ended before. */
  lemma LoopStep(passes: map<Id, TimedPass>, ids: seq<Id>, id: Id, now: Time)
    ensures var ends, before := id in passes && id !in ids && IsOverdue(passes[id], now), Looped(passes, ids, now);
            && (ends <==> id in before && IsOverdue(before[id], now))
            && (ends ==> before[id] == passes[id])
            && Looped(passes, ids + [id], now) == (if ends then before[id := Ended(passes[id])] else before)
            && |EndedBy(passes, ids + [id], now)| == |EndedBy(passes, ids, now)| + (if ends then 1 else 0)
  {
    var ends := id in passes && id !in ids && IsOverdue(passes[id], now);
    if id in passes && id in ids && IsOverdue(passes[id], now) {
      EndedOnce(passes[id], now);
    }
    assert EndedBy(passes, ids + [id], now) == EndedBy(passes, ids, now) + if ends then {id} else {};
  }

  lemma NoBatch(s: Schedule, now: Time, refused: set<nat>)
    ensures TryBatch(s, [], now, refused) == Batch(s, 0)
  {
  }

  /** One more action of a batch that was not stopped yet. */
  lemma OneMoreTried(s: Schedule, ids: seq<nat>, now: Time, refused: set<nat>, k: nat)
    requires k < |ids| && TryBatch(s, ids[..k], now, refused).done == k
    ensures var t := TryBatch(s, ids[..k], now, refused).schedule;
            var tried := TryExecute(t, ids[k], now, ids[k] in refused);
            TryBatch(s, ids[..k + 1], now, refused)
            == if tried.reply == ControllerFailed then Batch(t, k) else Batch(tried.schedule, k + 1)
    ensures var t := TryBatch(s, ids[..k], now, refused).schedule;
            TryExecute(t, ids[k], now, ids[k] in refused).reply == ControllerFailed ==>
              TryExecute(t, ids[k], now, ids[k] in refused).schedule == t
  {
    assert ids[..k + 1][..k] == ids[..k];
  }

  /** A batch that was stopped stays where it is. */
  lemma {:induction false} StaysStopped(s: Schedule, ids: seq<nat>, now: Time, refused: set<nat>, n: nat)
    requires n <= |ids| && TryBatch(s, ids[..n], now, refused).done < n
    ensures TryBatch(s, ids, now, refused) == TryBatch(s, ids[..n], now, refused)
    decreases |ids| - n
  {
    if n < |ids| {
      assert ids[..n + 1][..n] == ids[..n];
      StaysStopped(s, ids, now, refused, n + 1);
    } else {
      assert ids[..n] == ids;
    }
  }

  function Ending(id: Id, p: TimedPass): seq<Effect> {
    [Revoked(id, p.reference), ExpiryAnnounced(id)]
  }

  /** Each overdue pass of the list is revoked and announced once, in the order of the list. */
  function Endings(passes: map<Id, TimedPass>, ids: seq<Id>, now: Time): seq<Effect> {
    if ids == [] then []
    else
      var front, id := ids[..|ids| - 1], ids[|ids| - 1];
      Endings(passes, front, now)
      + if id in passes && id !in front && IsOverdue(passes[id], now)
        then Ending(id, passes[id]) else []
  }

  lemma OneEnding(passes: map<Id, TimedPass>, ids: seq<Id>, id: Id, now: Time)
    ensures Endings(passes, ids + [id], now)
            == Endings(passes, ids, now)
               + if id in passes && id !in ids && IsOverdue(passes[id], now) then Ending(id, passes[id]) else []
  {
    assert (ids + [id])[..|ids|] == ids;
  }

  lemma EndedOnce(p: TimedPass, now: Time)
    ensures !IsOverdue(Ended(p), now)
  {
  }
}
