/** The sliding window that limits how many one-time codes an order may be sent (app/routers/public.py). */
module OtpWindow {
  import opened Common

  datatype Challenge = Challenge(order: Id, createdAt: Time)

  /** Window length, sends per window, and how long challenges are kept before the purge deletes them. */
  datatype Limits = Limits(window: int, maxSends: int, retention: int)

  /** Challenges of the order created at or after `since`: the query's count. */
  function RecentCount(rows: seq<Challenge>, order: Id, since: Time): nat {
    if rows == [] then 0
    else
      var last := rows[|rows| - 1];
      RecentCount(rows[..|rows| - 1], order, since) + if last.order == order && since <= last.createdAt then 1 else 0
  }

  /** The rows a purge keeps. */
  function Since(rows: seq<Challenge>, cutoff: Time): seq<Challenge> {
    if rows == [] then []
    else
      var last := rows[|rows| - 1];
      Since(rows[..|rows| - 1], cutoff) + if last.createdAt < cutoff then [] else [last]
  }

  class Challenges {
    const limits: Limits
    var rows: seq<Challenge>

    constructor (limits: Limits)
      ensures this.limits == limits && rows == []
    {
      this.limits := limits;
      rows := [];
    }

    /** `createdAt` is the clock read again when the row is written. */
    method SendOtp(order: Id, now: Time, createdAt: Time, delivered: bool) returns (code: int)
      modifies this
      ensures (code == 201) == Sends(limits, old(rows), order, now, delivered)
      ensures rows == if code == 201 then old(rows) + [Challenge(order, createdAt)] else old(rows)
      ensures code != 201 ==>
                code == if limits.maxSends <= RecentCount(old(rows), order, now - limits.window) then 429 else 502
    {
      var recent := RecentCount(rows, order, now - limits.window);
      if recent >= limits.maxSends {
        return 429;
      }
      if !delivered {
        return 502;
      }
      rows := rows + [Challenge(order, createdAt)];
      return 201;
    }

    /** Deletes the challenges older than the retention, one by one. */
    method Purge(now: Time)
      modifies this
      ensures rows == Since(old(rows), now - limits.retention)
    {
      var kept: seq<Challenge> := [];
      for i := 0 to |rows|
        invariant rows == old(rows)
        invariant kept == Since(rows[..i], now - limits.retention)
      {
        assert rows[..i + 1][..i] == rows[..i];
        if !(rows[i].createdAt < now - limits.retention) {
          kept := kept + [rows[i]];
        }
      }
      assert rows[..|rows|] == rows;
      rows := kept;
    }
  }

  predicate Sends(limits: Limits, rows: seq<Challenge>, order: Id, now: Time, delivered: bool) {
    RecentCount(rows, order, now - limits.window) < limits.maxSends && delivered
  }

  /** The challenges of the order, by position, that are not older than `since`. */
  function Recent(rows: seq<Challenge>, order: Id, since: Time): set<int> {
    set i | 0 <= i < |rows| && rows[i].order == order && since <= rows[i].createdAt
  }

  lemma {:induction false} RecentCountIs(rows: seq<Challenge>, order: Id, since: Time)
    ensures RecentCount(rows, order, since) == |Recent(rows, order, since)|
  {
    if rows != [] {
      var front, last := rows[..|rows| - 1], rows[|rows| - 1];
      RecentCountIs(front, order, since);
      assert Recent(rows, order, since)
          == Recent(front, order, since) + if last.order == order && since <= last.createdAt then {|front|} else {};
    }
  }

  /** A code is sent if and only if fewer than the allowed number of the order's challenges are in the window. */
  lemma SendsIff(limits: Limits, rows: seq<Challenge>, order: Id, now: Time, delivered: bool)
    ensures Sends(limits, rows, order, now, delivered) <==>
              delivered && |Recent(rows, order, now - limits.window)| < limits.maxSends
  {
    RecentCountIs(rows, order, now - limits.window);
  }

  /** A purge keeps every challenge that is not older than the cutoff, as often as it is there, and no other. */
  lemma {:induction false} PurgeKeepsIff(rows: seq<Challenge>, cutoff: Time, c: Challenge)
    ensures multiset(Since(rows, cutoff))[c] == if c.createdAt < cutoff then 0 else multiset(rows)[c]
  {
    if rows != [] {
      var front, last := rows[..|rows| - 1], rows[|rows| - 1];
      PurgeKeepsIff(front, cutoff, c);
      assert rows == front + [last];
    }
  }

  // ---------- Runs ----------

  /** The clock never runs back: a step starts `wait` after the last one, and a row is written `delay` after that. */
  datatype Step = Send(order: Id, wait: nat, delay: nat, delivered: bool) | PurgeStep(wait: nat)

  /** `accepted` is the history of all challenges ever created. */
  datatype Desk = Desk(rows: seq<Challenge>, accepted: seq<Challenge>, clock: Time)

  function Next(limits: Limits, d: Desk, step: Step): Desk {
    match step
    case Send(order, wait, delay, delivered) =>
      var now := d.clock + wait;
      if Sends(limits, d.rows, order, now, delivered) then
        var c := Challenge(order, now + delay);
        Desk(d.rows + [c], d.accepted + [c], now + delay)
      else d.(clock := now)
    case PurgeStep(wait) => Desk(Since(d.rows, d.clock + wait - limits.retention), d.accepted, d.clock + wait)
  }

  function Exec(limits: Limits, run: seq<Step>): Desk {
    if run == [] then Desk([], [], 0) else Next(limits, Exec(limits, run[..|run| - 1]), run[|run| - 1])
  }

  /** When the order's challenges were created. */
  function Times(cs: seq<Challenge>, order: Id): seq<Time> {
    if cs == [] then []
    else
      var last := cs[|cs| - 1];
      Times(cs[..|cs| - 1], order) + if last.order == order then [last.createdAt] else []
  }

  /** The (i + K)th challenge comes strictly more than a window after the ith. */
  ghost predicate Spaced(limits: Limits, times: seq<Time>) {
    && (limits.maxSends <= 0 ==> times == [])
    && (0 < limits.maxSends ==>
          forall i, j :: 0 <= i < j < |times| && j == i + limits.maxSends ==> times[i] + limits.window < times[j])
  }

  ghost predicate Sorted(times: seq<Time>) {
    forall i, j :: 0 <= i < j < |times| ==> times[i] <= times[j]
  }

  // ---------- The count sees the whole window ----------

  lemma {:induction false} CountSurvivesPurge(rows: seq<Challenge>, order: Id, cutoff: Time, since: Time)
    requires cutoff <= since
    ensures RecentCount(Since(rows, cutoff), order, since) == RecentCount(rows, order, since)
  {
    if rows != [] {
      var front, last := rows[..|rows| - 1], rows[|rows| - 1];
      CountSurvivesPurge(front, order, cutoff, since);
      var kept := Since(front, cutoff);
      assert (kept + [last])[..|kept|] == kept;
      assert kept + [] == kept;
    }
  }

  lemma {:induction false} PurgesCompose(rows: seq<Challenge>, x: Time, y: Time)
    ensures Since(Since(rows, x), y) == Since(rows, Max(x, y))
  {
    if rows != [] {
      var front, last := rows[..|rows| - 1], rows[|rows| - 1];
      PurgesCompose(front, x, y);
      var kept := Since(front, x);
      assert (kept + [last])[..|kept|] == kept;
      assert kept + [] == kept;
    }
  }

  /** In a sorted history, if the K-th last challenge is inside the window, the count is at least K. */
  lemma {:induction false} RecentOnesCount(cs: seq<Challenge>, order: Id, since: Time, k: nat)
    requires var times := Times(cs, order); Sorted(times) && 0 < k <= |times| && since <= times[|times| - k]
    ensures k <= RecentCount(cs, order, since)
  {
    var front, last := cs[..|cs| - 1], cs[|cs| - 1];
    var times, before := Times(cs, order), Times(front, order);
    if last.order == order {
      assert times == before + [last.createdAt];
      assert since <= times[|times| - 1] by {
        assert k == 1 || times[|times| - k] <= times[|times| - 1];
      }
      if k > 1 {
        assert before[|before| - (k - 1)] == times[|times| - k];
        assert Sorted(before) by {
          assert forall i :: 0 <= i < |before| ==> before[i] == times[i];
        }
        RecentOnesCount(front, order, since, k - 1);
      }
    } else {
      assert times == before;
      RecentOnesCount(front, order, since, k);
    }
  }

  /** What is still in the table is the history since some cutoff no younger than the retention. */
  ghost predicate DeskOk(limits: Limits, d: Desk, order: Id, cutoff: Time) {
    && d.rows == Since(d.accepted, cutoff) && cutoff <= d.clock - limits.retention
    && (forall i :: 0 <= i < |d.accepted| ==> d.accepted[i].createdAt <= d.clock)
    && Sorted(Times(d.accepted, order))
    && (forall i :: 0 <= i < |Times(d.accepted, order)| ==> Times(d.accepted, order)[i] <= d.clock)
    && Spaced(limits, Times(d.accepted, order))
  }

  lemma SpacedAppend(limits: Limits, times: seq<Time>, t: Time)
    requires Sorted(times) && Spaced(limits, times) && (forall i :: 0 <= i < |times| ==> times[i] <= t)
    requires 0 < limits.maxSends
    requires limits.maxSends <= |times| ==> times[|times| - limits.maxSends] + limits.window < t
    ensures Sorted(times + [t]) && Spaced(limits, times + [t])
  {
  }

  /** An accepted send follows the K-th last by more than a window. */
  lemma AcceptedIsLate(limits: Limits, d: Desk, order: Id, now: Time, delivered: bool, cutoff: Time)
    requires DeskOk(limits, d, order, cutoff) && 0 <= limits.retention && limits.window <= limits.retention
             && d.clock <= now
    requires Sends(limits, d.rows, order, now, delivered)
    ensures var times, k := Times(d.accepted, order), limits.maxSends;
            0 < k && (k <= |times| ==> times[|times| - k] + limits.window < now)
  {
    CountSurvivesPurge(d.accepted, order, cutoff, now - limits.window);
    var times, k := Times(d.accepted, order), limits.maxSends;
    if k <= |times| && now - limits.window <= times[|times| - k] {
      RecentOnesCount(d.accepted, order, now - limits.window, k);
    }
  }

  /** Writing a row keeps the table and the history in step. */
  lemma RowsAppend(d: Desk, cutoff: Time, c: Challenge, order: Id)
    requires d.rows == Since(d.accepted, cutoff) && cutoff <= c.createdAt
    ensures d.rows + [c] == Since(d.accepted + [c], cutoff)
    ensures Times(d.accepted + [c], order) == Times(d.accepted, order) + if c.order == order then [c.createdAt] else []
  {
    assert (d.accepted + [c])[..|d.accepted|] == d.accepted;
  }

  lemma SendKeepsDesk(limits: Limits, d: Desk, step: Step, order: Id, cutoff: Time)
    requires step.Send? && DeskOk(limits, d, order, cutoff) && 0 <= limits.retention
             && limits.window <= limits.retention
    ensures DeskOk(limits, Next(limits, d, step), order, cutoff)
  {
    hide RecentCount, Sends, Since, Times, Spaced, Sorted;
    var now := d.clock + step.wait;
    if Sends(limits, d.rows, step.order, now, step.delivered) {
      RowsAppend(d, cutoff, Challenge(step.order, now + step.delay), order);
      SendKeepsSpacing(limits, d, step, order, cutoff);
    }
  }

  lemma SendKeepsSpacing(limits: Limits, d: Desk, step: Step, order: Id, cutoff: Time)
    requires step.Send? && DeskOk(limits, d, order, cutoff) && 0 <= limits.retention
             && limits.window <= limits.retention
    requires Sends(limits, d.rows, step.order, d.clock + step.wait, step.delivered)
    ensures var created := d.clock + step.wait + step.delay;
            var times := Times(d.accepted, order) + if step.order == order then [created] else [];
            Sorted(times) && Spaced(limits, times) && forall i :: 0 <= i < |times| ==> times[i] <= created
  {
    hide RecentCount, Sends, Since, Times, Spaced, Sorted;
    var now := d.clock + step.wait;
    if step.order == order {
      AcceptedIsLate(limits, d, order, now, step.delivered, cutoff);
      SpacedAppend(limits, Times(d.accepted, order), now + step.delay);
    } else {
      assert Times(d.accepted, order) + [] == Times(d.accepted, order);
    }
  }

  lemma {:induction false} DeskSound(limits: Limits, run: seq<Step>, order: Id) returns (cutoff: Time)
    requires 0 <= limits.retention && limits.window <= limits.retention
    ensures DeskOk(limits, Exec(limits, run), order, cutoff)
  {
    if run == [] {
      cutoff := -limits.retention;
    } else {
      var d, step := Exec(limits, run[..|run| - 1]), run[|run| - 1];
      var before := DeskSound(limits, run[..|run| - 1], order);
      if step.Send? {
        SendKeepsDesk(limits, d, step, order, before);
        cutoff := before;
      } else {
        cutoff := Max(before, d.clock + step.wait - limits.retention);
        PurgesCompose(d.accepted, before, d.clock + step.wait - limits.retention);
      }
    }
  }

  /** In any serial run, any closed window holds at most the allowed number of challenges of an order. */
  lemma SendsAreSpaced(limits: Limits, run: seq<Step>, order: Id)
    requires 0 <= limits.retention && limits.window <= limits.retention
    ensures Sorted(Times(Exec(limits, run).accepted, order)) && Spaced(limits, Times(Exec(limits, run).accepted, order))
  {
    var cutoff := DeskSound(limits, run, order);
  }

  // ---------- A retention shorter than the window ----------

  function Burst(n: nat): seq<Step> {
    if n == 0 then [] else Burst(n - 1) + [Send(0, 0, 0, true)]
  }

  lemma {:induction false} ExecContinues(limits: Limits, run: seq<Step>, step: Step)
    ensures Exec(limits, run + [step]) == Next(limits, Exec(limits, run), step)
  {
    assert (run + [step])[..|run|] == run;
  }

  lemma {:induction false} TimesOfBurst(cs: seq<Challenge>)
    requires forall i :: 0 <= i < |cs| ==> cs[i] == Challenge(0, 0)
    ensures |Times(cs, 0)| == |cs| && forall i :: 0 <= i < |cs| ==> Times(cs, 0)[i] == 0
  {
    if cs != [] {
      TimesOfBurst(cs[..|cs| - 1]);
    }
  }

  /** `n` challenges created at time 0, none purged. */
  predicate AtStart(d: Desk, n: nat) {
    && d.clock == 0 && |d.accepted| == n && d.rows == d.accepted
    && forall i :: 0 <= i < n ==> d.accepted[i] == Challenge(0, 0)
  }

  lemma BurstStep(limits: Limits, d: Desk)
    requires AtStart(d, |d.accepted|) && |d.accepted| < limits.maxSends
    ensures AtStart(Next(limits, d, Send(0, 0, 0, true)), |d.accepted| + 1)
  {
    hide RecentCount;
    CountAtMost(d.rows, 0, 0 - limits.window);
  }

  lemma {:induction false} BurstAccepted(limits: Limits, n: nat)
    requires n <= limits.maxSends
    ensures AtStart(Exec(limits, Burst(n)), n)
  {
    if n > 0 {
      hide Exec, AtStart, Next;
      BurstAccepted(limits, n - 1);
      ExecContinues(limits, Burst(n - 1), Send(0, 0, 0, true));
      assert |Exec(limits, Burst(n - 1)).accepted| == n - 1 by { AtStartCounts(Exec(limits, Burst(n - 1)), n - 1); }
      BurstStep(limits, Exec(limits, Burst(n - 1)));
    }
  }

  lemma AtStartCounts(d: Desk, n: nat)
    requires AtStart(d, n)
    ensures |d.accepted| == n
  {
  }

  lemma {:induction false} CountAtMost(rows: seq<Challenge>, order: Id, since: Time)
    ensures RecentCount(rows, order, since) <= |rows|
  {
    if rows != [] {
      CountAtMost(rows[..|rows| - 1], order, since);
    }
  }

  lemma {:induction false} PurgeAll(rows: seq<Challenge>, cutoff: Time)
    requires forall i :: 0 <= i < |rows| ==> rows[i].createdAt < cutoff
    ensures Since(rows, cutoff) == []
  {
    if rows != [] {
      PurgeAll(rows[..|rows| - 1], cutoff);
    }
  }

  function ForgetfulRun(limits: Limits): seq<Step>
    requires 0 < limits.maxSends && 0 <= limits.retention
  {
    Burst(limits.maxSends) + [PurgeStep(limits.retention + 1)] + [Send(0, 0, 0, true)]
  }

  lemma ForgetfulRunBreaksSpacing(limits: Limits)
    requires 0 < limits.maxSends && 0 <= limits.retention < limits.window
    ensures !Spaced(limits, Times(Exec(limits, ForgetfulRun(limits)).accepted, 0))
  {
    hide Exec, Burst;
    var k := limits.maxSends;
    var burst, purge, last := Burst(k), PurgeStep(limits.retention + 1), Send(0, 0, 0, true);
    BurstAccepted(limits, k);
    var d := Exec(limits, burst);
    PurgeAll(d.rows, 1);
    ExecContinues(limits, burst, purge);
    ExecContinues(limits, burst + [purge], last);
    TimesOfBurst(d.accepted);
    var accepted := d.accepted + [Challenge(0, limits.retention + 1)];
    assert Exec(limits, ForgetfulRun(limits)).accepted == accepted;
    assert accepted[..|accepted| - 1] == d.accepted;
    var times := Times(accepted, 0);
    assert times == Times(d.accepted, 0) + [limits.retention + 1];
    assert times[0] == 0 && times[k] == limits.retention + 1;
  }

  /** The limit holds over all runs exactly when challenges are kept for at least a window. */
  lemma SpacingIff(limits: Limits)
    requires 0 < limits.maxSends && 0 <= limits.retention
    ensures (forall run, order :: Spaced(limits, Times(Exec(limits, run).accepted, order))) <==>
            limits.window <= limits.retention
  {
    if limits.window <= limits.retention {
      forall run, order ensures Spaced(limits, Times(Exec(limits, run).accepted, order)) {
        SendsAreSpaced(limits, run, order);
      }
    } else {
      ForgetfulRunBreaksSpacing(limits);
    }
  }
}
