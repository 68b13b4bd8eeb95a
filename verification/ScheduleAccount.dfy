/** Where the expiry of a Django pass comes from: an account of every minute bought and added (wifi/services.py). */
module ScheduleAccount {
  import opened Common
  import opened BusinessDay
  import opened WifiPolicy
  import opened WifiPass
  import opened LedgerModel
  import opened PassSchedule
  import opened ScheduleEffects

  /** The minutes a step brings the pass: those of the order's tier, with the base for a new pass, or those added. */
  function Minutes(s: Schedule, step: Step, id: Id): int {
    match step
    case IssueStep(owner, amount, now, plan, offset, freshId) =>
      if Apply(s, step).reply != Ok || Target(s.passes, owner, freshId) != id then 0
      else if id in s.passes then TierMinutes(amount, plan.value.additionalTiers)
      else plan.value.base + TierMinutes(amount, plan.value.firstTiers)
    case AdminExtendStep(p, store, now, minutes, revives) =>
      if p == id && Apply(s, step).reply == Ok then minutes else 0
    case _ => 0
  }

  /** How far a day pass moves the expiry, which can be back. */
  function Moved(s: Schedule, step: Step, id: Id): int {
    if step.DayPassStep? && step.id == id && id in s.passes then
      BusinessDayEnd(s.passes[id].owner.day, step.clock) - s.passes[id].expiresAt
    else 0
  }

  function Account(run: seq<Step>, id: Id): int {
    if run == [] then 0
    else
      var before := run[..|run| - 1];
      var s, last := Exec(before), run[|run| - 1];
      Account(before, id) + Minutes(s, last, id) * 60 * SECOND + Moved(s, last, id)
  }

  function Span(s: Schedule, id: Id): int {
    if id in s.passes then s.passes[id].expiresAt - s.passes[id].issuedAt else 0
  }

  /** Quiet hours end, on the day of the order, after the time that was paid for. */
  predicate QuietAdds(paid: Time, now: Time, plan: Plan, offset: int) {
    plan.quietUntil.Some?
    && var q := (now + offset) / DAY * DAY + plan.quietUntil.value - offset;
       now < q && paid < q
  }

  /** The step gives the pass no time for nothing: it does not find it run out, and quiet hours add nothing. */
  predicate Exact(s: Schedule, step: Step, id: Id) {
    match step
    case IssueStep(owner, amount, now, plan, offset, freshId) =>
      Apply(s, step).reply == Ok && Target(s.passes, owner, freshId) == id ==>
        var from := if id in s.passes then s.passes[id].expiresAt else now;
        now <= from && !QuietAdds(from + Minutes(s, step, id) * 60 * SECOND, now, plan.value, offset)
    case AdminExtendStep(p, store, now, minutes, revives) =>
      p == id && Apply(s, step).reply == Ok ==> now <= s.passes[id].expiresAt
    case _ => true
  }

  lemma QuietGap(paid: Time, now: Time, plan: Plan, offset: int)
    ensures var end := AfterQuietHours(paid, now, plan, offset);
            paid <= end && (end == paid <==> !QuietAdds(paid, now, plan, offset))
  {
  }

  /** An order leaves a pass that ran out more than was paid for, and the same whenever quiet hours add to it. */
  lemma OrderSpan(s: Schedule, step: Step, id: Id)
    requires step.IssueStep?
    ensures var t, paid := Next(s, step), Minutes(s, step, id) * 60 * SECOND;
            Span(s, id) + paid <= Span(t, id) && (Span(t, id) == Span(s, id) + paid <==> Exact(s, step, id))
  {
    hide AfterQuietHours, QuietAdds, TierMinutes, FirstOpen, NewActions;
    if Apply(s, step).reply == Ok && Target(s.passes, step.owner, step.freshId) == id {
      var from := if id in s.passes then s.passes[id].expiresAt else step.now;
      var paid := Minutes(s, step, id) * 60 * SECOND;
      QuietGap(Max(from, step.now) + paid, step.now, step.plan.value, step.offset);
      assert Next(s, step).passes[id].expiresAt
          == AfterQuietHours(Max(from, step.now) + paid, step.now, step.plan.value, step.offset);
    }
  }

  lemma StepSpan(s: Schedule, step: Step, id: Id)
    ensures var t, due := Next(s, step), Minutes(s, step, id) * 60 * SECOND + Moved(s, step, id);
            Span(s, id) + due <= Span(t, id) && (Span(t, id) == Span(s, id) + due <==> Exact(s, step, id))
  {
    hide IssueOrExtend, CallsSince, BusinessDayEnd;
    if step.IssueStep? {
      hide Next, Exact, Span, Minutes;
      OrderSpan(s, step, id);
    }
  }

  predicate AllExact(run: seq<Step>, id: Id) {
    run == [] || (AllExact(run[..|run| - 1], id) && Exact(Exec(run[..|run| - 1]), run[|run| - 1], id))
  }

  /**
   * After any run a pass expires no earlier than its issue time plus the minutes bought with orders and added by hand,
   * and what day passes moved it by; and exactly then if and only if no order or extension found it run out and quiet
   * hours never added to what was paid for.
   */
  lemma {:induction false} ExpiryAccounted(run: seq<Step>, id: Id)
    ensures Account(run, id) <= Span(Exec(run), id)
    ensures Span(Exec(run), id) == Account(run, id) <==> AllExact(run, id)
  {
    if run != [] {
      hide Next, Minutes, Moved, Exact, Span;
      var before := run[..|run| - 1];
      ExpiryAccounted(before, id);
      StepSpan(Exec(before), run[|run| - 1], id);
    }
  }
}
