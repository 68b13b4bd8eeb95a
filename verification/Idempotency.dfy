/** Keyed requests take effect once, however often and however late they are sent again. */
module Idempotency {
  import opened Common
  import opened LedgerModel
  import opened LedgerSteps
  import opened Conservation

  predicate Keyed(step: Step) {
    MovesMoney(step) && HasKey(step.key)
  }

  /** The idempotency scope and body of an order or a refund. */
  function ScopeOf(step: Step): Scope
    requires MovesMoney(step)
  {
    if step.CreateOrderStep? then PosOrderScope(step.order.store) else RefundScope(step.id)
  }

  function BodyOf(step: Step): Request
    requires MovesMoney(step)
  {
    if step.CreateOrderStep? then OrderBody(step.order) else RefundBody(step.refund)
  }

  /** The same request sent again: the clock, the id a new order would get and the controller may all differ. */
  predicate SameRequest(x: Step, y: Step) {
    && Keyed(x) && Keyed(y) && x.key == y.key
    && ScopeOf(x) == ScopeOf(y) && BodyOf(x) == BodyOf(y)
  }

  predicate Accepted(c: Catalog, s: State, step: Step) {
    Apply(c, s, step).outcome.Done?
  }

  /** The checks a request passes before its key is looked up. */
  predicate Addressed(s: State, step: Step)
    requires MovesMoney(step)
  {
    match step
    case CreateOrderStep(_, order, _, _) => WellFormedOrder(order) && order.store in s.stores
    case RefundStep(_, id, refund, _, _) =>
      && (refund.amount.Some? ==> 1 <= refund.amount.value)
      && id in s.orders && s.orders[id].account.store == refund.store
  }

  /** Nothing a later step does can take away what answers a repeat, an order's identity, or a pass. */
  predicate Remembers(s: State, s': State) {
    && s.stores.Keys <= s'.stores.Keys && s.passes.Keys <= s'.passes.Keys
    && (forall id :: id in s.orders ==>
          && id in s'.orders
          && s'.orders[id].account == s.orders[id].account && s'.orders[id].externalId == s.orders[id].externalId)
    && (forall k :: k in s.records ==> k in s'.records && s'.records[k] == s.records[k])
  }

  lemma OrderRemembers(c: Catalog, s: State, now: Time, req: OrderRequest, key: Option<string>, id: Id)
    ensures Remembers(s, CreateOrder(c, s, now, req, key, id).state)
  {
    hide OrderMinutes, PassAfterOrder, EvaluateGrants, ConsumeOldest, Deposit, WellFormedOrder, ExternalIdUsed,
         PricedTotal, BusinessDay.BusinessDate;
  }

  lemma RefundRemembers(c: Catalog, s: State, now: Time, id: Id, req: RefundRequest, key: Option<string>,
                        networkUp: bool)
    ensures Remembers(s, RefundOrder(c, s, now, id, req, key, networkUp).state)
  {
    hide GrantsAfterRefund, CouponsAfterRefund, TiersLost, Withdraw, MinutesToReclaim, WifiPass.Reclaim, NeedsNetwork;
  }

  lemma StepRemembers(c: Catalog, s: State, step: Step)
    ensures Remembers(s, Next(c, s, step))
  {
    hide CreateOrder, RefundOrder, ChooseReward, RedeemCoupon, ListCoupons, ActivatePass, ExtendPass, ExpirePass,
         BlockPass, ExpireDuePasses, Remembers;
    match step
    case CreateOrderStep(now, req, key, id) => OrderRemembers(c, s, now, req, key, id);
    case RefundStep(now, id, req, key, networkUp) => RefundRemembers(c, s, now, id, req, key, networkUp);
    case _ => OthersRemember(c, s, step);
  }

  lemma OthersRemember(c: Catalog, s: State, step: Step)
    requires !MovesMoney(step)
    ensures Remembers(s, Next(c, s, step))
  {
    hide CreateOrder, RefundOrder, ChooseReward, RedeemCoupon, ListCoupons, ActivatePass, ExtendPass, ExpirePass,
         BlockPass, ExpireDuePasses;
    OthersLeaveMoney(c, s, step);
  }

  lemma {:induction false} RunRemembers(c: Catalog, s: State, run: seq<Step>)
    ensures Remembers(s, Exec(c, s, run))
  {
    if run != [] {
      RunRemembers(c, s, run[..|run| - 1]);
      StepRemembers(c, Exec(c, s, run[..|run| - 1]), run[|run| - 1]);
    }
  }

  /** An accepted keyed request leaves a record of its body and its answer. */
  lemma AcceptedIsRecorded(c: Catalog, s: State, step: Step)
    requires Keyed(step) && Accepted(c, s, step)
    ensures Addressed(s, step) && 8 <= |step.key.value| <= 200
    ensures var r, k := Apply(c, s, step), (ScopeOf(step), step.key.value);
            k in r.state.records && r.state.records[k] == Record(BodyOf(step), r.outcome.code, r.outcome.response)
  {
    hide OrderMinutes, PassAfterOrder, EvaluateGrants, ConsumeOldest, GrantsAfterRefund, CouponsAfterRefund,
         MinutesToReclaim, WellFormedOrder, ExternalIdUsed, PricedTotal, NeedsNetwork;
  }

  /**
   * A recorded request is answered from its record, without touching anything; another body under its key is refused.
   */
  lemma RecordedIsAnswered(c: Catalog, s: State, step: Step)
    requires Keyed(step) && Addressed(s, step) && 8 <= |step.key.value| <= 200
    requires (ScopeOf(step), step.key.value) in s.records
    ensures var record := s.records[(ScopeOf(step), step.key.value)];
            var answer := if record.request == BodyOf(step) then Done(record.code, record.response) else Rejected(409);
            Apply(c, s, step) == Result(s, answer)
  {
    hide WellFormedOrder, ExternalIdUsed, PricedTotal, NeedsNetwork, CommitOrder, CommitRefund;
  }

  /**
   * Sending an accepted request again, after any further run, changes nothing and returns the first answer; reusing
   * its key for another body is refused without effect.
   */
  lemma RepeatsAreAnswered(c: Catalog, s: State, first: Step, run: seq<Step>, again: Step)
    requires Keyed(first) && Accepted(c, s, first)
    requires Keyed(again) && again.key == first.key && ScopeOf(again) == ScopeOf(first)
    ensures var t := Exec(c, Next(c, s, first), run);
            && (BodyOf(again) == BodyOf(first) ==> Apply(c, t, again) == Result(t, Apply(c, s, first).outcome))
            && (BodyOf(again) != BodyOf(first) && Addressed(t, again) ==>
                Apply(c, t, again) == Result(t, Rejected(409)))
  {
    hide Apply;
    var u := Next(c, s, first);
    var t := Exec(c, u, run);
    AcceptedIsRecorded(c, s, first);
    StepRemembers(c, s, first);
    RunRemembers(c, u, run);
    if Addressed(t, again) {
      RecordedIsAnswered(c, t, again);
    }
  }

  /** Some earlier step of the run is the same keyed request, and it was accepted. */
  predicate IsRepeat(c: Catalog, s: State, before: seq<Step>, step: Step) {
    exists j :: 0 <= j < |before| && SameRequest(before[j], step) && Accepted(c, Exec(c, s, before[..j]), before[j])
  }

  function WithoutRepeats(c: Catalog, s: State, run: seq<Step>): seq<Step> {
    if run == [] then []
    else
      var before, last := run[..|run| - 1], run[|run| - 1];
      if IsRepeat(c, s, before, last) then WithoutRepeats(c, s, before) else WithoutRepeats(c, s, before) + [last]
  }

  lemma {:induction false} ExecSplits(c: Catalog, s: State, x: seq<Step>, y: seq<Step>)
    ensures Exec(c, s, x + y) == Exec(c, Exec(c, s, x), y)
  {
    if y == [] {
      assert x + y == x;
    } else {
      ExecSplits(c, s, x, y[..|y| - 1]);
      assert (x + y)[..|x + y| - 1] == x + y[..|y| - 1];
    }
  }

  /** A repeat leaves the state of its run as it is. */
  lemma RepeatIsIdle(c: Catalog, s: State, before: seq<Step>, step: Step)
    requires IsRepeat(c, s, before, step)
    ensures Next(c, Exec(c, s, before), step) == Exec(c, s, before)
  {
    hide Apply;
    var j :| 0 <= j < |before| && SameRequest(before[j], step) && Accepted(c, Exec(c, s, before[..j]), before[j]);
    var rest := before[j + 1..];
    assert before == before[..j + 1] + rest && before[..j + 1][..j] == before[..j];
    ExecSplits(c, s, before[..j + 1], rest);
    RepeatsAreAnswered(c, Exec(c, s, before[..j]), before[j], rest, step);
  }

  /** What the requests of a run are answered. */
  function AnswersOf(c: Catalog, s: State, run: seq<Step>): seq<Outcome> {
    if run == [] then []
    else
      var before := run[..|run| - 1];
      AnswersOf(c, s, before) + [Apply(c, Exec(c, s, before), run[|run| - 1]).outcome]
  }

  /** What its requests other than repeats are answered. */
  function FirstAnswers(c: Catalog, s: State, run: seq<Step>): seq<Outcome> {
    if run == [] then []
    else
      var before, last := run[..|run| - 1], run[|run| - 1];
      FirstAnswers(c, s, before)
      + if IsRepeat(c, s, before, last) then [] else [Apply(c, Exec(c, s, before), last).outcome]
  }

  lemma AnswersGrow(c: Catalog, s: State, run: seq<Step>, step: Step)
    ensures Exec(c, s, run + [step]) == Next(c, Exec(c, s, run), step)
    ensures AnswersOf(c, s, run + [step]) == AnswersOf(c, s, run) + [Apply(c, Exec(c, s, run), step).outcome]
  {
    assert (run + [step])[..|run|] == run;
  }

  /** Deleting every repeat from a run changes neither where it ends nor any answer to the requests that remain. */
  lemma {:induction false} RepeatsCanBeDeleted(c: Catalog, s: State, run: seq<Step>)
    ensures Exec(c, s, WithoutRepeats(c, s, run)) == Exec(c, s, run)
    ensures AnswersOf(c, s, WithoutRepeats(c, s, run)) == FirstAnswers(c, s, run)
  {
    if run != [] {
      hide Apply, Next, IsRepeat;
      var before, last := run[..|run| - 1], run[|run| - 1];
      RepeatsCanBeDeleted(c, s, before);
      if IsRepeat(c, s, before, last) {
        RepeatIsIdle(c, s, before, last);
      } else {
        AnswersGrow(c, s, WithoutRepeats(c, s, before), last);
      }
    }
  }
}
