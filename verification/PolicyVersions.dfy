/** Publishing Wi-Fi policies: the version number as a lock (app/routers/admin.py). */
module PolicyVersions {
  import opened Common
  import opened LedgerModel
  import opened LedgerSteps
  import opened Conservation
  import opened Idempotency
  import opened WifiPolicy

  /** The step publishes a policy for the store. */
  predicate Publishes(c: Catalog, s: State, step: Step, store: Id) {
    step.PublishStep? && step.admin == store && Apply(c, s, step).outcome.Done?
  }

  function Publications(c: Catalog, s: State, run: seq<Step>, store: Id): nat {
    if run == [] then 0
    else
      var before := run[..|run| - 1];
      Publications(c, s, before, store) + if Publishes(c, Exec(c, s, before), run[|run| - 1], store) then 1 else 0
  }

  /** The policy the last accepted publication named, or the one there was. */
  function InForce(c: Catalog, s: State, run: seq<Step>, store: Id): Policy
    requires store in s.stores
  {
    if run == [] then s.stores[store].policy
    else
      var before, last := run[..|run| - 1], run[|run| - 1];
      if Publishes(c, Exec(c, s, before), last, store) then last.policy else InForce(c, s, before, store)
  }

  lemma PublishWrites(s: State, admin: Id, version: int, policy: Policy)
    ensures var r := PublishPolicy(s, admin, version, policy);
            && (!r.outcome.Done? ==> r.state.stores == s.stores)
            && (r.outcome.Done? ==>
                  && admin in s.stores && version == s.stores[admin].policyVersion && Publishable(policy)
                  && r.state.stores
                     == s.stores[admin := s.stores[admin].(policy := policy, policyVersion := version + 1)])
  {
    hide WellFormedPolicy, Publishable;
  }

  lemma PublishEffect(s: State, admin: Id, version: int, policy: Policy, store: Id)
    requires store in s.stores
    ensures var r := PublishPolicy(s, admin, version, policy);
            var published := admin == store && r.outcome.Done?;
            && store in r.state.stores
            && r.state.stores[store].policyVersion == s.stores[store].policyVersion + (if published then 1 else 0)
            && r.state.stores[store].policy == (if published then policy else s.stores[store].policy)
            && (published ==> version == s.stores[store].policyVersion && Publishable(policy))
  {
    hide PublishPolicy, Publishable;
    PublishWrites(s, admin, version, policy);
  }

  /** A step that publishes names the current version, which then rises by one; no other step touches it. */
  lemma StepPublishes(c: Catalog, s: State, step: Step, store: Id)
    requires store in s.stores
    ensures var s', published := Next(c, s, step), Publishes(c, s, step, store);
            && store in s'.stores
            && s'.stores[store].policyVersion == s.stores[store].policyVersion + (if published then 1 else 0)
            && s'.stores[store].policy == (if published then step.policy else s.stores[store].policy)
            && (published ==> step.version == s.stores[store].policyVersion && Publishable(step.policy))
  {
    hide Publishable, PublishPolicy;
    if step.PublishStep? {
      PublishEffect(s, step.admin, step.version, step.policy, store);
    } else {
      hide Apply;
      OthersLeaveStores(c, s, step);
    }
  }

  lemma OthersLeaveStores(c: Catalog, s: State, step: Step)
    requires !step.PublishStep?
    ensures Next(c, s, step).stores == s.stores
  {
    if MovesMoney(step) {
      MoneyLeavesStores(c, s, step);
    } else {
      hide Next;
      OthersLeaveMoney(c, s, step);
    }
  }

  lemma MoneyLeavesStores(c: Catalog, s: State, step: Step)
    requires MovesMoney(step)
    ensures Next(c, s, step).stores == s.stores
  {
    hide OrderAnswer, RefundAnswer, EvaluateGrants, ConsumeOldest, GrantsAfterRefund, CouponsAfterRefund, Remember,
         Withdraw, Deposit, OrderMinutes, PassAfterOrder, MinutesToReclaim, TiersLost;
  }

  /** After any run the version tells how many publications were accepted, and the policy is the last of them. */
  lemma {:induction false} VersionCounts(c: Catalog, s: State, run: seq<Step>, store: Id)
    requires store in s.stores
    ensures var t := Exec(c, s, run);
            && store in t.stores
            && t.stores[store].policyVersion == s.stores[store].policyVersion + Publications(c, s, run, store)
            && t.stores[store].policy == InForce(c, s, run, store)
  {
    if run != [] {
      hide Next, Publishes;
      VersionCounts(c, s, run[..|run| - 1], store);
      StepPublishes(c, Exec(c, s, run[..|run| - 1]), run[|run| - 1], store);
    }
  }

  lemma {:induction false} PublicationsSplit(c: Catalog, s: State, x: seq<Step>, y: seq<Step>, store: Id)
    ensures Publications(c, s, x + y, store) == Publications(c, s, x, store) + Publications(c, Exec(c, s, x), y, store)
  {
    if y == [] {
      assert x + y == x;
    } else {
      hide Exec, Publishes;
      var front := y[..|y| - 1];
      assert (x + y)[..|x + y| - 1] == x + front;
      ExecSplits(c, s, x, front);
      PublicationsSplit(c, s, x, front, store);
    }
  }

  /** Of two publications that name the same version, a run accepts at most one: no editor overwrites another unseen. */
  lemma VersionPublishedOnce(c: Catalog, s: State, run: seq<Step>, i: nat, j: nat, store: Id)
    requires store in s.stores && i < j < |run|
    requires Publishes(c, Exec(c, s, run[..i]), run[i], store) && Publishes(c, Exec(c, s, run[..j]), run[j], store)
    ensures run[i].version < run[j].version
  {
    hide Exec, Publishes, Publications;
    var before, rest := run[..i], run[i + 1..j];
    assert run[..j] == before + [run[i]] + rest;
    VersionCounts(c, s, before, store);
    VersionCounts(c, s, run[..j], store);
    StepPublishes(c, Exec(c, s, before), run[i], store);
    StepPublishes(c, Exec(c, s, run[..j]), run[j], store);
    PublicationsSplit(c, s, before, [run[i]], store);
    PublicationsSplit(c, s, before + [run[i]], rest, store);
    assert Publications(c, Exec(c, s, before), [run[i]], store) == 1 by {
      OnePublication(c, Exec(c, s, before), run[i], store);
    }
  }

  lemma OnePublication(c: Catalog, s: State, step: Step, store: Id)
    requires Publishes(c, s, step, store)
    ensures Publications(c, s, [step], store) == 1
  {
    assert [step][..0] == [];
    assert Exec(c, s, []) == s;
  }
}
