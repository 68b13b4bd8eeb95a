/** A fully refunded order leaves no trace: the run with it and the run without it agree. */
module RefundUndone {
  import opened Common
  import opened BusinessDay
  import opened Proration
  import opened WifiPass
  import opened LedgerModel
  import opened LedgerSteps
  import opened Conservation
  import opened Choices
  import opened ExpiryAccount
  import opened Idempotency
  import opened OrderCut

  // ---------- Which request placed the order ----------

  /** No two orders of a store share an external number. */
  ghost predicate ExternalIdsUnique(s: State) {
    forall x, y ::
      (x in s.orders && y in s.orders && x != y && s.orders[x].account.store == s.orders[y].account.store) ==>
      s.orders[x].externalId != s.orders[y].externalId
  }

  lemma StepKeepsExternalIds(c: Catalog, s: State, step: Step)
    requires ExternalIdsUnique(s)
    ensures ExternalIdsUnique(Next(c, s, step))
  {
    hide WellFormedOrder, PricedTotal, Replay, OrderMinutes, PassAfterOrder, EvaluateGrants, ConsumeOldest, Remember,
         Deposit, RefundAnswer, GrantsAfterRefund, CouponsAfterRefund, TiersLost, Withdraw, MinutesToReclaim, Reclaim,
         BusinessDate;
    if !MovesMoney(step) {
      OthersLeaveMoney(c, s, step);
    }
  }

  lemma {:induction false} ExternalIdsStayUnique(c: Catalog, s: State, run: seq<Step>)
    requires Initial(s)
    ensures ExternalIdsUnique(Exec(c, s, run))
  {
    if run != [] {
      hide ExternalIdsUnique;
      ExternalIdsStayUnique(c, s, run[..|run| - 1]);
      StepKeepsExternalIds(c, Exec(c, s, run[..|run| - 1]), run[|run| - 1]);
    } else {
      assert ExternalIdsUnique(s);
    }
  }

  /** What is remembered at one point of a run is remembered at any later point. */
  lemma PrefixRemembered(c: Catalog, s: State, run: seq<Step>, i: nat, j: nat)
    requires i <= j <= |run|
    ensures Remembers(Exec(c, s, run[..i]), Exec(c, s, run[..j]))
  {
    hide Exec, Remembers;
    assert run[..j] == run[..i] + run[i..j];
    ExecSplits(c, s, run[..i], run[i..j]);
    RunRemembers(c, Exec(c, s, run[..i]), run[i..j]);
  }

  /** The account had a pass at some point before the order was placed. */
  ghost predicate HadPassBefore(c: Catalog, s: State, run: seq<Step>, cut: Cut) {
    exists j :: 0 <= j <= |run| && cut.account in Exec(c, s, run[..j]).passes
        && cut.order !in Exec(c, s, run[..j]).orders
  }

  ghost predicate Placed(t: State, cut: Cut) {
    cut.order in t.orders && IsCut(t.orders[cut.order], cut)
  }

  ghost predicate OwnOnly(c: Catalog, s: State, run: seq<Step>, cut: Cut) {
    forall i :: 0 <= i < |run| ==> Own(c, Exec(c, s, run[..i]), run[i], cut)
  }

  /** An accepted order is in the table right after, under its number. */
  lemma AcceptedIsPlaced(c: Catalog, s: State, step: Step)
    requires step.CreateOrderStep? && OrderAnswer(c, s, step.order, step.key, step.id).None?
    ensures step.id !in s.orders && step.id in Next(c, s, step).orders
    ensures var o := Next(c, s, step).orders[step.id];
            o.account == OrderAccount(s.stores[step.order.store], step.order) && o.externalId == step.order.externalId
  {
    hide OrderAnswer, OrderMinutes, PassAfterOrder, EvaluateGrants, ConsumeOldest, Remember, Deposit, BusinessDate;
  }

  /** When the order is placed, its account has a pass. */
  lemma PassWasThere(c: Catalog, s: State, run: seq<Step>, cut: Cut, i: nat)
    requires i < |run| && HadPassBefore(c, s, run, cut) && cut.order in Exec(c, s, run[..i + 1]).orders
    ensures cut.account in Exec(c, s, run[..i]).passes
  {
    hide Exec;
    var j :| 0 <= j <= |run| && cut.account in Exec(c, s, run[..j]).passes
             && cut.order !in Exec(c, s, run[..j]).orders;
    if i < j {
      PrefixRemembered(c, s, run, i + 1, j);
    } else {
      PrefixRemembered(c, s, run, j, i);
    }
  }

  /** An order that is in the table later is the cut one when it has its number or its external number. */
  lemma LaterIsCut(s: State, t: State, id: Id, cut: Cut)
    requires Remembers(s, t) && Placed(t, cut) && ExternalIdsUnique(t) && id in s.orders
    requires id == cut.order
             || (s.orders[id].account.store == cut.account.store && s.orders[id].externalId == cut.externalId)
    ensures id == cut.order && IsCut(s.orders[id], cut)
  {
  }

  /** Only the request that placed the order was ever accepted under its number or its external number. */
  lemma OwnRequestOnly(c: Catalog, s: State, run: seq<Step>, cut: Cut, i: nat)
    requires Initial(s) && i < |run| && Placed(Exec(c, s, run), cut) && HadPassBefore(c, s, run, cut)
    ensures Own(c, Exec(c, s, run[..i]), run[i], cut)
  {
    hide Exec, Next, OrderAnswer, BusinessDate, HadPassBefore, Placed, ExternalIdsUnique, Remembers;
    var before, step := Exec(c, s, run[..i]), run[i];
    if step.CreateOrderStep? && Concerns(step, cut) && OrderAnswer(c, before, step.order, step.key, step.id).None? {
      var after := Exec(c, s, run[..i + 1]);
      PrefixStep(c, s, run, i);
      AcceptedIsPlaced(c, before, step);
      assert run[..|run|] == run;
      PrefixRemembered(c, s, run, i + 1, |run|);
      ExternalIdsStayUnique(c, s, run);
      LaterIsCut(after, Exec(c, s, run), step.id, cut);
      PassWasThere(c, s, run, cut, i);
    }
  }

  lemma PrefixStep(c: Catalog, s: State, run: seq<Step>, i: nat)
    requires i < |run|
    ensures Exec(c, s, run[..i + 1]) == Next(c, Exec(c, s, run[..i]), run[i])
  {
    assert run[..i + 1][..i] == run[..i];
  }

  // ---------- The two runs ----------

  ghost predicate AllClear(run: seq<Step>, cut: Cut) {
    forall i :: 0 <= i < |run| ==> Clear(run[i], cut)
  }

  lemma StartInStep(s: State, cut: Cut)
    requires Initial(s)
    ensures Lockstep(s, s, cut)
  {
    assert Drop(s.orders, cut.order) == s.orders;
  }

  lemma OwnOnlySplits(c: Catalog, s: State, run: seq<Step>, cut: Cut)
    requires run != [] && OwnOnly(c, s, run, cut)
    ensures OwnOnly(c, s, run[..|run| - 1], cut) && Own(c, Exec(c, s, run[..|run| - 1]), run[|run| - 1], cut)
  {
    hide Exec, Own;
    var before := run[..|run| - 1];
    forall i | 0 <= i < |before| ensures Own(c, Exec(c, s, before[..i]), before[i], cut) {
      assert run[..i] == before[..i] && Own(c, Exec(c, s, run[..i]), run[i], cut);
    }
  }

  lemma {:induction false} RunsStayInStep(c: Catalog, s: State, run: seq<Step>, cut: Cut, a: Account)
    requires c.Valid() && Initial(s) && AllClear(run, cut) && OwnOnly(c, s, run, cut)
    ensures Lockstep(Exec(c, s, run), Exec(c, s, Without(run, cut)), cut)
    ensures AddedByHand(c, s, run, a) == AddedByHand(c, s, Without(run, cut), a)
  {
    hide Apply, Next, Lockstep, Own, OwnOnly, ChoicesInv, Added, Concerns, Clear;
    if run == [] {
      StartInStep(s, cut);
    } else {
      var before, last := run[..|run| - 1], run[|run| - 1];
      OwnOnlySplits(c, s, run, cut);
      assert AllClear(before, cut);
      RunsStayInStep(c, s, before, cut, a);
      var t, w := Exec(c, s, before), Without(before, cut);
      ChoicesSettled(c, s, before);
      ChoicesSettled(c, s, w);
      if Concerns(last, cut) {
        OneSideMoves(c, t, Exec(c, s, w), last, cut);
        assert Added(c, t, last, a) == 0 by { OwnAddsNothing(c, t, last, cut, a); }
      } else {
        BothMove(c, t, Exec(c, s, w), last, cut);
        BothAdd(c, t, Exec(c, s, w), last, a, cut);
        assert (w + [last])[..|w + [last]| - 1] == w;
      }
    }
  }

  lemma OwnAddsNothing(c: Catalog, s: State, step: Step, cut: Cut, a: Account)
    requires Concerns(step, cut)
    ensures Added(c, s, step, a) == 0
  {
  }

  /**
   * Cutting an order and its refunds out of a run changes nothing outside its account: other orders, policies, passes,
   * balances and grants of every other account are the same, and so are the passes there are and when they were issued.
   */
  lemma RunsInLockstep(c: Catalog, s: State, run: seq<Step>, cut: Cut)
    requires c.Valid() && Initial(s) && AllClear(run, cut)
    requires Placed(Exec(c, s, run), cut) && HadPassBefore(c, s, run, cut)
    ensures var t, u := Exec(c, s, run), Exec(c, s, Without(run, cut));
            && t.stores == u.stores && u.orders == Drop(t.orders, cut.order) && t.passes.Keys == u.passes.Keys
            && (forall a :: a in t.passes ==>
                  t.passes[a].issuedAt == u.passes[a].issuedAt && (a != cut.account ==> t.passes[a] == u.passes[a]))
            && (forall a :: a != cut.account ==>
                  (a in t.balances <==> a in u.balances) && (a in t.balances ==> t.balances[a] == u.balances[a]))
            && (forall g: GrantKey :: g.account != cut.account ==>
                  (g in t.grants <==> g in u.grants) && (g in t.grants ==> t.grants[g] == u.grants[g]))
  {
    hide Exec, Own;
    forall i | 0 <= i < |run| ensures Own(c, Exec(c, s, run[..i]), run[i], cut) {
      OwnRequestOnly(c, s, run, cut, i);
    }
    RunsStayInStep(c, s, run, cut, cut.account);
  }

  // ---------- The account itself ----------

  /** A fully refunded order adds nothing to any sum over the orders that counts it at zero. */
  lemma NothingLeft(t: State, u: State, o: Id, a: Account)
    requires u.orders == Drop(t.orders, o) && o in t.orders && t.orders[o].status == Refunded && OrderOk(t.orders[o])
    ensures Earned(t, a) == Earned(u, a) && Sum(t.orders, NetOf(a)) == Sum(u.orders, NetOf(a))
  {
    ProratedFull(t.orders[o].wifiMinutes, t.orders[o].total);
    SumSplit(t.orders, CreditOf(a), o);
    SumSplit(t.orders, NetOf(a), o);
  }

  lemma AddedAlike(c: Catalog, s: State, run: seq<Step>, cut: Cut, a: Account)
    requires c.Valid() && Initial(s) && AllClear(run, cut)
    requires Placed(Exec(c, s, run), cut) && HadPassBefore(c, s, run, cut)
    ensures AddedByHand(c, s, run, a) == AddedByHand(c, s, Without(run, cut), a)
  {
    hide Exec, Own;
    forall i | 0 <= i < |run| ensures Own(c, Exec(c, s, run[..i]), run[i], cut) {
      OwnRequestOnly(c, s, run, cut, i);
    }
    RunsStayInStep(c, s, run, cut, a);
  }

  /**
   * However many parts a full refund is made in, and whatever else happens in between, the account's spending is what
   * it is in the run in which the order was never placed. Its pass expires apart from that run's by no more than the
   * two have to spare, and so at the very same time when both runs find it alive at every step.
   */
  lemma FullRefundRestoresExpiry(c: Catalog, s: State, run: seq<Step>, cut: Cut)
    requires c.Valid() && Initial(s) && AllClear(run, cut)
    requires Placed(Exec(c, s, run), cut) && HadPassBefore(c, s, run, cut)
    requires Exec(c, s, run).orders[cut.order].status == Refunded
    ensures var t, u, a := Exec(c, s, run), Exec(c, s, Without(run, cut)), cut.account;
            var added := AddedByHand(c, s, run, a);
            && BalanceOf(t, a) == BalanceOf(u, a)
            && a in t.passes && a in u.passes
            && t.passes[a].expiresAt - u.passes[a].expiresAt == Slack(t, a, added) - Slack(u, a, added)
            && (AllPunctual(c, s, run, a) && AllPunctual(c, s, Without(run, cut), a) ==>
                  t.passes[a].expiresAt == u.passes[a].expiresAt)
  {
    hide Exec, AllPunctual, AddedByHand, DaysMatch, StoresOk, Earned;
    var t, u, a := Exec(c, s, run), Exec(c, s, Without(run, cut)), cut.account;
    RunsInLockstep(c, s, run, cut);
    AddedAlike(c, s, run, cut, a);
    ExpiryAccounted(c, s, run, a);
    ExpiryAccounted(c, s, Without(run, cut), a);
    MoneyConserved(c, s, run);
    MoneyConserved(c, s, Without(run, cut));
    NothingLeft(t, u, cut.order, a);
    assert BalanceOf(t, a) == Sum(t.orders, NetOf(a)) && BalanceOf(u, a) == Sum(u.orders, NetOf(a));
  }
}
