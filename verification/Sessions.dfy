/** Whether the network controller's sessions are those the passes hold, over whole runs. */
module Sessions {
  import opened Common
  import opened LedgerModel
  import opened LedgerSteps
  import opened PassLifecycle

  /** All sessions the controller has open, and all sessions the passes say they hold. */
  ghost function OpenSessions(s: State): set<(Account, Id)> {
    set a, r | a in s.calls && r in Live(s.calls[a]) :: (a, r)
  }

  ghost function HeldSessions(s: State): set<(Account, Id)> {
    set a | a in s.passes && s.passes[a].reference.Some? :: (a, s.passes[a].reference.value)
  }

  /** How often the run opened or closed a session of the pass without its taking notice. */
  function TimesUnnoticed(c: Catalog, s: State, run: seq<Step>, a: Account): nat {
    if run == [] then 0
    else
      var before := run[..|run| - 1];
      TimesUnnoticed(c, s, before, a) + if a in LeftBehind(c, Exec(c, s, before), run[|run| - 1]) then 1 else 0
  }

  lemma {:induction false} UnnoticedCounts(c: Catalog, s: State, run: seq<Step>, a: Account)
    requires Initial(s)
    ensures var t := Exec(c, s, run);
            TimesUnnoticed(c, s, run, a)
            == if a in t.passes then Unnoticed(Calls(t.calls, a), t.passes[a].reference) else 0
  {
    if run != [] {
      hide Next, LeftBehind, Proper, Unnoticed;
      var before, step := Exec(c, s, run[..|run| - 1]), run[|run| - 1];
      UnnoticedCounts(c, s, run[..|run| - 1], a);
      PassesSound(c, s, run[..|run| - 1]);
      StepMoves(c, before, step);
      LeftBehindHavePasses(c, before, step);
      NothingUnnoticed();
    }
  }

  lemma LeftBehindHavePasses(c: Catalog, s: State, step: Step)
    ensures LeftBehind(c, s, step) <= s.passes.Keys
  {
  }

  lemma NothingUnnoticed()
    ensures Unnoticed([], None) == 0
  {
  }

  ghost predicate AllNoticed(c: Catalog, s: State, run: seq<Step>) {
    forall i :: 0 <= i < |run| ==> LeftBehind(c, Exec(c, s, run[..i]), run[i]) == {}
  }

  lemma AllNoticedSplits(c: Catalog, s: State, run: seq<Step>)
    requires run != []
    ensures var before := run[..|run| - 1];
            AllNoticed(c, s, run) <==>
              AllNoticed(c, s, before) && LeftBehind(c, Exec(c, s, before), run[|run| - 1]) == {}
  {
    hide Exec, LeftBehind;
    var before := run[..|run| - 1];
    assert forall i :: 0 <= i < |before| ==> before[..i] == run[..i] && before[i] == run[i];
    if AllNoticed(c, s, run) {
      assert LeftBehind(c, Exec(c, s, run[..|run| - 1]), run[|run| - 1]) == {};
    }
  }

  lemma {:induction false} NeverThenZero(c: Catalog, s: State, run: seq<Step>, a: Account)
    requires AllNoticed(c, s, run)
    ensures TimesUnnoticed(c, s, run, a) == 0
  {
    if run != [] {
      hide AllNoticed, LeftBehind, Exec;
      AllNoticedSplits(c, s, run);
      NeverThenZero(c, s, run[..|run| - 1], a);
    }
  }

  lemma {:induction false} OnceThenPositive(c: Catalog, s: State, run: seq<Step>, i: nat, a: Account)
    requires i < |run|
    ensures a in LeftBehind(c, Exec(c, s, run[..i]), run[i]) ==> 0 < TimesUnnoticed(c, s, run, a)
  {
    hide LeftBehind, Exec;
    var before := run[..|run| - 1];
    if i < |before| {
      assert before[..i] == run[..i];
      OnceThenPositive(c, s, before, i, a);
    }
  }

  lemma SomeUnnoticed(c: Catalog, s: State, run: seq<Step>)
    ensures AllNoticed(c, s, run) || exists a :: 0 < TimesUnnoticed(c, s, run, a)
  {
    hide LeftBehind, Exec;
    if !AllNoticed(c, s, run) {
      var i :| 0 <= i < |run| && LeftBehind(c, Exec(c, s, run[..i]), run[i]) != {};
      var a :| a in LeftBehind(c, Exec(c, s, run[..i]), run[i]);
      OnceThenPositive(c, s, run, i, a);
    }
  }

  /** The sessions open at the controller are those the passes hold, and none was opened or closed twice for a pass. */
  ghost predicate SessionsInOrder(s: State) {
    OpenSessions(s) == HeldSessions(s)
    && forall a :: a in s.calls ==> Authorisations(s.calls[a]) <= 1 && SessionsRevoked(s.calls[a]) <= 1
  }

  /** What the history of one pass says when it is in order. */
  predicate LogInOrder(log: seq<NetworkCall>, held: Option<Id>) {
    && Authorisations(log) <= 1 && SessionsRevoked(log) <= 1
    && Live(log) == if held.Some? then {held.value} else {}
  }

  lemma PassSessions(t: State, a: Account)
    requires PassInv(t) && a in t.passes
    ensures var log, held := Calls(t.calls, a), t.passes[a].reference;
            && 0 <= Unnoticed(log, held) && (held.Some? ==> t.passes[a].status.Active?)
            && (Unnoticed(log, held) == 0 <==> LogInOrder(log, held))
  {
    ProperMeaning(Calls(t.calls, a), t.passes[a].reference);
  }

  lemma InOrderIff(t: State)
    requires PassInv(t)
    ensures SessionsInOrder(t) <==>
              forall a :: a in t.passes ==> Unnoticed(Calls(t.calls, a), t.passes[a].reference) == 0
  {
    hide Proper, Unnoticed, PassOk;
    forall a | a in t.passes
      ensures var log, held := Calls(t.calls, a), t.passes[a].reference;
              Unnoticed(log, held) == 0 <==> LogInOrder(log, held)
    {
      PassSessions(t, a);
    }
    if SessionsInOrder(t) {
      forall a | a in t.passes ensures Unnoticed(Calls(t.calls, a), t.passes[a].reference) == 0 {
        var log, held := Calls(t.calls, a), t.passes[a].reference;
        forall r ensures r in Live(log) <==> held == Some(r) {
          assert (a, r) in OpenSessions(t) <==> r in Live(log);
          assert (a, r) in HeldSessions(t) <==> held == Some(r);
        }
      }
    } else if forall a :: a in t.passes ==> Unnoticed(Calls(t.calls, a), t.passes[a].reference) == 0 {
      forall x: (Account, Id) ensures x in OpenSessions(t) <==> x in HeldSessions(t) {
        if x in HeldSessions(t) {
          assert x.1 in Live(Calls(t.calls, x.0));
        }
      }
    }
  }

  /**
   * After any run only active passes hold a session. The controller has exactly the sessions they hold, and opened and
   * closed none twice, if and only if no expiry loop failed after revoking a session and no request was aborted after
   * opening or closing one.
   */
  lemma SessionsMatchIff(c: Catalog, s: State, run: seq<Step>)
    requires Initial(s)
    ensures var t := Exec(c, s, run);
            && (forall a :: a in t.passes && t.passes[a].reference.Some? ==> t.passes[a].status.Active?)
            && (SessionsInOrder(t) <==> AllNoticed(c, s, run))
  {
    hide Exec, AllNoticed, SessionsInOrder, Unnoticed, TimesUnnoticed, PassOk;
    var t := Exec(c, s, run);
    PassesSound(c, s, run);
    InOrderIff(t);
    forall a
      ensures TimesUnnoticed(c, s, run, a)
              == if a in t.passes then Unnoticed(Calls(t.calls, a), t.passes[a].reference) else 0 {
      UnnoticedCounts(c, s, run, a);
    }
    if AllNoticed(c, s, run) {
      forall a | a in t.passes ensures Unnoticed(Calls(t.calls, a), t.passes[a].reference) == 0 {
        NeverThenZero(c, s, run, a);
      }
    } else {
      SomeUnnoticed(c, s, run);
    }
    forall a | a in t.passes ensures t.passes[a].reference.Some? ==> t.passes[a].status.Active? {
      PassSessions(t, a);
    }
  }
}
