/**
 * How an order's amount becomes Wi-Fi minutes: the FastAPI policy (app/services/policy.py), its publication check
 * (app/routers/admin.py), and the Django selector over the same tiers (wifi/services.py).
 */
module WifiPolicy {
  import opened Common

  datatype Tier = Tier(minAmount: int, minutes: int)

  const BASE_MINUTES: int := 120

  /** A missing or empty configured list is an empty sequence here. */
  datatype Policy = Policy(baseMinutes: Option<int>, firstTiers: seq<Tier>, additionalTiers: seq<Tier>)

  const FIRST_ORDER_TIERS := [Tier(10_000, 30), Tier(15_000, 60)]
  const ADDITIONAL_ORDER_TIERS := [Tier(5_000, 60), Tier(10_000, 120)]

  function ConfiguredTiers(tiers: seq<Tier>, fallback: seq<Tier>): seq<Tier> {
    if tiers == [] then fallback else tiers
  }

  function Applicable(amount: int, tiers: seq<Tier>): seq<int> {
    if tiers == [] then []
    else (if amount >= tiers[0].minAmount then [tiers[0].minutes] else []) + Applicable(amount, tiers[1..])
  }

  function Largest(xs: seq<int>): int
    requires xs != []
  {
    if |xs| == 1 then xs[0] else Max(xs[0], Largest(xs[1..]))
  }

  /** The FastAPI selector: the most generous of the tiers the amount reaches, or nothing. */
  function BonusMinutes(amount: int, tiers: seq<Tier>): int {
    var applicable := Applicable(amount, tiers);
    if applicable == [] then 0 else Largest(applicable)
  }

  function FirstOrderMinutes(amount: int, p: Policy): int {
    (if p.baseMinutes.Some? then p.baseMinutes.value else BASE_MINUTES)
    + BonusMinutes(amount, ConfiguredTiers(p.firstTiers, FIRST_ORDER_TIERS))
  }

  function AdditionalOrderMinutes(amount: int, p: Policy): int {
    BonusMinutes(amount, ConfiguredTiers(p.additionalTiers, ADDITIONAL_ORDER_TIERS))
  }

  /** The Django selector: the tier with the highest minimum among those the amount reaches. */
  function TierMinutes(amount: int, tiers: seq<Tier>): int {
    var best := HighestReached(amount, tiers);
    if best.Some? then best.value.minutes else 0
  }

  function HighestReached(amount: int, tiers: seq<Tier>): Option<Tier> {
    if tiers == [] then None
    else
      var rest := HighestReached(amount, tiers[1..]);
      if tiers[0].minAmount > amount then rest
      else if rest.Some? && rest.value.minAmount >= tiers[0].minAmount then rest
      else Some(tiers[0])
  }

  predicate Ascending(tiers: seq<Tier>) {
    forall i, j :: 0 <= i < j < |tiers| ==> tiers[i].minAmount < tiers[j].minAmount
  }

  predicate NonNegative(tiers: seq<Tier>) {
    forall i :: 0 <= i < |tiers| ==> 0 <= tiers[i].minutes
  }

  predicate MinutesNonDecreasing(tiers: seq<Tier>) {
    forall i, j :: 0 <= i < j < |tiers| ==> tiers[i].minutes <= tiers[j].minutes
  }

  predicate ValidPolicy(p: Policy) {
    && (p.baseMinutes.Some? ==> 0 <= p.baseMinutes.value)
    && NonNegative(p.firstTiers) && NonNegative(p.additionalTiers)
  }

  /** A valid policy never grants negative time, so no order can shorten a pass. */
  lemma OrderMinutesNonNegative(amount: int, p: Policy)
    requires ValidPolicy(p)
    ensures 0 <= FirstOrderMinutes(amount, p) && 0 <= AdditionalOrderMinutes(amount, p)
  {
    BonusMinutesMonotone(amount, amount, ConfiguredTiers(p.firstTiers, FIRST_ORDER_TIERS));
    BonusMinutesMonotone(amount, amount, ConfiguredTiers(p.additionalTiers, ADDITIONAL_ORDER_TIERS));
  }

  /** The publication check: neighbouring minimum amounts must strictly increase. */
  predicate PublishableTiers(tiers: seq<Tier>) {
    forall i :: 0 <= i < |tiers| - 1 ==> tiers[i].minAmount < tiers[i + 1].minAmount
  }

  predicate Publishable(p: Policy) {
    PublishableTiers(p.firstTiers) && PublishableTiers(p.additionalTiers)
  }

  /** Comparing neighbours is enough: a publishable list is strictly ascending as a whole. */
  lemma {:induction false} PublishableIsAscending(tiers: seq<Tier>)
    ensures PublishableTiers(tiers) <==> Ascending(tiers)
  {
    if PublishableTiers(tiers) && tiers != [] {
      var rest := tiers[1..];
      assert forall i :: 0 <= i < |rest| ==> rest[i] == tiers[i + 1];
      assert PublishableTiers(rest) by {
        forall i | 0 <= i < |rest| - 1 ensures rest[i].minAmount < rest[i + 1].minAmount {
          assert tiers[i + 1].minAmount < tiers[i + 1 + 1].minAmount;
        }
      }
      PublishableIsAscending(rest);
      forall i, j | 0 <= i < j < |tiers| ensures tiers[i].minAmount < tiers[j].minAmount {
        assert tiers[j] == rest[j - 1];
        if i > 0 {
          assert tiers[i] == rest[i - 1];
        } else if j > 1 {
          assert rest[0] == tiers[1];
          assert tiers[0].minAmount < tiers[0 + 1].minAmount;
        }
      }
    }
  }

  /**
   * What the FastAPI selector means: the least upper bound of the reached tiers' minutes, or 0 when none is reached.
   */
  lemma {:induction false} BonusMinutesIsBest(amount: int, tiers: seq<Tier>)
    ensures Applicable(amount, tiers) == [] <==> forall i :: 0 <= i < |tiers| ==> amount < tiers[i].minAmount
    ensures forall i :: 0 <= i < |tiers| && tiers[i].minAmount <= amount ==>
            tiers[i].minutes <= BonusMinutes(amount, tiers)
    ensures Applicable(amount, tiers) != [] ==>
              exists i :: 0 <= i < |tiers| && tiers[i].minAmount <= amount
                  && tiers[i].minutes == BonusMinutes(amount, tiers)
    ensures Applicable(amount, tiers) == [] ==> BonusMinutes(amount, tiers) == 0
  {
    if tiers != [] {
      var rest := tiers[1..];
      BonusMinutesIsBest(amount, rest);
      var a, b := Applicable(amount, rest), Applicable(amount, tiers);
      assert forall i :: 0 <= i < |rest| ==> rest[i] == tiers[i + 1];
      assert forall i :: 0 < i < |tiers| ==> tiers[i] == rest[i - 1];
      if tiers[0].minAmount <= amount {
        assert b == [tiers[0].minutes] + a && b[1..] == a;
        if a == [] || Largest(a) <= tiers[0].minutes {
          assert BonusMinutes(amount, tiers) == tiers[0].minutes;
        } else {
          var i :| 0 <= i < |rest| && rest[i].minAmount <= amount && rest[i].minutes == Largest(a);
          assert tiers[i + 1].minutes == BonusMinutes(amount, tiers);
        }
      } else {
        assert b == a;
        if a != [] {
          var i :| 0 <= i < |rest| && rest[i].minAmount <= amount && rest[i].minutes == Largest(a);
          assert tiers[i + 1].minutes == BonusMinutes(amount, tiers);
        }
      }
    }
  }

  /** What the Django selector means: the reached tier with the highest minimum amount. */
  lemma {:induction false} HighestReachedIsHighest(amount: int, tiers: seq<Tier>)
    ensures HighestReached(amount, tiers) == None <==> forall i :: 0 <= i < |tiers| ==> amount < tiers[i].minAmount
    ensures var best := HighestReached(amount, tiers);
            best.Some? ==>
              && (exists i :: 0 <= i < |tiers| && tiers[i] == best.value && tiers[i].minAmount <= amount)
              && forall i :: 0 <= i < |tiers| && tiers[i].minAmount <= amount ==>
                  tiers[i].minAmount <= best.value.minAmount
  {
    if tiers != [] {
      var rest := tiers[1..];
      HighestReachedIsHighest(amount, rest);
      assert forall i :: 0 <= i < |rest| ==> rest[i] == tiers[i + 1];
      assert forall i :: 0 < i < |tiers| ==> tiers[i] == rest[i - 1];
      var r := HighestReached(amount, rest);
      if r.Some? {
        var i :| 0 <= i < |rest| && rest[i] == r.value && rest[i].minAmount <= amount;
        assert tiers[i + 1] == r.value;
      }
    }
  }

  /** Paying more never brings fewer FastAPI minutes, whatever the tiers, as long as none takes minutes away. */
  lemma BonusMinutesMonotone(a: int, b: int, tiers: seq<Tier>)
    requires a <= b && NonNegative(tiers)
    ensures 0 <= BonusMinutes(a, tiers) <= BonusMinutes(b, tiers)
  {
    BonusMinutesIsBest(a, tiers);
    BonusMinutesIsBest(b, tiers);
    if Applicable(a, tiers) != [] {
      var i :| 0 <= i < |tiers| && tiers[i].minAmount <= a && tiers[i].minutes == BonusMinutes(a, tiers);
      assert tiers[i].minAmount <= b;
    } else if Applicable(b, tiers) != [] {
      var i :| 0 <= i < |tiers| && tiers[i].minAmount <= b && tiers[i].minutes == BonusMinutes(b, tiers);
    }
  }

  /** Some tier with the least minimum amount does not take minutes away. */
  predicate StartsNonNegative(tiers: seq<Tier>) {
    tiers == [] ||
    exists i :: 0 <= i < |tiers| && 0 <= tiers[i].minutes
      && forall j :: 0 <= j < |tiers| ==> tiers[i].minAmount <= tiers[j].minAmount
  }

  lemma {:induction false} LeastTier(tiers: seq<Tier>) returns (k: nat)
    requires tiers != []
    ensures k < |tiers| && forall j :: 0 <= j < |tiers| ==> tiers[k].minAmount <= tiers[j].minAmount
  {
    if |tiers| == 1 {
      k := 0;
    } else {
      k := LeastTier(tiers[1..]);
      k := k + 1;
      assert forall j :: 0 < j < |tiers| ==> tiers[j] == tiers[1..][j - 1];
      if tiers[0].minAmount < tiers[k].minAmount {
        k := 0;
      }
    }
  }

  /**
   * For tiers in any order and with any minutes, paying more never brings fewer FastAPI minutes exactly when the
   * first step, from no tier to the lowest ones, takes nothing away.
   */
  lemma MonotoneIff(tiers: seq<Tier>)
    ensures (forall a, b :: a <= b ==> BonusMinutes(a, tiers) <= BonusMinutes(b, tiers)) <==> StartsNonNegative(tiers)
  {
    if StartsNonNegative(tiers) {
      forall a, b | a <= b ensures BonusMinutes(a, tiers) <= BonusMinutes(b, tiers) {
        RisesFrom(a, b, tiers);
      }
    } else {
      var k := LeastTier(tiers);
      var b := tiers[k].minAmount;
      BonusMinutesIsBest(b - 1, tiers);
      BonusMinutesIsBest(b, tiers);
      assert Applicable(b, tiers) != [];
      var i :| 0 <= i < |tiers| && tiers[i].minAmount <= b && tiers[i].minutes == BonusMinutes(b, tiers);
      assert BonusMinutes(b - 1, tiers) == 0 && BonusMinutes(b, tiers) < 0;
    }
  }

  lemma RisesFrom(a: int, b: int, tiers: seq<Tier>)
    requires a <= b && StartsNonNegative(tiers)
    ensures BonusMinutes(a, tiers) <= BonusMinutes(b, tiers)
  {
    BonusMinutesIsBest(a, tiers);
    BonusMinutesIsBest(b, tiers);
    if Applicable(a, tiers) != [] {
      var i :| 0 <= i < |tiers| && tiers[i].minAmount <= a && tiers[i].minutes == BonusMinutes(a, tiers);
      assert tiers[i].minAmount <= b;
    } else if Applicable(b, tiers) != [] {
      var i :| 0 <= i < |tiers| && 0 <= tiers[i].minutes
               && forall j :: 0 <= j < |tiers| ==> tiers[i].minAmount <= tiers[j].minAmount;
      assert tiers[i].minAmount <= b;
    }
  }

  /**
   * The two back ends grant the same minutes for every amount exactly when a published list never lowers the minutes
   * from one tier to the next. The publication check does not require that.
   */
  lemma SelectorsAgreeIff(tiers: seq<Tier>)
    requires PublishableTiers(tiers) && NonNegative(tiers)
    ensures (forall amount :: BonusMinutes(amount, tiers) == TierMinutes(amount, tiers)) <==>
            MinutesNonDecreasing(tiers)
  {
    PublishableIsAscending(tiers);
    if MinutesNonDecreasing(tiers) {
      forall amount ensures BonusMinutes(amount, tiers) == TierMinutes(amount, tiers) {
        SelectorsAgreeAt(amount, tiers);
      }
    }
    if forall amount :: BonusMinutes(amount, tiers) == TierMinutes(amount, tiers) {
      forall i, j | 0 <= i < j < |tiers| ensures tiers[i].minutes <= tiers[j].minutes {
        var amount := tiers[j].minAmount;
        BonusMinutesIsBest(amount, tiers);
        HighestReachedIsHighest(amount, tiers);
        assert tiers[i].minutes <= BonusMinutes(amount, tiers);
        assert BonusMinutes(amount, tiers) == TierMinutes(amount, tiers);
        var best := HighestReached(amount, tiers).value;
        var k :| 0 <= k < |tiers| && tiers[k] == best && tiers[k].minAmount <= amount;
        assert k == j;
      }
    }
  }

  lemma SelectorsAgreeAt(amount: int, tiers: seq<Tier>)
    requires Ascending(tiers) && MinutesNonDecreasing(tiers)
    ensures BonusMinutes(amount, tiers) == TierMinutes(amount, tiers)
  {
    BonusMinutesIsBest(amount, tiers);
    HighestReachedIsHighest(amount, tiers);
    var best := HighestReached(amount, tiers);
    if best.Some? {
      var k :| 0 <= k < |tiers| && tiers[k] == best.value && tiers[k].minAmount <= amount;
      var i :| 0 <= i < |tiers| && tiers[i].minAmount <= amount && tiers[i].minutes == BonusMinutes(amount, tiers);
      assert i <= k;
    }
  }

  /** A publishable list on which the two back ends differ: reaching the second tier lowers the Django minutes. */
  lemma SelectorsCanDisagree()
    ensures var tiers := [Tier(5_000, 60), Tier(10_000, 30)];
            && PublishableTiers(tiers) && NonNegative(tiers)
            && BonusMinutes(10_000, tiers) == 60 && TierMinutes(10_000, tiers) == 30
  {
    var tiers := [Tier(5_000, 60), Tier(10_000, 30)];
    BonusMinutesIsBest(10_000, tiers);
    HighestReachedIsHighest(10_000, tiers);
    assert tiers[0].minutes <= BonusMinutes(10_000, tiers);
    assert tiers[1].minAmount <= HighestReached(10_000, tiers).value.minAmount;
  }
}
