/** How many Wi-Fi minutes a refund takes back (app/services/wifi.py). */
module Proration {
  import opened Common

  /** The minutes attributable to the refunded part of an order. */
  function Prorated(wifiMinutes: int, total: int, refunded: int): int {
    if wifiMinutes <= 0 || total <= 0 || refunded <= 0 then 0
    else Min(wifiMinutes, (wifiMinutes * refunded + total - 1) / total)
  }

  /** `m` is the exact share w*r/t rounded up to a whole minute. */
  predicate IsCeilingShare(m: int, w: int, t: int, r: int) {
    (m - 1) * t < w * r <= m * t
  }

  lemma MulMonotone(a: int, b: int, c: int)
    requires a <= b && 0 <= c
    ensures a * c <= b * c
  {
  }

  /** The code's expression is the ceiling share, and its clamp to w never cuts anything. */
  lemma ProratedIsCeiling(w: int, t: int, r: int)
    requires 0 < t && 0 <= r <= t && 0 <= w
    ensures IsCeilingShare(Prorated(w, t, r), w, t, r)
    ensures 0 <= Prorated(w, t, r) <= w
  {
    var q := (w * r + t - 1) / t;
    assert q * t <= w * r + t - 1 < q * t + t;
    if w > 0 && r > 0 {
      assert w * r > 0;
      MulMonotone(r, t, w);
      if q > w {
        MulMonotone(w + 1, q, t);
        assert false;
      }
      if q <= 0 {
        MulMonotone(q, 0, t);
        assert false;
      }
    } else {
      assert w * r == 0;
    }
  }

  /** There is only one ceiling share, so it determines the result. */
  lemma CeilingShareUnique(m: int, n: int, w: int, t: int, r: int)
    requires 0 < t && IsCeilingShare(m, w, t, r) && IsCeilingShare(n, w, t, r)
    ensures m == n
  {
    if m < n {
      MulMonotone(m, n - 1, t);
    } else if n < m {
      MulMonotone(n, m - 1, t);
    }
  }

  lemma DivMonotone(a: int, b: int, t: int)
    requires a <= b && 0 < t
    ensures a / t <= b / t
  {
    var p, q := a / t, b / t;
    assert p * t <= a < p * t + t && q * t <= b < q * t + t;
    if q < p {
      MulMonotone(q + 1, p, t);
      assert false;
    }
  }

  /** Refunding more never lowers the share. */
  lemma ProratedMonotone(w: int, t: int, r: int, r': int)
    requires r <= r'
    ensures Prorated(w, t, r) <= Prorated(w, t, r')
  {
    if w > 0 && t > 0 && r > 0 {
      MulMonotone(r, r', w);
      DivMonotone(w * r + t - 1, w * r' + t - 1, t);
    } else if w > 0 && t > 0 && r' > 0 {
      assert w * r' > 0;
      DivMonotone(0, w * r' + t - 1, t);
    }
  }

  /** Refunding everything takes back exactly the minutes the order brought. */
  lemma ProratedFull(w: int, t: int)
    requires 0 < t && 0 <= w
    ensures Prorated(w, t, t) == w
  {
    ProratedIsCeiling(w, t, t);
    CeilingShareUnique(Prorated(w, t, t), w, w, t, t);
  }

  function Total(parts: seq<int>): int {
    if parts == [] then 0 else Total(parts[..|parts| - 1]) + parts[|parts| - 1]
  }

  /** What each partial refund reclaims: the difference between the shares after and before it. */
  function Reclaims(w: int, t: int, parts: seq<int>): (r: seq<int>)
    ensures |r| == |parts|
  {
    if parts == [] then [] else
      var before := parts[..|parts| - 1];
      Reclaims(w, t, before) + [Prorated(w, t, Total(parts)) - Prorated(w, t, Total(before))]
  }

  /**
   * However a refund is split, no part gives minutes back, the parts add up to the ceiling share of what was
   * refunded in all, never exceed the order's minutes, and equal them exactly on a full refund.
   */
  lemma {:induction false} SplitsTelescope(w: int, t: int, parts: seq<int>)
    requires 0 < t && 0 <= w
    requires forall i :: 0 <= i < |parts| ==> 0 < parts[i]
    requires Total(parts) <= t
    ensures 0 <= Total(parts)
    ensures forall i :: 0 <= i < |parts| ==> 0 <= Reclaims(w, t, parts)[i]
    ensures IsCeilingShare(Total(Reclaims(w, t, parts)), w, t, Total(parts))
    ensures Total(Reclaims(w, t, parts)) == Prorated(w, t, Total(parts)) <= w
    ensures Total(parts) == t ==> Total(Reclaims(w, t, parts)) == w
  {
    if parts == [] {
      assert w * 0 == 0;
    } else {
      var before := parts[..|parts| - 1];
      SplitsTelescope(w, t, before);
      ProratedMonotone(w, t, Total(before), Total(parts));
      var rs := Reclaims(w, t, parts);
      assert rs[..|rs| - 1] == Reclaims(w, t, before);
      ProratedIsCeiling(w, t, Total(parts));
      ProratedFull(w, t);
    }
  }
}
