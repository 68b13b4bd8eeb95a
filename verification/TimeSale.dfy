/**
 * Time sales suggested by a provider nobody trusts, and the rule that stands in for it
 * (app/services/recommendations.py).
 */
module TimeSale {
  import opened Common

  datatype MenuItem = MenuItem(menuId: Id, name: string)

  /** An hour of the summary; its start is missing or unreadable when None. */
  datatype Bucket = Bucket(start: Option<Time>, orderCount: nat, grossSales: nat)

  /** `offset` is the store's fixed distance from UTC. */
  datatype Features = Features(now: Time, hourly: seq<Bucket>, catalog: seq<MenuItem>, offset: int)

  datatype Settings = Settings(maxDiscount: int, maxHours: int)

  /** What a provider claims: a field is None when it is missing, of the wrong type, or cannot be read. */
  datatype Payload = Payload(
    title: Option<string>, menuIds: Option<seq<Id>>, discountRate: Option<int>, startsAt: Option<Time>,
        endsAt: Option<Time>)

  datatype Sale = Sale(title: string, menuIds: seq<Id>, discountRate: int, startsAt: Time, endsAt: Time)

  /** A provider raises anything, or returns any payload. */
  datatype Attempt = Raised | Returned(payload: Payload)

  const TITLE_LIMIT: int := 160

  // ---------- Titles ----------

  /** The characters Python's `str.strip` removes. */
  predicate IsSpace(c: char) {
    var u := c as int;
    || 0x09 <= u <= 0x0D || 0x1C <= u <= 0x20 || u == 0x85 || u == 0xA0 || u == 0x1680 || 0x2000 <= u <= 0x200A
    || u == 0x2028 || u == 0x2029 || u == 0x202F || u == 0x205F || u == 0x3000
  }

  function TrimStart(s: string): (r: string)
    ensures r != "" ==> !IsSpace(r[0])
  {
    if s != "" && IsSpace(s[0]) then TrimStart(s[1..]) else s
  }

  function TrimEnd(s: string): (r: string)
    ensures r <= s
    ensures r != "" ==> !IsSpace(r[|r| - 1])
  {
    if s != "" && IsSpace(s[|s| - 1]) then TrimEnd(s[..|s| - 1]) else s
  }

  function Strip(s: string): (r: string)
    ensures r != "" ==> !IsSpace(r[0]) && !IsSpace(r[|r| - 1])
    ensures (s != "" ==> !IsSpace(s[0]) && !IsSpace(s[|s| - 1])) ==> r == s
  {
    TrimEnd(TrimStart(s))
  }

  function Digits(n: nat): string
    requires n < 100
  {
    if n < 10 then [('0' as int + n) as char] else [('0' as int + n / 10) as char, ('0' as int + n % 10) as char]
  }

  // ---------- The rule that stands in ----------

  predicate Quieter(x: Bucket, y: Bucket) {
    x.orderCount < y.orderCount || (x.orderCount == y.orderCount && x.grossSales < y.grossSales)
  }

  /** The first of the quietest hours. */
  function QuietBucket(hourly: seq<Bucket>): (r: Option<Bucket>)
    ensures r.None? <==> hourly == []
  {
    if hourly == [] then None
    else
      var before := QuietBucket(hourly[..|hourly| - 1]);
      var last := hourly[|hourly| - 1];
      if before.None? || Quieter(last, before.value) then Some(last) else before
  }

  lemma {:induction false} QuietBucketIsFirstMinimum(hourly: seq<Bucket>) returns (k: nat)
    requires hourly != []
    ensures k < |hourly| && QuietBucket(hourly) == Some(hourly[k])
    ensures forall i :: 0 <= i < |hourly| ==> !Quieter(hourly[i], hourly[k])
    ensures forall i :: 0 <= i < k ==> Quieter(hourly[k], hourly[i])
    ensures forall i :: 0 <= i < |hourly| ==>
              && hourly[k].orderCount <= hourly[i].orderCount
              && (hourly[k].orderCount == hourly[i].orderCount ==> hourly[k].grossSales <= hourly[i].grossSales)
  {
    var front, last := hourly[..|hourly| - 1], hourly[|hourly| - 1];
    if front == [] {
      k := 0;
    } else {
      k := QuietBucketIsFirstMinimum(front);
      if Quieter(last, front[k]) {
        k := |front|;
      }
    }
  }

  function OnTheHour(t: Time): Time {
    t - t % HOUR
  }

  function LocalHour(t: Time, offset: int): nat {
    (t + offset) % DAY / HOUR
  }

  function FallbackStart(f: Features): Time {
    var quiet := QuietBucket(f.hourly);
    var wanted :=
      if quiet.Some? && quiet.value.start.Some? then
        var candidate := quiet.value.start.value;
        if f.now < candidate then candidate else candidate + DAY
      else f.now + HOUR;
    if f.now < OnTheHour(wanted) then OnTheHour(wanted) else OnTheHour(f.now + HOUR)
  }

  method FallbackWindow(f: Features) returns (start: Time, end: Time)
    ensures start == FallbackStart(f) && end == start + 2 * HOUR
  {
    var quiet := QuietBucket(f.hourly);
    start := f.now + HOUR;
    if quiet.Some? {
      if quiet.value.start.Some? {
        var candidate := quiet.value.start.value;
        if candidate > f.now {
          start := candidate;
        } else {
          start := candidate + DAY;
        }
      }
    }
    start := OnTheHour(start);
    if start <= f.now {
      start := OnTheHour(f.now + HOUR);
    }
    end := start + 2 * HOUR;
  }

  function MenuName(f: Features): string {
    if f.catalog == [] then "추천 메뉴" else f.catalog[0].name
  }

  function Fallback(f: Features, settings: Settings): Sale {
    var start := FallbackStart(f);
    Sale(Digits(LocalHour(start, f.offset)) + "시 " + MenuName(f) + " 타임세일 추천",
         if f.catalog == [] then [] else [f.catalog[0].menuId],
         Min(15, settings.maxDiscount), start, start + 2 * HOUR)
  }

  // ---------- The validator ----------

  function Menus(f: Features): set<Id> {
    set item | item in f.catalog :: item.menuId
  }

  predicate Distinct(ids: seq<Id>) {
    forall i, j :: 0 <= i < j < |ids| ==> ids[i] != ids[j]
  }

  function Validate(p: Payload, f: Features, settings: Settings): Option<Sale> {
    if p.title.None? || Strip(p.title.value) == "" || |Strip(p.title.value)| > TITLE_LIMIT then None
    else if Menus(f) != {} && (p.menuIds.None? || p.menuIds.value == [] || !Distinct(p.menuIds.value)
                               || exists id :: id in p.menuIds.value && id !in Menus(f)) then None
    else
      var menuIds := if p.menuIds.None? then [] else p.menuIds.value;
      if p.discountRate.None? || p.startsAt.None? || p.endsAt.None? then None
      else if !(0 <= p.discountRate.value <= settings.maxDiscount) then None
      else if p.startsAt.value <= f.now || p.endsAt.value <= p.startsAt.value then None
      else if p.endsAt.value - p.startsAt.value > settings.maxHours * HOUR then None
      else Some(Sale(Strip(p.title.value), menuIds, p.discountRate.value, p.startsAt.value, p.endsAt.value))
  }

  /** The provider's sale when it passes the validator; otherwise the fallback, which nothing validates. */
  function SafeResult(attempt: Attempt, f: Features, settings: Settings): Sale {
    match attempt
    case Raised => Fallback(f, settings)
    case Returned(payload) =>
      match Validate(payload, f, settings)
      case Some(sale) => sale
      case None => Fallback(f, settings)
  }

  // ---------- What a published suggestion promises ----------

  /** Nothing here speaks of how the sale came about. */
  ghost predicate Safe(s: Sale, f: Features, settings: Settings) {
    && 0 < |s.title| <= 160 && !IsSpace(s.title[0]) && !IsSpace(s.title[|s.title| - 1])
    && (f.catalog != [] ==>
          && s.menuIds != [] && Distinct(s.menuIds)
          && forall id :: id in s.menuIds ==> exists item :: item in f.catalog && item.menuId == id)
    && 0 <= s.discountRate <= settings.maxDiscount
    && f.now < s.startsAt < s.endsAt <= s.startsAt + settings.maxHours * HOUR
  }

  function AsPayload(s: Sale): Payload {
    Payload(Some(s.title), Some(s.menuIds), Some(s.discountRate), Some(s.startsAt), Some(s.endsAt))
  }

  lemma MenusEmpty(f: Features)
    ensures Menus(f) == {} <==> f.catalog == []
  {
    if f.catalog != [] {
      assert f.catalog[0] in f.catalog && f.catalog[0].menuId in Menus(f);
    }
  }

  /** The safe sales are exactly those the validator passes unchanged. */
  lemma SafeIffPasses(s: Sale, f: Features, settings: Settings)
    ensures Safe(s, f, settings) <==> Validate(AsPayload(s), f, settings) == Some(s)
  {
    MenusEmpty(f);
  }

  /** Whatever the validator returns is safe, says what the payload said, and passes again. */
  lemma ValidatedIsSafe(p: Payload, f: Features, settings: Settings)
    requires Validate(p, f, settings).Some?
    ensures var s := Validate(p, f, settings).value;
            && Safe(s, f, settings) && Validate(AsPayload(s), f, settings) == Some(s)
            && p.title == Some(p.title.value) && s.title == Strip(p.title.value)
            && Some(s.startsAt) == p.startsAt && Some(s.endsAt) == p.endsAt && Some(s.discountRate) == p.discountRate
            && (p.menuIds.Some? ==> s.menuIds == p.menuIds.value)
  {
    MenusEmpty(f);
    SafeIffPasses(Validate(p, f, settings).value, f, settings);
  }

  /** Stripping removes white space from both ends, and nothing else. */
  lemma {:induction false} StripMeans(s: string) returns (i: nat, j: nat)
    ensures i <= j <= |s| && Strip(s) == s[i..j]
    ensures forall k :: 0 <= k < i || j <= k < |s| ==> IsSpace(s[k])
  {
    i := StartMeans(s);
    var n := EndMeans(s[i..]);
    j := i + n;
    assert s[i..][..n] == s[i..j];
    forall k | j <= k < |s| ensures IsSpace(s[k]) {
      assert s[i..][k - i] == s[k];
    }
  }

  lemma {:induction false} StartMeans(s: string) returns (i: nat)
    ensures i <= |s| && TrimStart(s) == s[i..] && forall k :: 0 <= k < i ==> IsSpace(s[k])
  {
    i := 0;
    if s != "" && IsSpace(s[0]) {
      var j := StartMeans(s[1..]);
      i := j + 1;
      assert forall k :: 0 < k < i ==> s[k] == s[1..][k - 1];
    }
  }

  lemma {:induction false} EndMeans(s: string) returns (j: nat)
    ensures j <= |s| && TrimEnd(s) == s[..j] && forall k :: j <= k < |s| ==> IsSpace(s[k])
  {
    j := |s|;
    if s != "" && IsSpace(s[|s| - 1]) {
      j := EndMeans(s[..|s| - 1]);
      assert s[..|s| - 1][..j] == s[..j];
    }
  }

  /** What a payload says once its title is stripped; without menus it names none. */
  function Reading(p: Payload): Sale
    requires p.title.Some? && p.discountRate.Some? && p.startsAt.Some? && p.endsAt.Some?
  {
    Sale(Strip(p.title.value), if p.menuIds.Some? then p.menuIds.value else [], p.discountRate.value,
         p.startsAt.value, p.endsAt.value)
  }

  /** A provider's payload is used if and only if nothing is missing and what it says is safe. */
  lemma UsedIff(p: Payload, f: Features, settings: Settings)
    ensures var complete := p.title.Some? && p.discountRate.Some? && p.startsAt.Some? && p.endsAt.Some?;
            && (complete && Safe(Reading(p), f, settings) ==> SafeResult(Returned(p), f, settings) == Reading(p))
            && (!complete || !Safe(Reading(p), f, settings) ==>
                  SafeResult(Returned(p), f, settings) == SafeResult(Raised, f, settings))
  {
    MenusEmpty(f);
    var complete := p.title.Some? && p.discountRate.Some? && p.startsAt.Some? && p.endsAt.Some?;
    if Validate(p, f, settings).Some? {
      ValidatedIsSafe(p, f, settings);
    } else if complete && Safe(Reading(p), f, settings) {
      SafeIffPasses(Reading(p), f, settings);
    }
  }

  /**
   * The rule offers fifteen per cent, or what the cap allows, on the first menu of the catalog alone, for two hours,
   * under a title that names the hour the sale starts in on the store's clock.
   */
  lemma FallbackSays(f: Features, settings: Settings)
    ensures var s := SafeResult(Raised, f, settings);
            && s.discountRate == (if settings.maxDiscount < 15 then settings.maxDiscount else 15)
            && (if f.catalog == [] then s.menuIds == [] else s.menuIds == [f.catalog[0].menuId])
            && f.now < s.startsAt && s.startsAt == FallbackStart(f) && s.endsAt == s.startsAt + 2 * 60 * 60 * SECOND
            && exists h :: 0 <= h < 24 && h * HOUR <= (s.startsAt + f.offset) % DAY < (h + 1) * HOUR
                 && s.title == Digits(h) + "시 " + (if f.catalog == [] then "추천 메뉴" else f.catalog[0].name)
                               + " 타임세일 추천"
  {
    hide FallbackStart, QuietBucket;
    FallbackStartMeaning(f);
    var start := FallbackStart(f);
    var h := LocalHour(start, f.offset);
    assert 0 <= h < 24 && h * HOUR <= (start + f.offset) % DAY < (h + 1) * HOUR;
  }

  lemma WholeHours(t: Time)
    ensures OnTheHour(t) % HOUR == 0 && OnTheHour(t) <= t < OnTheHour(t) + HOUR
    ensures OnTheHour(t + HOUR) == OnTheHour(t) + HOUR
    ensures OnTheHour(t + DAY) == OnTheHour(t) + DAY
  {
  }

  lemma HoursApart(t: Time, u: Time)
    requires OnTheHour(t) < OnTheHour(u)
    ensures t < OnTheHour(u)
  {
  }

  /**
   * The fallback window starts strictly in the future on a whole hour. With a readable quiet hour it starts in that
   * hour, today or tomorrow, whenever that is still ahead; otherwise in the first whole hour after now.
   */
  lemma FallbackStartMeaning(f: Features)
    ensures var start, quiet := FallbackStart(f), QuietBucket(f.hourly);
            && f.now < start && start % HOUR == 0
            && (start == OnTheHour(f.now) + HOUR
                || (quiet.Some? && quiet.value.start.Some?
                    && (start == OnTheHour(quiet.value.start.value)
                        || start == OnTheHour(quiet.value.start.value) + DAY)))
            && (quiet.Some? && quiet.value.start.Some? && OnTheHour(f.now) < OnTheHour(quiet.value.start.value) ==>
                  start == OnTheHour(quiet.value.start.value))
            && (quiet.Some? && quiet.value.start.Some?
                && quiet.value.start.value <= f.now < OnTheHour(quiet.value.start.value) + DAY ==>
                  start == OnTheHour(quiet.value.start.value) + DAY)
  {
    hide OnTheHour, QuietBucket;
    WholeHours(f.now);
    WholeHours(f.now + HOUR);
    var quiet := QuietBucket(f.hourly);
    if quiet.Some? && quiet.value.start.Some? {
      WholeHours(quiet.value.start.value);
      WholeHours(quiet.value.start.value + DAY);
      if OnTheHour(f.now) < OnTheHour(quiet.value.start.value) {
        HoursApart(f.now, quiet.value.start.value);
      }
    }
  }

  lemma WithinDay(k: int, w: int)
    requires 0 <= w < DAY
    ensures (DAY * k + w) % DAY == w
  {
  }

  lemma WithinHour(h: int, r: int)
    requires 0 <= r < HOUR
    ensures (HOUR * h + r) / HOUR == h
  {
  }

  lemma LocalHourCounts(q: int, r: nat, offset: int, t: Time)
    requires r < HOUR && t + offset == HOUR * q + r
    ensures LocalHour(t, offset) == q % 24
  {
    var k, h := q / 24, q % 24;
    assert t + offset == DAY * k + (HOUR * h + r);
    WithinDay(k, HOUR * h + r);
    WithinHour(h, r);
  }

  /** Cutting an hour's start down to a whole UTC hour keeps its local name exactly at zones whole hours from UTC. */
  lemma LocalHourKeptIff(offset: int)
    ensures (forall t :: LocalHour(OnTheHour(t), offset) == LocalHour(t, offset)) <==> offset % HOUR == 0
  {
    hide LocalHour;
    var k, rest := offset / HOUR, offset % HOUR;
    if rest == 0 {
      forall t ensures LocalHour(OnTheHour(t), offset) == LocalHour(t, offset) {
        LocalHourCounts(t / HOUR + k, t % HOUR, offset, t);
        LocalHourCounts(t / HOUR + k, 0, offset, OnTheHour(t));
      }
    } else {
      var t := HOUR - rest;
      LocalHourCounts(k + 1, 0, offset, t);
      LocalHourCounts(k, rest, offset, 0);
      assert OnTheHour(t) == 0;
      assert LocalHour(OnTheHour(t), offset) != LocalHour(t, offset);
    }
  }

  /** The fallback is safe exactly under a condition on the configuration and the first menu's name. */
  lemma FallbackSafeIff(f: Features, settings: Settings)
    ensures Safe(Fallback(f, settings), f, settings) <==>
              && 0 <= settings.maxDiscount && 2 <= settings.maxHours
              && |MenuName(f)| + |Digits(LocalHour(FallbackStart(f), f.offset))| + 10 <= TITLE_LIMIT
  {
    FallbackStartMeaning(f);
    var s := Fallback(f, settings);
    assert !IsSpace(s.title[0]) && s.title[|s.title| - 1] == '천';
    if f.catalog != [] {
      assert f.catalog[0] in f.catalog;
    }
  }

  /** Every outcome of the provider becomes a safe sale, exactly when the fallback is one. */
  lemma EveryOutcomeSafeIff(f: Features, settings: Settings)
    ensures (forall attempt :: Safe(SafeResult(attempt, f, settings), f, settings)) <==>
              && 0 <= settings.maxDiscount && 2 <= settings.maxHours
              && |MenuName(f)| + |Digits(LocalHour(FallbackStart(f), f.offset))| + 10 <= TITLE_LIMIT
  {
    FallbackSafeIff(f, settings);
    forall attempt
      ensures Safe(SafeResult(attempt, f, settings), f, settings)
      || SafeResult(attempt, f, settings) == Fallback(f, settings) {
      if attempt.Returned? && Validate(attempt.payload, f, settings).Some? {
        ValidatedIsSafe(attempt.payload, f, settings);
      }
    }
    assert SafeResult(Raised, f, settings) == Fallback(f, settings);
  }
}
