/** The day's sales summary and the hourly rows it stores (app/services/analytics.py). */
module Sales {
  import opened Common
  import opened BusinessDay
  import opened LedgerModel
  import opened LedgerSteps
  import opened Conservation

  /** The key of a bucket, which the code spells as the ISO text of its start. */
  datatype Hour = Hour(startsAt: Time)

  datatype Bucket = Bucket(orderCount: int, grossSales: int)

  datatype Summary = Summary(totalSales: int, totalOrders: int, hourly: map<Hour, Bucket>)

  /** The start of the store-local hour an instant falls in. */
  function BucketStart(t: Time, offset: int): Hour {
    Hour((t + offset) / HOUR * HOUR - offset)
  }

  /** An instant lies in its bucket's hour, which begins on a whole hour of the store's clock. */
  lemma BucketHolds(t: Time, offset: int)
    ensures var start := BucketStart(t, offset).startsAt;
            start <= t < start + 60 * 60 * SECOND && (start + offset) % (60 * 60 * SECOND) == 0
  {
    var hours := (t + offset) / HOUR;
    assert (hours * HOUR) % HOUR == 0;
  }

  /** Fully refunded orders are not selected. */
  predicate Selected(o: Order, store: Id, day: Day) {
    At(o.account, store, day) && !o.status.Refunded?
  }

  /** What the code counts of an order, cut off at zero. */
  function Kept(o: Order): int {
    Max(0, o.total - o.refunded)
  }

  predicate InBucket(o: Order, store: Id, day: Day, offset: int, start: Hour) {
    Selected(o, store, day) && BucketStart(o.paidAt, offset) == start
  }

  ghost function NetIn(store: Id, day: Day, offset: int, start: Hour): (Id, Order) -> int {
    (id, o: Order) => if InBucket(o, store, day, offset, start) then Kept(o) else 0
  }

  ghost function CountIn(store: Id, day: Day, offset: int, start: Hour): (Id, Order) -> int {
    (id, o: Order) => if InBucket(o, store, day, offset, start) then 1 else 0
  }

  ghost function SalesAt(store: Id, day: Day): (Id, Order) -> int {
    (id, o: Order) => if Selected(o, store, day) then Kept(o) else 0
  }

  ghost function CountAt(store: Id, day: Day): (Id, Order) -> int {
    (id, o: Order) => if Selected(o, store, day) then 1 else 0
  }

  ghost function Gross(): (Hour, Bucket) -> int {
    (start, b: Bucket) => b.grossSales
  }

  ghost function Counts(): (Hour, Bucket) -> int {
    (start, b: Bucket) => b.orderCount
  }

  function BucketAt(hourly: map<Hour, Bucket>, start: Hour): Bucket {
    if start in hourly then hourly[start] else Bucket(0, 0)
  }

  /** The orders and sales of an hour, as the orders are. */
  ghost function TrueBucket(orders: map<Id, Order>, store: Id, day: Day, offset: int, start: Hour): Bucket {
    Bucket(Sum(orders, CountIn(store, day, offset, start)), Sum(orders, NetIn(store, day, offset, start)))
  }

  /** What a summary of the orders is. */
  ghost predicate Summarises(summary: Summary, orders: map<Id, Order>, store: Id, day: Day, offset: int) {
    && (forall start :: BucketAt(summary.hourly, start) == TrueBucket(orders, store, day, offset, start))
    && (forall start :: start in summary.hourly ==> 0 < summary.hourly[start].orderCount)
    && summary.totalSales == Sum(summary.hourly, Gross()) == Sum(orders, SalesAt(store, day))
    && summary.totalOrders == Sum(summary.hourly, Counts()) == Sum(orders, CountAt(store, day))
  }

  lemma EmptySummary(store: Id, day: Day, offset: int)
    ensures Summarises(Summary(0, 0, map[]), map[], store, day, offset)
  {
  }

  lemma OneMoreOrder(orders: map<Id, Order>, id: Id, o: Order, store: Id, day: Day, offset: int, k: Hour)
    requires id !in orders && Selected(o, store, day)
    ensures var b := TrueBucket(orders, store, day, offset, k);
            TrueBucket(orders[id := o], store, day, offset, k)
            == if k == BucketStart(o.paidAt, offset) then Bucket(b.orderCount + 1, b.grossSales + Kept(o)) else b
  {
    SumWrite(orders, CountIn(store, day, offset, k), id, o);
    SumWrite(orders, NetIn(store, day, offset, k), id, o);
  }

  /** Adding one selected order to a summary. */
  lemma AddOrder(summary: Summary, orders: map<Id, Order>, id: Id, o: Order, store: Id, day: Day, offset: int)
    requires Summarises(summary, orders, store, day, offset) && id !in orders && Selected(o, store, day)
    ensures var start := BucketStart(o.paidAt, offset);
            var b := BucketAt(summary.hourly, start);
            Summarises(Summary(summary.totalSales + Kept(o), summary.totalOrders + 1,
                               summary.hourly[start := Bucket(b.orderCount + 1, b.grossSales + Kept(o))]),
                       orders[id := o], store, day, offset)
  {
    hide BucketStart, Kept;
    var start := BucketStart(o.paidAt, offset);
    var b := BucketAt(summary.hourly, start);
    var b' := Bucket(b.orderCount + 1, b.grossSales + Kept(o));
    var hourly := summary.hourly[start := b'];
    SumWrite(orders, SalesAt(store, day), id, o);
    SumWrite(orders, CountAt(store, day), id, o);
    SumWrite(summary.hourly, Gross(), start, b');
    SumWrite(summary.hourly, Counts(), start, b');
    assert 0 <= b.orderCount;
    forall k ensures BucketAt(hourly, k) == TrueBucket(orders[id := o], store, day, offset, k) {
      OneMoreOrder(orders, id, o, store, day, offset, k);
      assert BucketAt(summary.hourly, k) == TrueBucket(orders, store, day, offset, k);
    }
    hide TrueBucket;
  }

  /** Orders that are not selected change nothing of a summary. */
  lemma SelectionSuffices(summary: Summary, orders: map<Id, Order>, chosen: map<Id, Order>, store: Id, day: Day,
                          offset: int)
    requires Summarises(summary, chosen, store, day, offset)
    requires chosen.Keys <= orders.Keys && forall id :: id in chosen ==> chosen[id] == orders[id]
    requires forall id :: id in orders && Selected(orders[id], store, day) ==> id in chosen
    ensures Summarises(summary, orders, store, day, offset)
  {
    forall k ensures TrueBucket(orders, store, day, offset, k) == TrueBucket(chosen, store, day, offset, k) {
      SumSkipsZeros(orders, chosen, CountIn(store, day, offset, k));
      SumSkipsZeros(orders, chosen, NetIn(store, day, offset, k));
    }
    SumSkipsZeros(orders, chosen, SalesAt(store, day));
    SumSkipsZeros(orders, chosen, CountAt(store, day));
  }

  /** Leaving out the fully refunded orders and cutting the others off at zero changes no total of sound orders. */
  lemma FilterLosesNothing(orders: map<Id, Order>, store: Id, day: Day)
    requires forall id :: id in orders ==> OrderOk(orders[id])
    ensures Sum(orders, SalesAt(store, day)) == Sum(orders, NetAt(store, day))
  {
    forall id | id in orders ensures SalesAt(store, day)(id, orders[id]) == NetAt(store, day)(id, orders[id]) {
      assert OrderOk(orders[id]);
    }
    SumAgree(orders, SalesAt(store, day), NetAt(store, day));
  }

  /** The stored hourly rows of one store. */
  class HourlyRows {
    var rows: map<Hour, Bucket>

    /** Buckets the selected orders, in whatever order they come, and writes one row per bucket that has orders. */
    method SalesSummary(orders: map<Id, Order>, store: Id, day: Day, offset: int) returns (summary: Summary)
      modifies this
      ensures Summarises(summary, orders, store, day, offset)
      ensures rows == old(rows) + summary.hourly
    {
      hide Summarises;
      EmptySummary(store, day, offset);
      var todo := set id | id in orders && Selected(orders[id], store, day);
      ghost var chosen: map<Id, Order> := map[];
      var starts: seq<Hour> := [];
      summary := Summary(0, 0, map[]);
      while todo != {}
        invariant forall id :: id in todo ==> id in orders && Selected(orders[id], store, day) && id !in chosen
        invariant chosen.Keys <= orders.Keys && forall id :: id in chosen ==> chosen[id] == orders[id]
        invariant forall id :: id in orders && Selected(orders[id], store, day) ==> id in todo || id in chosen
        invariant Summarises(summary, chosen, store, day, offset)
        invariant rows == old(rows)
        invariant forall k :: k in starts <==> k in summary.hourly
        decreases todo
      {
        var id :| id in todo;
        var o := orders[id];
        AddOrder(summary, chosen, id, o, store, day, offset);
        var start := BucketStart(o.paidAt, offset);
        var b := BucketAt(summary.hourly, start);
        starts := if start in summary.hourly then starts else starts + [start];
        var kept := Max(0, o.total - o.refunded);
        summary := Summary(summary.totalSales + kept, summary.totalOrders + 1,
                           summary.hourly[start := Bucket(b.orderCount + 1, b.grossSales + kept)]);
        chosen := chosen[id := o];
        todo := todo - {id};
      }
      SelectionSuffices(summary, orders, chosen, store, day, offset);
      StoreRows(starts, summary.hourly);
    }

    /** Updates or inserts one row per bucket, in the order the buckets were first met. */
    method StoreRows(starts: seq<Hour>, hourly: map<Hour, Bucket>)
      requires forall k :: k in starts <==> k in hourly
      modifies this
      ensures rows == old(rows) + hourly
    {
      hide Stored;
      AllStored(starts, hourly);
      for i := 0 to |starts|
        invariant rows == old(rows) + Stored(starts[..i], hourly)
      {
        rows := rows[starts[i] := hourly[starts[i]]];
        OneMoreStored(starts, hourly, i);
      }
      assert starts[..|starts|] == starts;
    }
  }

  function Stored(starts: seq<Hour>, hourly: map<Hour, Bucket>): map<Hour, Bucket>
    requires forall k :: k in starts ==> k in hourly
  {
    map k | k in starts :: hourly[k]
  }

  lemma OneMoreStored(starts: seq<Hour>, hourly: map<Hour, Bucket>, i: nat)
    requires i < |starts| && forall k :: k in starts ==> k in hourly
    ensures Stored(starts[..i + 1], hourly) == Stored(starts[..i], hourly)[starts[i] := hourly[starts[i]]]
  {
    assert starts[..i + 1] == starts[..i] + [starts[i]];
  }

  lemma AllStored(starts: seq<Hour>, hourly: map<Hour, Bucket>)
    requires forall k :: k in starts <==> k in hourly
    ensures Stored(starts, hourly) == hourly && Stored(starts[..0], hourly) == map[]
  {
  }

  /**
   * In every reachable state the day's total sales, fully refunded orders left out, are the sum of its hours and also
   * the sum of what its customers have spent, and its order count is the sum over its hours.
   */
  lemma DayAddsUp(c: Catalog, s: State, run: seq<Step>, summary: Summary, store: Id, day: Day, offset: int)
    requires Initial(s)
    requires Summarises(summary, Exec(c, s, run).orders, store, day, offset)
    ensures var t := Exec(c, s, run);
            && summary.totalSales == Sum(summary.hourly, Gross()) == Sum(t.balances, BalanceAt(store, day))
            && summary.totalOrders == Sum(summary.hourly, Counts())
            && forall id :: id in t.orders ==> OrderOk(t.orders[id])
  {
    hide Exec;
    MoneyConserved(c, s, run);
    FilterLosesNothing(Exec(c, s, run).orders, store, day);
  }

  // ---------- The stored rows ----------

  /** The hour has an order that is not fully refunded. */
  predicate HasOrders(orders: map<Id, Order>, store: Id, day: Day, offset: int, start: Hour) {
    exists id :: id in orders && InBucket(orders[id], store, day, offset, start)
  }

  /** A summary shows exactly the hours that have orders. */
  lemma HoursShown(summary: Summary, orders: map<Id, Order>, store: Id, day: Day, offset: int, start: Hour)
    requires Summarises(summary, orders, store, day, offset)
    ensures start in summary.hourly <==> HasOrders(orders, store, day, offset, start)
    ensures HasOrders(orders, store, day, offset, start) <==>
            TrueBucket(orders, store, day, offset, start) != Bucket(0, 0)
  {
    SumPositiveIff(orders, CountIn(store, day, offset, start));
    SumBounds(orders, CountIn(store, day, offset, start));
    assert BucketAt(summary.hourly, start) == TrueBucket(orders, store, day, offset, start);
    if HasOrders(orders, store, day, offset, start) {
      var id :| id in orders && InBucket(orders[id], store, day, offset, start);
      assert 0 < CountIn(store, day, offset, start)(id, orders[id]);
    } else {
      SumSkipsZeros(orders, map[], NetIn(store, day, offset, start));
    }
  }

  /** A summary of a business day, and the orders there were when it was made. */
  datatype Made = Made(summary: Summary, orders: map<Id, Order>, day: Day)

  /** The summaries of one store, one after the other, of whichever of its days. */
  ghost predicate MadeOf(made: seq<Made>, store: Id, offset: int) {
    forall i :: 0 <= i < |made| ==> Summarises(made[i].summary, made[i].orders, store, made[i].day, offset)
  }

  /** The rows after a series of summaries. */
  function RowsAfter(made: seq<Made>): map<Hour, Bucket> {
    if made == [] then map[] else RowsAfter(made[..|made| - 1]) + made[|made| - 1].summary.hourly
  }

  /** The summary saw orders of its day in the hour. */
  predicate Saw(m: Made, store: Id, offset: int, start: Hour) {
    HasOrders(m.orders, store, m.day, offset, start)
  }

  lemma SummaryShows(m: Made, store: Id, offset: int, start: Hour)
    requires Summarises(m.summary, m.orders, store, m.day, offset)
    ensures start in m.summary.hourly <==> Saw(m, store, offset, start)
    ensures Saw(m, store, offset, start) <==> TrueBucket(m.orders, store, m.day, offset, start) != Bucket(0, 0)
    ensures BucketAt(m.summary.hourly, start) == TrueBucket(m.orders, store, m.day, offset, start)
  {
    HoursShown(m.summary, m.orders, store, m.day, offset, start);
  }

  /** A row holds what the last summary that saw orders in its hour found there; `i` is that summary, or -1. */
  lemma {:induction false} RowIsLastSeen(made: seq<Made>, store: Id, offset: int, start: Hour) returns (i: int)
    requires MadeOf(made, store, offset)
    ensures -1 <= i < |made| && (0 <= i ==> Saw(made[i], store, offset, start))
    ensures forall j :: i < j < |made| ==> !Saw(made[j], store, offset, start)
    ensures BucketAt(RowsAfter(made), start)
            == if i < 0 then Bucket(0, 0) else TrueBucket(made[i].orders, store, made[i].day, offset, start)
  {
    hide Summarises, Saw, TrueBucket;
    i := -1;
    if made != [] {
      var front, last := made[..|made| - 1], made[|made| - 1];
      SummaryShows(last, store, offset, start);
      if Saw(last, store, offset, start) {
        i := |made| - 1;
      } else {
        assert forall k :: 0 <= k < |front| ==> front[k] == made[k];
        i := RowIsLastSeen(front, store, offset, start);
      }
    }
  }

  /**
   * Rows are only ever overwritten, and carry no business date. After any series of summaries the stored row of an
   * hour is what the last one found there for its day if and only if it found orders there that are not fully refunded,
   * or no earlier summary, of whatever day, did.
   */
  lemma StoredRowTrueIff(made: seq<Made>, store: Id, offset: int, start: Hour)
    requires made != [] && MadeOf(made, store, offset)
    ensures var n := |made| - 1;
            BucketAt(RowsAfter(made), start) == TrueBucket(made[n].orders, store, made[n].day, offset, start) <==>
            (Saw(made[n], store, offset, start)
             || forall i :: 0 <= i < n ==> !Saw(made[i], store, offset, start))
  {
    hide Summarises, Saw, TrueBucket, RowsAfter;
    var i := RowIsLastSeen(made, store, offset, start);
    SummaryShows(made[|made| - 1], store, offset, start);
    if 0 <= i {
      SummaryShows(made[i], store, offset, start);
    }
  }

  // ---------- Hours and business days ----------

  lemma SameHour(t: Time, u: Time, offset: int)
    requires BucketStart(t, offset) == BucketStart(u, offset)
    ensures (t + offset) / HOUR == (u + offset) / HOUR
  {
  }

  /** Where an instant lies within its local day decides its business date. */
  lemma DayOfHour(t: Time, clock: Clock, h: int, r: int)
    requires t + clock.Offset() == h * HOUR + r && 0 <= r < HOUR
    ensures BusinessDate(t, clock) == if h % 24 * HOUR + r < clock.Cutoff() then h / 24 - 1 else h / 24
  {
    assert t + clock.Offset() == h / 24 * DAY + (h % 24 * HOUR + r);
  }

  /**
   * Rows carry no business date. Two business days share a row exactly when the day's cutoff lies inside an hour;
   * then the later summary overwrites what the earlier one stored.
   */
  lemma DaysShareNoRowIff(clock: Clock)
    requires clock.Valid()
    ensures (forall t, u :: BucketStart(t, clock.Offset()) == BucketStart(u, clock.Offset()) ==>
                              BusinessDate(t, clock) == BusinessDate(u, clock))
            <==> clock.Cutoff() % HOUR == 0
  {
    hide BusinessDate, BucketStart;
    var offset, cutoff := clock.Offset(), clock.Cutoff();
    if cutoff % HOUR == 0 {
      forall t, u | BucketStart(t, offset) == BucketStart(u, offset)
        ensures BusinessDate(t, clock) == BusinessDate(u, clock) {
        SameHour(t, u, offset);
        var h := (t + offset) / HOUR;
        DayOfHour(t, clock, h, (t + offset) % HOUR);
        DayOfHour(u, clock, h, (u + offset) % HOUR);
      }
    } else {
      var t, u := cutoff - offset, cutoff / HOUR * HOUR - offset;
      DayOfHour(t, clock, cutoff / HOUR, cutoff % HOUR);
      DayOfHour(u, clock, cutoff / HOUR, 0);
      assert BucketStart(t, offset) == BucketStart(u, offset) by { StartOf(cutoff / HOUR, cutoff % HOUR, offset); }
      assert BusinessDate(t, clock) != BusinessDate(u, clock);
    }
  }

  lemma StartOf(h: int, r: int, offset: int)
    requires 0 <= r < HOUR
    ensures BucketStart(h * HOUR + r - offset, offset) == Hour(h * HOUR - offset)
    ensures BucketStart(h * HOUR - offset, offset) == Hour(h * HOUR - offset)
  {
  }
}
