/**
 * A client that reconnects with the last identifier it got: what it never sees, and what it is shown twice
 * (app/services/events.py, app/routers/admin.py).
 */
module Reconnect {
  import opened Common
  import opened EventFeed
  import opened EventQueue
  import opened EventStream

  /** One connection, made when `start` is committed. */
  datatype Connection = Connection(start: Table, run: seq<StreamStep>)

  ghost function StreamOf(store: Id, cursor: Option<Id>, c: Connection): Stream {
    StreamRun(c.start, store, cursor, c.run)
  }

  /** The last identifier the client has after its connections; the first one starts with `first`. */
  ghost function CursorAfter(store: Id, first: Option<Id>, cs: seq<Connection>): Option<Id> {
    if cs == [] then first
    else
      var cursor := CursorAfter(store, first, cs[..|cs| - 1]);
      var frames := Frames(StreamOf(store, cursor, cs[|cs| - 1]));
      if frames == [] then cursor else Some(frames[|frames| - 1])
  }

  /** Everything the client was shown. */
  ghost function Seen(store: Id, first: Option<Id>, cs: seq<Connection>): seq<Id> {
    if cs == [] then []
    else
      var before := cs[..|cs| - 1];
      Seen(store, first, before) + Frames(StreamOf(store, CursorAfter(store, first, before), cs[|cs| - 1]))
  }

  /** The `k`-th connection. */
  ghost function StreamAt(store: Id, first: Option<Id>, cs: seq<Connection>, k: nat): Stream
    requires k < |cs|
  {
    StreamOf(store, CursorAfter(store, first, cs[..k]), cs[k])
  }

  /**
   * The connection's query does not return the event: it is not committed, another store's, or not after the client's
   * known cursor, or a full page of events stands before it.
   */
  predicate OffPage(t: Table, store: Id, cursor: Option<Id>, limit: int, x: Id) {
    || x !in t || t[x].store != store
    || (cursor.Some? && cursor.value in t && t[cursor.value].store == store && !Before(t, cursor.value, x))
    || PageSize(limit) <= |Ahead(t, store, cursor, x)|
  }

  /** The connection never subscribed, or its query passed the event over and its queue did not deliver it. */
  ghost predicate PassesOver(s: Stream, store: Id, cursor: Option<Id>, x: Id) {
    || s.page.None? || s.ops.None?
    || (OffPage(s.page.value.table, store, cursor, s.page.value.limit, x) && !Delivered(OpRun(s.ops.value), x))
  }

  ghost predicate PassedOver(store: Id, first: Option<Id>, cs: seq<Connection>, k: nat, x: Id)
    requires k < |cs|
  {
    PassesOver(StreamAt(store, first, cs, k), store, CursorAfter(store, first, cs[..k]), x)
  }

  ghost predicate AllPassOver(store: Id, first: Option<Id>, cs: seq<Connection>, x: Id) {
    forall k :: 0 <= k < |cs| ==> PassedOver(store, first, cs, k, x)
  }

  lemma OneConnection(store: Id, cursor: Option<Id>, c: Connection, x: Id)
    ensures x !in Frames(StreamOf(store, cursor, c)) <==> PassesOver(StreamOf(store, cursor, c), store, cursor, x)
    ensures Distinct(Frames(StreamOf(store, cursor, c)))
  {
    hide StreamRun, OpRun, Delivered, History, Ahead;
    var s := StreamOf(store, cursor, c);
    if s.page.Some? && s.ops.Some? {
      StreamShowsIff(c.start, store, cursor, c.run, x);
      PageHoldsIff(s.page.value.table, store, cursor, s.page.value.limit, x);
    }
  }

  /**
   * A client that reconnects never sees an event exactly when every connection passes it over: its query finds the
   * event not committed, placed before the client's cursor, or behind a full page of other events, and its queue does
   * not deliver it, because the event was broadcast before the subscription, or was given up or dropped, or the reader
   * did not get to it.
   */
  lemma {:induction false} NeverSeenIff(store: Id, first: Option<Id>, cs: seq<Connection>, x: Id)
    ensures x !in Seen(store, first, cs) <==> AllPassOver(store, first, cs, x)
  {
    if cs != [] {
      hide StreamOf, CursorAfter, AllPassOver, PassedOver;
      NeverSeenIff(store, first, cs[..|cs| - 1], x);
      PassOverSplits(store, first, cs, x);
      LastConnection(store, first, cs, x);
    }
  }

  lemma PassOverSplits(store: Id, first: Option<Id>, cs: seq<Connection>, x: Id)
    requires cs != []
    ensures AllPassOver(store, first, cs, x) <==>
              AllPassOver(store, first, cs[..|cs| - 1], x) && PassedOver(store, first, cs, |cs| - 1, x)
  {
    hide PassedOver;
    var before, n := cs[..|cs| - 1], |cs| - 1;
    forall k | 0 <= k < n ensures PassedOver(store, first, before, k, x) <==> PassedOver(store, first, cs, k, x) {
      PassedOverBefore(store, first, cs, k, x);
    }
  }

  lemma PassedOverBefore(store: Id, first: Option<Id>, cs: seq<Connection>, k: nat, x: Id)
    requires k < |cs| - 1
    ensures PassedOver(store, first, cs[..|cs| - 1], k, x) <==> PassedOver(store, first, cs, k, x)
  {
    hide StreamOf, CursorAfter, PassesOver;
    assert cs[..|cs| - 1][..k] == cs[..k];
  }

  lemma LastConnection(store: Id, first: Option<Id>, cs: seq<Connection>, x: Id)
    requires cs != []
    ensures var n, cursor := |cs| - 1, CursorAfter(store, first, cs[..|cs| - 1]);
            x !in Frames(StreamOf(store, cursor, cs[n])) <==> PassedOver(store, first, cs, n, x)
  {
    hide Frames, StreamOf, CursorAfter, PassesOver;
    OneConnection(store, CursorAfter(store, first, cs[..|cs| - 1]), cs[|cs| - 1], x);
  }

  // ---------- Events shown twice ----------

  /** The connection passes over what the ones before it showed. */
  ghost predicate RepeatsNothing(store: Id, first: Option<Id>, cs: seq<Connection>, k: nat)
    requires k < |cs|
  {
    forall x | x in Seen(store, first, cs[..k]) :: PassedOver(store, first, cs, k, x)
  }

  ghost predicate NothingRepeats(store: Id, first: Option<Id>, cs: seq<Connection>) {
    forall k :: 0 <= k < |cs| ==> RepeatsNothing(store, first, cs, k)
  }

  lemma DistinctSplits(xs: seq<Id>, ys: seq<Id>)
    ensures Distinct(xs + ys) <==> Distinct(xs) && Distinct(ys) && forall x :: x in xs ==> x !in ys
  {
    var zs := xs + ys;
    if Distinct(zs) {
      assert forall i :: 0 <= i < |xs| ==> zs[i] == xs[i];
      assert forall i :: 0 <= i < |ys| ==> zs[|xs| + i] == ys[i];
      forall i, j | 0 <= i < j < |ys| ensures ys[i] != ys[j] {
        assert zs[|xs| + i] != zs[|xs| + j];
      }
      forall i, j | 0 <= i < |xs| && 0 <= j < |ys| ensures xs[i] != ys[j] {
        assert zs[i] != zs[|xs| + j];
      }
    } else {
      var i, j :| 0 <= i < j < |zs| && zs[i] == zs[j];
      if |xs| <= i {
        assert ys[i - |xs|] == ys[j - |xs|];
      } else if |xs| <= j {
        assert xs[i] == ys[j - |xs|] && xs[i] in xs;
      } else {
        assert xs[i] == xs[j];
      }
    }
  }

  /** The client is shown no event twice if and only if every connection passes over what the ones before it showed. */
  lemma {:induction false} SeenOnceIff(store: Id, first: Option<Id>, cs: seq<Connection>)
    ensures Distinct(Seen(store, first, cs)) <==> NothingRepeats(store, first, cs)
  {
    if cs != [] {
      hide StreamOf, CursorAfter, NothingRepeats, PassedOver, Frames, Distinct;
      var before := cs[..|cs| - 1];
      var frames := Frames(StreamOf(store, CursorAfter(store, first, before), cs[|cs| - 1]));
      SeenOnceIff(store, first, before);
      RepeatSplits(store, first, cs);
      OneConnection(store, CursorAfter(store, first, before), cs[|cs| - 1], 0);
      DistinctSplits(Seen(store, first, before), frames);
      forall x ensures x !in frames <==> PassedOver(store, first, cs, |cs| - 1, x) {
        LastConnection(store, first, cs, x);
      }
    } else {
      assert Seen(store, first, cs) == [];
    }
  }

  lemma RepeatSplits(store: Id, first: Option<Id>, cs: seq<Connection>)
    requires cs != []
    ensures NothingRepeats(store, first, cs) <==>
              NothingRepeats(store, first, cs[..|cs| - 1]) && RepeatsNothing(store, first, cs, |cs| - 1)
  {
    hide RepeatsNothing;
    var before, n := cs[..|cs| - 1], |cs| - 1;
    forall k | 0 <= k < n ensures RepeatsNothing(store, first, before, k) <==> RepeatsNothing(store, first, cs, k) {
      RepeatsNothingBefore(store, first, cs, k);
    }
  }

  lemma RepeatsNothingBefore(store: Id, first: Option<Id>, cs: seq<Connection>, k: nat)
    requires k < |cs| - 1
    ensures RepeatsNothing(store, first, cs[..|cs| - 1], k) <==> RepeatsNothing(store, first, cs, k)
  {
    hide PassedOver, Seen;
    var before := cs[..|cs| - 1];
    assert before[..k] == cs[..k];
    forall x ensures PassedOver(store, first, before, k, x) <==> PassedOver(store, first, cs, k, x) {
      PassedOverBefore(store, first, cs, k, x);
    }
  }

  // ---------- Two visits ----------

  /** The client takes its page and nothing else. */
  function Visit(start: Table, limit: int): Connection {
    Connection(start, [Query(limit)] + [Subscribe])
  }

  /** After its page the client is shown one live event, which is not committed yet. */
  function LiveVisit(start: Table, limit: int, live: Id): Connection {
    Connection(start, Visit(start, limit).run + [Broadcaster(Put(0, live))] + [StreamStep.Read])
  }

  lemma StreamContinues(start: Table, store: Id, cursor: Option<Id>, run: seq<StreamStep>, step: StreamStep)
    ensures StreamRun(start, store, cursor, run + [step])
            == NextStream(StreamRun(start, store, cursor, run), store, cursor, step)
  {
    assert (run + [step])[..|run|] == run;
  }

  lemma VisitShows(start: Table, store: Id, cursor: Option<Id>, limit: int)
    ensures var s, ids := StreamOf(store, cursor, Visit(start, limit)), History(start, store, cursor, limit);
            s == Stream(start, Some(Page(start, limit, ids)), Some([]), []) && Frames(s) == ids
  {
    hide StreamRun, History;
    assert StreamRun(start, store, cursor, []) == Stream(start, None, None, []) by {
      NoStepYet(start, store, cursor);
    }
    assert [] + [Query(limit)] == [Query(limit)];
    StreamContinues(start, store, cursor, [], Query(limit));
    StreamContinues(start, store, cursor, [Query(limit)], Subscribe);
    var ids := History(start, store, cursor, limit);
    assert ids + Unseen([], Elements(ids)) == ids;
  }

  lemma NoStepYet(start: Table, store: Id, cursor: Option<Id>)
    ensures StreamRun(start, store, cursor, []) == Stream(start, None, None, [])
  {
  }

  lemma OneDelivery(x: Id)
    ensures OpRun([]).items == [] && OpRun([Put(0, x)]).items == [x]
  {
    assert [Put(0, x)][..0] == [];
  }

  lemma LiveVisitShows(start: Table, store: Id, cursor: Option<Id>, limit: int, live: Id)
    requires live !in History(start, store, cursor, limit)
    ensures Frames(StreamOf(store, cursor, LiveVisit(start, limit, live)))
            == History(start, store, cursor, limit) + [live]
  {
    hide StreamRun, OpRun, History;
    var ids, put := History(start, store, cursor, limit), Visit(start, limit).run + [Broadcaster(Put(0, live))];
    VisitShows(start, store, cursor, limit);
    StreamContinues(start, store, cursor, Visit(start, limit).run, Broadcaster(Put(0, live)));
    StreamContinues(start, store, cursor, put, StreamStep.Read);
    assert [] + [Put(0, live)] == [Put(0, live)];
    OneDelivery(live);
    var s := StreamOf(store, cursor, LiveVisit(start, limit, live));
    assert s.polled == [] + [Some(live)] == [Some(live)];
    assert [Some(live)][..0] == [];
    assert Unseen([], Elements(ids)) == [];
    assert Unseen([Some(live)], Elements(ids)) == [] + [live];
  }

  /** A client that is shown a live event after its page, and reconnects when the table is `later`. */
  lemma TwoVisits(start: Table, store: Id, limit: int, live: Id, later: Table)
    requires live !in start
    ensures var visits := [LiveVisit(start, limit, live), Visit(later, limit)];
            && CursorAfter(store, None, visits[..1]) == Some(live)
            && Seen(store, None, visits)
               == History(start, store, None, limit) + [live] + History(later, store, Some(live), limit)
  {
    hide StreamOf, Frames, History;
    var one, two := [LiveVisit(start, limit, live)], [LiveVisit(start, limit, live), Visit(later, limit)];
    PageHoldsIff(start, store, None, limit, live);
    LiveVisitShows(start, store, None, limit, live);
    VisitShows(later, store, Some(live), limit);
    assert one[..0] == [] && two[..1] == one;
    assert CursorAfter(store, None, []) == None && Seen(store, None, []) == [];
    var shown := History(start, store, None, limit) + [live];
    assert Seen(store, None, one) == [] + shown == shown;
    assert CursorAfter(store, None, one) == Some(shown[|shown| - 1]);
  }

  /**
   * An event that is not on the first page, and that stands before the live event once both are committed, is never
   * shown to a client that was shown the live one and reconnects with it.
   */
  lemma BehindLiveNeverSeen(start: Table, store: Id, limit: int, live: Id, later: Table, x: Id)
    requires live !in start && live in later && x in later && later[live].store == store && Before(later, x, live)
    requires OffPage(start, store, None, limit, x)
    ensures x !in Seen(store, None, [LiveVisit(start, limit, live), Visit(later, limit)])
  {
    hide Seen, Ahead, History;
    TwoVisits(start, store, limit, live, later);
    PageHoldsIff(start, store, None, limit, x);
    PageHoldsIff(later, store, Some(live), limit, x);
  }

  /** An event created before the live one that commits after it is never seen. */
  lemma LateCommitNeverSeen(start: Table, store: Id, limit: int, live: Id, late: Id, created: Time, shown: Time)
    requires live !in start && late !in start && late != live && created < shown
    ensures var later := start[late := Row(store, created)][live := Row(store, shown)];
            late in later && late !in Seen(store, None, [LiveVisit(start, limit, live), Visit(later, limit)])
  {
    hide Seen;
    BehindLiveNeverSeen(start, store, limit, live, start[late := Row(store, created)][live := Row(store, shown)], late);
  }

  /** More events than the endpoint's limit of a hundred. */
  const BACKLOG: Table := map id: Id | id < 101 :: Row(0, id)

  /** On a first visit the page ends before the last event; the live event moves the cursor behind it for good. */
  lemma LongBacklogNeverSeen()
    ensures var visits := [LiveVisit(BACKLOG, 100, 101), Visit(BACKLOG[101 := Row(0, 101)], 100)];
            && 100 in BACKLOG && 100 in After(BACKLOG, 0, None) && 100 !in Seen(0, None, visits)
  {
    hide Seen;
    var ids := seq(101, i requires 0 <= i => i);
    IndexIsRank(BACKLOG, ids, 100);
    forall y: Id ensures y in ids <==> y in BACKLOG {
      if y in BACKLOG {
        assert ids[y] == y;
      }
    }
    assert (set y | y in ids && Before(BACKLOG, y, 100)) == Ahead(BACKLOG, 0, None, 100);
    BehindLiveNeverSeen(BACKLOG, 0, 100, 101, BACKLOG[101 := Row(0, 101)], 100);
  }

  /**
   * A live event whose request is aborted never commits: the client that reconnects with it is shown the history from
   * the beginning again.
   */
  lemma AbortedEventStartsOver(start: Table, store: Id, limit: int, live: Id)
    requires live !in start
    ensures var page := History(start, store, None, limit);
            Seen(store, None, [LiveVisit(start, limit, live), Visit(start, limit)]) == page + [live] + page
  {
    hide Seen, Ordered;
    TwoVisits(start, store, limit, live, start);
  }
}
