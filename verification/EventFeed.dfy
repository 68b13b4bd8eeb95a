/** Reading the event history page by page and following it live (app/services/events.py). */
module EventFeed {
  import opened Common

  datatype Row = Row(store: Id, createdAt: Time)

  /** Event rows by identifier. */
  type Table = map<Id, Row>

  const QUEUE_SIZE: int := 100

  // ---------- The history query ----------

  /** The query's order: by creation time, ties by identifier. */
  predicate Before(t: Table, x: Id, y: Id)
    requires x in t && y in t
  {
    t[x].createdAt < t[y].createdAt || (t[x].createdAt == t[y].createdAt && x < y)
  }

  predicate Least(t: Table, s: set<Id>, x: Id)
    requires s <= t.Keys
  {
    x in s && forall y :: y in s && y != x ==> Before(t, x, y)
  }

  lemma {:induction false} LeastExists(t: Table, s: set<Id>)
    requires s <= t.Keys && s != {}
    ensures exists x :: x in s && Least(t, s, x)
    decreases |s|
  {
    var y :| y in s;
    if s == {y} {
      assert Least(t, s, y);
    } else {
      var rest := s - {y};
      assert s == rest + {y};
      LeastExists(t, rest);
      var x :| x in rest && Least(t, rest, x);
      if Before(t, x, y) {
        assert Least(t, s, x);
      } else {
        assert Before(t, y, x);
        forall z | z in s && z != y ensures Before(t, y, z) {
          assert z in rest;
        }
        assert Least(t, s, y);
      }
    }
  }

  /** The rows in the query's order. */
  ghost function Ordered(t: Table, s: set<Id>): seq<Id>
    requires s <= t.Keys
    decreases |s|
  {
    if s == {} then []
    else
      LeastExists(t, s);
      var x :| x in s && Least(t, s, x);
      [x] + Ordered(t, s - {x})
  }

  predicate Increasing(t: Table, xs: seq<Id>) {
    && (forall i :: 0 <= i < |xs| ==> xs[i] in t)
    && forall i, j :: 0 <= i < j < |xs| ==> Before(t, xs[i], xs[j])
  }

  function Elements(xs: seq<Id>): set<Id> {
    set x | x in xs
  }

  lemma {:induction false} OrderedMeaning(t: Table, s: set<Id>)
    requires s <= t.Keys
    ensures Increasing(t, Ordered(t, s)) && Elements(Ordered(t, s)) == s && |Ordered(t, s)| == |s|
    decreases |s|
  {
    if s != {} {
      LeastExists(t, s);
      var x :| x in s && Least(t, s, x) && Ordered(t, s) == [x] + Ordered(t, s - {x});
      OrderedMeaning(t, s - {x});
      var rest := Ordered(t, s - {x});
      assert forall y :: y in rest <==> y in Elements(rest);
      assert forall i :: 0 <= i < |rest| ==> rest[i] in s - {x};
    }
  }

  /** An increasing list is determined by its elements. */
  lemma {:induction false} IncreasingUnique(t: Table, xs: seq<Id>, ys: seq<Id>)
    requires Increasing(t, xs) && Increasing(t, ys) && Elements(xs) == Elements(ys)
    ensures xs == ys
  {
    assert forall x :: x in xs <==> x in Elements(xs);
    assert forall y :: y in ys <==> y in Elements(ys);
    assert xs != [] ==> xs[0] in Elements(xs);
    assert ys != [] ==> ys[0] in Elements(ys);
    if xs != [] && ys != [] {
      assert xs[0] in ys && ys[0] in xs;
      assert Elements(xs[1..]) == Elements(xs) - {xs[0]};
      assert Elements(ys[1..]) == Elements(ys) - {ys[0]};
      IncreasingUnique(t, xs[1..], ys[1..]);
    }
  }

  /** The store's events after the cursor; an unknown cursor, or another store's, is ignored. */
  function After(t: Table, store: Id, cursor: Option<Id>): (left: set<Id>)
    ensures left <= t.Keys
  {
    if cursor.Some? && cursor.value in t && t[cursor.value].store == store then
      set x | x in t && t[x].store == store && Before(t, cursor.value, x)
    else
      set x | x in t && t[x].store == store
  }

  function PageSize(limit: int): int {
    Min(Max(limit, 1), 500)
  }

  ghost function History(t: Table, store: Id, cursor: Option<Id>, limit: int): seq<Id> {
    var rows := Ordered(t, After(t, store, cursor));
    rows[..Min(PageSize(limit), |rows|)]
  }

  /** The store's events after the cursor that stand before the event. */
  function Ahead(t: Table, store: Id, cursor: Option<Id>, x: Id): set<Id>
    requires x in t
  {
    set y | y in After(t, store, cursor) && Before(t, y, x)
  }

  /** The place of an event in an increasing list is the number of its events that stand before it. */
  lemma IndexIsRank(t: Table, xs: seq<Id>, i: nat)
    requires Increasing(t, xs) && i < |xs|
    ensures |set y | y in xs && Before(t, y, xs[i])| == i
  {
    ElementsCount(t, xs[..i]);
    forall y ensures y in xs && Before(t, y, xs[i]) <==> y in xs[..i] {
      if y in xs && Before(t, y, xs[i]) {
        var j :| 0 <= j < |xs| && xs[j] == y;
        assert j < i;
      }
    }
    assert (set y | y in xs && Before(t, y, xs[i])) == Elements(xs[..i]);
  }

  /** An event is on the page if and only if it is after the cursor and fewer events than the limit stand before it. */
  lemma PageHoldsIff(t: Table, store: Id, cursor: Option<Id>, limit: int, x: Id)
    ensures x in History(t, store, cursor, limit) <==>
              x in After(t, store, cursor) && |Ahead(t, store, cursor, x)| < PageSize(limit)
  {
    hide After, Increasing;
    var left := After(t, store, cursor);
    var rows := Ordered(t, left);
    OrderedMeaning(t, left);
    assert forall y :: y in rows <==> y in Elements(rows);
    if x in left {
      var i :| 0 <= i < |rows| && rows[i] == x;
      IndexIsRank(t, rows, i);
      assert (set y | y in rows && Before(t, y, x)) == Ahead(t, store, cursor, x);
      OnlyPlace(t, rows, i, Min(PageSize(limit), |rows|));
    }
  }

  lemma OnlyPlace(t: Table, xs: seq<Id>, i: nat, n: nat)
    requires Increasing(t, xs) && i < |xs| && n <= |xs|
    ensures xs[i] in xs[..n] <==> i < n
  {
    if i < n {
      assert xs[..n][i] == xs[i];
    }
  }

  /** The store's rows the query selects: those after the cursor in time, ties by identifier, if the cursor is one. */
  predicate Wanted(t: Table, store: Id, cursor: Option<Id>, x: Id) {
    && x in t && t[x].store == store
    && (cursor.Some? && cursor.value in t && t[cursor.value].store == store ==>
          Earlier(t[cursor.value].createdAt, cursor.value, t[x].createdAt, x))
  }

  predicate Earlier(at: Time, x: Id, other: Time, y: Id) {
    at < other || (at == other && x < y)
  }

  function WantedBefore(t: Table, store: Id, cursor: Option<Id>, x: Id): set<Id>
    requires x in t
  {
    set y | y in t && Wanted(t, store, cursor, y) && Earlier(t[y].createdAt, y, t[x].createdAt, x)
  }

  /**
   * A page holds, by time and identifier, the rows that are wanted with fewer others before them than the limit, which
   * is brought into the range from one to five hundred.
   */
  lemma PageIs(t: Table, store: Id, cursor: Option<Id>, limit: int)
    ensures var page := History(t, store, cursor, limit);
            var size := if limit < 1 then 1 else if 500 < limit then 500 else limit;
            && (forall x :: x in page <==> Wanted(t, store, cursor, x) && |WantedBefore(t, store, cursor, x)| < size)
            && (forall i, j :: 0 <= i < j < |page| ==>
                  && page[i] in t && page[j] in t
                  && Earlier(t[page[i]].createdAt, page[i], t[page[j]].createdAt, page[j]))
  {
    hide History, Ahead, WantedBefore;
    var page := History(t, store, cursor, limit);
    forall x ensures x in After(t, store, cursor) <==> Wanted(t, store, cursor, x) {
    }
    forall x ensures x in page <==> x in After(t, store, cursor) && |Ahead(t, store, cursor, x)| < PageSize(limit) {
      PageHoldsIff(t, store, cursor, limit, x);
    }
    forall x | x in After(t, store, cursor) ensures Ahead(t, store, cursor, x) == WantedBefore(t, store, cursor, x) {
      SameAhead(t, store, cursor, x);
    }
    assert Increasing(t, page) by { PageIncreases(t, store, cursor, limit); }
  }

  lemma SameAhead(t: Table, store: Id, cursor: Option<Id>, x: Id)
    requires x in t
    ensures Ahead(t, store, cursor, x) == WantedBefore(t, store, cursor, x)
  {
  }

  lemma PageIncreases(t: Table, store: Id, cursor: Option<Id>, limit: int)
    ensures Increasing(t, History(t, store, cursor, limit))
  {
    OrderedMeaning(t, After(t, store, cursor));
  }

  // ---------- A reader paging through a table that grows ----------

  datatype Reader = Reader(table: Table, out: seq<Id>, cursor: Option<Id>, missed: set<Id>)

  datatype ReadStep = Publish(id: Id, row: Row) | Read(limit: int)

  /** The events not after the cursor. */
  function UpTo(t: Table, store: Id, cursor: Option<Id>): set<Id> {
    set x | x in t && t[x].store == store && x !in After(t, store, cursor)
  }

  /** `missed` collects what is published at a place the cursor has already passed. */
  ghost function NextRead(r: Reader, store: Id, step: ReadStep): Reader {
    match step
    case Publish(id, row) =>
      if id in r.table then r
      else
        var table := r.table[id := row];
        var behind := r.cursor.Some? && id in UpTo(table, store, r.cursor);
        r.(table := table, missed := if behind then r.missed + {id} else r.missed)
    case Read(limit) =>
      var page := History(r.table, store, r.cursor, limit);
      r.(out := r.out + page, cursor := if page == [] then r.cursor else Some(page[|page| - 1]))
  }

  ghost function ReadRun(store: Id, table: Table, run: seq<ReadStep>): Reader {
    if run == [] then Reader(table, [], None, {})
    else NextRead(ReadRun(store, table, run[..|run| - 1]), store, run[|run| - 1])
  }

  ghost predicate ReaderOk(r: Reader, store: Id) {
    && (r.cursor.Some? ==> r.cursor.value in r.table && r.table[r.cursor.value].store == store)
    && (r.cursor.None? ==> r.out == [] && r.missed == {})
    && r.missed <= UpTo(r.table, store, r.cursor)
    && Increasing(r.table, r.out)
    && Elements(r.out) == UpTo(r.table, store, r.cursor) - r.missed
  }

  lemma PublishKeepsReader(r: Reader, store: Id, id: Id, row: Row)
    requires ReaderOk(r, store)
    ensures ReaderOk(NextRead(r, store, Publish(id, row)), store)
  {
    var r' := NextRead(r, store, Publish(id, row));
    if r' != r {
      assert forall x, y :: x in r.table && y in r.table ==> (Before(r'.table, x, y) <==> Before(r.table, x, y));
      assert UpTo(r'.table, store, r.cursor) - {id} == UpTo(r.table, store, r.cursor);
      assert r.cursor.None? ==> UpTo(r'.table, store, r.cursor) == {};
    }
  }

  /** A page is the beginning of what is left, in order, and its last event is the new cursor. */
  lemma PageRead(r: Reader, store: Id, limit: int) returns (rows: seq<Id>, n: nat)
    ensures Increasing(r.table, rows) && Elements(rows) == After(r.table, store, r.cursor)
            && |rows| == |After(r.table, store, r.cursor)|
    ensures n == Min(PageSize(limit), |rows|)
    ensures NextRead(r, store, Read(limit))
            == if n == 0 then r else r.(out := r.out + rows[..n], cursor := Some(rows[n - 1]))
  {
    hide Increasing, Elements, After;
    rows := Ordered(r.table, After(r.table, store, r.cursor));
    n := Min(PageSize(limit), |rows|);
    OrderedMeaning(r.table, After(r.table, store, r.cursor));
    if n > 0 {
      assert rows[..n][n - 1] == rows[n - 1];
    } else {
      assert rows[..n] == [] && r.out + [] == r.out;
    }
  }

  lemma ReadKeepsReader(r: Reader, store: Id, limit: int)
    requires ReaderOk(r, store)
    ensures var r' := NextRead(r, store, Read(limit));
            && ReaderOk(r', store)
            && var left := After(r.table, store, r.cursor);
               && |r'.out| - |r.out| == Min(PageSize(limit), |left|)
               && |After(r.table, store, r'.cursor)| == |left| - (|r'.out| - |r.out|)
  {
    hide ReaderOk, NextRead, After, Increasing, Elements;
    var rows, n := PageRead(r, store, limit);
    if n > 0 {
      PageSplits(r.table, store, r.cursor, rows, n);
      IncreasingTail(r.table, rows, n);
      ElementsCount(r.table, rows[n..]);
      PageExtends(r, store, rows, n);
    }
  }

  lemma IncreasingTail(t: Table, xs: seq<Id>, n: nat)
    requires Increasing(t, xs) && n <= |xs|
    ensures Increasing(t, xs[n..])
  {
  }

  lemma {:induction false} ElementsCount(t: Table, xs: seq<Id>)
    requires Increasing(t, xs)
    ensures |Elements(xs)| == |xs|
  {
    if xs != [] {
      ElementsCount(t, xs[1..]);
      assert Elements(xs) == Elements(xs[1..]) + {xs[0]};
      assert xs[0] !in xs[1..];
    }
  }

  /** The cursor at the end of a page separates the page from what is left. */
  lemma PageSplits(t: Table, store: Id, cursor: Option<Id>, rows: seq<Id>, n: nat)
    requires Increasing(t, rows) && Elements(rows) == After(t, store, cursor) && 0 < n <= |rows|
    ensures After(t, store, Some(rows[n - 1])) == Elements(rows[n..])
    ensures rows[n - 1] in t && t[rows[n - 1]].store == store
  {
    var left, c := After(t, store, cursor), rows[n - 1];
    assert forall x :: x in rows <==> x in Elements(rows);
    assert c in Elements(rows);
    assert forall i :: 0 <= i < n - 1 ==> Before(t, rows[i], c);
    assert forall i :: n <= i < |rows| ==> Before(t, c, rows[i]);
    forall x ensures x in After(t, store, Some(c)) <==> x in rows[n..] {
      if x in rows[n..] {
        assert x in Elements(rows);
      }
      if x in After(t, store, Some(c)) {
        assert x in left;
      }
    }
  }

  lemma PageExtends(r: Reader, store: Id, rows: seq<Id>, n: nat)
    requires ReaderOk(r, store)
    requires Increasing(r.table, rows) && Elements(rows) == After(r.table, store, r.cursor) && 0 < n <= |rows|
    ensures ReaderOk(r.(out := r.out + rows[..n], cursor := Some(rows[n - 1])), store)
  {
    var t := r.table;
    var left := After(t, store, r.cursor);
    PageSplits(t, store, r.cursor, rows, n);
    assert forall x :: x in rows <==> x in left;
    assert forall x :: x in r.out <==> x in Elements(r.out);
    forall i, j | 0 <= i < |r.out| && 0 <= j < n ensures Before(t, r.out[i], rows[j]) {
      assert r.out[i] in Elements(r.out) && rows[j] in left;
    }
    var out := r.out + rows[..n];
    assert Increasing(t, out);
    forall x ensures x in Elements(out) <==> x in UpTo(t, store, Some(rows[n - 1])) - r.missed {
      assert x in out <==> x in r.out || x in rows[..n];
      assert x in rows <==> x in rows[..n] || x in rows[n..];
      assert !(x in rows[..n] && x in rows[n..]);
    }
  }

  lemma {:induction false} ReaderSound(store: Id, table: Table, run: seq<ReadStep>)
    ensures ReaderOk(ReadRun(store, table, run), store)
  {
    if run == [] {
      assert UpTo(table, store, None) == {};
    } else {
      var r := ReadRun(store, table, run[..|run| - 1]);
      ReaderSound(store, table, run[..|run| - 1]);
      match run[|run| - 1]
      case Publish(id, row) => PublishKeepsReader(r, store, id, row);
      case Read(limit) => ReadKeepsReader(r, store, limit);
    }
  }

  /**
   * Whatever the page sizes, and while events keep being published, a reader that resumes from the last identifier it
   * got has received, in order and each once, exactly the store's events up to its cursor, except those published
   * behind it; once a page comes back empty that is the whole store. With nothing published behind it there is no gap
   * at all.
   */
  lemma PagingIsExact(store: Id, table: Table, run: seq<ReadStep>)
    ensures var r := ReadRun(store, table, run);
            && r.missed <= r.table.Keys
            && r.out == Ordered(r.table, UpTo(r.table, store, r.cursor) - r.missed)
            && forall limit :: History(r.table, store, r.cursor, limit) == [] ==>
                 r.out == Ordered(r.table, After(r.table, store, None) - r.missed)
  {
    var r := ReadRun(store, table, run);
    ReaderSound(store, table, run);
    var got := UpTo(r.table, store, r.cursor) - r.missed;
    OrderedMeaning(r.table, got);
    IncreasingUnique(r.table, r.out, Ordered(r.table, got));
    forall limit | History(r.table, store, r.cursor, limit) == []
      ensures UpTo(r.table, store, r.cursor) == After(r.table, store, None) {
      OrderedMeaning(r.table, After(r.table, store, r.cursor));
      assert |After(r.table, store, r.cursor)| == 0;
    }
  }

  /** Every page brings what is left nearer to nothing, so reading a table at rest ends. */
  lemma PagingEnds(store: Id, table: Table, run: seq<ReadStep>, limit: int)
    ensures var r := ReadRun(store, table, run);
            var r' := NextRead(r, store, Read(limit));
            var left := After(r.table, store, r.cursor);
            left != {} ==> |After(r'.table, store, r'.cursor)| < |left|
  {
    ReaderSound(store, table, run);
    ReadKeepsReader(ReadRun(store, table, run), store, limit);
  }

  // ---------- Live delivery ----------

  /** A queue that is full drops its oldest payload to take the new one. */
  function Push(items: seq<Id>, payload: Id): seq<Id> {
    if |items| < QUEUE_SIZE then items + [payload] else items[1..] + [payload]
  }

  /** A subscriber's bounded queue. */
  class BoundedQueue {
    var items: seq<Id>

    constructor ()
      ensures items == []
    {
      items := [];
    }

    method PutNowait(payload: Id) returns (full: bool)
      modifies this
      ensures full == (QUEUE_SIZE <= |old(items)|)
      ensures items == if full then old(items) else old(items) + [payload]
    {
      full := QUEUE_SIZE <= |items|;
      if !full {
        items := items + [payload];
      }
    }

    method GetNowait() returns (payload: Option<Id>)
      modifies this
      ensures payload == if old(items) == [] then None else Some(old(items)[0])
      ensures items == if old(items) == [] then [] else old(items)[1..]
    {
      if items == [] {
        return None;
      }
      payload := Some(items[0]);
      items := items[1..];
    }
  }

  /** The subscribers of the stores. */
  class Hub {
    var subscribers: map<Id, set<BoundedQueue>>

    /** A store without subscribers has no entry. */
    ghost predicate Valid()
      reads this
    {
      forall s :: s in subscribers ==> subscribers[s] != {}
    }

    function Queues(store: Id): set<BoundedQueue>
      reads this
    {
      if store in subscribers then subscribers[store] else {}
    }

    method Subscribe(store: Id) returns (subscriber: BoundedQueue)
      requires Valid()
      modifies this
      ensures Valid() && fresh(subscriber) && subscriber.items == []
      ensures Queues(store) == old(Queues(store)) + {subscriber}
      ensures forall s :: s != store ==> Queues(s) == old(Queues(s))
    {
      subscriber := new BoundedQueue();
      subscribers := subscribers[store := Queues(store) + {subscriber}];
    }

    method Unsubscribe(store: Id, subscriber: BoundedQueue)
      requires Valid()
      modifies this
      ensures Valid()
      ensures Queues(store) == old(Queues(store)) - {subscriber}
      ensures forall s :: s != store ==> Queues(s) == old(Queues(s))
    {
      if store !in subscribers {
        return;
      }
      subscribers := subscribers[store := subscribers[store] - {subscriber}];
      if subscribers[store] == {} {
        subscribers := subscribers - {store};
      }
    }

    /** Every subscriber of the store takes the payload; the queues of other stores are left alone. */
    method Broadcast(store: Id, payload: Id)
      requires forall q :: q in Queues(store) ==> |q.items| <= QUEUE_SIZE
      modifies Queues(store)
      ensures forall q :: q in Queues(store) ==> q.items == Push(old(q.items), payload) && |q.items| <= QUEUE_SIZE
    {
      var left := Queues(store);
      while left != {}
        invariant left <= Queues(store)
        invariant forall q :: q in Queues(store) ==>
                    q.items == if q in left then old(q.items) else Push(old(q.items), payload)
        decreases |left|
      {
        var q :| q in left;
        var full := q.PutNowait(payload);
        if full {
          var dropped := q.GetNowait();
          if dropped.Some? {
            full := q.PutNowait(payload);
          }
        }
        left := left - {q};
      }
    }
  }
}
