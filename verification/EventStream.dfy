/**
 * What one live stream shows: the history page it starts with, then what its queue delivers (app/services/events.py).
 */
module EventStream {
  import opened Common
  import opened EventFeed
  import opened EventQueue

  // ---------- The frames ----------

  /** The payloads not seen before, in order. */
  function Unseen(polled: seq<Option<Id>>, seen: set<Id>): seq<Id> {
    if polled == [] then []
    else
      var last := polled[|polled| - 1];
      var before := Unseen(polled[..|polled| - 1], seen);
      if last.Some? && last.value !in seen && last.value !in before then before + [last.value] else before
  }

  /** The frames of a stream: the history first, then every polled payload whose identifier is new. */
  method StreamEvents(initial: seq<Id>, polled: seq<Option<Id>>) returns (frames: seq<Id>)
    ensures frames == initial + Unseen(polled, Elements(initial))
  {
    var seen := set x | x in initial;
    frames := initial;
    for i := 0 to |polled|
      invariant frames == initial + Unseen(polled[..i], Elements(initial))
      invariant forall x :: x in seen <==> x in frames
    {
      assert polled[..i + 1][..i] == polled[..i];
      if polled[i].Some? {
        if polled[i].value !in seen {
          seen := seen + {polled[i].value};
          frames := frames + [polled[i].value];
        }
      }
    }
    assert polled[..|polled|] == polled;
  }

  /** The stream emits no identifier twice, and every payload it polled is among its frames. */
  lemma {:induction false} StreamEmitsOnce(initial: seq<Id>, polled: seq<Option<Id>>)
    requires Distinct(initial)
    ensures var frames := initial + Unseen(polled, Elements(initial));
            && Distinct(frames)
            && (forall i :: 0 <= i < |polled| && polled[i].Some? ==> polled[i].value in frames)
            && (forall x :: x in Unseen(polled, Elements(initial)) ==> Some(x) in polled && x !in initial)
  {
    if polled != [] {
      var front, last := polled[..|polled| - 1], polled[|polled| - 1];
      StreamEmitsOnce(initial, front);
      assert polled == front + [last];
      var before := Unseen(front, Elements(initial));
      if last.Some? && last.value !in Elements(initial) && last.value !in before {
        assert last.value !in initial;
        assert initial + (before + [last.value]) == (initial + before) + [last.value];
        assert forall i :: 0 <= i < |initial + before| ==> (initial + before)[i] != last.value;
      }
    }
  }


  // ---------- A run of one stream ----------

  /** The page a stream starts with, and the table and limit it was queried from. */
  datatype Page = Page(table: Table, limit: int, ids: seq<Id>)

  /** `ops` are the operations on the stream's queue since it subscribed, its own reads among them. */
  datatype Stream = Stream(table: Table, page: Option<Page>, ops: Option<seq<QueueOp>>, polled: seq<Option<Id>>)

  /** A row becomes visible when its transaction commits, which may be before or after the event is broadcast. */
  datatype StreamStep = Commit(id: Id, row: Row) | Query(limit: int) | Subscribe | Broadcaster(op: QueueOp) | Read

  /** The history is queried first; the generator subscribes when it starts, and then reads its queue over and over. */
  ghost function NextStream(s: Stream, store: Id, cursor: Option<Id>, step: StreamStep): Stream {
    match step
    case Commit(id, row) => if id in s.table then s else s.(table := s.table[id := row])
    case Query(limit) =>
      if s.page.Some? then s else s.(page := Some(Page(s.table, limit, History(s.table, store, cursor, limit))))
    case Subscribe => if s.page.None? || s.ops.Some? then s else s.(ops := Some([]))
    case Broadcaster(op) => if s.ops.None? || op.Poll? then s else s.(ops := Some(s.ops.value + [op]))
    case Read =>
      if s.ops.None? then s
      else
        var items := OpRun(s.ops.value).items;
        s.(ops := Some(s.ops.value + [Poll]), polled := s.polled + [if items == [] then None else Some(items[0])])
  }

  /** A connection made when `start` is committed, by a client that asks for what comes after `cursor`. */
  ghost function StreamRun(start: Table, store: Id, cursor: Option<Id>, run: seq<StreamStep>): Stream {
    if run == [] then Stream(start, None, None, [])
    else NextStream(StreamRun(start, store, cursor, run[..|run| - 1]), store, cursor, run[|run| - 1])
  }

  /** The identifiers of the frames sent so far. */
  function Frames(s: Stream): seq<Id> {
    if s.page.None? || s.ops.None? then []
    else s.page.value.ids + Unseen(s.polled, Elements(s.page.value.ids))
  }

  /** The payloads among what was polled. */
  function Received(polled: seq<Option<Id>>): seq<Id> {
    if polled == [] then []
    else
      var last := polled[|polled| - 1];
      Received(polled[..|polled| - 1]) + if last.Some? then [last.value] else []
  }

  ghost predicate StreamOk(s: Stream, store: Id, cursor: Option<Id>) {
    && (s.page.Some? ==> var p := s.page.value; p.ids == History(p.table, store, cursor, p.limit))
    && (s.ops.None? ==> s.polled == [])
    && (s.ops.Some? ==> s.page.Some? && Received(s.polled) == OpRun(s.ops.value).taken)
  }

  lemma StepKeepsStream(s: Stream, store: Id, cursor: Option<Id>, step: StreamStep)
    requires StreamOk(s, store, cursor)
    ensures StreamOk(NextStream(s, store, cursor, step), store, cursor)
  {
    hide History;
    if s.ops.Some? {
      hide OpRun;
      var ops := s.ops.value;
      match step
      case Broadcaster(op) => Continues(ops, op);
      case Read =>
        Continues(ops, Poll);
        var r := NextStream(s, store, cursor, step).polled;
        assert r[..|r| - 1] == s.polled;
      case _ =>
    } else if step.Subscribe? {
      NothingYet();
    }
  }

  lemma NothingYet()
    ensures Received([]) == OpRun([]).taken
  {
  }

  lemma {:induction false} StreamSound(start: Table, store: Id, cursor: Option<Id>, run: seq<StreamStep>)
    ensures StreamOk(StreamRun(start, store, cursor, run), store, cursor)
  {
    if run != [] {
      hide StreamOk, NextStream;
      StreamSound(start, store, cursor, run[..|run| - 1]);
      StepKeepsStream(StreamRun(start, store, cursor, run[..|run| - 1]), store, cursor, run[|run| - 1]);
    } else {
      assert Received([]) == OpRun([]).taken;
    }
  }

  lemma {:induction false} ReceivedMeaning(polled: seq<Option<Id>>, x: Id)
    ensures x in Received(polled) <==> Some(x) in polled
  {
    if polled != [] {
      var front, last := polled[..|polled| - 1], polled[|polled| - 1];
      ReceivedMeaning(front, x);
      assert polled == front + [last];
    }
  }

  // ---------- Which events a stream shows ----------

  lemma {:induction false} InterleavingMembers(xs: seq<Id>, ys: seq<Id>, merged: seq<Id>, x: Id)
    requires Interleaving(xs, ys, merged)
    ensures x in merged <==> x in xs || x in ys
    ensures |merged| == |xs| + |ys|
    decreases |merged|
  {
    if merged != [] {
      var last, front := merged[|merged| - 1], merged[..|merged| - 1];
      assert merged == front + [last];
      if xs != [] && xs[|xs| - 1] == last && Interleaving(xs[..|xs| - 1], ys, front) {
        InterleavingMembers(xs[..|xs| - 1], ys, front, x);
        assert xs == xs[..|xs| - 1] + [last];
      } else {
        InterleavingMembers(xs, ys[..|ys| - 1], front, x);
        assert ys == ys[..|ys| - 1] + [last];
      }
    }
  }

  /** What is merged without repetition comes from one side only. */
  lemma {:induction false} InterleavingApart(xs: seq<Id>, ys: seq<Id>, merged: seq<Id>, x: Id)
    requires Interleaving(xs, ys, merged) && Distinct(merged) && x in xs
    ensures x !in ys
    decreases |merged|
  {
    var last, front := merged[|merged| - 1], merged[..|merged| - 1];
    assert merged == front + [last];
    assert last !in front;
    if xs != [] && xs[|xs| - 1] == last && Interleaving(xs[..|xs| - 1], ys, front) {
      assert xs == xs[..|xs| - 1] + [last];
      InterleavingMembers(xs[..|xs| - 1], ys, front, last);
      if x != last {
        InterleavingApart(xs[..|xs| - 1], ys, front, x);
      }
    } else {
      assert ys == ys[..|ys| - 1] + [last];
      InterleavingMembers(xs, ys[..|ys| - 1], front, last);
      InterleavingApart(xs, ys[..|ys| - 1], front, x);
    }
  }

  /** The payload's broadcast is over, it was neither given up nor dropped, and it does not wait any more. */
  predicate Delivered(q: Queue, x: Id) {
    x in q.begun && !Pending(q, x) && x !in q.lost && x !in q.dropped && x !in q.items
  }

  /** What the reader took is what entered, was not dropped, and is not waiting. */
  lemma TakenIff(ops: seq<QueueOp>, x: Id)
    ensures var q := OpRun(ops);
            x in q.taken <==> Delivered(q, x)
  {
    hide OpRun, Interleaving, Pending;
    var q := OpRun(ops);
    QueueIsFifo(ops);
    NothingDisappears(ops);
    InterleavingMembers(q.taken, q.dropped, q.gone, x);
    assert x in q.entered <==> x in q.gone || x in q.items;
    assert Distinct(q.gone) by {
      assert forall i :: 0 <= i < |q.gone| ==> q.gone[i] == q.entered[i];
    }
    if x in q.taken {
      InterleavingApart(q.taken, q.dropped, q.gone, x);
      var i :| 0 <= i < |q.gone| && q.gone[i] == x;
      assert q.entered[i] == x;
      assert forall j :: 0 <= j < |q.items| ==> q.entered[|q.gone| + j] == q.items[j];
    }
  }

  lemma PageDistinct(t: Table, store: Id, cursor: Option<Id>, limit: int)
    ensures Distinct(History(t, store, cursor, limit))
    ensures forall x :: x in History(t, store, cursor, limit) ==> x in After(t, store, cursor)
    ensures |After(t, store, cursor)| <= PageSize(limit) ==>
            Elements(History(t, store, cursor, limit)) == After(t, store, cursor)
  {
    hide After;
    var left := After(t, store, cursor);
    var rows := Ordered(t, left);
    OrderedMeaning(t, left);
    assert forall x :: x in rows <==> x in Elements(rows);
    if |left| <= PageSize(limit) {
      assert rows[..|rows|] == rows;
    }
  }

  /**
   * Through any run of commits, queries, broadcasts by any threads and reads, a stream shows an event if and only if
   * it was on the history page, or its broadcast reached the queue after the subscription and has neither been given
   * up nor dropped, and the reader got to it. It shows each event once.
   */
  lemma StreamShowsIff(start: Table, store: Id, cursor: Option<Id>, run: seq<StreamStep>, x: Id)
    requires StreamRun(start, store, cursor, run).ops.Some?
    ensures var s := StreamRun(start, store, cursor, run);
            var q := OpRun(s.ops.value);
            && s.page.Some? && s.page.value.ids == History(s.page.value.table, store, cursor, s.page.value.limit)
            && Distinct(Frames(s))
            && (x in Frames(s) <==> x in s.page.value.ids || Delivered(q, x))
  {
    hide StreamRun, OpRun, Pending, History;
    var s := StreamRun(start, store, cursor, run);
    StreamSound(start, store, cursor, run);
    var ids := s.page.value.ids;
    PageDistinct(s.page.value.table, store, cursor, s.page.value.limit);
    StreamEmitsOnce(ids, s.polled);
    ReceivedMeaning(s.polled, x);
    TakenIff(s.ops.value, x);
  }

  /**
   * Nothing committed before the query is missed when the page was not cut: the only events after the cursor a stream
   * can miss are those committed after its query whose broadcast it did not receive.
   */
  lemma OnlyLaterOnesMissed(start: Table, store: Id, cursor: Option<Id>, run: seq<StreamStep>, x: Id)
    requires var s := StreamRun(start, store, cursor, run);
             s.ops.Some? && s.page.Some? && |After(s.page.value.table, store, cursor)| <= PageSize(s.page.value.limit)
    requires x !in Frames(StreamRun(start, store, cursor, run))
    ensures var s := StreamRun(start, store, cursor, run);
            x !in After(s.page.value.table, store, cursor) && x !in OpRun(s.ops.value).taken
  {
    hide StreamRun, OpRun, After, History, Pending;
    var s := StreamRun(start, store, cursor, run);
    StreamSound(start, store, cursor, run);
    PageDistinct(s.page.value.table, store, cursor, s.page.value.limit);
    StreamShowsIff(start, store, cursor, run, x);
    TakenIff(s.ops.value, x);
  }

  // ---------- In which order ----------

  /** The elements of `xs` occur in `ys` in the same order. */
  predicate Subsequence(xs: seq<Id>, ys: seq<Id>)
    decreases |ys|
  {
    if xs == [] then true
    else if ys == [] then false
    else
      || (xs[|xs| - 1] == ys[|ys| - 1] && Subsequence(xs[..|xs| - 1], ys[..|ys| - 1]))
      || Subsequence(xs, ys[..|ys| - 1])
  }

  lemma SubsequenceGrows(xs: seq<Id>, ys: seq<Id>, z: Id)
    requires Subsequence(xs, ys)
    ensures Subsequence(xs, ys + [z]) && Subsequence(xs + [z], ys + [z])
  {
    assert (xs + [z])[..|xs|] == xs && (ys + [z])[..|ys|] == ys;
  }

  lemma {:induction false} SubsequenceExtends(xs: seq<Id>, ys: seq<Id>, zs: seq<Id>)
    requires Subsequence(xs, ys)
    ensures Subsequence(xs, ys + zs)
  {
    if zs == [] {
      assert ys + zs == ys;
    } else {
      var front := zs[..|zs| - 1];
      SubsequenceExtends(xs, ys, front);
      SubsequenceGrows(xs, ys + front, zs[|zs| - 1]);
      assert ys + front + [zs[|zs| - 1]] == ys + zs;
    }
  }

  lemma {:induction false} SubsequenceChains(xs: seq<Id>, ys: seq<Id>, zs: seq<Id>)
    requires Subsequence(xs, ys) && Subsequence(ys, zs)
    ensures Subsequence(xs, zs)
    decreases |ys| + |zs|
  {
    if xs != [] {
      if ys[|ys| - 1] == zs[|zs| - 1] && Subsequence(ys[..|ys| - 1], zs[..|zs| - 1]) {
        if xs[|xs| - 1] == ys[|ys| - 1] && Subsequence(xs[..|xs| - 1], ys[..|ys| - 1]) {
          SubsequenceChains(xs[..|xs| - 1], ys[..|ys| - 1], zs[..|zs| - 1]);
        } else {
          SubsequenceChains(xs, ys[..|ys| - 1], zs[..|zs| - 1]);
        }
      } else {
        SubsequenceChains(xs, ys, zs[..|zs| - 1]);
      }
    }
  }

  lemma {:induction false} InterleavingSubsequence(xs: seq<Id>, ys: seq<Id>, merged: seq<Id>)
    requires Interleaving(xs, ys, merged)
    ensures Subsequence(xs, merged)
    decreases |merged|
  {
    if merged != [] {
      var last, front := merged[|merged| - 1], merged[..|merged| - 1];
      assert merged == front + [last];
      if xs != [] && xs[|xs| - 1] == last && Interleaving(xs[..|xs| - 1], ys, front) {
        InterleavingSubsequence(xs[..|xs| - 1], ys, front);
        SubsequenceGrows(xs[..|xs| - 1], front, last);
        assert xs[..|xs| - 1] + [last] == xs;
      } else {
        InterleavingSubsequence(xs, ys[..|ys| - 1], front);
      }
    }
  }

  lemma {:induction false} UnseenSubsequence(polled: seq<Option<Id>>, seen: set<Id>)
    ensures Subsequence(Unseen(polled, seen), Received(polled))
  {
    if polled != [] {
      var front, last := polled[..|polled| - 1], polled[|polled| - 1];
      UnseenSubsequence(front, seen);
      if last.Some? {
        SubsequenceGrows(Unseen(front, seen), Received(front), last.value);
      } else {
        assert Received(front) + [] == Received(front);
      }
    }
  }

  /** Serial broadcasts enter the queue in the order they began, those given up left out. */
  lemma {:induction false} SerialEntersInOrder(ops: seq<QueueOp>)
    requires Serial(ops)
    ensures Subsequence(OpRun(ops).entered, Settled(OpRun(ops)))
  {
    if ops != [] {
      hide Subsequence, OpRun;
      var front, last := ops[..|ops| - 1], ops[|ops| - 1];
      var q, r := OpRun(front), OpRun(ops);
      SerialSplits(ops);
      SerialEntersInOrder(front);
      SerialRun(front);
      assert ops == front + [last];
      Continues(front, last);
      EntersInOrder(q, last, Waited(front));
    } else {
      assert OpRun([]).entered == [];
    }
  }

  lemma PutEntersInOrder(q: Queue, t: Id, x: Id)
    requires q.inside == map[] && Subsequence(q.entered, q.begun)
    ensures Subsequence(NextOp(q, Put(t, x)).entered, Settled(NextOp(q, Put(t, x))))
  {
    hide Subsequence;
    if x !in q.begun {
      SubsequenceGrows(q.entered, q.begun, x);
      assert (q.begun + [x])[..|q.begun|] == q.begun;
    }
  }

  lemma LeaverEntersInOrder(q: Queue, op: QueueOp, waited: nat)
    requires SerialOk(q, waited) && (op.Drop? || op.Retry?) && Subsequence(q.entered, Settled(q))
    ensures Subsequence(NextOp(q, op).entered, Settled(NextOp(q, op)))
  {
    hide Subsequence;
    if (op.Drop? && IsDropping(q, op.thread)) || (op.Retry? && IsRetrying(q, op.thread)) {
      SerialLeave(q, op.thread, waited);
      SubsequenceGrows(q.entered, Settled(q), q.inside[op.thread].payload);
      hide SerialOk;
    }
  }

  lemma EntersInOrder(q: Queue, op: QueueOp, waited: nat)
    requires SerialOk(q, waited) && (op.Put? ==> q.inside == map[]) && Subsequence(q.entered, Settled(q))
    ensures Subsequence(NextOp(q, op).entered, Settled(NextOp(q, op)))
  {
    hide Subsequence, SerialOk;
    match op
    case Put(t, x) => PutEntersInOrder(q, t, x);
    case Poll =>
    case _ => LeaverEntersInOrder(q, op, waited);
  }

  /**
   * The live frames come in the order their payloads entered the queue, and, when broadcasts do not overlap, in the
   * order the broadcasts began.
   */
  lemma StreamKeepsOrder(start: Table, store: Id, cursor: Option<Id>, run: seq<StreamStep>)
    requires StreamRun(start, store, cursor, run).ops.Some?
    ensures var s := StreamRun(start, store, cursor, run);
            var q := OpRun(s.ops.value);
            && s.page.Some? && s.page.value.ids <= Frames(s)
            && Subsequence(Frames(s)[|s.page.value.ids|..], q.entered)
            && (Serial(s.ops.value) ==> Subsequence(Frames(s)[|s.page.value.ids|..], Settled(q)))
  {
    hide StreamRun, OpRun, Interleaving, Subsequence, History;
    var s := StreamRun(start, store, cursor, run);
    StreamSound(start, store, cursor, run);
    var q, ids := OpRun(s.ops.value), s.page.value.ids;
    var live := Unseen(s.polled, Elements(ids));
    assert Frames(s)[|ids|..] == live;
    UnseenSubsequence(s.polled, Elements(ids));
    QueueIsFifo(s.ops.value);
    InterleavingSubsequence(q.taken, q.dropped, q.gone);
    SubsequenceExtends(q.taken, q.gone, q.items);
    SubsequenceChains(live, q.taken, q.entered);
    if Serial(s.ops.value) {
      SerialEntersInOrder(s.ops.value);
      SubsequenceChains(live, q.entered, Settled(q));
    }
  }
}
