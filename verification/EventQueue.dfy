/**
 * One subscriber's queue, operation by operation (app/services/events.py): a broadcast puts, and when the queue is full
 * gets and puts again, holding no lock, so other threads and the reader run in between.
 */
module EventQueue {
  import opened Common
  import opened EventFeed

  /** Where a thread stands inside a broadcast that found the queue full. */
  datatype Progress = Dropping(payload: Id) | Retrying(payload: Id)

  datatype QueueOp = Put(thread: Id, payload: Id) | Drop(thread: Id) | Retry(thread: Id) | Poll

  /**
   * `items` and `inside` are the queue and its threads. The rest is history: payloads in the order their broadcasts
   * began, in the order they entered the queue, in the order they left it (taken by the reader or dropped), those
   * given up without entering, and whether the queue's own error escaped.
   */
  datatype Queue = Queue(
    items: seq<Id>,
    inside: map<Id, Progress>,
    begun: seq<Id>,
    entered: seq<Id>,
    gone: seq<Id>,
    taken: seq<Id>,
    dropped: seq<Id>,
    lost: seq<Id>,
    raised: bool)

  const EMPTY: Queue := Queue([], map[], [], [], [], [], [], [], false)

  predicate IsDropping(q: Queue, thread: Id) {
    thread in q.inside && q.inside[thread].Dropping?
  }

  predicate IsRetrying(q: Queue, thread: Id) {
    thread in q.inside && q.inside[thread].Retrying?
  }

  function Enter(q: Queue, payload: Id): Queue {
    q.(items := q.items + [payload], entered := q.entered + [payload])
  }

  function Leave(q: Queue, thread: Id): Queue {
    q.(inside := Common.Drop(q.inside, thread))
  }

  /** An event is broadcast once, by a thread that is in no other broadcast; other operations are out of place. */
  function NextOp(q: Queue, op: QueueOp): Queue {
    match op
    case Put(t, payload) =>
      if t in q.inside || payload in q.begun then q
      else
        var r := q.(begun := q.begun + [payload]);
        if |q.items| < QUEUE_SIZE then Enter(r, payload) else r.(inside := q.inside[t := Dropping(payload)])
    case Drop(t) =>
      if !IsDropping(q, t) then q
      else
        var payload := q.inside[t].payload;
        if q.items == [] then Leave(q, t).(lost := q.lost + [payload])
        else
          q.(items := q.items[1..], gone := q.gone + [q.items[0]], dropped := q.dropped + [q.items[0]],
             inside := q.inside[t := Retrying(payload)])
    case Retry(t) =>
      if !IsRetrying(q, t) then q
      else
        var payload := q.inside[t].payload;
        if |q.items| < QUEUE_SIZE then Leave(Enter(q, payload), t)
        else Leave(q, t).(lost := q.lost + [payload], raised := true)
    case Poll =>
      if q.items == [] then q
      else q.(items := q.items[1..], gone := q.gone + [q.items[0]], taken := q.taken + [q.items[0]])
  }

  function OpRun(ops: seq<QueueOp>): Queue {
    if ops == [] then EMPTY else NextOp(OpRun(ops[..|ops| - 1]), ops[|ops| - 1])
  }

  /** A broadcast that nothing interrupts does what the queue is meant to do. */
  lemma UninterruptedIsPush(q: Queue, t: Id, x: Id)
    requires t !in q.inside && x !in q.begun && |q.items| <= QUEUE_SIZE
    ensures var r := NextOp(NextOp(NextOp(q, Put(t, x)), Drop(t)), Retry(t));
            r.items == Push(q.items, x) && r.inside == q.inside && r.entered == q.entered + [x]
            && r.lost == q.lost && r.raised == q.raised
            && (if |q.items| < 100 then r.items == q.items + [x] else r.items == q.items[1..] + [x] && |r.items| == 100)
  {
    assert Common.Drop(q.inside[t := Retrying(x)], t) == q.inside;
  }

  // ---------- First in, first out ----------

  /** A list whose elements come from two others, each in its order. */
  predicate Interleaving(xs: seq<Id>, ys: seq<Id>, merged: seq<Id>)
    decreases |merged|
  {
    if merged == [] then xs == [] && ys == []
    else
      var last, front := merged[|merged| - 1], merged[..|merged| - 1];
      || (xs != [] && xs[|xs| - 1] == last && Interleaving(xs[..|xs| - 1], ys, front))
      || (ys != [] && ys[|ys| - 1] == last && Interleaving(xs, ys[..|ys| - 1], front))
  }

  lemma InterleavingGrows(xs: seq<Id>, ys: seq<Id>, merged: seq<Id>, z: Id)
    requires Interleaving(xs, ys, merged)
    ensures Interleaving(xs + [z], ys, merged + [z]) && Interleaving(xs, ys + [z], merged + [z])
  {
    assert (merged + [z])[..|merged|] == merged && (xs + [z])[..|xs|] == xs && (ys + [z])[..|ys|] == ys;
  }

  predicate Fifo(q: Queue) {
    |q.items| <= QUEUE_SIZE && q.gone + q.items == q.entered && Interleaving(q.taken, q.dropped, q.gone)
  }

  lemma StepKeepsFifo(q: Queue, op: QueueOp)
    requires Fifo(q)
    ensures Fifo(NextOp(q, op))
  {
    hide Interleaving;
    if q.items != [] {
      InterleavingGrows(q.taken, q.dropped, q.gone, q.items[0]);
      assert q.gone + [q.items[0]] + q.items[1..] == q.gone + q.items;
    }
  }

  /**
   * Whatever threads broadcast and however they interleave, the queue never holds more than a hundred payloads, and
   * it is the contiguous suffix of what entered it; what precedes was taken or dropped, in order.
   */
  lemma {:induction false} QueueIsFifo(ops: seq<QueueOp>)
    ensures Fifo(OpRun(ops))
  {
    if ops != [] {
      QueueIsFifo(ops[..|ops| - 1]);
      StepKeepsFifo(OpRun(ops[..|ops| - 1]), ops[|ops| - 1]);
    }
  }

  // ---------- Nothing disappears ----------

  predicate Distinct(xs: seq<Id>) {
    forall i, j :: 0 <= i < j < |xs| ==> xs[i] != xs[j]
  }

  /** The payload's broadcast is still under way. */
  predicate Pending(q: Queue, x: Id) {
    exists t :: t in q.inside && q.inside[t].payload == x
  }

  /** Every payload whose broadcast began is pending, has entered, or was given up, and only one of these. */
  ghost predicate Accounted(q: Queue) {
    && Distinct(q.begun) && Distinct(q.entered)
    && (forall t, u :: t in q.inside && u in q.inside && t != u ==> q.inside[t].payload != q.inside[u].payload)
    && (forall x :: x in q.begun <==> x in q.entered || x in q.lost || Pending(q, x))
    && (forall x :: x in q.entered ==> x !in q.lost && !Pending(q, x))
    && (forall x :: x in q.lost ==> !Pending(q, x))
  }

  lemma NewPending(q: Queue, t: Id, x: Id)
    requires t !in q.inside
    ensures var r := q.(inside := q.inside[t := Dropping(x)]);
            forall y :: Pending(r, y) <==> y == x || Pending(q, y)
  {
    var r := q.(inside := q.inside[t := Dropping(x)]);
    forall y ensures Pending(r, y) <==> y == x || Pending(q, y) {
      if y == x {
        assert t in r.inside && r.inside[t].payload == x;
      } else if Pending(q, y) {
        var u :| u in q.inside && q.inside[u].payload == y;
        assert u in r.inside && r.inside[u].payload == y;
      }
    }
  }

  lemma PendingLeaves(q: Queue, t: Id)
    requires t in q.inside
    requires forall u :: u in q.inside && u != t ==> q.inside[u].payload != q.inside[t].payload
    ensures forall y :: Pending(Leave(q, t), y) <==> y != q.inside[t].payload && Pending(q, y)
    ensures Pending(q, q.inside[t].payload)
  {
    var r := Leave(q, t);
    forall y ensures Pending(r, y) <==> y != q.inside[t].payload && Pending(q, y) {
      if y != q.inside[t].payload && Pending(q, y) {
        var u :| u in q.inside && q.inside[u].payload == y;
        assert u in r.inside && r.inside[u].payload == y;
      }
    }
  }

  lemma PendingMoves(q: Queue, t: Id)
    requires t in q.inside
    ensures forall y :: Pending(q.(inside := q.inside[t := Retrying(q.inside[t].payload)]), y) <==> Pending(q, y)
  {
    var r := q.(inside := q.inside[t := Retrying(q.inside[t].payload)]);
    forall y ensures Pending(r, y) <==> Pending(q, y) {
      if Pending(q, y) {
        var u :| u in q.inside && q.inside[u].payload == y;
        assert u in r.inside && r.inside[u].payload == y;
      }
    }
  }

  lemma PutAccounted(q: Queue, t: Id, x: Id)
    requires Accounted(q)
    ensures Accounted(NextOp(q, Put(t, x)))
  {
    if t !in q.inside && x !in q.begun {
      NewPending(q, t, x);
      hide Pending;
      var r := NextOp(q, Put(t, x));
      assert forall y :: y in q.begun + [x] <==> y in q.begun || y == x;
      assert forall y :: y in q.entered + [x] <==> y in q.entered || y == x;
      PendingDepends(q.(inside := q.inside[t := Dropping(x)]), r);
      PendingDepends(q, r);
    }
  }

  /** Only the threads inside matter. */
  lemma PendingDepends(q: Queue, r: Queue)
    ensures q.inside == r.inside ==> forall y :: Pending(q, y) <==> Pending(r, y)
  {
  }

  lemma DropAccounted(q: Queue, t: Id)
    requires Accounted(q)
    ensures Accounted(NextOp(q, Drop(t)))
  {
    if IsDropping(q, t) {
      var r := NextOp(q, Drop(t));
      var x := q.inside[t].payload;
      PendingMoves(q, t);
      PendingLeaves(q, t);
      PendingDepends(Leave(q, t), r);
      PendingDepends(q.(inside := q.inside[t := Retrying(x)]), r);
      hide Pending;
      assert forall y :: y in q.lost + [x] <==> y in q.lost || y == x;
    }
  }

  lemma RetryAccounted(q: Queue, t: Id)
    requires Accounted(q)
    ensures Accounted(NextOp(q, Retry(t)))
  {
    if IsRetrying(q, t) {
      var r := NextOp(q, Retry(t));
      var x := q.inside[t].payload;
      PendingLeaves(q, t);
      PendingDepends(Leave(q, t), r);
      hide Pending;
      assert forall y :: y in q.lost + [x] <==> y in q.lost || y == x;
      assert forall y :: y in q.entered + [x] <==> y in q.entered || y == x;
    }
  }

  lemma {:induction false} NothingDisappears(ops: seq<QueueOp>)
    ensures Accounted(OpRun(ops))
  {
    if ops != [] {
      var q := OpRun(ops[..|ops| - 1]);
      NothingDisappears(ops[..|ops| - 1]);
      match ops[|ops| - 1]
      case Put(t, x) => PutAccounted(q, t, x);
      case Drop(t) => DropAccounted(q, t);
      case Retry(t) => RetryAccounted(q, t);
      case Poll => PendingDepends(q, OpRun(ops));
    }
  }

  // ---------- When a payload is given up ----------

  predicate MeetsEmpty(q: Queue, op: QueueOp) {
    op.Drop? && IsDropping(q, op.thread) && q.items == []
  }

  predicate MeetsFull(q: Queue, op: QueueOp) {
    op.Retry? && IsRetrying(q, op.thread) && QUEUE_SIZE <= |q.items|
  }

  ghost predicate Never(ops: seq<QueueOp>, p: (Queue, QueueOp) -> bool) {
    forall i :: 0 <= i < |ops| ==> !p(OpRun(ops[..i]), ops[i])
  }

  lemma NeverSplits(ops: seq<QueueOp>, p: (Queue, QueueOp) -> bool)
    requires ops != []
    ensures Never(ops, p) <==> Never(ops[..|ops| - 1], p) && !p(OpRun(ops[..|ops| - 1]), ops[|ops| - 1])
  {
    hide OpRun;
    var front := ops[..|ops| - 1];
    assert forall i :: 0 <= i < |front| ==> front[..i] == ops[..i] && front[i] == ops[i];
    if Never(ops, p) {
      assert !p(OpRun(ops[..|ops| - 1]), ops[|ops| - 1]);
    }
  }

  lemma StepGivesUp(q: Queue, op: QueueOp)
    ensures NextOp(q, op).raised <==> q.raised || MeetsFull(q, op)
    ensures NextOp(q, op).lost == [] <==> q.lost == [] && !MeetsEmpty(q, op) && !MeetsFull(q, op)
  {
  }

  /** The queue's error escapes exactly when a second put finds the queue full again. */
  lemma {:induction false} RaisedIff(ops: seq<QueueOp>)
    ensures !OpRun(ops).raised <==> Never(ops, (q, op) => MeetsFull(q, op))
  {
    if ops != [] {
      hide NextOp, MeetsFull, MeetsEmpty, Never;
      NeverSplits(ops, (q, op) => MeetsFull(q, op));
      RaisedIff(ops[..|ops| - 1]);
      StepGivesUp(OpRun(ops[..|ops| - 1]), ops[|ops| - 1]);
    }
  }

  /** A payload is given up exactly when a get finds the queue empty or a second put finds it full. */
  lemma {:induction false} LostIff(ops: seq<QueueOp>)
    ensures OpRun(ops).lost == [] <==> Never(ops, (q, op) => MeetsEmpty(q, op) || MeetsFull(q, op))
  {
    if ops != [] {
      hide NextOp, MeetsFull, MeetsEmpty, Never;
      NeverSplits(ops, (q, op) => MeetsEmpty(q, op) || MeetsFull(q, op));
      LostIff(ops[..|ops| - 1]);
      StepGivesUp(OpRun(ops[..|ops| - 1]), ops[|ops| - 1]);
    }
  }

  // ---------- When a second put finds the queue full ----------

  predicate Enters(q: Queue, op: QueueOp) {
    || (op.Put? && op.thread !in q.inside && op.payload !in q.begun && |q.items| < QUEUE_SIZE)
    || (op.Retry? && IsRetrying(q, op.thread) && |q.items| < QUEUE_SIZE)
  }

  predicate Removes(q: Queue, op: QueueOp) {
    q.items != [] && (op.Poll? || (op.Drop? && IsDropping(q, op.thread)))
  }

  /** How many operations from `from` on satisfy `p` where they happen. */
  ghost function CountFrom(ops: seq<QueueOp>, from: nat, p: (Queue, QueueOp) -> bool): nat {
    if |ops| <= from then 0
    else
      var front := ops[..|ops| - 1];
      CountFrom(front, from, p) + if p(OpRun(front), ops[|ops| - 1]) then 1 else 0
  }

  ghost function Entries(ops: seq<QueueOp>, from: nat): nat {
    CountFrom(ops, from, (q, op) => Enters(q, op))
  }

  ghost function Removals(ops: seq<QueueOp>, from: nat): nat {
    CountFrom(ops, from, (q, op) => Removes(q, op))
  }

  lemma StepFills(q: Queue, op: QueueOp)
    ensures |NextOp(q, op).items|
            == |q.items| + (if Enters(q, op) then 1 else 0) - (if Removes(q, op) then 1 else 0)
  {
  }

  /** The queue's length is a matter of counting. */
  lemma {:induction false} LengthCounts(ops: seq<QueueOp>, from: nat)
    requires from <= |ops|
    ensures |OpRun(ops).items| == |OpRun(ops[..from]).items| + Entries(ops, from) - Removals(ops, from)
  {
    if |ops| == from {
      assert ops[..from] == ops;
    } else {
      hide NextOp, Enters, Removes;
      var front := ops[..|ops| - 1];
      assert front[..from] == ops[..from];
      LengthCounts(front, from);
      StepFills(OpRun(front), ops[|ops| - 1]);
    }
  }

  /** The thread's get took something at `i`, and the thread has been waiting to put again since. */
  ghost predicate WaitsSince(ops: seq<QueueOp>, i: nat, t: Id) {
    && i < |ops| && ops[i] == Drop(t)
    && IsDropping(OpRun(ops[..i]), t) && OpRun(ops[..i]).items != []
    && forall k :: i < k <= |ops| ==> IsRetrying(OpRun(ops[..k]), t)
  }

  lemma StartsWaiting(q: Queue, op: QueueOp, t: Id)
    requires IsRetrying(NextOp(q, op), t)
    ensures IsRetrying(q, t) || (op == Drop(t) && IsDropping(q, t) && q.items != [])
  {
  }

  /** A thread that waits to put again has waited since one of its gets. */
  lemma {:induction false} WaitsSinceSome(ops: seq<QueueOp>, t: Id) returns (i: nat)
    requires IsRetrying(OpRun(ops), t)
    ensures WaitsSince(ops, i, t)
  {
    hide NextOp, IsRetrying, IsDropping;
    i := 0;
    if ops == [] {
      NobodyWaits(t);
    } else {
      var front := ops[..|ops| - 1];
      StartsWaiting(OpRun(front), ops[|ops| - 1], t);
      assert ops[..|ops|] == ops;
      assert forall k :: 0 <= k <= |front| ==> front[..k] == ops[..k];
      if IsRetrying(OpRun(front), t) {
        i := WaitsSinceSome(front, t);
      } else {
        i := |front|;
      }
    }
  }

  lemma NobodyWaits(t: Id)
    ensures !IsRetrying(OpRun([]), t)
  {
  }

  /** Since the get at `i`, so many more payloads entered than left that the queue is full again. */
  ghost predicate Outrun(ops: seq<QueueOp>, i: nat)
    requires i < |ops|
  {
    |OpRun(ops[..i]).items| - 1 + Entries(ops, i + 1) - Removals(ops, i + 1) == QUEUE_SIZE
  }

  /**
   * A second put finds the queue full exactly when, since the thread's get, the other threads' entries exceed the drops
   * and reads by what the get left free; for a get from a full queue, when they exceed them at all.
   */
  lemma RetryMeetsFullIff(ops: seq<QueueOp>, i: nat, t: Id)
    requires WaitsSince(ops, i, t)
    ensures MeetsFull(OpRun(ops), Retry(t)) <==> Outrun(ops, i)
    ensures |OpRun(ops[..i]).items| == QUEUE_SIZE ==>
              (MeetsFull(OpRun(ops), Retry(t)) <==> Removals(ops, i + 1) < Entries(ops, i + 1))
  {
    LengthCounts(ops, i + 1);
    QueueIsFifo(ops);
    assert ops[..i + 1][..i] == ops[..i];
    assert |OpRun(ops[..i + 1]).items| == |OpRun(ops[..i]).items| - 1 by { GetTakes(ops[..i + 1]); }
    assert ops[..|ops|] == ops;
    hide OpRun, Entries, Removals;
  }

  lemma GetTakes(ops: seq<QueueOp>)
    requires ops != [] && ops[|ops| - 1].Drop? && IsDropping(OpRun(ops[..|ops| - 1]), ops[|ops| - 1].thread)
    requires OpRun(ops[..|ops| - 1]).items != []
    ensures |OpRun(ops).items| == |OpRun(ops[..|ops| - 1]).items| - 1
  {
  }

  /** The error escapes exactly when some thread was outrun between its get and its second put. */
  lemma RaisedIffOutrun(ops: seq<QueueOp>)
    ensures OpRun(ops).raised <==>
            exists i, j :: 0 <= i < j < |ops| && ops[j].Retry? && WaitsSince(ops[..j], i, ops[j].thread)
                           && Outrun(ops[..j], i)
  {
    hide OpRun, Outrun, WaitsSince, MeetsFull;
    RaisedIff(ops);
    if OpRun(ops).raised {
      var j :| 0 <= j < |ops| && MeetsFull(OpRun(ops[..j]), ops[j]);
      assert ops[j].Retry? && IsRetrying(OpRun(ops[..j]), ops[j].thread) by { FullMeans(OpRun(ops[..j]), ops[j]); }
      var i := WaitsSinceSome(ops[..j], ops[j].thread);
      assert i < j by { WaitsMeans(ops[..j], i, ops[j].thread); }
      RetryMeetsFullIff(ops[..j], i, ops[j].thread);
      assert ops[j] == Retry(ops[j].thread);
    }
    forall i, j | 0 <= i < j < |ops| && ops[j].Retry? && WaitsSince(ops[..j], i, ops[j].thread) && Outrun(ops[..j], i)
      ensures OpRun(ops).raised {
      RetryMeetsFullIff(ops[..j], i, ops[j].thread);
      assert ops[j] == Retry(ops[j].thread);
      assert MeetsFull(OpRun(ops[..j]), ops[j]);
    }
  }

  lemma FullMeans(q: Queue, op: QueueOp)
    requires MeetsFull(q, op)
    ensures op.Retry? && IsRetrying(q, op.thread)
  {
  }

  lemma WaitsMeans(ops: seq<QueueOp>, i: nat, t: Id)
    requires WaitsSince(ops, i, t)
    ensures i < |ops|
  {
  }

  // ---------- A reader that keeps up ----------

  predicate FindsFull(q: Queue, op: QueueOp) {
    op.Put? && op.thread !in q.inside && op.payload !in q.begun && QUEUE_SIZE <= |q.items|
  }

  /** What the queue shows of whether every put so far found room. */
  ghost predicate Shows(q: Queue, prompt: bool) {
    && (prompt ==> q.inside == map[] && q.dropped == [] && q.lost == [] && q.entered == q.begun)
    && (q.inside == map[] && q.dropped == [] && q.lost == [] ==> prompt)
    && (forall t :: IsRetrying(q, t) ==> q.dropped != [])
  }

  lemma StepShows(q: Queue, op: QueueOp, prompt: bool)
    requires Shows(q, prompt)
    ensures Shows(NextOp(q, op), prompt && !FindsFull(q, op))
  {
    var r := NextOp(q, op);
    if q.inside != map[] && r.inside == map[] {
      var t :| t in q.inside;
      assert t !in r.inside;
      assert IsRetrying(q, t) || IsDropping(q, t);
    }
    forall t | IsRetrying(r, t) ensures r.dropped != [] {
      assert IsRetrying(q, t) || (op == Drop(t) && q.items != []);
    }
  }

  lemma {:induction false} ShowsAlways(ops: seq<QueueOp>)
    ensures Shows(OpRun(ops), Never(ops, (q, op) => FindsFull(q, op)))
  {
    if ops != [] {
      hide Never, Shows, NextOp;
      NeverSplits(ops, (q, op) => FindsFull(q, op));
      ShowsAlways(ops[..|ops| - 1]);
      StepShows(OpRun(ops[..|ops| - 1]), ops[|ops| - 1], Never(ops[..|ops| - 1], (q, op) => FindsFull(q, op)));
    } else {
      assert Never([], (q, op) => FindsFull(q, op));
    }
  }

  /**
   * Once no broadcast is under way, nothing has been dropped or given up exactly when every put found room; the
   * reader has then taken, in order, all that is not still waiting.
   */
  lemma NothingMissingIff(ops: seq<QueueOp>)
    requires OpRun(ops).inside == map[]
    ensures var q, prompt := OpRun(ops), Never(ops, (q, op) => FindsFull(q, op));
            && (q.dropped == [] && q.lost == [] <==> prompt)
            && (prompt ==> q.taken + q.items == q.begun)
  {
    hide OpRun, Never;
    ShowsAlways(ops);
    QueueIsFifo(ops);
    if OpRun(ops).dropped == [] {
      InterleavingWithNone(OpRun(ops).taken, OpRun(ops).gone);
    }
  }

  lemma {:induction false} InterleavingWithNone(xs: seq<Id>, merged: seq<Id>)
    ensures Interleaving(xs, [], merged) ==> xs == merged
    decreases |merged|
  {
    if merged != [] && xs != [] {
      InterleavingWithNone(xs[..|xs| - 1], merged[..|merged| - 1]);
    }
  }

  // ---------- Broadcasts that do not overlap ----------

  /** A broadcast begins only when no other is under way in the queue. */
  predicate Serial(ops: seq<QueueOp>) {
    forall i :: 0 <= i < |ops| && ops[i].Put? ==> OpRun(ops[..i]).inside == map[]
  }

  /** The payloads whose broadcasts are over, in the order they began. */
  function Settled(q: Queue): seq<Id> {
    if q.inside == map[] || q.begun == [] then q.begun else q.begun[..|q.begun| - 1]
  }

  ghost predicate SerialOk(q: Queue, waited: nat) {
    && |q.items| <= QUEUE_SIZE && |q.items| <= |Settled(q)|
    && q.items == Settled(q)[|Settled(q)| - |q.items|..]
    && !q.raised
    && (forall t, u :: t in q.inside && u in q.inside ==> t == u)
    && (forall t :: t in q.inside ==> q.begun != [] && q.inside[t].payload == q.begun[|q.begun| - 1])
    && (forall t :: IsRetrying(q, t) ==> |q.items| < QUEUE_SIZE)
    && (forall t :: IsDropping(q, t) ==> |q.items| == Max(0, QUEUE_SIZE - waited))
  }

  /** Reads since the last put. */
  function Waited(ops: seq<QueueOp>): nat {
    if ops == [] then 0
    else
      match ops[|ops| - 1]
      case Put(_, _) => 0
      case Poll => Waited(ops[..|ops| - 1]) + 1
      case _ => Waited(ops[..|ops| - 1])
  }

  lemma SerialPut(q: Queue, t: Id, x: Id, waited: nat)
    requires SerialOk(q, waited) && q.inside == map[]
    ensures SerialOk(NextOp(q, Put(t, x)), 0)
  {
    if x !in q.begun {
      hide SerialOk, NextOp;
      if |q.items| < QUEUE_SIZE {
        SerialEnters(q, t, x, waited);
      } else {
        SerialFindsFull(q, t, x, waited);
      }
    }
  }

  lemma SerialEnters(q: Queue, t: Id, x: Id, waited: nat)
    requires SerialOk(q, waited) && q.inside == map[] && x !in q.begun && |q.items| < QUEUE_SIZE
    ensures SerialOk(NextOp(q, Put(t, x)), 0)
  {
    var r := NextOp(q, Put(t, x));
    assert r == q.(items := q.items + [x], begun := q.begun + [x], entered := q.entered + [x]);
    hide NextOp;
    SuffixGrows(q.begun, q.items, x);
  }

  lemma SerialFindsFull(q: Queue, t: Id, x: Id, waited: nat)
    requires SerialOk(q, waited) && q.inside == map[] && x !in q.begun && |q.items| >= QUEUE_SIZE
    ensures SerialOk(NextOp(q, Put(t, x)), 0)
  {
    var r := NextOp(q, Put(t, x));
    assert r == q.(begun := q.begun + [x], inside := map[t := Dropping(x)]);
    hide NextOp;
    assert (q.begun + [x])[..|q.begun|] == q.begun;
  }

  lemma SuffixGrows(xs: seq<Id>, suffix: seq<Id>, x: Id)
    requires |suffix| <= |xs| && suffix == xs[|xs| - |suffix|..]
    ensures suffix + [x] == (xs + [x])[|xs + [x]| - |suffix + [x]|..]
  {
  }

  lemma SerialLeave(q: Queue, t: Id, waited: nat)
    requires SerialOk(q, waited) && t in q.inside
    ensures Leave(q, t).inside == map[] && q.begun == Settled(q) + [q.inside[t].payload]
  {
    assert forall u :: u in q.inside ==> u == t;
  }

  lemma SerialDrop(q: Queue, t: Id, waited: nat)
    requires SerialOk(q, waited)
    ensures SerialOk(NextOp(q, Drop(t)), waited)
  {
    if IsDropping(q, t) {
      SerialLeave(q, t, waited);
      var r := NextOp(q, Drop(t));
      assert forall u :: u in r.inside ==> u == t;
    }
  }

  lemma SerialRetry(q: Queue, t: Id, waited: nat)
    requires SerialOk(q, waited)
    ensures SerialOk(NextOp(q, Retry(t)), waited)
  {
    if IsRetrying(q, t) {
      SerialLeave(q, t, waited);
      assert NextOp(q, Retry(t)).inside == map[];
    }
  }

  lemma SerialPoll(q: Queue, waited: nat)
    requires SerialOk(q, waited)
    ensures SerialOk(NextOp(q, Poll), waited + 1)
  {
    var r := NextOp(q, Poll);
    assert r.inside == q.inside && Settled(r) == Settled(q);
    assert forall t :: IsDropping(r, t) <==> IsDropping(q, t);
    assert forall t :: IsRetrying(r, t) <==> IsRetrying(q, t);
  }

  lemma SerialSplits(ops: seq<QueueOp>)
    requires ops != [] && Serial(ops)
    ensures Serial(ops[..|ops| - 1])
    ensures ops[|ops| - 1].Put? ==> OpRun(ops[..|ops| - 1]).inside == map[]
  {
    hide OpRun;
    var front := ops[..|ops| - 1];
    assert forall i :: 0 <= i < |front| ==> front[..i] == ops[..i] && front[i] == ops[i];
  }

  lemma SerialStart()
    ensures SerialOk(OpRun([]), Waited([]))
  {
  }

  lemma LastOp(ops: seq<QueueOp>)
    requires ops != []
    ensures var front, last := ops[..|ops| - 1], ops[|ops| - 1];
            && OpRun(ops) == NextOp(OpRun(front), last)
            && Waited(ops) == (if last.Put? then 0 else if last.Poll? then Waited(front) + 1 else Waited(front))
  {
  }

  lemma SerialStep(q: Queue, op: QueueOp, waited: nat)
    requires SerialOk(q, waited) && (op.Put? ==> q.inside == map[])
    ensures SerialOk(NextOp(q, op), if op.Put? then 0 else if op.Poll? then waited + 1 else waited)
  {
    hide SerialOk, NextOp;
    match op
    case Put(t, x) => SerialPut(q, t, x, waited);
    case Drop(t) => SerialDrop(q, t, waited);
    case Retry(t) => SerialRetry(q, t, waited);
    case Poll => SerialPoll(q, waited);
  }

  lemma {:induction false} SerialRun(ops: seq<QueueOp>)
    requires Serial(ops)
    ensures SerialOk(OpRun(ops), Waited(ops))
  {
    hide Serial, SerialOk, NextOp, OpRun, Waited;
    if ops == [] {
      SerialStart();
    } else {
      SerialSplits(ops);
      SerialRun(ops[..|ops| - 1]);
      LastOp(ops);
      SerialStep(OpRun(ops[..|ops| - 1]), ops[|ops| - 1], Waited(ops[..|ops| - 1]));
    }
  }

  /**
   * When broadcasts do not overlap, however the reader interleaves, the error never escapes, and the queue is the
   * contiguous suffix of the payloads in the order their broadcasts began, leaving out one still under way.
   */
  lemma SerialQueueIsSuffix(ops: seq<QueueOp>)
    requires Serial(ops)
    ensures var q := OpRun(ops);
            !q.raised && |q.items| <= |Settled(q)| && q.items == Settled(q)[|Settled(q)| - |q.items|..]
  {
    hide OpRun;
    SerialRun(ops);
  }

  /** Then a payload is given up exactly when the reader takes a hundred between a put that failed and its get. */
  lemma SerialLostIff(ops: seq<QueueOp>)
    requires Serial(ops)
    ensures OpRun(ops).lost == [] <==>
            forall i :: 0 <= i < |ops| && ops[i].Drop? && IsDropping(OpRun(ops[..i]), ops[i].thread) ==>
              Waited(ops[..i]) < QUEUE_SIZE
  {
    hide OpRun, Waited;
    LostIff(ops);
    forall i | 0 <= i < |ops|
      ensures (MeetsEmpty(OpRun(ops[..i]), ops[i]) || MeetsFull(OpRun(ops[..i]), ops[i])) <==>
              ops[i].Drop? && IsDropping(OpRun(ops[..i]), ops[i].thread) && QUEUE_SIZE <= Waited(ops[..i])
    {
      assert Serial(ops[..i]) by { SerialPrefix(ops, i); }
      SerialRun(ops[..i]);
    }
  }

  lemma SerialPrefix(ops: seq<QueueOp>, n: nat)
    requires Serial(ops) && n <= |ops|
    ensures Serial(ops[..n])
  {
    hide OpRun;
    assert forall i :: 0 <= i < n ==> ops[..n][..i] == ops[..i];
  }

  /** A single thread, which ends each broadcast before the next, never overlaps with itself. */
  lemma {:induction false} OneThreadInside(ops: seq<QueueOp>, t: Id)
    requires forall i :: 0 <= i < |ops| && !ops[i].Poll? ==> ops[i].thread == t
    ensures OpRun(ops).inside.Keys <= {t}
  {
    if ops != [] {
      OneThreadInside(ops[..|ops| - 1], t);
    }
  }

  lemma OneThreadIsSerial(ops: seq<QueueOp>, t: Id)
    requires forall i :: 0 <= i < |ops| && !ops[i].Poll? ==> ops[i].thread == t
    requires forall i :: 0 <= i < |ops| && ops[i].Put? ==> t !in OpRun(ops[..i]).inside
    ensures Serial(ops)
  {
    hide OpRun;
    forall i | 0 <= i < |ops| && ops[i].Put? ensures OpRun(ops[..i]).inside == map[] {
      OneThreadInside(ops[..i], t);
      assert OpRun(ops[..i]).inside.Keys == {};
    }
  }

  // ---------- Broadcasts that do overlap ----------

  lemma Continues(ops: seq<QueueOp>, op: QueueOp)
    ensures OpRun(ops + [op]) == NextOp(OpRun(ops), op)
  {
    assert (ops + [op])[..|ops|] == ops;
  }

  function Fill(n: nat): seq<QueueOp> {
    if n == 0 then [] else Fill(n - 1) + [Put(0, n - 1)]
  }

  predicate Filled(q: Queue, n: nat) {
    && |q.items| == n && q.inside == map[] && q.lost == [] && !q.raised && q.begun == q.entered
    && (forall x :: x in q.begun ==> x < n)
  }

  lemma {:induction false} FillFills(n: nat)
    requires n <= QUEUE_SIZE
    ensures Filled(OpRun(Fill(n)), n)
  {
    if n > 0 {
      hide OpRun;
      FillFills(n - 1);
      Continues(Fill(n - 1), Put(0, n - 1));
    }
  }

  lemma {:induction false} Drains(ops: seq<QueueOp>, n: nat)
    requires n <= |OpRun(ops).items|
    ensures var q, r := OpRun(ops), OpRun(ops + Polls(n));
            |r.items| == |q.items| - n && r.inside == q.inside && r.lost == q.lost
  {
    if n == 0 {
      assert ops + [] == ops;
    } else {
      assert ops + Polls(n - 1) + [Poll] == ops + Polls(n);
      hide OpRun, Polls;
      Drains(ops, n - 1);
      Continues(ops + Polls(n - 1), Poll);
    }
  }

  function Polls(n: nat): seq<QueueOp> {
    if n == 0 then [] else Polls(n - 1) + [Poll]
  }

  /** A full queue, into which thread 1 begins to broadcast. */
  function Contended(): seq<QueueOp> {
    Fill(QUEUE_SIZE) + [Put(1, QUEUE_SIZE)]
  }

  lemma ContendedState()
    ensures var q := OpRun(Contended());
            && |q.items| == QUEUE_SIZE && q.inside == map[1 := Dropping(QUEUE_SIZE)] && q.lost == [] && !q.raised
            && |q.begun| > 0 && q.begun[|q.begun| - 1] == QUEUE_SIZE && QUEUE_SIZE !in q.entered
            && forall x :: x in q.begun ==> x <= QUEUE_SIZE
  {
    hide OpRun;
    FillFills(QUEUE_SIZE);
    Continues(Fill(QUEUE_SIZE), Put(1, QUEUE_SIZE));
  }

  /** A second thread can refill the queue before the first puts again, and the error reaches the first's request. */
  lemma TwoBroadcastersCanRaise()
    ensures OpRun(Contended() + [Drop(1)] + [Put(2, QUEUE_SIZE + 1)] + [Retry(1)]).raised
  {
    hide OpRun, Contended;
    ContendedState();
    Continues(Contended(), Drop(1));
    Continues(Contended() + [Drop(1)], Put(2, QUEUE_SIZE + 1));
    Continues(Contended() + [Drop(1)] + [Put(2, QUEUE_SIZE + 1)], Retry(1));
  }

  /** Or slip in ahead of it, so that the queue is no suffix of the payloads in the order their broadcasts began. */
  lemma SecondCanOvertake()
    ensures var q := OpRun(Contended() + [Drop(1)] + [Put(2, QUEUE_SIZE + 1)] + [Poll] + [Retry(1)]);
            && q.inside == map[] && |q.begun| >= 2 && |q.items| >= 2
            && q.begun[|q.begun| - 2..] == [QUEUE_SIZE, QUEUE_SIZE + 1]
                && q.items[|q.items| - 2..] == [QUEUE_SIZE + 1, QUEUE_SIZE]
  {
    hide OpRun, Contended;
    ContendedState();
    Continues(Contended(), Drop(1));
    Continues(Contended() + [Drop(1)], Put(2, QUEUE_SIZE + 1));
    Continues(Contended() + [Drop(1)] + [Put(2, QUEUE_SIZE + 1)], Poll);
    Continues(Contended() + [Drop(1)] + [Put(2, QUEUE_SIZE + 1)] + [Poll], Retry(1));
  }

  /** A reader that empties the queue before the get makes even a lone broadcast give up the newest payload. */
  lemma DrainedQueueLosesNewest()
    ensures var q := OpRun(Contended() + Polls(QUEUE_SIZE) + [Drop(1)]);
            q.items == [] && q.inside == map[] && q.lost == [QUEUE_SIZE]
  {
    hide OpRun, Contended, Polls;
    ContendedState();
    Drains(Contended(), QUEUE_SIZE);
    Continues(Contended() + Polls(QUEUE_SIZE), Drop(1));
  }
}
