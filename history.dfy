/** Sequences of calls on an RRQueue and what they return.

    Run replays a list of Enqueue and Dequeue calls, each atomic, against the
    multi-lane state of module Lanes. RunLane is an independent reference: a
    single plain FIFO queue. The lemmas here show that each lane of an RRQueue
    behaves exactly like that single queue fed with the calls addressed to it
    (isolation), that items come out in the order they went in (FIFO), that
    no item is lost or duplicated (conservation), and that calls on different
    lanes can be reordered without anyone noticing (independence).
 */
module History {
  import opened Lanes

  /** One call on the queue. */
  datatype Op<T> = EnqueueOp(pr: nat, item: T) | DequeueOp(pr: nat)

  /** What one call returns: Enqueue's error, or Dequeue's item or error. */
  datatype Reply<T> = EnqueueReply(err: Option<Error>) | DequeueReply(result: Dequeued<T>)

  /** Every call addresses one of the `n` priorities. */
  predicate InRange<T>(ops: seq<Op<T>>, n: nat)
  {
    forall i :: 0 <= i < |ops| ==> ops[i].pr < n
  }

  /** One atomic call on the multi-lane state. */
  function Step<T>(lanes: seq<seq<T>>, op: Op<T>): (Reply<T>, seq<seq<T>>)
    requires op.pr < |lanes|
  {
    match op
    case EnqueueOp(pr, x) => (EnqueueReply(None), Enqueue(lanes, pr, x))
    case DequeueOp(pr) => (DequeueReply(Dequeue(lanes, pr).0), Dequeue(lanes, pr).1)
  }

  /** The replies to `ops`, one per call, and the state after all of them. */
  function Run<T>(lanes: seq<seq<T>>, ops: seq<Op<T>>): (r: (seq<Reply<T>>, seq<seq<T>>))
    requires InRange(ops, |lanes|)
    ensures |r.0| == |ops|
    ensures |r.1| == |lanes|
    decreases |ops|
  {
    if ops == [] then ([], lanes)
    else
      var after := Step(lanes, ops[0]).1;
      var rest := Run(after, ops[1..]);
      ([Step(lanes, ops[0]).0] + rest.0, rest.1)
  }

  /** The reference: one call on a single FIFO queue, whatever lane it names. */
  function LaneStep<T>(lane: seq<T>, op: Op<T>): (Reply<T>, seq<T>)
  {
    match op
    case EnqueueOp(_, x) => (EnqueueReply(None), lane + [x])
    case DequeueOp(_) =>
      if lane == [] then (DequeueReply(Err(ErrQueueEmpty)), lane)
      else (DequeueReply(Ok(lane[0])), lane[1..])
  }

  function RunLane<T>(lane: seq<T>, ops: seq<Op<T>>): (r: (seq<Reply<T>>, seq<T>))
    ensures |r.0| == |ops|
    decreases |ops|
  {
    if ops == [] then ([], lane)
    else
      var rest := RunLane(LaneStep(lane, ops[0]).1, ops[1..]);
      ([LaneStep(lane, ops[0]).0] + rest.0, rest.1)
  }

  /** The calls of `ops` addressed to priority `q`, in order. */
  function OnLane<T>(ops: seq<Op<T>>, q: nat): seq<Op<T>>
  {
    if ops == [] then []
    else (if ops[0].pr == q then [ops[0]] else []) + OnLane(ops[1..], q)
  }

  /** The replies to the calls of `ops` addressed to priority `q`, in order. */
  function RepliesOn<T>(replies: seq<Reply<T>>, ops: seq<Op<T>>, q: nat): seq<Reply<T>>
    requires |replies| == |ops|
  {
    if ops == [] then []
    else (if ops[0].pr == q then [replies[0]] else []) + RepliesOn(replies[1..], ops[1..], q)
  }

  /** One multi-lane step acts on its own lane as the reference does and
      leaves every other lane alone. */
  lemma StepOnLane<T>(lanes: seq<seq<T>>, op: Op<T>, q: nat)
    requires op.pr < |lanes| && q < |lanes|
    ensures op.pr == q ==> Step(lanes, op).0 == LaneStep(lanes[q], op).0
    ensures op.pr == q ==> Step(lanes, op).1[q] == LaneStep(lanes[q], op).1
    ensures op.pr != q ==> Step(lanes, op).1[q] == lanes[q]
  {
  }

  /** Isolation: lane `q` of an RRQueue sees exactly what a lone FIFO queue
      would see if it received only the calls addressed to `q` — the same
      replies and the same final contents, whatever other lanes receive. */
  lemma {:induction false} Isolation<T>(lanes: seq<seq<T>>, ops: seq<Op<T>>, q: nat)
    requires InRange(ops, |lanes|) && q < |lanes|
    ensures Run(lanes, ops).1[q] == RunLane(lanes[q], OnLane(ops, q)).1
    ensures RepliesOn(Run(lanes, ops).0, ops, q) == RunLane(lanes[q], OnLane(ops, q)).0
    decreases |ops|
  {
    if ops != [] {
      var after := Step(lanes, ops[0]).1;
      assert InRange(ops[1..], |after|);
      StepOnLane(lanes, ops[0], q);
      Isolation(after, ops[1..], q);
      assert Run(lanes, ops).0[1..] == Run(after, ops[1..]).0;
      if ops[0].pr == q {
        assert OnLane(ops, q) == [ops[0]] + OnLane(ops[1..], q);
        assert OnLane(ops, q)[1..] == OnLane(ops[1..], q);
      } else {
        assert OnLane(ops, q) == OnLane(ops[1..], q);
      }
    }
  }

  /** A lane that no call ever enqueues to stays empty, and every Dequeue
      addressed to it fails with ErrQueueEmpty. */
  lemma {:induction false} NeverEnqueuedLane<T>(ops: seq<Op<T>>)
    requires forall i :: 0 <= i < |ops| ==> ops[i].DequeueOp?
    ensures RunLane([], ops).1 == []
    ensures forall i :: 0 <= i < |ops| ==> RunLane([], ops).0[i] == DequeueReply(Err(ErrQueueEmpty))
  {
    if ops != [] {
      NeverEnqueuedLane(ops[1..]);
    }
  }

  lemma {:induction false} OnLaneOnlyDequeues<T>(ops: seq<Op<T>>, q: nat)
    requires forall i :: 0 <= i < |ops| ==> !(ops[i].EnqueueOp? && ops[i].pr == q)
    ensures forall i :: 0 <= i < |OnLane(ops, q)| ==> OnLane(ops, q)[i].DequeueOp?
  {
    if ops != [] {
      OnLaneOnlyDequeues(ops[1..], q);
    }
  }

  /** On a fresh RRQueue, a priority that nobody enqueues to only ever answers
      Dequeue with ErrQueueEmpty, and its lane is still empty at the end. */
  lemma DequeueWithoutEnqueue<T>(n: nat, ops: seq<Op<T>>, q: nat)
    requires InRange(ops, n) && q < n
    requires forall i :: 0 <= i < |ops| ==> !(ops[i].EnqueueOp? && ops[i].pr == q)
    ensures Run(Empty(n), ops).1[q] == []
    ensures forall i :: 0 <= i < |RepliesOn(Run(Empty(n), ops).0, ops, q)| ==>
              RepliesOn(Run(Empty(n), ops).0, ops, q)[i] == DequeueReply(Err(ErrQueueEmpty))
  {
    Isolation(Empty(n), ops, q);
    OnLaneOnlyDequeues(ops, q);
    NeverEnqueuedLane(OnLane(ops, q));
  }

  /** Running two lists of calls back to back. */
  lemma {:induction false} RunAppend<T>(lanes: seq<seq<T>>, a: seq<Op<T>>, b: seq<Op<T>>)
    requires InRange(a, |lanes|) && InRange(b, |lanes|)
    ensures InRange(a + b, |lanes|)
    ensures Run(lanes, a + b).0 == Run(lanes, a).0 + Run(Run(lanes, a).1, b).0
    ensures Run(lanes, a + b).1 == Run(Run(lanes, a).1, b).1
    decreases |a|
  {
    if a != [] {
      var after := Step(lanes, a[0]).1;
      assert (a + b)[0] == a[0] && (a + b)[1..] == a[1..] + b;
      assert InRange(a[1..], |after|);
      RunAppend(after, a[1..], b);
    } else {
      assert a + b == b;
    }
  }

  /** Enqueueing each of `xs`, in order, to priority `pr`. */
  function Enqueues<T>(pr: nat, xs: seq<T>): (ops: seq<Op<T>>)
    ensures |ops| == |xs|
  {
    seq(|xs|, i requires 0 <= i < |xs| => EnqueueOp(pr, xs[i]))
  }

  /** `k` calls of Dequeue on priority `pr`. */
  function Dequeues<T>(pr: nat, k: nat): (ops: seq<Op<T>>)
    ensures |ops| == k
  {
    seq(k, _ => DequeueOp(pr))
  }

  /** The replies of `k` successful Enqueue calls. */
  function EnqueueOks<T>(k: nat): seq<Reply<T>>
  {
    seq(k, _ => EnqueueReply(None))
  }

  /** The replies of Dequeue calls that hand out `xs`, in order. */
  function DequeueOks<T>(xs: seq<T>): seq<Reply<T>>
  {
    seq(|xs|, i requires 0 <= i < |xs| => DequeueReply(Ok(xs[i])))
  }

  /** Enqueueing `xs` appends all of it, in order, to lane `pr` alone; every
      call succeeds. */
  lemma {:induction false} RunEnqueues<T>(lanes: seq<seq<T>>, pr: nat, xs: seq<T>)
    requires pr < |lanes|
    ensures InRange(Enqueues(pr, xs), |lanes|)
    ensures Run(lanes, Enqueues(pr, xs)) == (EnqueueOks(|xs|), lanes[pr := lanes[pr] + xs])
    decreases |xs|
  {
    var ops := Enqueues(pr, xs);
    if xs == [] {
      assert lanes[pr] + xs == lanes[pr];
      assert lanes[pr := lanes[pr] + xs] == lanes;
      assert ops == [] && EnqueueOks<T>(0) == [];
    } else {
      var after := Enqueue(lanes, pr, xs[0]);
      assert ops[0] == EnqueueOp(pr, xs[0]);
      assert ops[1..] == Enqueues(pr, xs[1..]);
      RunEnqueues(after, pr, xs[1..]);
      assert after[pr := after[pr] + xs[1..]] == lanes[pr := lanes[pr] + xs] by {
        assert after[pr] + xs[1..] == lanes[pr] + xs;
      }
      assert EnqueueOks<T>(|xs|) == [EnqueueReply(None)] + EnqueueOks(|xs| - 1);
    }
  }

  /** Dequeueing once per item of lane `pr` hands out that lane's items in
      order and leaves it empty; other lanes are untouched. */
  lemma {:induction false} RunDrain<T>(lanes: seq<seq<T>>, pr: nat)
    requires pr < |lanes|
    ensures InRange(Dequeues<T>(pr, |lanes[pr]|), |lanes|)
    ensures Run(lanes, Dequeues(pr, |lanes[pr]|)) == (DequeueOks(lanes[pr]), lanes[pr := []])
    decreases |lanes[pr]|
  {
    var ops := Dequeues<T>(pr, |lanes[pr]|);
    if lanes[pr] == [] {
      assert lanes[pr := []] == lanes;
      assert ops == [] && DequeueOks<T>([]) == [];
    } else {
      var x := lanes[pr][0];
      var after := lanes[pr := lanes[pr][1..]];
      assert Step(lanes, ops[0]) == (DequeueReply(Ok(x)), after);
      assert ops[1..] == Dequeues(pr, |after[pr]|);
      RunDrain(after, pr);
      assert Run(lanes, ops).0 == [DequeueReply(Ok(x))] + DequeueOks(after[pr]);
      assert Run(lanes, ops).1 == after[pr := []];
      assert after[pr := []] == lanes[pr := []];
      assert DequeueOks(lanes[pr]) == [DequeueReply(Ok(x))] + DequeueOks(after[pr]);
    }
  }

  /** One Dequeue more than lane `pr` holds: its items in order, then
      ErrQueueEmpty. */
  lemma DrainThenFail<T>(lanes: seq<seq<T>>, pr: nat)
    requires pr < |lanes|
    ensures InRange(Dequeues<T>(pr, |lanes[pr]| + 1), |lanes|)
    ensures Run(lanes, Dequeues(pr, |lanes[pr]| + 1))
            == (DequeueOks(lanes[pr]) + [DequeueReply(Err(ErrQueueEmpty))], lanes[pr := []])
  {
    var k := |lanes[pr]|;
    var drained := lanes[pr := []];
    var last: seq<Op<T>> := [DequeueOp(pr)];
    RunDrain(lanes, pr);
    assert Dequeues<T>(pr, k + 1) == Dequeues(pr, k) + last;
    assert InRange(last, |lanes|);
    RunAppend(lanes, Dequeues(pr, k), last);
    assert drained[pr] == [] && last[1..] == [];
    assert Step(drained, last[0]) == (DequeueReply(Err(ErrQueueEmpty)), drained);
    assert Run(drained, last[1..]) == ([], drained);
    assert Run(drained, last).0 == [Step(drained, last[0]).0] + Run(Step(drained, last[0]).1, last[1..]).0;
    assert Run(drained, last).0 == [DequeueReply(Err(ErrQueueEmpty))];
    assert Run(drained, last).1 == drained;
  }

  /** Draining lane `pr` once it has been extended by `xs`. */
  lemma DrainExtended<T>(lanes: seq<seq<T>>, pr: nat, xs: seq<T>)
    requires pr < |lanes|
    ensures InRange(Dequeues<T>(pr, |lanes[pr]| + |xs| + 1), |lanes|)
    ensures Run(lanes[pr := lanes[pr] + xs], Dequeues(pr, |lanes[pr]| + |xs| + 1))
            == (DequeueOks(lanes[pr] + xs) + [DequeueReply(Err(ErrQueueEmpty))], lanes[pr := []])
  {
    var filled := lanes[pr := lanes[pr] + xs];
    assert filled[pr] == lanes[pr] + xs;
    DrainThenFail(filled, pr);
    assert filled[pr := []] == lanes[pr := []];
  }

  /** FIFO, end to end: after enqueueing `xs` to priority `pr`, dequeueing from
      `pr` hands out first what was already there, then `xs` in the order it
      went in, then fails with ErrQueueEmpty; the lane ends empty and no other
      lane changes. */
  lemma Fifo<T>(lanes: seq<seq<T>>, pr: nat, xs: seq<T>)
    requires pr < |lanes|
    ensures InRange(Enqueues(pr, xs) + Dequeues(pr, |lanes[pr]| + |xs| + 1), |lanes|)
    ensures Run(lanes, Enqueues(pr, xs) + Dequeues(pr, |lanes[pr]| + |xs| + 1))
            == (EnqueueOks(|xs|) + (DequeueOks(lanes[pr] + xs) + [DequeueReply(Err(ErrQueueEmpty))]),
                lanes[pr := []])
  {
    RunEnqueues(lanes, pr, xs);
    DrainExtended(lanes, pr, xs);
    RunAppend(lanes, Enqueues(pr, xs), Dequeues(pr, |lanes[pr]| + |xs| + 1));
  }

  /** FIFO on a lane that starts empty: the items come back exactly as `xs`,
      and then the lane reports ErrQueueEmpty with the state as it began. */
  lemma FifoFromEmpty<T>(lanes: seq<seq<T>>, pr: nat, xs: seq<T>)
    requires pr < |lanes| && lanes[pr] == []
    ensures InRange(Enqueues(pr, xs) + Dequeues(pr, |xs| + 1), |lanes|)
    ensures Run(lanes, Enqueues(pr, xs) + Dequeues(pr, |xs| + 1))
            == (EnqueueOks(|xs|) + (DequeueOks(xs) + [DequeueReply(Err(ErrQueueEmpty))]), lanes)
  {
    var ops := Enqueues(pr, xs) + Dequeues(pr, |xs| + 1);
    assert |lanes[pr]| == 0 && lanes[pr] + xs == xs;
    assert ops == Enqueues(pr, xs) + Dequeues(pr, |lanes[pr]| + |xs| + 1);
    Fifo(lanes, pr, xs);
    assert lanes[pr := []] == lanes;
  }

  /** The item a call adds to the queue, if any. */
  function Added<T>(op: Op<T>): multiset<T>
  {
    if op.EnqueueOp? then multiset{op.item} else multiset{}
  }

  /** The item a reply hands out, if any. */
  function Handed<T>(reply: Reply<T>): multiset<T>
  {
    if reply.DequeueReply? && reply.result.Ok? then multiset{reply.result.item} else multiset{}
  }

  /** The item a call enqueues, as a sequence of at most one. */
  function EnqItem<T>(op: Op<T>): seq<T>
  {
    if op.EnqueueOp? then [op.item] else []
  }

  /** The item a reply hands out, as a sequence of at most one. */
  function OutItem<T>(reply: Reply<T>): seq<T>
  {
    if reply.DequeueReply? && reply.result.Ok? then [reply.result.item] else []
  }

  /** The items that `ops` enqueues, in call order. */
  function EnqIn<T>(ops: seq<Op<T>>): seq<T>
  {
    if ops == [] then [] else EnqItem(ops[0]) + EnqIn(ops[1..])
  }

  /** The items that Dequeue handed out, in reply order. */
  function OutItems<T>(replies: seq<Reply<T>>): seq<T>
  {
    if replies == [] then [] else OutItem(replies[0]) + OutItems(replies[1..])
  }

  /** One call on a single queue: what it hands out, followed by what is left,
      is what was there followed by what it enqueues. */
  lemma LaneStepOrder<T>(lane: seq<T>, op: Op<T>)
    ensures OutItem(LaneStep(lane, op).0) + LaneStep(lane, op).1 == lane + EnqItem(op)
  {
  }

  /** Two sequence balances in a row: r + left == next + tail and
      o + next == lane + e give (o + r) + left == lane + (e + tail). */
  lemma SeqChain<T>(o: seq<T>, r: seq<T>, left: seq<T>, next: seq<T>, tail: seq<T>, lane: seq<T>, e: seq<T>)
    requires r + left == next + tail && o + next == lane + e
    ensures (o + r) + left == lane + (e + tail)
  {
    calc {
      (o + r) + left;
      o + (r + left);
      o + (next + tail);
      (o + next) + tail;
      (lane + e) + tail;
      lane + (e + tail);
    }
  }

  /** FIFO for any interleaving on one queue: the items handed out, followed
      by what is left, are exactly the initial contents followed by the items
      enqueued, in order. */
  lemma {:induction false} LaneOrder<T>(lane: seq<T>, ops: seq<Op<T>>)
    ensures OutItems(RunLane(lane, ops).0) + RunLane(lane, ops).1 == lane + EnqIn(ops)
    decreases |ops|
  {
    if ops != [] {
      var reply, next := LaneStep(lane, ops[0]).0, LaneStep(lane, ops[0]).1;
      var rest := RunLane(next, ops[1..]);
      assert RunLane(lane, ops) == ([reply] + rest.0, rest.1);
      assert ([reply] + rest.0)[1..] == rest.0;
      LaneOrder(next, ops[1..]);
      LaneStepOrder(lane, ops[0]);
      assert OutItems([reply] + rest.0) == OutItem(reply) + OutItems(rest.0);
      assert EnqIn(ops) == EnqItem(ops[0]) + EnqIn(ops[1..]);
      SeqChain(OutItem(reply), OutItems(rest.0), rest.1, next, EnqIn(ops[1..]), lane, EnqItem(ops[0]));
    }
  }

  /** FIFO for every history and every lane `q` of an RRQueue: the items
      Dequeue(q) handed out, followed by lane `q`'s final contents, are lane
      `q`'s initial contents followed by the items enqueued under `q`, in the
      order they were enqueued — however calls on `q` and on other lanes
      interleave. */
  lemma HistoryFifo<T>(lanes: seq<seq<T>>, ops: seq<Op<T>>, q: nat)
    requires InRange(ops, |lanes|) && q < |lanes|
    ensures OutItems(RepliesOn(Run(lanes, ops).0, ops, q)) + Run(lanes, ops).1[q]
            == lanes[q] + EnqIn(OnLane(ops, q))
  {
    Isolation(lanes, ops, q);
    LaneOrder(lanes[q], OnLane(ops, q));
  }

  /** The items that `ops` enqueues. */
  function Enqueued<T>(ops: seq<Op<T>>): multiset<T>
  {
    if ops == [] then multiset{} else Added(ops[0]) + Enqueued(ops[1..])
  }

  /** The items that Dequeue handed out, according to `replies`. */
  function Delivered<T>(replies: seq<Reply<T>>): multiset<T>
  {
    if replies == [] then multiset{} else Handed(replies[0]) + Delivered(replies[1..])
  }

  /** One call keeps the balance: what it hands out leaves the queue and what
      it enqueues joins it, and nothing else moves. */
  lemma StepConservation<T>(lanes: seq<seq<T>>, op: Op<T>)
    requires op.pr < |lanes|
    ensures Contents(Step(lanes, op).1) + Handed(Step(lanes, op).0) == Contents(lanes) + Added(op)
  {
    match op
    case EnqueueOp(pr, x) =>
      EnqueueContents(lanes, pr, x);
    case DequeueOp(pr) =>
      DequeueContents(lanes, pr);
  }

  /** Two balances in a row: a + d == b + e and b + h == c + f give
      a + (h + d) == c + (f + e). */
  lemma Chain<T>(a: multiset<T>, d: multiset<T>, b: multiset<T>, e: multiset<T>,
                 h: multiset<T>, c: multiset<T>, f: multiset<T>)
    requires a + d == b + e && b + h == c + f
    ensures a + (h + d) == c + (f + e)
  {
    forall x
      ensures (a + (h + d))[x] == (c + (f + e))[x]
    {
      assert (a + d)[x] == (b + e)[x] && (b + h)[x] == (c + f)[x];
    }
  }

  /** Conservation: what is still queued plus what Dequeue handed out is
      exactly what was queued at the start plus what was enqueued — no item
      is lost and none is duplicated. */
  lemma {:induction false} Conservation<T>(lanes: seq<seq<T>>, ops: seq<Op<T>>)
    requires InRange(ops, |lanes|)
    ensures Contents(Run(lanes, ops).1) + Delivered(Run(lanes, ops).0) == Contents(lanes) + Enqueued(ops)
    decreases |ops|
  {
    if ops != [] {
      var op := ops[0];
      var reply, after := Step(lanes, op).0, Step(lanes, op).1;
      assert InRange(ops[1..], |after|);
      var replies, final := Run(lanes, ops).0, Run(lanes, ops).1;
      var rest := Run(after, ops[1..]).0;
      assert replies[0] == reply && replies[1..] == rest;
      assert final == Run(after, ops[1..]).1;
      Conservation(after, ops[1..]);
      StepConservation(lanes, op);
      assert Delivered(replies) == Handed(reply) + Delivered(rest);
      assert Enqueued(ops) == Added(op) + Enqueued(ops[1..]);
      Chain(Contents(final), Delivered(rest), Contents(after), Enqueued(ops[1..]),
            Handed(reply), Contents(lanes), Added(op));
    }
  }

  /** The item count: the items still queued across all lanes equal those
      queued at the start, plus the enqueues, minus the successful dequeues. */
  lemma TotalConservation<T>(lanes: seq<seq<T>>, ops: seq<Op<T>>)
    requires InRange(ops, |lanes|)
    ensures Total(Run(lanes, ops).1) == Total(lanes) + |Enqueued(ops)| - |Delivered(Run(lanes, ops).0)|
  {
    var final, replies := Run(lanes, ops).1, Run(lanes, ops).0;
    var left, right := Contents(final) + Delivered(replies), Contents(lanes) + Enqueued(ops);
    Conservation(lanes, ops);
    assert left == right;
    assert |left| == |Contents(final)| + |Delivered(replies)|;
    assert |right| == |Contents(lanes)| + |Enqueued(ops)|;
    TotalIsSize(lanes);
    TotalIsSize(final);
  }

  /** Independence: two calls on different priorities give the same replies
      and the same final state in either order, so serialising only per lane
      loses nothing. */
  lemma Commute<T>(lanes: seq<seq<T>>, a: Op<T>, b: Op<T>)
    requires a.pr < |lanes| && b.pr < |lanes| && a.pr != b.pr
    ensures Step(Step(lanes, a).1, b).1 == Step(Step(lanes, b).1, a).1
    ensures Step(lanes, a).0 == Step(Step(lanes, b).1, a).0
    ensures Step(lanes, b).0 == Step(Step(lanes, a).1, b).0
  {
  }
}
