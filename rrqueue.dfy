/** The RRQueue container: a fixed number of FIFO lanes, one per priority,
    updated in place by Enqueue and Dequeue. Each call is modelled as atomic,
    which is what the per-lane mutex guarantees for calls on one lane. */
module RRQueue {
  import opened Lanes

  class RRQueue<T> {
    /** The number of priorities, fixed by New. */
    const numPr: nat
    /** Lane pr is queues[pr]; the array is never replaced or resized. */
    const queues: array<seq<T>>

    ghost predicate Valid()
    {
      queues.Length == numPr
    }

    /** The abstract state: one sequence of items per priority. */
    ghost function State(): (lanes: seq<seq<T>>)
      reads queues
      requires Valid()
      ensures |lanes| == numPr
    {
      queues[..]
    }

    /** New(n): n priorities, every lane empty. */
    constructor New(n: nat)
      ensures Valid() && fresh(queues)
      ensures numPr == n
      ensures State() == Empty(n)
    {
      numPr := n;
      queues := new seq<T>[n](_ => []);
    }

    /** Put `item` at the tail of lane `pr`. The error result is always nil. */
    method Enqueue(pr: nat, item: T) returns (err: Option<Error>)
      requires Valid() && pr < numPr
      modifies queues
      ensures Valid()
      ensures err == None
      ensures State() == Lanes.Enqueue(old(State()), pr, item)
    {
      queues[pr] := queues[pr] + [item];
      err := None;
    }

    /** Take the head of lane `pr`, or report ErrQueueEmpty (changing nothing)
        when that lane holds no item. */
    method Dequeue(pr: nat) returns (r: Dequeued<T>)
      requires Valid() && pr < numPr
      modifies queues
      ensures Valid()
      ensures old(queues[pr]) == [] ==> r == Err(ErrQueueEmpty) && unchanged(queues)
      ensures old(queues[pr]) != [] ==> r == Ok(old(queues[pr][0]))
      ensures (r, State()) == Lanes.Dequeue(old(State()), pr)
    {
      var q := queues[pr];
      if |q| == 0 {
        return Err(ErrQueueEmpty);
      }
      r := Ok(q[0]);
      queues[pr] := q[1..];
    }
  }

  /** A client of the class: New(4) has four lanes. */
  method NumPriorityQueues() returns (count: nat)
    ensures count == 4
  {
    var q := new RRQueue<string>.New(4);
    count := q.queues.Length;
  }

  /** A client of the class: an item enqueued under priority 3 is at the head
      of lane 3, comes back from Dequeue(3), and a second Dequeue(3) fails. */
  method EnqueueThenDrain() returns (head: string, first: Dequeued<string>, second: Dequeued<string>)
    ensures head == "item"
    ensures first == Ok("item") && second == Err(ErrQueueEmpty)
  {
    var q := new RRQueue<string>.New(5);
    var _ := q.Enqueue(3, "item");
    head := q.queues[3][0];
    first := q.Dequeue(3);
    second := q.Dequeue(3);
  }

  /** A client of the class: lane 1 hands back its items in the order they were
      enqueued, and nothing enqueued under priority 0 shows up there. */
  method DequeueInOrder() returns (first: Dequeued<string>, second: Dequeued<string>, third: Dequeued<string>)
    ensures first == Ok("P1 item") && second == Ok("Another P1 item")
    ensures third == Err(ErrQueueEmpty)
  {
    var q := new RRQueue<string>.New(5);
    var _ := q.Enqueue(0, "P0 item");
    var _ := q.Enqueue(1, "P1 item");
    var _ := q.Enqueue(1, "Another P1 item");
    first := q.Dequeue(1);
    second := q.Dequeue(1);
    third := q.Dequeue(1);
  }
}
