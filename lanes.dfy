/** The abstract state of an RRQueue and the effect of one call on it.

    The state is a sequence of lanes, one per priority; lane `pr` holds the
    items queued under priority `pr`, head first. The functions here say what
    a single Enqueue or Dequeue does to that state; the class in module
    RRQueue is proved to behave exactly like them.
 */
module Lanes {

  datatype Option<T> = None | Some(value: T)

  /** The package's only error value: a Dequeue found its lane empty. */
  datatype Error = ErrQueueEmpty

  /** What Dequeue returns: an item with a nil error, or no item and an error. */
  datatype Dequeued<T> = Ok(item: T) | Err(error: Error)

  /** The state right after construction: `n` lanes, none holding an item. */
  function Empty<T>(n: nat): (lanes: seq<seq<T>>)
    ensures |lanes| == n
    ensures forall pr :: 0 <= pr < n ==> lanes[pr] == []
  {
    seq(n, _ => [])
  }

  /** Enqueue `x` under priority `pr`: it goes to the tail of that lane, and
      the lane count and every other lane stay as they were. */
  function Enqueue<T>(lanes: seq<seq<T>>, pr: nat, x: T): (r: seq<seq<T>>)
    requires pr < |lanes|
    ensures |r| == |lanes|
    ensures r[pr] == lanes[pr] + [x] && |r[pr]| == |lanes[pr]| + 1
    ensures forall i :: 0 <= i < |lanes| && i != pr ==> r[i] == lanes[i]
  {
    lanes[pr := lanes[pr] + [x]]
  }

  /** Dequeue from priority `pr`: fails with ErrQueueEmpty, changing nothing,
      exactly when the lane is empty; otherwise hands out the head and leaves
      the rest of the lane, in order. Other lanes are never touched. */
  function Dequeue<T>(lanes: seq<seq<T>>, pr: nat): (r: (Dequeued<T>, seq<seq<T>>))
    requires pr < |lanes|
    ensures |r.1| == |lanes|
    ensures r.0 == Err(ErrQueueEmpty) <==> lanes[pr] == []
    ensures r.0.Err? ==> r.1 == lanes
    ensures r.0.Ok? ==> lanes[pr] == [r.0.item] + r.1[pr]
    ensures forall i :: 0 <= i < |lanes| && i != pr ==> r.1[i] == lanes[i]
  {
    if lanes[pr] == [] then (Err(ErrQueueEmpty), lanes)
    else (Ok(lanes[pr][0]), lanes[pr := lanes[pr][1..]])
  }

  /** Every item queued in any lane, with multiplicity. */
  function Contents<T>(lanes: seq<seq<T>>): multiset<T>
  {
    if lanes == [] then multiset{} else multiset(lanes[0]) + Contents(lanes[1..])
  }

  /** The number of items queued across all lanes. */
  function Total<T>(lanes: seq<seq<T>>): nat
  {
    if lanes == [] then 0 else |lanes[0]| + Total(lanes[1..])
  }

  lemma {:induction false} TotalIsSize<T>(lanes: seq<seq<T>>)
    ensures |Contents(lanes)| == Total(lanes)
  {
    if lanes != [] {
      TotalIsSize(lanes[1..]);
    }
  }

  /** Replacing one lane swaps that lane's items for the new ones in Contents. */
  lemma {:induction false} ContentsUpdate<T>(lanes: seq<seq<T>>, pr: nat, s: seq<T>)
    requires pr < |lanes|
    ensures Contents(lanes[pr := s]) + multiset(lanes[pr]) == Contents(lanes) + multiset(s)
  {
    var updated := lanes[pr := s];
    if pr == 0 {
      assert updated[1..] == lanes[1..];
    } else {
      var tail := lanes[1..][pr - 1 := s];
      assert updated[0] == lanes[0] && updated[1..] == tail;
      assert lanes[1..][pr - 1] == lanes[pr];
      ContentsUpdate(lanes[1..], pr - 1, s);
      calc {
        Contents(updated) + multiset(lanes[pr]);
        multiset(lanes[0]) + Contents(tail) + multiset(lanes[pr]);
        multiset(lanes[0]) + (Contents(tail) + multiset(lanes[pr]));
        multiset(lanes[0]) + (Contents(lanes[1..]) + multiset(s));
        Contents(lanes) + multiset(s);
      }
    }
  }

  /** Multiset union cancels on the right. */
  lemma Cancel<T>(a: multiset<T>, b: multiset<T>, m: multiset<T>)
    requires a + m == b + m
    ensures a == b
  {
    forall e
      ensures a[e] == b[e]
    {
      assert (a + m)[e] == (b + m)[e];
    }
  }

  /** Enqueue adds exactly its item to the queued items. */
  lemma EnqueueContents<T>(lanes: seq<seq<T>>, pr: nat, x: T)
    requires pr < |lanes|
    ensures Contents(Enqueue(lanes, pr, x)) == Contents(lanes) + multiset{x}
    ensures Total(Enqueue(lanes, pr, x)) == Total(lanes) + 1
  {
    var after := Enqueue(lanes, pr, x);
    ContentsUpdate(lanes, pr, lanes[pr] + [x]);
    assert multiset(lanes[pr] + [x]) == multiset(lanes[pr]) + multiset{x};
    Cancel(Contents(after), Contents(lanes) + multiset{x}, multiset(lanes[pr]));
    TotalIsSize(lanes);
    TotalIsSize(after);
  }

  /** A successful Dequeue removes exactly the item it returns from the queued
      items; a failed one removes nothing. */
  lemma DequeueContents<T>(lanes: seq<seq<T>>, pr: nat)
    requires pr < |lanes|
    ensures Dequeue(lanes, pr).0.Ok? ==>
              Contents(lanes) == Contents(Dequeue(lanes, pr).1) + multiset{Dequeue(lanes, pr).0.item}
              && Total(lanes) == Total(Dequeue(lanes, pr).1) + 1
    ensures Dequeue(lanes, pr).0.Err? ==>
              Contents(Dequeue(lanes, pr).1) == Contents(lanes)
              && Total(Dequeue(lanes, pr).1) == Total(lanes)
  {
    if lanes[pr] != [] {
      var x, rest := lanes[pr][0], lanes[pr][1..];
      var after := lanes[pr := rest];
      assert Dequeue(lanes, pr) == (Ok(x), after);
      assert multiset(lanes[pr]) == multiset(rest) + multiset{x} by {
        assert lanes[pr] == [x] + rest;
      }
      ContentsUpdate(lanes, pr, rest);
      Cancel(Contents(lanes), Contents(after) + multiset{x}, multiset(rest));
      TotalIsSize(lanes);
      TotalIsSize(after);
    }
  }
}
