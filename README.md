# rrqueue in Dafny

A model of the container at the heart of the Go package `rrqueue`: an
`RRQueue` holds a fixed number of independent FIFO lanes, one per priority
`0..numPr-1`. `New(n)` builds `n` empty lanes, `Enqueue(pr, item)` appends to
the tail of lane `pr` and always returns a nil error, and `Dequeue(pr)` hands
out the head of lane `pr`, or fails with `ErrQueueEmpty` when that lane holds
nothing.

The project has three modules:

- `Lanes` (`lanes.dfy`): the abstract state, a `seq<seq<T>>` with one lane per
  priority. It has the pure effect of one `Enqueue` or `Dequeue` call on that
  state, and the items it holds as a multiset (`Contents`) and as a count
  (`Total`).
- `RRQueue` (`rrqueue.dfy`): the class. `numPr` is a constant. `queues` is an
  `array<seq<T>>` whose elements the methods reassign, just as the Go code
  reassigns `p.queues[pr]`. Each method's postcondition ties the new state to
  the pure function of the old state. Three client methods rebuild the
  package's test scenarios from these postconditions alone.
- `History` (`history.dfy`): sequences of calls. `Run` replays a list of calls
  against the state. `RunLane` is an independent reference: a single plain
  FIFO queue. The lemmas prove isolation, FIFO order, conservation and the
  independence of calls on different lanes.

Each call is modelled as atomic. In the Go code, the mutex of lane `pr` makes
calls on one lane take effect one at a time. `History.Isolation` shows that,
over any whole history of calls, what lane `q` returns and holds depends only
on the calls addressed to `q`, so serialising calls only per lane loses
nothing. `History.Commute` is the two-call case: two calls on different lanes
give the same results in either order.

The item type is the type parameter `T` and stands for Go's `interface{}`.
The priority is a `nat`, and every operation requires `pr < numPr`. The Go
code does no bounds check: an index out of range panics, and so does a
negative `n` passed to `New`.

## Model

| member | source | states |
|---|---|---|
| `Lanes.Empty` | rrqueue.go:48-55 | the initial state has exactly `n` lanes and every lane is empty |
| `Lanes.Enqueue` | rrqueue.go:58-64 | lane `pr` becomes the old lane with the item appended, so it grows by exactly one; the lane count and every other lane are unchanged |
| `Lanes.Dequeue` | rrqueue.go:69-81 | the result is `ErrQueueEmpty` exactly when lane `pr` is empty, and then the state is unchanged; otherwise the result is the lane's head, the lane becomes its old tail in order, and other lanes are untouched |
| `Lanes.EnqueueContents` | rrqueue.go:62 | an Enqueue adds exactly its item to the queued items, and the total count rises by one |
| `Lanes.DequeueContents` | rrqueue.go:73-79 | a successful Dequeue removes exactly the returned item and lowers the total by one; a failed one changes neither |
| `RRQueue.RRQueue.State` | rrqueue.go:32-33 | the abstract state always has exactly `numPr` lanes |
| `RRQueue.RRQueue.New` | rrqueue.go:48-55 | the new queue has `numPr == n` and `n` empty lanes in a fresh array |
| `RRQueue.RRQueue.Enqueue` | rrqueue.go:58-64 | always returns a nil error; the new state is `Lanes.Enqueue` of the old one |
| `RRQueue.RRQueue.Dequeue` | rrqueue.go:69-81 | on an empty lane it returns `ErrQueueEmpty` and changes nothing; otherwise it returns the old head; the returned value and new state are exactly `Lanes.Dequeue` of the old state |
| `RRQueue.NumPriorityQueues` | rrqueue_test.go:21-26 | a queue built with `New(4)` has four lanes |
| `RRQueue.EnqueueThenDrain` | rrqueue_test.go:28-35 | after `Enqueue(3, "item")`, lane 3's head is `"item"`; `Dequeue(3)` returns it, and a second `Dequeue(3)` fails with `ErrQueueEmpty` |
| `RRQueue.DequeueInOrder` | rrqueue_test.go:37-47 | with `"P0 item"` on lane 0 and two items on lane 1, `Dequeue(1)` returns `"P1 item"`, then `"Another P1 item"`, then `ErrQueueEmpty` |
| `History.Run` | rrqueue.go:58-81 | replaying calls gives exactly one reply per call and never changes the lane count |
| `History.Isolation` | rrqueue.go:58-81 | lane `q` ends with the contents, and gives the replies, that a lone FIFO queue would have after receiving only the calls addressed to `q`, whatever the other lanes receive |
| `History.NeverEnqueuedLane` | rrqueue.go:73-76 | on a lone queue that starts empty and only receives Dequeue calls, every reply is `ErrQueueEmpty` and the queue stays empty |
| `History.DequeueWithoutEnqueue` | rrqueue.go:48-81 | on a fresh queue, a lane that is never enqueued to answers every Dequeue with `ErrQueueEmpty` and is still empty at the end |
| `History.RunEnqueues` | rrqueue.go:62 | enqueueing `xs` in order to lane `pr` returns nil each time and appends `xs`, in order, to that lane only |
| `History.RunDrain` | rrqueue.go:73-80 | one Dequeue per item of lane `pr` returns that lane's items in order and leaves only that lane changed, now empty |
| `History.DrainThenFail` | rrqueue.go:73-80 | one Dequeue more than the lane holds returns its items in order and then `ErrQueueEmpty` |
| `History.Fifo` | rrqueue.go:58-81 | after enqueueing `xs` to lane `pr`, Dequeue returns the items already there, then `xs` in insertion order, then `ErrQueueEmpty`; the lane ends empty and no other lane changes |
| `History.FifoFromEmpty` | rrqueue.go:58-81 | enqueue `xs` into an empty lane, then dequeue once more than `xs` has items: the items come back exactly as `xs`, then `ErrQueueEmpty`, and the state is back to what it was |
| `History.LaneStepOrder` | rrqueue.go:62-79 | on a single queue, what one call hands out followed by what is left equals what was there followed by what the call enqueues |
| `History.LaneOrder` | rrqueue.go:58-81 | on a single queue and any interleaving of calls, the items handed out, in order, followed by what is left equal the initial contents followed by the enqueued items, in order |
| `History.HistoryFifo` | rrqueue.go:58-81 | for every history and every lane `q`, the items Dequeue(q) handed out, followed by lane `q`'s final contents, equal lane `q`'s initial contents followed by the items enqueued under `q` in call order, however calls interleave |
| `History.StepConservation` | rrqueue.go:62-79 | one call moves items only by adding what it enqueues and removing what it hands out |
| `History.Conservation` | rrqueue.go:58-81 | queued items now plus items handed out equal queued items at the start plus items enqueued, as multisets: none lost, none duplicated |
| `History.TotalConservation` | rrqueue.go:58-81 | the total queued equals the initial total plus the enqueues minus the successful dequeues |
| `History.Commute` | rrqueue.go:58-81 | two calls on different lanes give the same replies and the same final state in either order |

## Left out

- Per-lane locking (`locks`, and the Lock/Unlock pairs at rrqueue.go:34, 59-60 and 70-71): each call is atomic in the model. Concurrent interleavings are not modelled: each history is one order of atomic calls, with `History.Isolation` and `History.Commute` stating what that order can and cannot change.
- `Start`, `rrtick` and `process` (rrqueue.go:86-95, 101-116): the round-robin consumer is built from goroutines, channels and `time.After`. None of those are modelled. In that code, `rrtick` waits for only one of its `numPr` workers to signal `done` before the next tick.
- `Stop` (rrqueue.go:97-99): it only panics with "not implemented".
- `TickInterval` and `Timeout` (rrqueue.go:38-41, 50): these are wall-clock durations, and `Timeout` is never read.
- `Fn` (rrqueue.go:44): the consumer callback is opaque, caller-supplied code, and only `process` calls it.
- Nil items: when the head of a lane is a nil interface value, the type assertion at rrqueue.go:78 panics before the reslice at rrqueue.go:79. The nil item then stays at the head, so every later `Dequeue` on that lane panics too. Because of this, `Dequeue` never returns a nil item, and the `item != nil` test at rrqueue.go:112 only filters the `ErrQueueEmpty` case. The model's item type `T` has no nil value, so this panic is not captured.
- Out-of-range priorities and a negative `n`: these panic in Go. The model excludes them with `pr < numPr` and `n: nat` rather than modelling the panic.
- Go slices that share a backing array: `q[1:]` and `append` may alias memory. No caller can observe this, because the lanes are private. The model uses value sequences.
