// What the pointer code and the kernel specification share: null PCB pointers, and
// the active semaphores as a map from addresses to non-empty FIFO queues.
module Queues {
  /** The null PCB pointer; a PCB pointer is the number of a slot of pcbFree_table. */
  const NULL: int := -1

  /** Address of the sentinel that ends the active semaphore list; no aligned semaphore address equals it. */
  const MAXADD: int := 0x7FFFFFFF

  function QueueOf(queues: map<int, seq<int>>, a: int): seq<int> {
    if a in queues then queues[a] else []
  }

  /** Give `a` the queue `q`; a semaphore without waiters is not active. */
  function SetQueue(queues: map<int, seq<int>>, a: int, q: seq<int>): map<int, seq<int>> {
    if q == [] then queues - {a} else queues[a := q]
  }
}
