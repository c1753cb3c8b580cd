/**
 * The event queue between the workers and the event processor (src/ConcurrentQueue.h and its older
 * copy ConcurrentQueue.h), run one operation at a time: the lock and the condition variable are gone,
 * and the wait in `wait_and_pop` becomes the precondition that the queue is not empty.
 */
module ConcurrentQueues {

  class ConcurrentQueue<T> {
    /** Front first. */
    var items: seq<T>

    constructor ()
      ensures items == []
    {
      items := [];
    }

    /** Appends at the back; what was there keeps its order. */
    method Push(item: T)
      modifies this
      ensures items == old(items) + [item]
    {
      items := items + [item];
    }

    /** Returns the front item and removes exactly that one. */
    method WaitAndPop() returns (item: T)
      requires items != []
      modifies this
      ensures item == old(items)[0] && items == old(items)[1..]
    {
      item := items[0];
      items := items[1..];
    }
  }

  /** Items pushed in order come back out in that order. */
  method FifoOrder<T>(q: ConcurrentQueue<T>, x1: T, x2: T, x3: T) returns (y1: T, y2: T, y3: T)
    requires q.items == []
    modifies q
    ensures y1 == x1 && y2 == x2 && y3 == x3 && q.items == []
  {
    q.Push(x1);
    q.Push(x2);
    q.Push(x3);
    y1 := q.WaitAndPop();
    y2 := q.WaitAndPop();
    y3 := q.WaitAndPop();
  }
}
