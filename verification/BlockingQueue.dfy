/** The queue between the socket and the think function. One thread uses it, so its lock is not modelled. */
module BlockingQueues {

  class BlockingQueue<T> {
    var backingQueue: seq<T>

    constructor ()
      ensures backingQueue == []
    {
      backingQueue := [];
    }

    method Put(elem: T)
      modifies this
      ensures backingQueue == old(backingQueue) + [elem]
    {
      backingQueue := backingQueue + [elem];
    }

    method Empty() returns (empty: bool)
      ensures empty <==> backingQueue == []
    {
      empty := |backingQueue| == 0;
    }

    /** Everything queued, in the order it was put; the queue is empty afterwards. */
    method Clear() returns (elems: seq<T>)
      modifies this
      ensures elems == old(backingQueue) && backingQueue == []
    {
      elems := backingQueue;
      backingQueue := [];
    }
  }
}
