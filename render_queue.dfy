/**
  NativeRenderQueue (NativeRenderQueue.cpp): the four queues of one render
  phase and the per-frame sort that orders each of them.
 */
module RenderQueue {
  import opened DrawQueue
  import opened InstancingQueue

  class NativeRenderQueue {
    const opaqueQueue: RenderDrawQueue
    const transparentQueue: RenderDrawQueue
    const opaqueInstancingQueue: RenderInstancingQueue
    const transparentInstancingQueue: RenderInstancingQueue

    /** The four queues are distinct objects and both draw queues are valid. */
    ghost predicate Valid()
      reads this, opaqueQueue, transparentQueue
    {
      opaqueQueue != transparentQueue &&
      opaqueInstancingQueue != transparentInstancingQueue &&
      opaqueQueue.Valid() && transparentQueue.Valid()
    }

    constructor ()
      ensures Valid()
      ensures opaqueQueue.instances == [] && transparentQueue.instances == []
      ensures opaqueInstancingQueue.batches == {} && opaqueInstancingQueue.sortedBatches == []
      ensures transparentInstancingQueue.batches == {} && transparentInstancingQueue.sortedBatches == []
      ensures fresh(opaqueQueue) && fresh(transparentQueue)
      ensures fresh(opaqueInstancingQueue) && fresh(transparentInstancingQueue)
    {
      opaqueQueue := new RenderDrawQueue();
      transparentQueue := new RenderDrawQueue();
      opaqueInstancingQueue := new RenderInstancingQueue();
      transparentInstancingQueue := new RenderInstancingQueue();
    }

    /**
      Sort the opaque queue with the opaque comparator and the transparent
      queue with the transparent one, then copy both instancing sets into
      their replay sequences.
     */
    method Sort()
      requires Valid()
      modifies opaqueQueue, transparentQueue, opaqueInstancingQueue, transparentInstancingQueue
      ensures Valid()
      ensures multiset(opaqueQueue.instances) == multiset(old(opaqueQueue.instances))
      ensures Sorted(OpaqueOrCutout, opaqueQueue.instances)
      ensures multiset(transparentQueue.instances) == multiset(old(transparentQueue.instances))
      ensures Sorted(Transparent, transparentQueue.instances)
      ensures opaqueInstancingQueue.batches == old(opaqueInstancingQueue.batches)
      ensures var n := |old(opaqueInstancingQueue.sortedBatches)|;
              |opaqueInstancingQueue.sortedBatches| == n + |opaqueInstancingQueue.batches| &&
              opaqueInstancingQueue.sortedBatches[..n] == old(opaqueInstancingQueue.sortedBatches) &&
              Enumerates(opaqueInstancingQueue.sortedBatches[n..], opaqueInstancingQueue.batches)
      ensures transparentInstancingQueue.batches == old(transparentInstancingQueue.batches)
      ensures var n := |old(transparentInstancingQueue.sortedBatches)|;
              |transparentInstancingQueue.sortedBatches| == n + |transparentInstancingQueue.batches| &&
              transparentInstancingQueue.sortedBatches[..n] == old(transparentInstancingQueue.sortedBatches) &&
              Enumerates(transparentInstancingQueue.sortedBatches[n..], transparentInstancingQueue.batches)
    {
      opaqueQueue.SortOpaqueOrCutout();
      transparentQueue.SortTransparent();
      opaqueInstancingQueue.Sort();
      transparentInstancingQueue.Sort();
    }
  }
}
