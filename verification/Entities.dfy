/** task_struct as a mutable object, and struct prio_array as the value that
    struct runqueue embeds four of. */
module Entities {
  import opened Lists
  import opened TaskModel

  class Task {
    const id: Tid
    /** The scheduling fields, updated one at a time. */
    var s: Rec
    /** `p->array`, a pointer into `rq->arrays`: the index of the array, or None for NULL. */
    var onArray: Option<nat>

    constructor (id: Tid, s: Rec)
      ensures this.id == id && this.s == s && onArray == None
    {
      this.id := id;
      this.s := s;
      onArray := None;
    }
  }

  /** 140 FIFO queues, a bitmap that indexes the non-empty ones (with a delimiter bit at
      position 140) and the number of queued tasks. */
  datatype PrioArray = PrioArray(nrActive: int, bitmap: seq<bool>, queue: seq<seq<Tid>>)
  {
    predicate Formed() {
      |queue| == MAX_PRIO && |bitmap| == MAX_PRIO + 1 && bitmap[MAX_PRIO]
    }

    ghost predicate Indexed() {
      && Formed()
      && (forall k :: 0 <= k < MAX_PRIO ==> (bitmap[k] <==> queue[k] != []))
      && nrActive == Total(queue)
    }
  }

  const EMPTY_ARRAY := PrioArray(0, seq(MAX_PRIO + 1, k => k == MAX_PRIO), seq(MAX_PRIO, k => []))

  /** dequeue_task, as a function of the array. */
  function Dequeued(a: PrioArray, p: Tid, k: nat): PrioArray
    requires k < |a.queue| && k < |a.bitmap|
  {
    var q := Remove(a.queue[k], p);
    PrioArray(a.nrActive - 1, if q == [] then a.bitmap[k := false] else a.bitmap, a.queue[k := q])
  }

  /** enqueue_task, as a function of the array. */
  function Enqueued(a: PrioArray, p: Tid, k: nat): PrioArray
    requires k < |a.queue| && k < |a.bitmap|
  {
    PrioArray(a.nrActive + 1, a.bitmap[k := true], a.queue[k := a.queue[k] + [p]])
  }

  lemma DequeuedIndexed(a: PrioArray, p: Tid, k: nat)
    requires a.Indexed() && k < MAX_PRIO && p in a.queue[k]
    ensures Dequeued(a, p, k).Indexed()
  {
    TotalUpdate(a.queue, k, Remove(a.queue[k], p));
  }

  lemma EnqueuedIndexed(a: PrioArray, p: Tid, k: nat)
    requires a.Indexed() && k < MAX_PRIO
    ensures Enqueued(a, p, k).Indexed()
  {
    TotalUpdate(a.queue, k, a.queue[k] + [p]);
  }

  /** The first set bit of a bitmap with a delimiter: sched_find_first_bit. */
  function FirstBit(bitmap: seq<bool>, k: nat): (i: nat)
    requires k <= MAX_PRIO < |bitmap| && bitmap[MAX_PRIO]
    ensures k <= i <= MAX_PRIO && bitmap[i] && forall j :: k <= j < i ==> !bitmap[j]
    decreases MAX_PRIO - k
  {
    if bitmap[k] then k else FirstBit(bitmap, k + 1)
  }
}
