/** `ConcurrencyQueue`: a counter of free slots, negative while calls are waiting, and the waiting
    calls in order. Resolving a waiter's promise lets that call go on and hold a slot. */
module ConcurrencyQueue {
  import opened Common

  /** A throttled call: the execution it is for and the call whose promise is to be resolved. */
  datatype Waiter = Waiter(executionId: string, call: nat)

  datatype Queue = Queue(capacity: int, waiting: seq<Waiter>)

  // ---------- what each operation does, and whom it lets through ----------

  function Enqueued(q: Queue, w: Waiter): Queue {
    if q.capacity > 0 then Queue(q.capacity - 1, q.waiting) else Queue(q.capacity - 1, q.waiting + [w])
  }

  function Next(q: Queue): Option<Waiter> { if q.waiting == [] then None else Some(q.waiting[0]) }

  /** One slot is given back; the longest waiting call, if any, takes it. */
  function Dequeued(q: Queue): Queue {
    Queue(q.capacity + 1, if q.waiting == [] then [] else q.waiting[1..])
  }

  /** Position of the first waiter for an execution, or the length of the list. */
  function IndexOf(waiting: seq<Waiter>, executionId: string): (i: nat)
    ensures i <= |waiting|
    ensures i < |waiting| ==> waiting[i].executionId == executionId
    ensures forall j :: 0 <= j < i ==> waiting[j].executionId != executionId
  {
    if waiting == [] || waiting[0].executionId == executionId then 0 else 1 + IndexOf(waiting[1..], executionId)
  }

  function Without(q: Queue, i: nat): Queue
    requires i < |q.waiting|
  {
    q.(waiting := q.waiting[..i] + q.waiting[i + 1..])
  }

  class ConcurrencyQueue {
    var capacity: int
    var queue: seq<Waiter>

    function State(): Queue
      reads this
    {
      Queue(capacity, queue)
    }

    constructor (capacity: int)
      ensures State() == Queue(capacity, [])
    {
      this.capacity, queue := capacity, [];
    }

    /** `admitted` is false when the caller is left waiting. */
    method Enqueue(w: Waiter) returns (admitted: bool)
      modifies this
      ensures State() == Enqueued(old(State()), w)
      ensures admitted <==> old(capacity) > 0
    {
      capacity := capacity - 1;
      if capacity < 0 {
        queue := queue + [w];
        return false;
      }
      return true;
    }

    method Dequeue() returns (released: Option<Waiter>)
      modifies this
      ensures State() == Dequeued(old(State())) && released == Next(old(State()))
    {
      capacity := capacity + 1;
      released := ResolveNext();
    }

    method Remove(executionId: string) returns (released: Option<Waiter>)
      modifies this
      ensures var i := IndexOf(old(queue), executionId);
        if i == |old(queue)| then State() == old(State()) && released == None
        else State() == Dequeued(Without(old(State()), i)) && released == Next(Without(old(State()), i))
    {
      var index := IndexOf(queue, executionId);
      if index == |queue| { return None; }
      queue := queue[..index] + queue[index + 1..];
      capacity := capacity + 1;
      released := ResolveNext();
    }

    method ResolveNext() returns (released: Option<Waiter>)
      modifies this`queue
      ensures released == Next(old(State())) && queue == if old(queue) == [] then [] else old(queue)[1..]
    {
      if queue == [] { return None; }
      released, queue := Some(queue[0]), queue[1..];
    }
  }
}
