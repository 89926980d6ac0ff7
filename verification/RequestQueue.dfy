/** The growing circular queue of requests, and the selector that reads one of two of them. */
module RequestQueues {
  import opened Prelude

  /** The slot `i` places after `start` in a circular buffer of `n` slots. */
  function Turn(start: nat, i: nat, n: nat): (slot: nat)
    requires start < n && i <= n
    ensures slot == (if start + i < n then start + i else start + i - n)
  {
    WrapAround(start, i, n);
    (start + i) % n
  }

  lemma WrapAround(start: nat, i: nat, n: nat)
    requires start < n && i <= n
    ensures (start + i) % n == if start + i < n then start + i else start + i - n
  {
  }

  /** The `count` entries of a circular buffer from slot `start` on. */
  function Ring<T>(b: seq<T>, start: nat, count: nat): (r: seq<T>)
    requires start < |b| && count <= |b|
  {
    seq(count, i requires 0 <= i < count => b[Turn(start, i, |b|)])
  }

  lemma RingPush<T>(b: seq<T>, start: nat, count: nat, x: T)
    requires start < |b| && count < |b|
    ensures Ring(b[Turn(start, count, |b|) := x], start, count + 1) == Ring(b, start, count) + [x]
  {
  }

  lemma RingPop<T>(b: seq<T>, start: nat, count: nat)
    requires start < |b| && 0 < count <= |b|
    ensures [b[start]] + Ring(b, Turn(start, 1, |b|), count - 1) == Ring(b, start, count)
  {
  }

  /** One slot further on. */
  lemma TurnOn(start: nat, i: nat, n: nat)
    requires start < n && i < n
    ensures Turn(Turn(start, i, n), 1, n) == Turn(start, i + 1, n)
    ensures Turn(start, i + 1, n) == start <==> i + 1 == n
  {
  }

  /** A buffer whose used part starts at slot 0 reads straight off. */
  lemma RingFromZero<T>(b: seq<T>, count: nat)
    requires 0 < |b| && count <= |b|
    ensures Ring(b, 0, count) == b[..count]
  {
  }

  class RequestQueue<T> {
    var requests: array<Option<T>>
    var size: nat
    var count: nat
    var start: nat
    var end: nat

    ghost predicate Valid()
      reads this
    {
      0 < size == requests.Length && count <= size && start < size && end == Turn(start, count, size)
    }

    /** The queued requests, oldest first. */
    ghost function Contents(): seq<Option<T>>
      requires Valid()
      reads this, requests
    {
      Ring(requests[..], start, count)
    }

    constructor (initialSize: nat)
      requires initialSize > 0
      ensures Valid() && Contents() == [] && size == initialSize && fresh(requests)
    {
      requests := new Option<T>[initialSize](_ => None);
      size, count, start, end := initialSize, 0, 0, 0;
    }

    /** Appends, whatever the fill level; the size changes, by doubling, only when the queue is full. */
    method Enqueue(request: Option<T>)
      requires Valid()
      modifies this, requests
      ensures Valid() && Contents() == old(Contents()) + [request]
      ensures size == (if old(count) == old(size) then 2 * old(size) else old(size))
      ensures if old(count) == old(size) then fresh(requests) else requests == old(requests)
    {
      if count == size {
        EnlargeRequestQueue();
      }
      RingPush(requests[..], start, count, request);
      requests[end] := request;
      end := Turn(end, 1, size);
      count := count + 1;
    }

    /** Removes the oldest request; an empty queue answers NULL and stays as it is. */
    method Dequeue() returns (answer: Option<T>)
      requires Valid()
      modifies this`start, this`count
      ensures Valid()
      ensures old(Contents()) == [] ==> answer == None && Contents() == []
      ensures old(Contents()) != [] ==> [answer] + Contents() == old(Contents())
    {
      answer := None;
      if count > 0 {
        RingPop(requests[..], start, count);
        answer := requests[start];
        start := Turn(start, 1, size);
        count := count - 1;
      }
    }

    /** The copy loop of a full buffer: oldest first, testing at its end, until it is back where it began. */
    method CopyInOrder(newQueue: array<Option<T>>) returns (newCursor: nat)
      requires Valid() && count == size <= newQueue.Length && newQueue != requests
      modifies newQueue
      ensures newCursor == count && newQueue[..count] == Contents()
    {
      ghost var full := Contents();
      var cursor := start;
      newCursor := 0;
      var more := true;
      while more
        invariant newCursor <= size && cursor == Turn(start, newCursor, size) && more == (newCursor < size)
        invariant forall i | 0 <= i < newCursor :: newQueue[i] == full[i]
        decreases size - newCursor
      {
        TurnOn(start, newCursor, size);
        assert requests[cursor] == full[newCursor];
        newQueue[newCursor] := requests[cursor];
        newCursor := newCursor + 1;
        cursor := Turn(cursor, 1, size);
        more := cursor != end;
      }
    }

    /** A full buffer moves, oldest first, to the front of one twice as long. */
    method EnlargeRequestQueue()
      requires Valid() && count == size
      modifies this`requests, this`size, this`start, this`end
      ensures Valid() && Contents() == old(Contents()) && fresh(requests)
      ensures size == 2 * old(size) && start == 0 && end == count == old(size)
    {
      var newQueue := new Option<T>[size * 2](_ => None);
      var newCursor := CopyInOrder(newQueue);
      RingFromZero(newQueue[..], count);
      size, start, end, requests := size * 2, 0, newCursor, newQueue;
    }
  }

  // ---------------------------------------------------------------- runs of the queue

  datatype Op<T> = Enq(x: T) | Deq

  /** The queue after the operations, starting from an empty one. */
  function Queue<T>(ops: seq<Op<T>>): seq<T> {
    if ops == [] then []
    else
      var q := Queue(ops[..|ops| - 1]);
      match ops[|ops| - 1]
      case Enq(x) => q + [x]
      case Deq => if q == [] then [] else q[1..]
  }

  /** What each dequeue answers: the oldest entry, or NULL. */
  function Answers<T>(ops: seq<Op<T>>): seq<Option<T>> {
    if ops == [] then []
    else
      var q, before := Queue(ops[..|ops| - 1]), Answers(ops[..|ops| - 1]);
      if ops[|ops| - 1].Enq? then before else before + [if q == [] then None else Some(q[0])]
  }

  function Arrivals<T>(ops: seq<Op<T>>): seq<T> {
    if ops == [] then []
    else Arrivals(ops[..|ops| - 1]) + match ops[|ops| - 1] { case Enq(x) => [x] case Deq => [] }
  }

  /** The answers that are no NULL. */
  function Present<T>(answers: seq<Option<T>>): seq<T> {
    if answers == [] then []
    else
      var last := answers[|answers| - 1];
      Present(answers[..|answers| - 1]) + if last == None then [] else [last.value]
  }

  lemma PresentAppends<T>(answers: seq<Option<T>>, x: Option<T>)
    ensures Present(answers + [x]) == Present(answers) + if x == None then [] else [x.value]
  {
    assert (answers + [x])[..|answers|] == answers;
  }

  /** First in, first out: what was answered, then what is queued, is exactly what arrived, in order. */
  lemma {:induction false} FirstInFirstOut<T>(ops: seq<Op<T>>)
    ensures Present(Answers(ops)) + Queue(ops) == Arrivals(ops)
  {
    if ops != [] {
      var front, q := ops[..|ops| - 1], Queue(ops[..|ops| - 1]);
      FirstInFirstOut(front);
      if ops[|ops| - 1].Deq? {
        PresentAppends(Answers(front), if q == [] then None else Some(q[0]));
      }
    }
  }

  function Entries<T>(q: seq<T>): (r: seq<Option<T>>)
    ensures |r| == |q| && forall i | 0 <= i < |q| :: r[i] == Some(q[i])
  {
    seq(|q|, i requires 0 <= i < |q| => Some(q[i]))
  }

  /** The ring buffer, of any initial size, does what the sequence does: the same answers, the same contents. */
  method Replay<T>(initialSize: nat, ops: seq<Op<T>>) returns (queue: RequestQueue<T>, answers: seq<Option<T>>)
    requires initialSize > 0
    ensures fresh(queue) && queue.Valid()
    ensures queue.Contents() == Entries(Queue(ops)) && answers == Answers(ops)
    ensures Present(answers) + Queue(ops) == Arrivals(ops)
  {
    queue := new RequestQueue<T>(initialSize);
    answers := [];
    for i := 0 to |ops|
      invariant fresh(queue) && fresh(queue.requests) && queue.Valid()
      invariant queue.Contents() == Entries(Queue(ops[..i])) && answers == Answers(ops[..i])
    {
      assert ops[..i + 1][..i] == ops[..i];
      match ops[i]
      case Enq(x) =>
        queue.Enqueue(Some(x));
      case Deq =>
        var answer := queue.Dequeue();
        answers := answers + [answer];
    }
    assert ops[..|ops|] == ops;
    FirstInFirstOut(ops);
  }

  // ---------------------------------------------------------------- which queue a worker reads

  datatype RequestType = STIMULUS | CORRELATION

  /** The kind of request the worker with this id is for. */
  function KindOf(threadId: nat): RequestType {
    if threadId % 2 == 0 then STIMULUS else CORRELATION
  }

  /** A poll of a queue: its oldest request leaves it, or it is empty and the answer is NULL. */
  ghost predicate Polled<T>(before: seq<Option<T>>, answer: Option<T>, after: seq<Option<T>>) {
    if before == [] then answer == None && after == [] else [answer] + after == before
  }

  class EvenThreadCount<T> {
    const stimulus: RequestQueue<T>
    const correlation: RequestQueue<T>
    const evenThreadId: bool
    ghost const threadId: nat

    ghost predicate Valid()
      reads this, stimulus, correlation
    {
      stimulus != correlation && stimulus.Valid() && correlation.Valid() && evenThreadId == (threadId % 2 == 0)
    }

    constructor (threadId: nat, stimulus: RequestQueue<T>, correlation: RequestQueue<T>)
      requires stimulus != correlation && stimulus.Valid() && correlation.Valid()
      ensures Valid() && this.threadId == threadId && this.stimulus == stimulus && this.correlation == correlation
    {
      this.threadId, this.stimulus, this.correlation := threadId, stimulus, correlation;
      evenThreadId := threadId % 2 == 0;
    }

    function Mine(): RequestQueue<T> {
      if evenThreadId then stimulus else correlation
    }

    /** An even thread takes the oldest stimulus request, an odd one the oldest correlation request. */
    method Next() returns (kind: RequestType, request: Option<T>)
      requires Valid()
      modifies Mine()`start, Mine()`count
      ensures Valid() && kind == KindOf(threadId)
      ensures threadId % 2 == 0 ==>
                && kind == STIMULUS && Polled(old(stimulus.Contents()), request, stimulus.Contents())
                && correlation.Contents() == old(correlation.Contents())
      ensures threadId % 2 == 1 ==>
                && kind == CORRELATION && Polled(old(correlation.Contents()), request, correlation.Contents())
                && stimulus.Contents() == old(stimulus.Contents())
    {
      if evenThreadId {
        kind := STIMULUS;
        request := stimulus.Dequeue();
      } else {
        kind := CORRELATION;
        request := correlation.Dequeue();
      }
    }
  }
}
