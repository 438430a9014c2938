/** Trace events, the bounded queue of one subscriber, and the fan-out bus keyed by run id. */
module EventBus {

  const QUEUE_MAXSIZE := 256
  const MESSAGE_MAX := 4000

  type RunId = string

  datatype Event = Event(num: nat, agent: string, phase: string, message: string)

  /** A queue carries events and, last, the sentinel that ends a stream. */
  datatype Item = Live(event: Event) | End

  /** `put_nowait`, with a full queue left as it is. */
  function Offered(items: seq<Item>, x: Item): seq<Item> {
    if HasRoom(items) then items + [x] else items
  }

  predicate HasRoom(items: seq<Item>) {
    |items| < QUEUE_MAXSIZE
  }

  /** The row that persists an event keeps a bounded part of its message. */
  function Row(e: Event): Event {
    e.(message := if |e.message| <= MESSAGE_MAX then e.message else e.message[..MESSAGE_MAX])
  }

  class Queue {
    var items: seq<Item>

    constructor ()
      ensures items == []
    {
      items := [];
    }

    method PutNowait(x: Item) returns (ok: bool)
      modifies this
      ensures ok <==> |old(items)| < 256
      ensures items == if ok then old(items) + [x] else old(items)
    {
      ok := HasRoom(items);
      if ok {
        items := items + [x];
      }
    }
  }

  class Bus {
    var subscribers: map<RunId, set<Queue>>

    /** No run keeps an entry for an empty set of subscribers. */
    ghost predicate Valid()
      reads this
    {
      forall r :: r in subscribers ==> subscribers[r] != {}
    }

    function Of(run: RunId): set<Queue>
      reads this
    {
      if run in subscribers then subscribers[run] else {}
    }

    constructor ()
      ensures Valid() && forall r :: Of(r) == {}
    {
      subscribers := map[];
    }

    method Subscribe(run: RunId) returns (queue: Queue)
      requires Valid()
      modifies this
      ensures Valid() && fresh(queue) && queue.items == []
      ensures Of(run) == old(Of(run)) + {queue}
      ensures forall r :: r != run ==> Of(r) == old(Of(r))
    {
      queue := new Queue();
      subscribers := subscribers[run := Of(run) + {queue}];
    }

    method Unsubscribe(run: RunId, queue: Queue)
      requires Valid()
      modifies this
      ensures Valid()
      ensures Of(run) == old(Of(run)) - {queue}
      ensures forall r :: r != run ==> Of(r) == old(Of(r))
    {
      subscribers := subscribers[run := Of(run) - {queue}];
      if subscribers[run] == {} {
        subscribers := subscribers - {run};
      }
    }

    /** Every subscriber of the run is offered the event; exactly those without room are dropped. */
    method Publish(run: RunId, event: Event)
      requires Valid()
      modifies this, Of(run)
      ensures Valid()
      ensures forall q :: q in old(Of(run)) ==>
        q.items == old(q.items) + if |old(q.items)| < 256 then [Live(event)] else []
      ensures Of(run) == set q | q in old(Of(run)) && |old(q.items)| < 256
      ensures forall r :: r != run ==> Of(r) == old(Of(r))
    {
      ghost var before := Of(run);
      var queues := Of(run);
      while queues != {}
        invariant Valid() && queues <= before
        invariant forall q :: q in queues ==> q.items == old(q.items)
        invariant forall q :: q in before - queues ==> q.items == Offered(old(q.items), Live(event))
        invariant Of(run) == set q | q in before && (q in queues || HasRoom(old(q.items)))
        invariant forall r :: r != run ==> Of(r) == old(Of(r))
      {
        var queue :| queue in queues;
        queues := queues - {queue};
        var ok := queue.PutNowait(Live(event));
        if !ok {
          Unsubscribe(run, queue);
        }
      }
    }

    /** Every subscriber with room gets the sentinel; nobody is unsubscribed. */
    method Close(run: RunId)
      requires Valid()
      modifies Of(run)
      ensures subscribers == old(subscribers)
      ensures forall q :: q in Of(run) ==> q.items == old(q.items) + if |old(q.items)| < 256 then [End] else []
    {
      var queues := Of(run);
      while queues != {}
        invariant queues <= Of(run)
        invariant forall q :: q in queues ==> q.items == old(q.items)
        invariant forall q :: q in Of(run) - queues ==> q.items == Offered(old(q.items), End)
      {
        var queue :| queue in queues;
        queues := queues - {queue};
        var _ := queue.PutNowait(End);
      }
    }
  }
}
