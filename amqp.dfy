/** The broker as the stages see it through one channel: a log of publications, a log of
    settlements (ack or reject of a delivery), the queues consumers are registered on, the
    prefetch setting and the declared topology. Each channel operation is one append or
    one set insertion, which is all the stages rely on. */
module Amqp {
  import opened Wrappers
  import opened Messages

  datatype ExchangeKind = Topic

  datatype Exchange = Exchange(name: string, kind: ExchangeKind)

  /** A queue with its `deadLetterExchange` and `messageTtl` arguments. */
  datatype Queue = Queue(name: string, deadLetterExchange: string, messageTtl: int)

  /** `bindQueue(queue, exchange, pattern)`. */
  datatype Binding = Binding(queue: string, exchange: string, pattern: string)

  datatype Topology = Topology(exchanges: set<Exchange>, queues: set<Queue>, bindings: set<Binding>)

  const EmptyTopology := Topology({}, {}, {})

  /** `prefetch(count, global)`. */
  datatype Prefetch = Prefetch(count: nat, global: bool)

  /** How a delivery was settled; `tag` identifies the delivery. */
  datatype Settlement = Ack(tag: nat) | Reject(tag: nat, requeue: bool)

  class Channel {
    var published: seq<Publication>
    var settlements: seq<Settlement>
    var consumers: seq<string>
    var prefetch: Option<Prefetch>
    var topology: Topology

    constructor ()
      ensures published == [] && settlements == [] && consumers == []
      ensures prefetch == None && topology == EmptyTopology
    {
      published := [];
      settlements := [];
      consumers := [];
      prefetch := None;
      topology := EmptyTopology;
    }

    method Publish(exchange: string, routingKey: RoutingKey, body: Message)
      modifies this
      ensures published == old(published) + [Publication(exchange, routingKey, body)]
      ensures settlements == old(settlements) && consumers == old(consumers)
      ensures prefetch == old(prefetch) && topology == old(topology)
    {
      published := published + [Publication(exchange, routingKey, body)];
    }

    method AckDelivery(tag: nat)
      modifies this
      ensures settlements == old(settlements) + [Ack(tag)]
      ensures published == old(published) && consumers == old(consumers)
      ensures prefetch == old(prefetch) && topology == old(topology)
    {
      settlements := settlements + [Ack(tag)];
    }

    method RejectDelivery(tag: nat, requeue: bool)
      modifies this
      ensures settlements == old(settlements) + [Reject(tag, requeue)]
      ensures published == old(published) && consumers == old(consumers)
      ensures prefetch == old(prefetch) && topology == old(topology)
    {
      settlements := settlements + [Reject(tag, requeue)];
    }

    /** Registers a consumer on `queue`. */
    method Consume(queue: string)
      modifies this
      ensures consumers == old(consumers) + [queue]
      ensures published == old(published) && settlements == old(settlements)
      ensures prefetch == old(prefetch) && topology == old(topology)
    {
      consumers := consumers + [queue];
    }

    method SetPrefetch(count: nat, global: bool)
      modifies this
      ensures prefetch == Some(Prefetch(count, global))
      ensures published == old(published) && settlements == old(settlements)
      ensures consumers == old(consumers) && topology == old(topology)
    {
      prefetch := Some(Prefetch(count, global));
    }

    /** Declaring an exchange that already exists with the same kind changes nothing. */
    method AssertExchange(name: string, kind: ExchangeKind)
      modifies this
      ensures topology == old(topology).(exchanges := old(topology).exchanges + {Exchange(name, kind)})
      ensures published == old(published) && settlements == old(settlements)
      ensures consumers == old(consumers) && prefetch == old(prefetch)
    {
      topology := topology.(exchanges := topology.exchanges + {Exchange(name, kind)});
    }

    method AssertQueue(name: string, deadLetterExchange: string, messageTtl: int)
      modifies this
      ensures topology == old(topology).(queues := old(topology).queues + {Queue(name, deadLetterExchange, messageTtl)})
      ensures published == old(published) && settlements == old(settlements)
      ensures consumers == old(consumers) && prefetch == old(prefetch)
    {
      topology := topology.(queues := topology.queues + {Queue(name, deadLetterExchange, messageTtl)});
    }

    method BindQueue(queue: string, exchange: string, pattern: string)
      modifies this
      ensures topology == old(topology).(bindings := old(topology).bindings + {Binding(queue, exchange, pattern)})
      ensures published == old(published) && settlements == old(settlements)
      ensures consumers == old(consumers) && prefetch == old(prefetch)
    {
      topology := topology.(bindings := topology.bindings + {Binding(queue, exchange, pattern)});
    }
  }
}
