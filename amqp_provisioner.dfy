/** Channel set-up and the queue topology every consuming stage declares: a topic exchange
    and its `.retry` twin, a queue and its `.retry` twin that both dead-letter to the
    retry exchange with the same TTL, and one binding each on the same pattern. */
module AmqpProvisioner {
  import opened Wrappers
  import opened Amqp
  import opened Strings

  /** The arguments of `createQueue`. */
  datatype QueueArgs = QueueArgs(exchangeName: string, queueName: string, pattern: string, dlqMessageTtl: int)

  function RetryName(name: string): string { name + ".retry" }

  /** The topology after the six declarations of `createQueue`, in source order. */
  function CreateQueueTopology(t: Topology, a: QueueArgs): Topology {
    var retryExchange := RetryName(a.exchangeName);
    var t1 := t.(exchanges := t.exchanges + {Exchange(a.exchangeName, Topic)});
    var t2 := t1.(exchanges := t1.exchanges + {Exchange(retryExchange, Topic)});
    var t3 := t2.(queues := t2.queues + {Queue(a.queueName, retryExchange, a.dlqMessageTtl)});
    var t4 := t3.(queues := t3.queues + {Queue(RetryName(a.queueName), retryExchange, a.dlqMessageTtl)});
    var t5 := t4.(bindings := t4.bindings + {Binding(a.queueName, a.exchangeName, a.pattern)});
    t5.(bindings := t5.bindings + {Binding(RetryName(a.queueName), retryExchange, a.pattern)})
  }

  /** Exactly what one call adds: two topic exchanges, two queues dead-lettering to the
      retry exchange with the given TTL, and the two bindings on `pattern`. */
  lemma CreateQueueDeclares(t: Topology, a: QueueArgs)
    ensures var r := CreateQueueTopology(t, a); var rx := a.exchangeName + ".retry";
      && r.exchanges == t.exchanges + {Exchange(a.exchangeName, Topic), Exchange(rx, Topic)}
      && r.queues == t.queues + {Queue(a.queueName, rx, a.dlqMessageTtl), Queue(a.queueName + ".retry", rx, a.dlqMessageTtl)}
      && r.bindings == t.bindings + {Binding(a.queueName, a.exchangeName, a.pattern), Binding(a.queueName + ".retry", rx, a.pattern)}
  {
  }

  /** Declaring the same queue twice leaves the topology of declaring it once. */
  lemma CreateQueueIdempotent(t: Topology, a: QueueArgs)
    ensures CreateQueueTopology(CreateQueueTopology(t, a), a) == CreateQueueTopology(t, a)
  {
    CreateQueueDeclares(t, a);
    CreateQueueDeclares(CreateQueueTopology(t, a), a);
  }

  /** The topology after a sequence of `createQueue` calls. */
  function CreateQueues(t: Topology, calls: seq<QueueArgs>): Topology
    decreases |calls|
  {
    if calls == [] then t else CreateQueues(CreateQueueTopology(t, calls[0]), calls[1..])
  }

  /** No declared queue dead-letters to `exchange`. */
  predicate NoDeadLetterTo(t: Topology, exchange: string) {
    forall q :: q in t.queues ==> q.deadLetterExchange != exchange
  }

  /** The only queues bound to the retry exchange of `exchange` are `.retry` queues. */
  predicate RetryExchangeFeedsRetryQueues(t: Topology, exchange: string) {
    forall b :: b in t.bindings && b.exchange == RetryName(exchange) ==>
      EndsWith(b.queue, ".retry")
  }

  /** Starting from an empty broker, however many queues the stages declare on one
      exchange, nothing dead-letters back to that exchange, and what reaches its retry
      exchange is routed only to `.retry` queues: a rejected or expired message never
      returns to a primary queue. */
  lemma {:induction false} NothingRoutesBackToMain(t: Topology, exchange: string, calls: seq<QueueArgs>)
    requires forall i :: 0 <= i < |calls| ==> calls[i].exchangeName == exchange
    requires NoDeadLetterTo(t, exchange) && RetryExchangeFeedsRetryQueues(t, exchange)
    ensures NoDeadLetterTo(CreateQueues(t, calls), exchange)
    ensures RetryExchangeFeedsRetryQueues(CreateQueues(t, calls), exchange)
    decreases |calls|
  {
    if calls != [] {
      var a := calls[0];
      var t' := CreateQueueTopology(t, a);
      CreateQueueDeclares(t, a);
      assert |RetryName(exchange)| != |exchange|;
      forall b | b in t'.bindings && b.exchange == RetryName(exchange)
        ensures EndsWith(b.queue, ".retry")
      {
        if b == Binding(a.queueName, a.exchangeName, a.pattern) {
          assert false;
        } else if b == Binding(RetryName(a.queueName), RetryName(a.exchangeName), a.pattern) {
          assert b.queue[|b.queue| - 6..] == ".retry";
        }
      }
      NothingRoutesBackToMain(t', exchange, calls[1..]);
    }
  }

  class Provisioner {
    constructor () {}

    /** `createChannel`: the new channel delivers at most one unacknowledged message to
        each consumer (prefetch 1, per consumer rather than global). */
    method CreateChannel() returns (channel: Channel)
      ensures fresh(channel)
      ensures channel.prefetch == Some(Prefetch(1, false))
      ensures channel.published == [] && channel.settlements == [] && channel.consumers == []
      ensures channel.topology == EmptyTopology
    {
      channel := new Channel();
      channel.SetPrefetch(1, false);
    }

    /** `createQueue`: the six declarations, in order. */
    method CreateQueue(channel: Channel, a: QueueArgs)
      modifies channel
      ensures channel.topology == CreateQueueTopology(old(channel.topology), a)
      ensures channel.published == old(channel.published) && channel.settlements == old(channel.settlements)
      ensures channel.consumers == old(channel.consumers) && channel.prefetch == old(channel.prefetch)
    {
      var retryExchangeName := RetryName(a.exchangeName);
      channel.AssertExchange(a.exchangeName, Topic);
      channel.AssertExchange(retryExchangeName, Topic);
      channel.AssertQueue(a.queueName, retryExchangeName, a.dlqMessageTtl);
      channel.AssertQueue(RetryName(a.queueName), retryExchangeName, a.dlqMessageTtl);
      channel.BindQueue(a.queueName, a.exchangeName, a.pattern);
      channel.BindQueue(RetryName(a.queueName), retryExchangeName, a.pattern);
    }
  }
}
