/** The older copy of the consumer wrapper, kept by the stages that build on the common
    packages. Its decision is the same as the newer copy's (it only logs the error
    unformatted), so it reuses that copy's `Decide` and settlement rule; the class below
    is its own executor with its own channel and handler. */
module CommonConsumerExecutor {
  import opened Wrappers
  import opened Amqp
  import opened ConsumerExecutor

  class CommonMessageConsumerExecutor {
    const consumer: MessageConsumer
    const channel: Channel
    const queueName: string
    const redeliveryDropThreshold: int

    constructor (consumer: MessageConsumer, channel: Channel, queueName: string, redeliveryDropThreshold: int)
      ensures this.consumer == consumer && this.channel == channel
      ensures this.queueName == queueName && this.redeliveryDropThreshold == redeliveryDropThreshold
    {
      this.consumer := consumer;
      this.channel := channel;
      this.queueName := queueName;
      this.redeliveryDropThreshold := redeliveryDropThreshold;
    }

    method StartConsuming()
      modifies channel
      ensures channel.consumers == old(channel.consumers) + [queueName]
      ensures channel.published == old(channel.published) && channel.settlements == old(channel.settlements)
      ensures channel.prefetch == old(channel.prefetch) && channel.topology == old(channel.topology)
    {
      channel.Consume(queueName);
    }

    method OnMessage(message: Option<Delivery>) returns (outcome: Outcome)
      modifies channel, consumer
      ensures outcome == Decide(message, Parses(message) && message.value.content.value !in old(consumer.failing), redeliveryDropThreshold)
      ensures channel.settlements == old(channel.settlements) + SettlementsFor(outcome, if message.Some? then message.value.tag else 0)
      ensures consumer.consumed == old(consumer.consumed)
        + (if Parses(message) then [(message.value.content.value, message.value.routingKey)] else [])
      ensures consumer.failing == old(consumer.failing)
      ensures channel.published == old(channel.published) && channel.consumers == old(channel.consumers)
      ensures channel.prefetch == old(channel.prefetch) && channel.topology == old(channel.topology)
    {
      if message.None? {
        return Ignored;
      }
      var delivery := message.value;
      if delivery.content.None? {
        return ParseFailed;
      }
      var ok := consumer.Consume(delivery.content.value, delivery.routingKey);
      if ok {
        channel.AckDelivery(delivery.tag);
        return Acked;
      }
      if DropEntry(delivery.headers, redeliveryDropThreshold).Some? {
        channel.AckDelivery(delivery.tag);
        return Dropped;
      }
      channel.RejectDelivery(delivery.tag, false);
      return Rejected;
    }
  }
}
