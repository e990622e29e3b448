/** The wrapper every consuming stage installs around its message handler: it parses the
    delivery, runs the handler, and settles the delivery exactly once: ack on success,
    ack-and-drop once the broker's `x-death` header shows the message was rejected more
    often than the redelivery threshold, reject without requeue otherwise. A null delivery
    is ignored, and content that is not JSON throws before the handler runs, so nothing is
    settled for it. */
module ConsumerExecutor {
  import opened Wrappers
  import opened Amqp

  /** One entry of RabbitMQ's `x-death` header. */
  datatype XDeathEntry = XDeathEntry(count: int, reason: string)

  /** `message.properties.headers`; `xDeath` is `None` when the header is absent. */
  datatype Headers = Headers(xDeath: Option<seq<XDeathEntry>>)

  /** A delivery as the wrapper sees it. `content` is the parsed body, `None` when the bytes
      are not JSON; `headers` is `None` when the message has none. */
  datatype Delivery = Delivery(tag: nat, routingKey: string, content: Option<string>, headers: Option<Headers>)

  datatype Outcome =
    | Ignored       // null delivery: nothing happens
    | ParseFailed   // `JSON.parse` threw outside the `try`: no handler call, no settlement
    | Acked         // handler succeeded
    | Dropped       // handler failed, redelivery threshold exceeded: acked
    | Rejected      // handler failed otherwise: rejected without requeue

  predicate IsDropEntry(e: XDeathEntry, threshold: int) {
    e.reason == "rejected" && e.count > threshold
  }

  /** `entries.find(...)`: the first entry meeting the drop test. */
  function FindDropEntry(entries: seq<XDeathEntry>, threshold: int): (r: Option<XDeathEntry>)
    ensures r.Some? <==> exists i :: 0 <= i < |entries| && IsDropEntry(entries[i], threshold)
    ensures r.Some? ==> exists i :: (0 <= i < |entries| && entries[i] == r.value
      && IsDropEntry(r.value, threshold)
      && forall j :: 0 <= j < i ==> !IsDropEntry(entries[j], threshold))
    decreases |entries|
  {
    if entries == [] then None
    else if IsDropEntry(entries[0], threshold) then Some(entries[0])
    else
      var r := FindDropEntry(entries[1..], threshold);
      if r.Some? then
        ghost var i :| (0 <= i < |entries[1..]| && entries[1..][i] == r.value
          && IsDropEntry(r.value, threshold)
          && forall j :: 0 <= j < i ==> !IsDropEntry(entries[1..][j], threshold));
        assert entries[i + 1] == r.value;
        assert forall j :: 1 <= j < i + 1 ==> entries[j] == entries[1..][j - 1];
        r
      else
        r
  }

  /** `headers?.['x-death']?.find(...)`. */
  function DropEntry(headers: Option<Headers>, threshold: int): Option<XDeathEntry> {
    if headers.Some? && headers.value.xDeath.Some? then FindDropEntry(headers.value.xDeath.value, threshold)
    else None
  }

  /** The drop rule stated without `find`: some `x-death` entry has reason `rejected` and
      a count strictly above the threshold. */
  predicate ExceedsThreshold(headers: Option<Headers>, threshold: int) {
    headers.Some? && headers.value.xDeath.Some?
    && exists e :: e in headers.value.xDeath.value && IsDropEntry(e, threshold)
  }

  /** The handler is called only for a non-null delivery whose content parses. */
  predicate Parses(message: Option<Delivery>) {
    message.Some? && message.value.content.Some?
  }

  /** What the wrapper does with one delivery, given whether the handler would succeed. */
  function Decide(message: Option<Delivery>, handlerSucceeds: bool, threshold: int): (r: Outcome)
    ensures r == Ignored <==> message.None?
    ensures r == ParseFailed <==> message.Some? && message.value.content.None?
    ensures r == Acked <==> Parses(message) && handlerSucceeds
    ensures r == Dropped <==> Parses(message) && !handlerSucceeds && ExceedsThreshold(message.value.headers, threshold)
    ensures r == Rejected <==> Parses(message) && !handlerSucceeds && !ExceedsThreshold(message.value.headers, threshold)
  {
    if message.None? then Ignored
    else if message.value.content.None? then ParseFailed
    else if handlerSucceeds then Acked
    else if DropEntry(message.value.headers, threshold).Some? then Dropped
    else Rejected
  }

  /** The channel calls an outcome makes. */
  function SettlementsFor(outcome: Outcome, tag: nat): seq<Settlement> {
    match outcome
    case Acked => [Ack(tag)]
    case Dropped => [Ack(tag)]
    case Rejected => [Reject(tag, false)]
    case _ => []
  }

  /** A delivery whose content parses is settled exactly once, by an ack or by a reject
      without requeue (never both); any other delivery is not settled at all. */
  lemma ExactlyOneSettlement(message: Option<Delivery>, handlerSucceeds: bool, threshold: int, tag: nat)
    ensures var s := SettlementsFor(Decide(message, handlerSucceeds, threshold), tag);
      && |s| == (if Parses(message) then 1 else 0)
      && (forall i :: 0 <= i < |s| ==> s[i] == Ack(tag) || s[i] == Reject(tag, false))
      && (handlerSucceeds && Parses(message) ==> s == [Ack(tag)])
  {
  }

  /** The threshold comparison is strict: entries whose count only reaches the threshold,
      or whose reason is not `rejected`, never cause a drop. */
  lemma ThresholdIsStrict(entries: seq<XDeathEntry>, threshold: int, d: Delivery)
    requires forall e :: e in entries ==> e.count <= threshold || e.reason != "rejected"
    requires d.content.Some? && d.headers == Some(Headers(Some(entries)))
    ensures Decide(Some(d), false, threshold) == Rejected
  {
  }

  /** A failing handler with no headers, or headers without `x-death`, is rejected. */
  lemma MissingHeadersReject(d: Delivery, threshold: int)
    requires d.content.Some? && (d.headers.None? || d.headers.value.xDeath.None?)
    ensures Decide(Some(d), false, threshold) == Rejected
  {
  }

  /** The message handler the wrapper calls; `failing` holds the bodies it throws on. */
  class MessageConsumer {
    var consumed: seq<(string, string)>
    var failing: set<string>

    constructor (failing: set<string>)
      ensures this.consumed == [] && this.failing == failing
    {
      consumed := [];
      this.failing := failing;
    }

    /** `consume({message, routingKey})`: records the call and reports success. */
    method Consume(body: string, routingKey: string) returns (ok: bool)
      modifies this
      ensures consumed == old(consumed) + [(body, routingKey)]
      ensures failing == old(failing) && ok == (body !in failing)
    {
      consumed := consumed + [(body, routingKey)];
      ok := body !in failing;
    }
  }

  class MessageConsumerExecutor {
    const consumer: MessageConsumer
    const channel: Channel
    const queueName: string
    const redeliveryDropThreshold: int

    constructor (consumer: MessageConsumer, channel: Channel, queueName: string, redeliveryDropThreshold: int)
      ensures this.consumer == consumer && this.channel == channel
      ensures this.queueName == queueName && this.redeliveryDropThreshold == redeliveryDropThreshold
    {
      this.consumer := consumer;
      this.channel := channel;
      this.queueName := queueName;
      this.redeliveryDropThreshold := redeliveryDropThreshold;
    }

    /** `startConsuming`: registers the wrapper on the configured queue. */
    method StartConsuming()
      modifies channel
      ensures channel.consumers == old(channel.consumers) + [queueName]
      ensures channel.published == old(channel.published) && channel.settlements == old(channel.settlements)
      ensures channel.prefetch == old(channel.prefetch) && channel.topology == old(channel.topology)
    {
      channel.Consume(queueName);
    }

    /** The wrapper, run on one delivery. */
    method OnMessage(message: Option<Delivery>) returns (outcome: Outcome)
      modifies channel, consumer
      ensures outcome == Decide(message, Parses(message) && message.value.content.value !in old(consumer.failing), redeliveryDropThreshold)
      ensures channel.settlements == old(channel.settlements) + SettlementsFor(outcome, if message.Some? then message.value.tag else 0)
      ensures consumer.consumed == old(consumer.consumed)
        + (if Parses(message) then [(message.value.content.value, message.value.routingKey)] else [])
      ensures consumer.failing == old(consumer.failing)
      ensures channel.published == old(channel.published) && channel.consumers == old(channel.consumers)
      ensures channel.prefetch == old(channel.prefetch) && channel.topology == old(channel.topology)
    {
      if message.None? {
        return Ignored;
      }
      var delivery := message.value;
      if delivery.content.None? {
        return ParseFailed;
      }
      var ok := consumer.Consume(delivery.content.value, delivery.routingKey);
      if ok {
        channel.AckDelivery(delivery.tag);
        return Acked;
      }
      var dropEntry := DropEntry(delivery.headers, redeliveryDropThreshold);
      if dropEntry.Some? {
        channel.AckDelivery(delivery.tag);
        return Dropped;
      }
      channel.RejectDelivery(delivery.tag, false);
      return Rejected;
    }
  }
}
