/** The pipeline message and the outbox entry that carries it. */
module Messages {
  import opened Options

  datatype Message = Message(
    runId: string, tenantId: string, step: string,
    queue: Option<string>, batchSeq: Option<int>,
    attempt: int, standalone: bool, payload: string)

  /** What an outbox row stores of a message. */
  datatype Envelope = Envelope(runId: string, tenantId: string, routingKey: string, message: Message)

  function BatchSeqOf(m: Message): int {
    match m.batchSeq case Some(q) => q case None => 0
  }

  function QueueOf(m: Message): string {
    match m.queue case Some(q) => q case None => m.step
  }

  function RoutingKey(m: Message): string {
    m.tenantId + "." + QueueOf(m)
  }

  /** A message on an exchange, and the key it was published with. */
  datatype Routed = Routed(key: string, message: Message)

  /** A message under its own routing key. */
  function Addressed(m: Message): Routed {
    Routed(RoutingKey(m), m)
  }

  function AllAddressed(messages: seq<Message>): seq<Routed> {
    seq(|messages|, i requires 0 <= i < |messages| => Addressed(messages[i]))
  }

  function Enveloped(runId: string, tenantId: string, messages: seq<Message>): seq<Envelope> {
    seq(|messages|, i requires 0 <= i < |messages| => Envelope(runId, tenantId, RoutingKey(messages[i]), messages[i]))
  }

  /** Publishing addresses each message, as it is, by its own tenant and its queue, or its step when it names none. */
  lemma AddressedExactly(messages: seq<Message>)
    ensures |AllAddressed(messages)| == |messages|
    ensures forall i :: 0 <= i < |messages| ==>
              var wire, m := AllAddressed(messages)[i], messages[i];
              && wire == Addressed(m) && wire.message == m
              && wire.key == m.tenantId + "." + if m.queue.Some? then m.queue.value else m.step
  {
  }

  /** An entry carries its message as it is, under the run and tenant of the caller; its routing key is the message's
      own tenant and its queue, or its step when it names no queue. */
  lemma EnvelopedExactly(runId: string, tenantId: string, messages: seq<Message>)
    ensures |Enveloped(runId, tenantId, messages)| == |messages|
    ensures forall i :: 0 <= i < |messages| ==>
              var e, m := Enveloped(runId, tenantId, messages)[i], messages[i];
              && e.message == m && e.runId == runId && e.tenantId == tenantId
              && (m.queue.Some? ==> e.routingKey == m.tenantId + "." + m.queue.value)
              && (m.queue.None? ==> e.routingKey == m.tenantId + "." + m.step)
    ensures forall m: Message :: BatchSeqOf(m) == if m.batchSeq.Some? then m.batchSeq.value else 0
  {
  }
}
