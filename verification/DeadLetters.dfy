/** Peeking into and replaying a dead-letter queue. A message taken from the queue stays the broker's until it
    is acked: closing the channel, or losing it, puts it back at the head. */
module DeadLetters {
  import opened Options

  const MAX_MESSAGES: int := 200

  /** What JSON.parse makes of a message body. Field values are left as their JSON text. */
  datatype Body =
    | NotJson(raw: string)
    | JsonString(text: string)
    | JsonScalar(text: string)
    | JsonArray(elements: seq<string>)
    | JsonObject(fields: map<Key, string>)

  datatype Key = Name(name: string) | Index(index: nat)

  datatype Delivery = Delivery(routingKey: string, body: Body, redelivered: bool)

  datatype Published = Published(routingKey: string, fields: map<Key, string>)

  /** `typeof body === 'string'`: a body that is not JSON, and also one that is a JSON string. */
  predicate StopsReplay(body: Body) {
    body.NotJson? || body.JsonString?
  }

  /** Object spread. */
  function Spread(body: Body): map<Key, string> {
    match body
    case JsonObject(fields) => fields
    case JsonArray(elements) =>
      map i | i in (set k: nat | k < |elements| :: Index(k)) && i.Index? && i.index < |elements| :: elements[i.index]
    case _ => map[]
  }

  function Replayed(d: Delivery): Published {
    Published(d.routingKey, Spread(d.body)[Name("attempt") := "1"])
  }

  function AllReplayed(deliveries: seq<Delivery>): seq<Published> {
    seq(|deliveries|, i requires 0 <= i < |deliveries| => Replayed(deliveries[i]))
  }

  /** A replay keeps the routing key. The original body can be told from it, the attempt apart, exactly for objects and
      arrays; a number, a boolean or null is replayed as a bare attempt. */
  lemma ReplayKeepsTheFields(d: Delivery, key: Key)
    requires !d.body.NotJson? && !d.body.JsonString? && key != Name("attempt")
    ensures Replayed(d).routingKey == d.routingKey
    ensures
      var fields := Replayed(d).fields;
      && Name("attempt") in fields && fields[Name("attempt")] == "1"
      && (d.body.JsonObject? ==> (key in fields <==> key in d.body.fields))
      && (d.body.JsonObject? && key in fields ==> fields[key] == d.body.fields[key])
      && (d.body.JsonArray? ==> (key in fields <==> key.Index? && key.index < |d.body.elements|))
      && (d.body.JsonArray? && key in fields ==> fields[key] == d.body.elements[key.index])
      && (d.body.JsonScalar? ==> key !in fields)
  {
  }

  function Requeued(d: Delivery): Delivery {
    d.(redelivered := true)
  }

  /** How the channel treats one message: all goes well; the publish throws; or the process dies between the
      accepted publish and the ack. */
  datatype Fate = Fine | PublishFails | DiesBeforeAck

  datatype ReplayResult = UnknownQueue | Finished(replayed: nat) | Threw

  function Cap(max: int): int {
    if max < MAX_MESSAGES then max else MAX_MESSAGES
  }

  /** A queue after its first n messages were acked and the next one, if it was taken, was put back. */
  function Remaining(queue: seq<Delivery>, n: nat, putBack: bool): seq<Delivery>
    requires n <= |queue| && (putBack ==> n < |queue|)
  {
    if putBack then [Requeued(queue[n])] + queue[n + 1..] else queue[n..]
  }

  /** What was not acked stays, in its order, with its routing key and body; only a message that was put back is
      flagged as redelivered. The cap is the caller's, up to two hundred. */
  lemma RemainingExactly(queue: seq<Delivery>, n: nat, putBack: bool, max: int)
    requires n <= |queue| && (putBack ==> n < |queue|)
    ensures |Remaining(queue, n, putBack)| == |queue| - n
    ensures forall i :: 0 <= i < |queue| - n ==>
              var d, before := Remaining(queue, n, putBack)[i], queue[n + i];
              && d.routingKey == before.routingKey && d.body == before.body
              && d.redelivered == (before.redelivered || (putBack && i == 0))
    ensures Cap(max) <= max && Cap(max) <= 200 && (Cap(max) == max || Cap(max) == 200)
  {
  }

  datatype Turn = Taken | QueueEmpty | NotReplayable | Thrown

  function TurnOf(queue: seq<Delivery>, fate: Fate): Turn {
    if queue == [] then QueueEmpty
    else if StopsReplay(queue[0].body) then NotReplayable
    else if fate == Fine then Taken
    else Thrown
  }

  lemma RemainingFrom(queue: seq<Delivery>, n: nat)
    requires n <= |queue|
    ensures Remaining(queue[n..], 0, queue[n..] != []) == Remaining(queue, n, n < |queue|)
    ensures n < |queue| ==> queue[n..][1..] == queue[n + 1..]
  {
  }

  /** When the loop stops, and with which answer. */
  ghost predicate ReplayOutcome(queue: seq<Delivery>, cap: int, fates: nat -> Fate, r: ReplayResult, acked: nat) {
    && acked <= |queue| && (acked == 0 || acked <= cap)
    && (forall i :: 0 <= i < acked ==> !queue[i].body.NotJson? && !queue[i].body.JsonString? && fates(i) == Fine)
    && (r.Finished? ==> r.replayed == acked)
    && (r.Finished? ==>
          acked >= cap || acked == |queue| || queue[acked].body.NotJson? || queue[acked].body.JsonString?)
    && (r.Threw? ==>
          && acked < |queue| && acked < cap
          && !queue[acked].body.NotJson? && !queue[acked].body.JsonString? && fates(acked) != Fine)
  }

  class DlqService {
    /** The dead-letter queue of every known queue. */
    var dlqs: map<string, seq<Delivery>>
    var exchange: seq<Published>

    constructor (dlqs: map<string, seq<Delivery>>)
      ensures this.dlqs == dlqs && exchange == []
    {
      this.dlqs, exchange := dlqs, [];
    }

    /** The head of the queue, now unacked. */
    method Get(queue: string) returns (d: Option<Delivery>)
      requires queue in dlqs
      modifies this`dlqs
      ensures d.None? <==> old(dlqs[queue]) == []
      ensures d.None? ==> dlqs == old(dlqs)
      ensures d.Some? ==> d.value == old(dlqs[queue])[0] && dlqs == old(dlqs)[queue := old(dlqs[queue])[1..]]
    {
      if |dlqs[queue]| == 0 {
        return None;
      }
      d := Some(dlqs[queue][0]);
      dlqs := dlqs[queue := dlqs[queue][1..]];
    }

    /** Unacked deliveries go back to the head of the queue, in their order. */
    method Requeue(queue: string, unacked: seq<Delivery>)
      requires queue in dlqs
      modifies this`dlqs
      ensures dlqs == old(dlqs)[queue := seq(|unacked|, i requires 0 <= i < |unacked| => Requeued(unacked[i]))
                                + old(dlqs[queue])]
    {
      dlqs := dlqs[queue := seq(|unacked|, i requires 0 <= i < |unacked| => Requeued(unacked[i])) + dlqs[queue]];
    }

    /** One turn of the replay loop. */
    method ReplayOne(queue: string, fate: Fate) returns (turn: Turn)
      requires queue in dlqs
      modifies this
      ensures var before := old(dlqs[queue]);
        && turn == TurnOf(before, fate)
        && dlqs == old(dlqs)[queue := if turn.Taken? then before[1..] else Remaining(before, 0, before != [])]
        && exchange == old(exchange)
           + if turn.Taken? || (turn.Thrown? && fate == DiesBeforeAck) then [Replayed(before[0])] else []
    {
      ghost var before := dlqs[queue];
      var msg := Get(queue);
      if msg.None? {
        return QueueEmpty;
      }
      if StopsReplay(msg.value.body) {
        Requeue(queue, [msg.value]);
        assert dlqs[queue] == Remaining(before, 0, true);
        return NotReplayable;
      }
      if fate == PublishFails {
        Requeue(queue, [msg.value]);
        assert dlqs[queue] == Remaining(before, 0, true);
        return Thrown;
      }
      exchange := exchange + [Replayed(msg.value)];
      if fate == DiesBeforeAck {
        Requeue(queue, [msg.value]);
        assert dlqs[queue] == Remaining(before, 0, true);
        return Thrown;
      }
      turn := Taken;
    }

    /** Conservation: `acked` messages have left the queue and every one of them is on the exchange, in order, with
        its routing key; every other message is still in the queue, in order. The one message that can be in
        both places is the one whose ack was lost. The call stops for the cap, an empty queue, a head that
        cannot be replayed, or a throw, and for nothing else. */
    method Replay(queue: string, max: int, fates: nat -> Fate) returns (r: ReplayResult, ghost acked: nat)
      modifies this
      ensures r == UnknownQueue <==> queue !in old(dlqs)
      ensures r == UnknownQueue ==> dlqs == old(dlqs) && exchange == old(exchange)
      ensures queue in old(dlqs) ==> ReplayOutcome(old(dlqs)[queue], Cap(max), fates, r, acked)
      ensures queue in old(dlqs) ==>
        var before := old(dlqs)[queue];
        && dlqs == old(dlqs)[queue := Remaining(before, acked, acked < |before| && acked < Cap(max))]
        && exchange == old(exchange) + AllReplayed(before[..acked])
                       + if r.Threw? && fates(acked) == DiesBeforeAck then [Replayed(before[acked])] else []
    {
      acked := 0;
      if queue !in dlqs {
        return UnknownQueue, 0;
      }
      var cap := if max < MAX_MESSAGES then max else MAX_MESSAGES;
      var replayed := 0;
      ghost var before := dlqs[queue];
      while replayed < cap
        invariant acked == replayed <= |before| && (replayed == 0 || replayed <= cap)
        invariant dlqs == old(dlqs)[queue := before[replayed..]]
        invariant exchange == old(exchange) + AllReplayed(before[..replayed])
        invariant forall i :: 0 <= i < replayed ==> !StopsReplay(before[i].body) && fates(i) == Fine
        decreases cap - replayed
      {
        var turn := ReplayOne(queue, fates(replayed));
        RemainingFrom(before, replayed);
        if turn.Thrown? {
          return Threw, acked;
        }
        if !turn.Taken? {
          return Finished(replayed), acked;
        }
        assert AllReplayed(before[..replayed + 1]) == AllReplayed(before[..replayed]) + [Replayed(before[replayed])];
        replayed := replayed + 1;
        acked := replayed;
      }
      r := Finished(replayed);
    }

    /** Shows a prefix of the queue and leaves every message in it, in order; only the redelivered flags of the
        shown messages change. */
    method Peek(queue: string, limit: int) returns (r: Option<seq<Delivery>>)
      modifies this`dlqs
      ensures r.None? <==> queue !in old(dlqs)
      ensures r.None? ==> dlqs == old(dlqs)
      ensures r.Some? ==>
        var before := old(dlqs)[queue];
        && r.value <= before
        && (|r.value| == |before| || |r.value| == Cap(limit) || (Cap(limit) < 0 && r.value == []))
        && (|r.value| == 0 || |r.value| <= Cap(limit))
        && dlqs == old(dlqs)[queue := seq(|before|, i requires 0 <= i < |before| =>
                                            if i < |r.value| then Requeued(before[i]) else before[i])]
    {
      if queue !in dlqs {
        return None;
      }
      var cap := if limit < MAX_MESSAGES then limit else MAX_MESSAGES;
      ghost var before := dlqs[queue];
      var msgs: seq<Delivery> := [];
      while |msgs| < cap
        invariant |msgs| <= |before| && msgs == before[..|msgs|]
        invariant dlqs == old(dlqs)[queue := before[|msgs|..]]
        invariant |msgs| == 0 || |msgs| <= cap
        decreases cap - |msgs|
      {
        var msg := Get(queue);
        if msg.None? {
          break;
        }
        assert before[|msgs|..][1..] == before[|msgs| + 1..];
        msgs := msgs + [msg.value];
      }
      if |msgs| > 0 {
        Requeue(queue, msgs);
      }
      assert dlqs[queue] == seq(|before|, i requires 0 <= i < |before| =>
                                if i < |msgs| then Requeued(before[i]) else before[i]);
      r := Some(msgs);
    }
  }
}
