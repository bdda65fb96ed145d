/**
 * The process-wide state behind the host functions: the inbound message
 * queue that the connection's handler fills and each poll tick drains, the
 * stored bot token, and the outbound work handed to the background runtime.
 * Spawned work is recorded as a Command appended to `outbox` in the order it
 * was handed over; what the network then does with it is not modelled.
 */
module Bridge {
  import opened Base
  import opened Ids
  import opened Payload
  import opened RichEmbed
  import opened Inbound

  /** Work handed to the background runtime. */
  datatype Command =
    | StartClient(token: string)                          // build and start a client with this token
    | Reply(channel: U64, text: string)                   // answer through the live client's own connection
    | Say(token: string, channel: U64, text: string)      // post plain text
    | SendEmbed(token: string, channel: U64, embed: Embed) // post a rich message

  const PING := "!ping"
  const PONG := "Pong!"
  const CONNECT_ACK := "Bot connecting in background..."
  const SEND_ACK := "Message queued"
  const RICH_ACK := "Rich message queued"

  class Bridge {
    /** The stored bot token; empty until a connect call stores one. */
    var token: string
    /** Messages received and not yet handed to the host, oldest first. */
    var queue: seq<Message>
    /** Every record handed to the host callback so far, in order. */
    var delivered: seq<HostRecord>
    /** Work handed to the background runtime so far, in order. */
    var outbox: seq<Command>
    /** Every message the handler has ever queued, in the order it queued them. */
    ghost var arrived: seq<Message>
    /** The messages taken off the queue and handed to the host so far, in order. */
    ghost var consumed: seq<Message>

    /**
     * Every message the handler queued is either still in the queue or consumed, in queueing order,
     * and each consumed message was delivered exactly once, as its record.
     */
    ghost predicate Valid()
      reads this
    {
      MailboxInvariant(arrived, consumed, queue, delivered)
    }

    constructor ()
      ensures Valid()
      ensures token == "" && queue == [] && delivered == [] && outbox == [] && arrived == []
    {
      token := "";
      queue := [];
      delivered := [];
      outbox := [];
      arrived := [];
      consumed := [];
    }

    /**
     * The connection's message handler: a message whose content is exactly
     * "!ping" is first answered with "Pong!" in its channel; every message,
     * that one included, is then queued for the host.
     */
    method OnMessage(m: Message)
      requires Valid()
      modifies this
      ensures Valid()
      ensures queue == old(queue) + [m] && arrived == old(arrived) + [m]
      ensures outbox == old(outbox) + if m.content == PING then [Reply(m.channelId, PONG)] else []
      ensures token == old(token) && delivered == old(delivered) && consumed == old(consumed)
    {
      if m.content == PING {
        outbox := outbox + [Reply(m.channelId, PONG)];
      }
      queue := queue + [m];
      arrived := arrived + [m];
    }

    /**
     * `try_recv` on the queue: the oldest message, removed, or nothing when
     * it is empty. It is a step inside ProcessMessages only: between the
     * removal and the delivery of the record the invariant Valid() does not
     * hold, so it is neither required nor ensured here.
     */
    method TryRecv() returns (r: Option<Message>)
      modifies this
      ensures old(queue) == [] ==> r == None && queue == []
      ensures old(queue) != [] ==> r == Some(old(queue)[0]) && queue == old(queue)[1..]
      ensures token == old(token) && delivered == old(delivered)
      ensures outbox == old(outbox) && arrived == old(arrived) && consumed == old(consumed)
    {
      if queue == [] {
        r := None;
      } else {
        r := Some(queue[0]);
        queue := queue[1..];
      }
    }

    /**
     * One poll tick: take messages off the queue until it is empty and hand
     * the record of each to the host callback, in the order the handler queued them.
     */
    method ProcessMessages()
      requires Valid()
      requires forall i :: 0 <= i < |queue| ==> Deliverable(queue[i])
      modifies this
      ensures Valid()
      ensures queue == []
      ensures delivered == old(delivered) + Records(old(queue))
      ensures token == old(token) && outbox == old(outbox) && arrived == old(arrived)
      ensures consumed == old(consumed) + old(queue)
      ensures consumed == arrived && delivered == Records(arrived)
    {
      ghost var pending := queue;
      ghost var k := 0;
      while true
        invariant Valid()
        invariant k <= |pending| && queue == pending[k..]
        invariant consumed == old(consumed) + pending[..k]
        invariant forall i :: 0 <= i < |pending| ==> Deliverable(pending[i])
        invariant token == old(token) && outbox == old(outbox) && arrived == old(arrived)
        decreases |queue|
      {
        var next := TryRecv();
        if next.None? {
          break;
        }
        var m := next.value;
        ConsumeOne(arrived, consumed, [m] + queue, delivered);
        assert pending[..k + 1] == pending[..k] + [m];
        delivered := delivered + [ToRecord(m)];
        consumed := consumed + [m];
        k := k + 1;
      }
      assert pending[..k] == pending;
      RecordsAppend(old(consumed), pending);
    }

    /** connect_discord_bot: store the token, start a client with it, acknowledge at once. */
    method Connect(t: string) returns (ack: string)
      requires Valid()
      modifies this
      ensures Valid()
      ensures token == t && outbox == old(outbox) + [StartClient(t)]
      ensures ack == CONNECT_ACK
      ensures queue == old(queue) && delivered == old(delivered)
      ensures arrived == old(arrived) && consumed == old(consumed)
    {
      token := t;
      outbox := outbox + [StartClient(t)];
      ack := CONNECT_ACK;
    }

    /**
     * send_message: post text to the channel the host's text names (the zero
     * id when it names none), with the token stored at the time of the call.
     */
    method SendMessage(channelText: string, text: string) returns (ack: string)
      requires Valid()
      modifies this
      ensures Valid()
      ensures outbox == old(outbox) + [Say(token, ParseId(channelText), text)]
      ensures ack == SEND_ACK
      ensures token == old(token) && queue == old(queue)
      ensures delivered == old(delivered) && arrived == old(arrived) && consumed == old(consumed)
    {
      var channel := ParseId(channelText);
      outbox := outbox + [Say(token, channel, text)];
      ack := SEND_ACK;
    }

    /**
     * send_rich_message: post the embed built from the payload (`parsed` is
     * the outcome of parsing its text) to the channel the host's text names,
     * with the token stored at the time of the call.
     */
    method SendRichMessage(channelText: string, parsed: Option<Json>) returns (ack: string)
      requires Valid()
      modifies this
      ensures Valid()
      ensures outbox == old(outbox) + [SendEmbed(token, ParseId(channelText), BuildEmbed(PayloadValue(parsed)))]
      ensures ack == RICH_ACK
      ensures token == old(token) && queue == old(queue)
      ensures delivered == old(delivered) && arrived == old(arrived) && consumed == old(consumed)
    {
      var channel := ParseId(channelText);
      var embed := BuildEmbed(PayloadValue(parsed));
      outbox := outbox + [SendEmbed(token, channel, embed)];
      ack := RICH_ACK;
    }
  }

  /**
   * Two poll ticks with no arrival between them: the first delivers every
   * queued message in queueing order, the second delivers nothing.
   */
  method TwoTicks(b: Bridge)
    requires b.Valid()
    requires forall i :: 0 <= i < |b.queue| ==> Deliverable(b.queue[i])
    modifies b
    ensures b.Valid() && b.queue == []
    ensures b.delivered == old(b.delivered) + Records(old(b.queue))
  {
    b.ProcessMessages();
    var afterFirst := b.delivered;
    b.ProcessMessages();
    assert Records([]) == [];
    assert b.delivered == afterFirst;
  }

  /**
   * A "!ping" and another message arrive, then a tick runs: the ping is
   * answered once in its own channel, and both messages reach the host, in
   * the order the handler queued them.
   */
  method PingThenTick(b: Bridge, ping: Message, other: Message)
    requires b.Valid() && b.queue == []
    requires ping.content == PING && other.content != PING
    requires Deliverable(ping) && Deliverable(other)
    modifies b
    ensures b.Valid() && b.queue == []
    ensures b.outbox == old(b.outbox) + [Reply(ping.channelId, PONG)]
    ensures b.delivered == old(b.delivered) + [ToRecord(ping), ToRecord(other)]
  {
    b.OnMessage(ping);
    b.OnMessage(other);
    b.ProcessMessages();
  }

  /**
   * The host answers a delivered message by passing its record's channel id
   * text back to send_message: the message goes to the original channel.
   */
  method AnswerDelivered(b: Bridge, m: Message, text: string) returns (ack: string)
    requires b.Valid() && Deliverable(m)
    modifies b
    ensures b.Valid()
    ensures b.outbox == old(b.outbox) + [Say(b.token, m.channelId, text)]
    ensures ack == SEND_ACK
  {
    RecordIsFaithful(m);
    ack := b.SendMessage(ToRecord(m).channelId, text);
  }

  /**
   * A send captures the token stored when it is called: a later connect
   * with another token does not change the queued send.
   */
  method TokenSnapshot(b: Bridge, t1: string, t2: string, channelText: string, text: string)
    requires b.Valid()
    modifies b
    ensures b.Valid() && b.token == t2
    ensures b.outbox == old(b.outbox) +
      [StartClient(t1), Say(t1, ParseId(channelText), text), StartClient(t2)]
  {
    var _ := b.Connect(t1);
    var _ := b.SendMessage(channelText, text);
    var _ := b.Connect(t2);
  }

  /**
   * Every arrival is either consumed or still queued, in queueing order, and
   * the consumed messages were delivered exactly once each, as their records.
   */
  ghost predicate MailboxInvariant(arrived: seq<Message>, consumed: seq<Message>,
                                   queue: seq<Message>, delivered: seq<HostRecord>)
  {
    arrived == consumed + queue &&
    (forall i :: 0 <= i < |consumed| ==> Deliverable(consumed[i])) &&
    delivered == Records(consumed)
  }

  /** Taking the oldest queued message and delivering its record keeps the invariant. */
  lemma ConsumeOne(arrived: seq<Message>, consumed: seq<Message>,
                   queue: seq<Message>, delivered: seq<HostRecord>)
    requires MailboxInvariant(arrived, consumed, queue, delivered)
    requires queue != [] && Deliverable(queue[0])
    ensures MailboxInvariant(arrived, consumed + [queue[0]], queue[1..],
                             delivered + [ToRecord(queue[0])])
  {
    RecordsSnoc(consumed, queue[0]);
    assert consumed + queue == consumed + [queue[0]] + queue[1..];
  }

  /** Consuming one more message adds exactly its record at the end. */
  lemma RecordsSnoc(ms: seq<Message>, m: Message)
    requires forall i :: 0 <= i < |ms| ==> Deliverable(ms[i])
    requires Deliverable(m)
    ensures forall i :: 0 <= i < |ms + [m]| ==> Deliverable((ms + [m])[i])
    ensures Records(ms + [m]) == Records(ms) + [ToRecord(m)]
  {
    RecordsAppend(ms, [m]);
  }
}
