/**
 * An inbound chat message and the record handed to the host's callback for
 * it. Ids travel to the host as decimal text, so a host that passes a
 * record's channel id back to a send operation addresses the same channel.
 */
module Inbound {
  import opened Base
  import opened Ids

  datatype User = User(name: string, id: U64, bot: bool)

  /**
   * A message as the connection delivers it. The timestamp is kept as the
   * text its Display rendering produces; webhookId is present when a
   * webhook posted the message.
   */
  datatype Message = Message(
    id: U64,
    channelId: U64,
    author: User,
    content: string,
    timestamp: string,
    webhookId: Option<U64>)

  datatype AuthorRecord = AuthorRecord(name: string, id: string, bot: bool)

  /** The table the host callback receives. */
  datatype HostRecord = HostRecord(
    content: string,
    author: AuthorRecord,
    channelId: string,
    messageId: string,
    timestamp: string,
    isOwn: bool)

  /** Text that can become a C string: it has no NUL character. */
  predicate NulFree(s: string) { forall i :: 0 <= i < |s| ==> s[i] != '\0' }

  /** The message's texts can all be handed to the host. */
  predicate Deliverable(m: Message)
  {
    NulFree(m.content) && NulFree(m.author.name) && NulFree(m.timestamp)
  }

  /** The "real user" heuristic: no webhook origin and not a bot account. */
  predicate IsOwn(m: Message): (own: bool)
    ensures m.author.bot ==> !own
    ensures m.webhookId.Some? ==> !own
    ensures m.webhookId.None? && !m.author.bot ==> own
  {
    m.webhookId.None? && !m.author.bot
  }

  /** The record `process_discord_messages` builds for one message. */
  function ToRecord(m: Message): (r: HostRecord)
    requires Deliverable(m)
    ensures r.content == m.content && r.timestamp == m.timestamp
    ensures r.author.name == m.author.name && r.author.bot == m.author.bot
    ensures r.isOwn == IsOwn(m)
  {
    HostRecord(
      content := m.content,
      author := AuthorRecord(m.author.name, ToDecimal(m.author.id), m.author.bot),
      channelId := ToDecimal(m.channelId),
      messageId := ToDecimal(m.id),
      timestamp := m.timestamp,
      isOwn := IsOwn(m))
  }

  /**
   * The record carries the message's texts and flags unchanged, its ids as
   * decimal text that parses back to the same ids, and is_own exactly when
   * the message has no webhook origin and its author is not a bot.
   */
  lemma RecordIsFaithful(m: Message)
    requires Deliverable(m)
    ensures var r := ToRecord(m);
      && r.content == m.content && r.timestamp == m.timestamp
      && r.author.name == m.author.name && r.author.bot == m.author.bot
      && ParseId(r.author.id) == m.author.id
      && ParseId(r.channelId) == m.channelId
      && ParseId(r.messageId) == m.id
      && AllDigits(r.author.id) && AllDigits(r.channelId) && AllDigits(r.messageId)
      && (r.isOwn <==> m.webhookId.None? && !m.author.bot)
  {
    ParseDecimalRoundTrip(m.author.id);
    ParseDecimalRoundTrip(m.channelId);
    ParseDecimalRoundTrip(m.id);
  }

  /** The records for a run of messages, one per message and in the same order. */
  function Records(ms: seq<Message>): (rs: seq<HostRecord>)
    requires forall i :: 0 <= i < |ms| ==> Deliverable(ms[i])
    ensures |rs| == |ms|
    ensures forall i :: 0 <= i < |ms| ==> rs[i] == ToRecord(ms[i])
  {
    seq(|ms|, i requires 0 <= i < |ms| => ToRecord(ms[i]))
  }

  /** Records of consecutive runs concatenate. */
  lemma RecordsAppend(a: seq<Message>, b: seq<Message>)
    requires forall i :: 0 <= i < |a| ==> Deliverable(a[i])
    requires forall i :: 0 <= i < |b| ==> Deliverable(b[i])
    ensures forall i :: 0 <= i < |a + b| ==> Deliverable((a + b)[i])
    ensures Records(a + b) == Records(a) + Records(b)
  {
    assert forall i :: 0 <= i < |a + b| ==> (a + b)[i] == if i < |a| then a[i] else b[i - |a|];
  }

  /** Whether a message counts as the user's own, for each origin. */
  lemma IsOwnByOrigin(name: string, uid: U64, bot: bool, hook: U64, m: Message)
    ensures IsOwn(m.(author := User(name, uid, false), webhookId := None))
    ensures !IsOwn(m.(author := User(name, uid, true)))
    ensures !IsOwn(m.(author := User(name, uid, bot), webhookId := Some(hook)))
  {
  }
}
