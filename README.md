# gmsv_discord bridge core, modelled in Dafny

gmsv_discord is a native module that connects a game server's Lua host to a
Discord bot. The host is single-threaded and polls. The bot runs on
background threads. This project models the deterministic logic inside the
module's glue in `src/lib.rs`:

- **Identifiers as text** (`ids.dfy`, module `Ids`). Ids go to the host as the
  decimal text of a `u64` (`ToDecimal`). Ids the host passes in are read with
  `parse::<u64>().unwrap_or(0)` (`ParseU64`, `ParseId`), following Rust's
  `u64::from_str`: one optional `+`, then one or more ASCII digits, with a value
  below 2^64. Any other text names the zero id. The lemmas prove the round
  trip, and they characterise the accepted texts exactly: an optional `+`, any
  number of leading zeros, then the decimal text of the value.
- **Rich-message payloads** (`payload.dfy` and `embed.dfy`, modules `Payload`
  and `RichEmbed`). A JSON value is abstracted to `Json`. A payload that does
  not parse reads as `null`. Key lookup follows serde_json: only objects have
  keys, and a repeated key keeps its last value. `BuildEmbed` is the
  per-key defaulting of `send_rich_message`. Its contract is stated against an
  independent, index-based meaning of "key k is bound to x" (`Binds`).
- **Inbound message to host record** (`inbound.dfy`, module `Inbound`).
  `ToRecord` builds the table passed to the host callback. `IsOwn` is the
  "real user" flag. `Records` maps a run of messages in order.
- **The bridge state** (`bridge.dfy`, class `Bridge.Bridge`). It holds the
  global message queue, the stored bot token and the work handed to the
  background runtime:
  - `OnMessage` is the connection's message handler.
  - `ProcessMessages` is the poll-tick drain loop. It calls `TryRecv`, which
    models `try_recv`.
  - `Connect`, `SendMessage` and `SendRichMessage` are the host functions.
    Each one returns its constant acknowledgement.

  Spawned background work is recorded as a `Command` appended to `outbox`. A
  ghost history (`arrived` and `consumed`) and the invariant
  `MailboxInvariant` state the mailbox guarantee: every message the handler
  queued is either still queued or was delivered exactly once, in the order
  the handler queued them.

Notes on what `src/lib.rs` does:

- Every `connect_discord_bot` call stores the token and starts another client.
  The model records one `StartClient` per call.
- `send_discord_message` takes a channel id and a text only, and neither send
  function reports the outcome of the request to the host.
- `process_discord_messages` calls whatever the `DiscordMessageCallback`
  global holds, once per drained message. The model assumes that global is a
  function that returns normally (see "## Left out").

## Model

| member | source | states |
|---|---|---|
| Ids.ToDecimal | src/lib.rs:87-106 | an id's text is non-empty, all ASCII digits, has no leading zero except for "0", and denotes the id's value |
| Ids.ParseU64 | src/lib.rs:178 | `u64::from_str`: accepted text is an optional `+`, leading zeros, then the decimal text of its value; ParseAcceptsPadded and ParseOnlyPadded characterise the accepted texts in both directions |
| Ids.ParseId | src/lib.rs:204 | `parse::<u64>().unwrap_or(0)`: the parsed value, or 0 when parsing fails; its accepted and rejected texts are those of ParseU64 |
| Ids.ParseDecimalRoundTrip | src/lib.rs:178 | parsing the decimal text emitted for any id below 2^64 gives back that id |
| Ids.ParseAcceptsPadded | src/lib.rs:178 | text made of an optional `+`, any number of leading zeros and the decimal text of n < 2^64 parses to n |
| Ids.ParseOnlyPadded | src/lib.rs:204 | conversely, text that parses to n is exactly an optional `+`, leading zeros, then the decimal text of n |
| Ids.ParseRejectsNonDigit | src/lib.rs:178 | a character that is neither a digit nor the single leading `+` (a `-` sign, whitespace, a letter) makes the text name the zero id |
| Ids.ParseOverflow | src/lib.rs:204 | the decimal text of any number of 2^64 or more names the zero id |
| Ids.ParseRejectsEmpty | src/lib.rs:178 | the empty text, a lone `+` and a lone `-` name the zero id |
| Payload.PayloadValue | src/lib.rs:215 | a payload that does not parse stands for `null`; a parsed payload stands for its value |
| Payload.Lookup | src/lib.rs:219 | the value found for a key is exactly the value of the last member with that key, and nothing is found when no member has the key |
| Payload.Get | src/lib.rs:217-235 | `get(key)` finds x exactly when the value is an object that binds key to x, and finds nothing for a non-object or an absent key |
| RichEmbed.TextAt | src/lib.rs:219 | the text at a key is the string bound to it, or "" when the key holds no string |
| RichEmbed.UIntAt | src/lib.rs:234 | the number at a key is the unsigned 64-bit integer bound to it, or 0 when the key holds none |
| RichEmbed.FlagAt | src/lib.rs:228 | the flag at a key is the boolean bound to it, or false when the key holds none |
| RichEmbed.ItemsAt | src/lib.rs:223 | the items at a key are the array bound to it, or empty when the key holds no array |
| RichEmbed.FieldOf | src/lib.rs:225-229 | a field's name and value are the strings bound to them or "", inline is the boolean bound to it or false, and a non-object element gives ("", "", false) |
| RichEmbed.FieldsOf | src/lib.rs:222-231 | the field list has one entry per array element, in the same order |
| RichEmbed.BuildEmbed | src/lib.rs:215-236 | title, description, image, footer, thumbnail and author are each the string bound to their key or ""; color is the u64 bound to `color` or 0; the fields follow the `fields` array entry by entry, or are empty when it is absent or not an array |
| RichEmbed.DefaultsAreUnique | src/lib.rs:217-235 | the defaulting rules leave one possible value per key, so the contract of BuildEmbed fixes the embed |
| RichEmbed.NonObjectPayload | src/lib.rs:215 | a payload that is not an object, or that did not parse, gives the all-default embed |
| RichEmbed.TitleOnlyPayload | src/lib.rs:217-235 | `{"title":"T"}` gives title "T" and every other entry at its default |
| RichEmbed.FieldWithoutInline | src/lib.rs:226-228 | a field entry without `inline` is not inline; an entry that is not an object is ("", "", false) |
| Inbound.IsOwn | src/lib.rs:118 | a bot author or a webhook origin makes a message not own; no webhook and a non-bot author make it own (cases in IsOwnByOrigin) |
| Inbound.ToRecord | src/lib.rs:66-119 | the callback table keeps content, author name, bot flag and timestamp, and its is_own is IsOwn; RecordIsFaithful adds that its id texts parse back to the message's ids |
| Inbound.RecordIsFaithful | src/lib.rs:66-119 | the record carries content, author name, bot flag and timestamp unchanged; its ids are digit texts that parse back to the message's ids; is_own holds exactly when there is no webhook id and the author is not a bot |
| Inbound.IsOwnByOrigin | src/lib.rs:118 | a regular user without a webhook is own; a bot is not; a webhook message is not, whatever the bot flag |
| Inbound.Records | src/lib.rs:60-123 | a run of messages gives one record per message, in the same order |
| Inbound.RecordsAppend | src/lib.rs:61-123 | the records of consecutive runs concatenate |
| Bridge.Bridge.constructor | src/lib.rs:25-32 | the process starts with an empty queue, an empty token and nothing delivered or dispatched |
| Bridge.Bridge.OnMessage | src/lib.rs:44-55 | every message is queued at the back, "!ping" included; content exactly "!ping" also dispatches one "Pong!" reply to the same channel, and any other content dispatches nothing |
| Bridge.Bridge.TryRecv | src/lib.rs:61 | gives and removes the oldest queued message, or nothing when the queue is empty |
| Bridge.Bridge.ProcessMessages | src/lib.rs:59-127 | one tick delivers the records of all queued messages, once each, in the order the handler queued them, and leaves the queue empty; afterwards every message ever queued has been delivered exactly once |
| Bridge.ConsumeOne | src/lib.rs:61-122 | taking the oldest message and delivering its record keeps the mailbox invariant |
| Bridge.Bridge.Connect | src/lib.rs:130-172 | stores the token, dispatches a client start with it and returns "Bot connecting in background..." |
| Bridge.Bridge.SendMessage | src/lib.rs:175-199 | records a send of the text to the channel the host's text names (the zero id when malformed; see "## Left out"), with the token stored at call time, and returns "Message queued" |
| Bridge.Bridge.SendRichMessage | src/lib.rs:202-247 | records a send of the embed built from the payload to the parsed channel (see "## Left out" for the zero id), with the token stored at call time, and returns "Rich message queued" |
| Bridge.TwoTicks | src/lib.rs:60-123 | a second tick with no new arrival delivers nothing |
| Bridge.PingThenTick | src/lib.rs:44-123 | a "!ping" and another message give one reply and reach the host in the order the handler queued them |
| Bridge.AnswerDelivered | src/lib.rs:100-190 | passing a delivered record's channel id text back to send_message addresses the message's own channel |
| Bridge.TokenSnapshot | src/lib.rs:136-184 | a queued send keeps the token that was stored when it was called, even if a later connect replaces it |

## Left out

- Lua stack handling (`lua_pushstring`, `lua_settable`, `lua_call`, `luaL_ref`, `luaL_register`) and the module registration table in `open` are calls into a host that is not part of this model. The table also names `concmd_async`, which `src/lib.rs` does not define. The callback is modelled as receiving each record.
- `thread::spawn`, the tokio runtime and the `Mutex` guards are concurrency, which is not modelled. Spawned work is an entry in `outbox`, in dispatch order. A lock only fails after a panic while it was held. The model excludes those panics, so its locks never fail.
- The network calls of the serenity client (`Client::builder`, `start`, `say`, `send_message`) and their errors are not modelled. Only the outbound command is recorded.
- The `ready` handler only logs, and `println!` logging is not modelled.
- `Timestamp::now()` on the embed, and `random_uuid` (randomness and an unchecked C string handed to the host), are not modelled. A message's timestamp is taken as its already-rendered text.
- Bridge.Bridge.ProcessMessages: requires the content, author name and timestamp of every queued message to be free of NUL characters. With a NUL, `CString::new(...).unwrap()` panics, and that panic is not modelled.
- Bridge.Bridge.ProcessMessages: assumes `DiscordMessageCallback` is a registered function that returns normally. The unprotected `lua_call` raises a Lua error if the global is nil or the callback fails. The tick then stops partway: the message `try_recv` already removed is lost, and the rest stay queued. The model does not capture this.
- Bridge.Bridge.OnMessage: replies and queues in one step. In the source the handler awaits the "Pong!" request before it queues the message, and each event runs in its own task. A later message can therefore be queued ahead of a "!ping". The model's order is the order the handler queued the messages, not the order the service delivered them.
- Bridge.Bridge.SendMessage: a send whose channel parses to 0 panics in the spawned task (`ChannelId::new(0)`, src/lib.rs:189) before any request is made; the model records it as addressed to 0.
- Bridge.Bridge.SendRichMessage: a send whose channel parses to 0 panics in the spawned task (`ChannelId::new(0)`, src/lib.rs:214) before any request and before the payload is parsed; the model records it as addressed to 0.
- Host text arriving through `luaL_checkstring` is taken as given. Its conversion from a C string is not modelled.
- serde_json's text parser is not modelled. Its outcome is the `Option<Json>` parameter of `SendRichMessage`, and numbers are kept only as "an unsigned 64-bit integer" or "another number".
- RichEmbed.BuildEmbed: `color` is the `u64` read from the payload. serenity's `Colour` holds a `u32`, so its conversion from `u64` at src/lib.rs:234 keeps only the low 32 bits. That truncation, and the rest of the serenity builders, are not modelled.
