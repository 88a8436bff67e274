# chant — a verified model of the relay core

chant is a Telegram bot. It relays free-form text between two kinds of participants: *offerers*, who send requests, and *cantors*, who receive them. It records each text as commands of a command language in a transactional object store. This project models the three places where the bot's own logic lives.

- **User identity** (`src/user.rs`). A user is a chat id, a role (`Cantor` or `Offerer`) and a list of commands. Its store identity is computed in three steps:
  1. take the UTF-8 bytes of the chat id;
  2. hash them with xxh3_128;
  3. write the hash as 16 bytes, most significant first.

  A user is stored as the JSON value serde derives for it. It can be read back from that object, or from an array of the fields in order. Either way, a missing `commands_queue` means an empty queue.
- **Write transactions** (`src/write_transaction.rs`).
  - `queue_commands` parses the whole text before executing anything. It then executes the commands in order and stops at the first error.
  - `add_users` inserts the roster in order. Each user goes under its identity, and the insert stops at the first failed serialisation or insert.
- **The relay loop** (`src/main.rs`). The loop polls the bot API from a cursor. For each update it:
  1. finds the message's text: inline text first, otherwise the downloaded contents of a `.txt` document;
  2. queues the text;
  3. forwards the message to every cantor;
  4. queues the text again;
  5. reacts with "✍️";
  6. moves the cursor one past the update's id.

  An error stops the loop with the cursor where it was.

Files:
- `base.dfy`: bytes, the `anyhow`-style error chain, `Result`/`Outcome`, serde's JSON value, and "collect until the first error".
- `utf8.dfy`: the bytes of a string (`str::bytes`) and a decoder that reads them back.
- `big_endian.dfy`: `u128::to_be_bytes` and its inverse.
- `users.dfy`: roles, users, `User::id`, and the derived serialisation.
- `write_transactions.dfy`:
  - `Chain`, the "for each element, `?`" run that both loops follow;
  - `QueueSpec`, the specification of `queue_commands`;
  - the class `WriteTransaction`, whose two methods are proved against them.
- `relay.dfy`:
  - the text resolution, the per-message plan of effects, batches and polling rounds, as functions;
  - the class `Chant`, whose loop methods are proved against them.

Every call the relay makes to the outside world is recorded as an `Effect` in `Chant.trace`: getting updates, getting a file, downloading it, a write transaction, the read of the cantors, a forward, a reaction. Its answer comes from an `Env` of functions, each given the effects made before it. An answer may therefore depend on anything that happened earlier. For example, the second write may fail where the first one passed.

Three behaviours of the code are worth stating:
- `queue_commands` (one argument) executes the parsed commands at once. It does not store them in the user's `commands_queue`. Running it twice on the same text therefore executes each command twice (`QueuedTwiceExecutesTwice`).
- An error inside an update is propagated with `?` and ends `run`. The cursor therefore does not move past that update, even when the error is a parse error in the write transaction.
- `forward_message` names the cantor's chat as both the target and the source of the forward. It does not name the sender's chat.

## Model

| member | source | states |
|---|---|---|
| Users.ToValue | src/user.rs:7-14 | serialising a user: an object with its chat id, its role's name and its serialised queue; its properties are ToValueOk and ValueRoundTrip |
| Users.FromValue | src/user.rs:7-14 | reading a user back from an object or from an array of its fields; its properties are ValueRoundTrip, MissingQueueIsEmpty and ArrayFormIsObjectForm |
| Users.Id | src/user.rs:17-22 | the identity is exactly 16 bytes, and reading them big-endian gives the hash of the chat id's UTF-8 bytes |
| Users.IdOnlyFromTelegramId | src/user.rs:17-22 | users with the same chat id get the same identity, whatever their role and queue |
| Users.IdIsHashOfChatIdBytes | src/user.rs:18-20 | two identities are equal iff the hash agrees on the two chat ids' bytes, and equal bytes mean equal chat ids |
| Utf8.Encode | src/user.rs:18 | the bytes of a string are at least one and at most four per character; DecodeEncode shows they lose nothing |
| Utf8.DecodeFirstEncodeChar | src/user.rs:18 | the decoder reads back one encoded character and stops where its bytes end |
| Utf8.DecodeEncode | src/user.rs:18 | decoding the bytes of a string gives back the string, so the hash input loses nothing |
| Utf8.EncodeInjective | src/user.rs:18 | different chat ids have different byte strings |
| Utf8.EncodeAppend | src/user.rs:18 | the bytes of a concatenation are the concatenated bytes, in order, with nothing added |
| Utf8.EncodeAscii | src/user.rs:18 | a chat id made of ASCII characters, such as a decimal id, is its own byte string |
| BigEndian.ToBytes | src/user.rs:20 | `to_be_bytes` at width n gives exactly n bytes; FromToBytes and ToFromBytes show it is inverted by reading them back |
| BigEndian.FromToBytes | src/user.rs:20 | writing a value below 256^n as n big-endian bytes and reading them back gives the value |
| BigEndian.ToFromBytes | src/user.rs:20 | reading n bytes and writing the value back as n bytes gives the same bytes |
| BigEndian.LeadingByteMostSignificant | src/user.rs:20 | the first byte is the most significant one |
| Users.RoleToJson | src/user.rs:1-5 | the derived serialisation of a role: its variant name; RoleNames shows it reads back |
| Users.RoleFromJson | src/user.rs:1-5 | the derived reading of a role, from its name or a single-key map from its name to `null`; RoleNames characterises what it accepts |
| Users.RoleNames | src/user.rs:1-5 | a role is read back from exactly four values: the names `Cantor` and `Offerer`, and the single-key maps from those names to `null`; each gives the role of that name, and each role reads back from the name serde writes |
| Users.ToValueOk | src/user.rs:7-14 | serialising a user succeeds iff every queued command serialises |
| Users.ValueRoundTrip | src/user.rs:7-14 | the serialised value reads back as the same user (chat id, role, queue) when commands read back as written |
| Users.MissingQueueIsEmpty | src/user.rs:12-13 | a user read from an object without `commands_queue` has an empty queue and the object's chat id |
| Users.ArrayFormIsObjectForm | src/user.rs:7-14 | a user read from an array of two or three field values is the user read from the object with those fields, so a two-element array also gets an empty queue |
| Base.CollectAll | src/write_transaction.rs:35 | a successful collection has one value per item, and a failed one reports the error of one of the items; CollectAllOk and CollectAllErr say which |
| Base.CollectAllOk | src/write_transaction.rs:24-35 | collecting the parsed items succeeds iff every item parsed, and then it keeps all of them, in order |
| Base.CollectAllErr | src/write_transaction.rs:24-35 | a failed collection reports the first failing item's error, and every earlier item parsed |
| WriteTransactions.Chain | src/write_transaction.rs:36-39 | the `for x in xs { f(x)?; }` loop as a run threading the store; its properties are ChainAppend, ChainStep, ChainFailsAt and ChainCallsInOrder |
| WriteTransactions.ChainAppend | src/write_transaction.rs:36-39 | running `xs + ys` is running `xs` and then, only if that passed, `ys` from the state it left |
| WriteTransactions.NothingAfterFailure | src/write_transaction.rs:36-39 | after a failure no later element is touched: appending elements changes nothing |
| WriteTransactions.ChainStep | src/write_transaction.rs:36-39 | one more element either fails and ends the run with its state and error, or passes and the run goes on from its state |
| WriteTransactions.ChainFailsAt | src/write_transaction.rs:36-39 | a failed run failed at one element: every element before it passed, its step failed, and the run ends with that step's store and error |
| WriteTransactions.QueueSpec | src/write_transaction.rs:23-41 | `queue_commands`: collect every parsed command first, then execute them in order; its properties are ParseFailureExecutesNothing, EmptyParseIsNoOp, ExecutedInOrder and QueuedTwiceExecutesTwice |
| WriteTransactions.ExecuteStep | src/write_transaction.rs:38 | one `execute_command(&command)?`: one recorded execution, whose store and outcome are the executor's; ExecutedInOrder is stated over it |
| WriteTransactions.ExecutedInOrder | src/write_transaction.rs:36-39 | the executions are those of a prefix of the parsed commands, in order; all of them on success; on failure the last one run is the failing one and its error is returned |
| WriteTransactions.ParseFailureExecutesNothing | src/write_transaction.rs:24-35 | if any part of the text fails to parse, nothing is executed, the store is unchanged and an error is returned |
| WriteTransactions.EmptyParseIsNoOp | src/write_transaction.rs:36-40 | a text that parses to no command succeeds and leaves the store unchanged |
| WriteTransactions.QueuedTwiceExecutesTwice | src/main.rs:117-130 | queuing the same text twice, with both runs passing, executes the parsed commands once and then again |
| WriteTransactions.InsertStep | src/write_transaction.rs:45-50 | one iteration of `add_users`: serialise the user, stopping before any insert if that fails, then insert the value under the user's identity; its properties are InsertedInRosterOrder, AddUsersStopsAtFailure and InsertedValueIsWholeUser |
| WriteTransactions.ChainCallsInOrder | src/write_transaction.rs:44-51 | when each step makes at most its element's own call, a run makes the calls of a prefix of the elements, in order, and of all of them when it passes |
| WriteTransactions.InsertedInRosterOrder | src/write_transaction.rs:44-51 | the i-th insert is of the i-th roster user, under its identity, with its serialised value; every user is inserted on success |
| WriteTransactions.AddUsersStopsAtFailure | src/write_transaction.rs:49-50 | a failed `add_users` stopped at the user after the last one inserted, whose value did not serialise, or at the last insert, which failed; either way with that error and the store it left, after every earlier user was inserted; no later user is touched |
| WriteTransactions.InsertedValueIsWholeUser | src/write_transaction.rs:47-50 | every inserted value reads back as the whole user, role and queue included |
| WriteTransactions.WriteTransaction.QueueCommands | src/write_transaction.rs:23-41 | the store, the calls made and the result are those of parsing everything first, then executing in order up to the first failure |
| WriteTransactions.WriteTransaction.AddUsers | src/write_transaction.rs:43-53 | the store, the calls made and the result are those of inserting the users in order up to the first failure |
| Relay.EndsWith | src/main.rs:71 | `ends_with`: the last characters of the name are the suffix; EndsWithIff characterises it |
| Relay.EndsWithIff | src/main.rs:71 | `ends_with` holds iff the name is something followed by the suffix |
| Relay.GetFileId | src/main.rs:68-77 | a file id is given only for a document whose name ends in `.txt`, and it is that document's file id; GetFileIdIff gives the converse |
| Relay.GetFileIdIff | src/main.rs:68-77 | a file id is given iff the message has a document with a name ending in `.txt`, and it is that document's file id |
| Relay.FileUrl | src/main.rs:103-106 | the download URL: the bot API's file address, the token, a slash and the file path |
| Relay.ResolveText | src/main.rs:93-115 | finding the text: inline text as it is, else a `.txt` document's downloaded contents, with no text when `get_file` fails or gives no path; its properties are NoTextIff and ResolvingOnlyFetches |
| Relay.NoTextIff | src/main.rs:93-115 | no text is found iff there is no inline text and either no `.txt` document, a failed `get_file`, or no file path; finding text only fetches files |
| Relay.ResolvingOnlyFetches | src/main.rs:93-115 | finding a message's text makes no call other than getting and downloading a file |
| Relay.Forwards | src/main.rs:121-125 | forwarding to each cantor in order: at most one forward per cantor, and a failed run made at least one |
| Relay.ForwardsFollowPlan | src/main.rs:121-125 | the forwards go to a prefix of the cantors in the order given, and to every cantor when none fails |
| Relay.ForwardsStopAtFailure | src/main.rs:121-125 | a failed forwarding run stopped at its last forward: the forwards before it all passed, and that forward's own error is the run's |
| Relay.ForwardsPassed | src/main.rs:121-125 | each forward of a run but the last one of a failed run is a forward that passed given the forwards before it |
| Relay.ForwardsAdvance | src/main.rs:121-125 | one more forward keeps the forwarding loop's invariant, or ends the loop with that forward's error |
| Relay.ForwardsDone | src/main.rs:121-125 | when the forwarding loop has passed every cantor, its effects are the whole run and it passes |
| Relay.RelayText | src/main.rs:116-131 | write, read the cantors, forward, write again, react, each stopping the relay on failure with its transaction's context line; its properties are RelayFollowsPlan, RelayCallsPassed and RelayStopsAtFailure |
| Relay.RelayFollowsPlan | src/main.rs:116-131 | the effects of relaying a text are a prefix of: write, read cantors, one forward per cantor in order, write again, react; all of it when the relay passes |
| Relay.RelayCallsPassed | src/main.rs:117-131 | the relay made a call only after every earlier call passed: each call, except the last one of a failed relay, was a write of the user's text, the cantor read, a forward or the reaction, answered without error given the effects before it |
| Relay.RelayStopsAtFailure | src/main.rs:117-131 | a failed relay stopped at its last call: every call before it passed given the effects made before it, and that call failed. Its error is that call's own: a write's with the write transaction's context line, the cantor read's or a forward's with the read transaction's, or the reaction's as it is. A failed first write makes no other call, and a failed cantor read ends the relay after it. With RelayFollowsPlan, the calls made are a prefix of the plan, so a failed second write sets no reaction |
| Relay.RelayForwardFailed | src/main.rs:120-127 | a relay whose forwarding failed is the write, the cantor read and the forwarding run, and nothing after; its last effect is a forward that failed, and the relay's error is that forward's error under the read transaction's context line |
| Relay.PlanFetchesNoFile | src/main.rs:116-131 | the relay begins with the write of the text and fetches no file |
| Relay.PlanWritesTwice | src/main.rs:117-130 | the relay's plan writes the text for the sender exactly twice |
| Relay.PlanForwardsOneChat | src/main.rs:121-125 | every forward of the plan names the same chat as target and as source |
| Relay.UpdateEffects | src/main.rs:91-133 | one update: nothing for non-messages, and for a message its text found and relayed; its properties are InlineTextComesFirst, NoTextNoRelay, TextWrittenTwice and UpdateForwardsOneChat |
| Relay.InlineTextComesFirst | src/main.rs:94-96 | a message with inline text never fetches a file; its first effect is the write of that very text for the sender |
| Relay.NoTextNoRelay | src/main.rs:97-116 | without text there is no write, no forward and no reaction, and the update passes |
| Relay.TextWrittenTwice | src/main.rs:117-130 | a text message handled without error writes that text for its sender exactly twice |
| Relay.Batch | src/main.rs:90-135 | the updates of a batch in order, the cursor moved past each one handled; never more handled than given, and all of them when it passes |
| Relay.BatchCursor | src/main.rs:90-134 | after a batch the cursor is one past the last update handled, or where it started if none was; the batch passes iff every update was handled; with a handler that fails only on messages, a failing batch stopped at a message |
| Relay.BatchStopsAtMessage | src/main.rs:90-134 | the bot's batch fails only at a message update, with the cursor just past the update handled before it |
| Relay.BatchAdvance | src/main.rs:90-135 | one more update handled keeps the batch loop's invariant, or ends the batch with the cursor where it was |
| Relay.BatchDone | src/main.rs:90-135 | when every update is handled, the batch passes with the cursor the loop holds |
| Relay.Round | src/main.rs:83-135 | one round: a request for the updates from the cursor, then their batch; a failed request ends the loop with the cursor unchanged; PollOnce is proved against it (ProcessBatch against Batch) |
| Relay.Polls | src/main.rs:79-137 | the polling loop for a number of rounds, each from the cursor the last one left; its properties are PollsForwards and ForwardsNameOneChat, and Run is proved against it |
| Relay.PollsAdvance | src/main.rs:82-136 | one more round keeps the polling loop's invariant, or ends the loop with that round's error |
| Relay.PollsDone | src/main.rs:82-136 | after every round has passed, the loop's effects are the whole run and it passes |
| Relay.UpdateForwardsOneChat | src/main.rs:158-165 | handling one update forwards only from a chat to that same chat |
| Relay.BatchForwards | src/main.rs:90-135 | a batch keeps every forward naming one chat when each update does |
| Relay.PollsForwards | src/main.rs:82-136 | any number of rounds keep every forward naming one chat when each update does |
| Relay.ForwardsNameOneChat | src/main.rs:158-165 | every forward the bot makes, in any round, names one chat as both target and source |
| Relay.Chant.ForwardMessage | src/main.rs:158-167 | one forward with the target as both `chat_id` and `from_chat_id`, and the bot API's answer as result |
| Relay.Chant.SetReaction | src/main.rs:139-156 | one reaction with the given emoji on the message in its own chat, and the bot API's answer as result |
| Relay.Chant.FindText | src/main.rs:93-115 | the calls made and the text found are those of the text resolution: inline first, then a `.txt` document |
| Relay.Chant.ForwardToAll | src/main.rs:120-127 | the forwards made and the result are those of forwarding to each cantor in order up to the first failure |
| Relay.Chant.RelayMessage | src/main.rs:116-132 | the calls made and the result are those of the relay of the text, with the transaction's context line on its errors |
| Relay.Chant.HandleUpdate | src/main.rs:91-133 | the calls made and the result are those of one update: non-messages do nothing, messages find and relay their text |
| Relay.Chant.ProcessBatch | src/main.rs:90-135 | the calls made, the cursor and the result are those of the batch, with the cursor moved past each update handled |
| Relay.Chant.PollOnce | src/main.rs:83-135 | the calls made, the cursor and the result are those of one round: a request from the cursor, then the batch |
| Relay.Chant.Run | src/main.rs:79-137 | the calls made and the result are those of the given number of rounds, starting from cursor 0 |

## Left out

- `src/read_transaction.rs` is not part of this model. The cantors' chat ids come from `Env.cantors`. `get_cantors_telegram_user_ids` is not defined in the visible code.
- The bot API and the HTTP download are not modelled as code. Getting updates, getting a file, downloading it, forwarding and reacting are effects whose answers are inputs (`Env`). The `call()?` and `read_to_string()?` failures of the download are one error.
- The request's `allowed_updates` filter is not recorded in the `GetUpdates` effect. Updates of other kinds are handled as `OtherUpdate` in case they arrive.
- The xxh3_128 algorithm is a parameter of type `seq<byte> -> u128`. It is not assumed injective.
- The command language is not modelled: commands are an abstract type. The parser, its alias resolution, `execute_command`, `insert_with_id` and the serialisation of commands are abstract fallible functions. A failing call still yields a store state, so no rollback or duplicate-insert behaviour is assumed.
- `User::id_from_telegram_id` is not defined in the visible code and is the parameter `Env.idFromTelegramId`. The two-argument `queue_commands` used by the loop is likewise the write effect `Env.write`. The one-argument method of `src/write_transaction.rs` is what `WriteTransaction.QueueCommands` models.
- Locking, and the atomicity of `lock_all_and_write` and `lock_all_writes_and_read`, are out of scope (`src/main.rs:40-66`). Their context lines on errors are modelled. The store library's atomicity and concurrency are not.
- Configuration loading, YAML parsing, `Chant::new` and `main` (`src/main.rs:14-38`, `170-184`) are not modelled; the roster insert they perform is `AddUsers`.
- The `println!` in `queue_commands` is output only and is not modelled.
- The exact texts of serde's error messages are not modelled. The model keeps that an error is returned, not its wording, and not which field's error serde reports first when several fields are wrong.
- Relay.Chant.Run: `run` loops forever. The model runs a given number of polling rounds, and every property holds for any number of them.
- Message ids (`i32`) and chat ids (`i64`) are unbounded integers. `update_id` is below 2^32, so `update_id + 1` cannot overflow the `i64` cursor.
