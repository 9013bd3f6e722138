# rredditr notification pipeline, modelled in Dafny

rredditr forwards new Reddit posts to Telegram chats. A worker polls each subreddit's `new.json`
listing. It keeps the posts not seen before and created within the last six hours. It queues one
notification per (subscriber, new post) on the Redis list `main/messages` and marks the posts as
seen with expiring `posts/{id}` keys. A bot thread claims notifications from that list into the
in-flight list `workers/1` and sends them. It then acknowledges each one, or puts it back for
retry. Chat commands `/sub`, `/unsub` and `/subs` edit the subscription sets `main/subs` and
`subscribers/{topic}`.

The model covers two revisions:
- The newer one: `rworker` (worker) and `rbot` (sender and command handlers).
- The older one: `src` (worker with the steps in another order, command handlers, and the command
  stream multiplexer).

Redis is modelled as an immutable `Store`:
- string keys hold a value and its time to live;
- lists are sequences whose head is index 0;
- sets are duplicate-free sequences.

Each Redis command the code issues is a function on that store: LPUSH, RPOP, RPOPLPUSH, SADD, SREM,
SISMEMBER, SMEMBERS, MGET and SETEX. Inputs are parameters:
- the HTTP response;
- the chat send result;
- each store call's transport failure;
- the clock readings.

Modules, one per source component:
- `Reddit`: `src/reddit.rs`.
- `Database`: the three `database.rs` files.
- `Dedup`: the seen-marker filter shared by both workers.
- `Worker`: `rworker/src/worker.rs`.
- `LegacyWorker`: `src/worker.rs`.
- `Sender`: the sender loop of `rbot/src/main.rs`.
- `FixedSender`: the sender with its claim corrected; see Findings.
- `Commands`: `src/commands.rs`.
- `Telegram`: `rbot/src/telegram.rs`.
- `LegacyTelegram`: `src/telegram.rs`.

Supporting modules:
- `Wrappers`: `Option`, `Result`, and `Run` (returns or panics).
- `Decimal`: i64 printing and parsing, as redis-rs and Rust's `i64::from_str` do it.
- `Text`: prefix and split helpers for reading formatted text back.
- `Json`: an abstract JSON value.
- `Seqs`: sequence helpers.
- `Payloads`: the queued notification `{target, link}`.
- `Store`: the Redis commands.

`rworker/src/reddit.rs` is not part of this model. It is assumed to define the same `Submission`
helpers as `src/reddit.rs`, and the `rworker` worker and database are modelled with those; their call
sites in `rworker/src/worker.rs` and `rworker/src/database.rs` match the signatures.

## Model

| member | source | states |
|---|---|---|
| Decimal.ParseRoundTrip | rworker/src/database.rs:42-51 | a chat id stored in a set as decimal text reads back as the same integer |
| Decimal.ParseI64RoundTrip | rworker/src/database.rs:42-51 | every i64 written by SADD parses back as that i64 when SMEMBERS is read as `Vec<i64>` |
| Decimal.PrintInjective | rbot/src/database.rs:40-49 | distinct chat ids give distinct set members |
| Reddit.Key | src/reddit.rs:16-18 | `get_key`, the post's marker key; what it promises is stated by Reddit.KeyRoundTrip and Reddit.KeyInjective |
| Reddit.Tag | src/reddit.rs:19-21 | `get_tag`, the marker value; what it promises is stated by Reddit.TagRoundTrip |
| Reddit.Url | src/reddit.rs:22-24 | `get_url`, the notified link; what it promises is stated by Reddit.UrlRoundTrip |
| Reddit.KeyRoundTrip | src/reddit.rs:16-18 | the marker key is "posts/" then the id, and the id can be read back from it |
| Reddit.KeyInjective | src/reddit.rs:16-18 | two posts share a marker key exactly when their ids are equal |
| Reddit.TagRoundTrip | src/reddit.rs:19-21 | the marker value is creation time, ':', observation time, and both times can be read back |
| Reddit.UrlRoundTrip | src/reddit.rs:22-24 | the notified link is "https://www.reddit.com" followed by the permalink, which can be read back |
| Reddit.Keys | src/worker.rs:77 | one marker key per post, in post order |
| Reddit.DecodeEncode | src/reddit.rs:6-13 | a post in its JSON object form decodes to the same post |
| Reddit.DecodeSubmission | src/reddit.rs:34 | serde's `from_value` of one entry's `data`: a scalar never decodes; Reddit.DecodeEncode states that a post's object form decodes to that post |
| Reddit.DecodeEntries | src/reddit.rs:32-36 | decoding returns iff every entry's `data` decodes, then one post per entry in order; otherwise it panics |
| Reddit.DecodeSubmissionArray | src/reddit.rs:27-31 | a listing whose `data.children` is not an array panics; otherwise the entries are decoded in order |
| Reddit.DecodeListing | src/reddit.rs:27-37 | a listing built from posts decodes to exactly those posts, in order |
| Payloads.Decode | rbot/src/main.rs:16-20 | a queue entry decodes iff it is a serialised `{target, link}` message |
| Store.LPush | rworker/src/database.rs:13-22 | LPUSH puts the value at the head of the list; no other key changes |
| Store.RPopLPush | rbot/src/main.rs:39 | RPOPLPUSH on an empty source answers nil and changes nothing; it writes no string or set (its list effect is stated by Sender.Requeue) |
| Store.SetEx | rworker/src/database.rs:57-63 | SETEX sets exactly that key to the value with that TTL; lists and sets are untouched |
| Store.RPop | rbot/src/main.rs:42 | RPOP removes and returns the tail of the list; an empty list is unchanged and answers nil |
| Store.SAdd | rbot/src/database.rs:40-49 | after SADD the member is present, the other members are kept, other keys are untouched, and repeating it changes nothing |
| Store.SRem | rbot/src/database.rs:18-27 | after SREM the member is absent, the other members are kept, other keys are untouched, and removing an absent member changes nothing |
| Store.MGet | rworker/src/database.rs:32-40 | MGET answers one status per key, in key order, nil exactly for absent keys; with no keys it is an error |
| Store.AddThenRemove | src/database.rs:65-105 | adding a member that was absent and then removing it restores the store |
| Database.SubscribersKeyInjective | rbot/src/database.rs:24 | distinct topics have distinct subscriber sets |
| Database.QueueMessage | rworker/src/database.rs:13-22 | `queue_message` puts the payload at the head of `main/messages`, and nothing else changes |
| Database.FetchAvailableSubs | rworker/src/database.rs:23-30 | `fetch_available_subs` reads the members of `main/subs` |
| Database.FetchSubmissionsStatus | rworker/src/database.rs:32-40 | one status per key, in order, nil iff the key is absent; fails on transport error or no keys |
| Database.ParseIds | rworker/src/database.rs:42-51 | the conversion of SMEMBERS' reply to `Vec<i64>`: at most one id per member; Database.ParseIdsMembers and Database.ParseIdsAllParse state which ids and in what order |
| Database.ParseIdsMembers | rworker/src/database.rs:42-51 | converting SMEMBERS' reply to `Vec<i64>` drops members that do not parse instead of failing: every id read comes from a member that parses to it, and every member that parses yields its id |
| Database.ParseIdsAllParse | rworker/src/database.rs:42-51 | when every member parses, the ids are the members read one by one, in order |
| Database.FetchSubscribers | rworker/src/database.rs:42-51 | reads `subscribers/{topic}`; fails exactly when the store call fails, and otherwise yields the ids of exactly the members that parse as i64 |
| Database.MarkAll | rworker/src/database.rs:57-63 | the SETEX fold writes no list or set; Database.MarkAllTtl, Database.MarkAllLastTag and Database.MarkAllFrame state the markers it writes |
| Database.MarkAllTtl | rworker/src/database.rs:57-63 | every post's marker key is written with a TTL of 43200 seconds (2 × RECENT_OFFSET) |
| Database.MarkAllLastTag | rworker/src/database.rs:57-63 | the marker of a post holds `get_tag(now)` of its last occurrence in the batch |
| Database.MarkAllFrame | rworker/src/database.rs:57-63 | no key other than the posts' marker keys is written |
| Database.UpdateSubmissions | rworker/src/database.rs:53-64 | the marker pipeline succeeds iff the store answers or the batch is empty (an empty pipeline makes no store call), and an empty batch writes nothing; no list or set is written |
| Database.InsertSubscriber | src/database.rs:93-105 | `insert_subscriber` adds the id to `subscribers/{target}` only; other topics and `main/subs` are unchanged |
| Database.InsertSubscriberIdempotent | src/database.rs:93-105 | subscribing twice leaves the same store as subscribing once |
| Database.DeleteSubscriber | src/database.rs:65-77 | `delete_subscriber` removes the id from `subscribers/{target}` only; removing an absent id changes nothing |
| Database.FetchIsSubAvailable | src/database.rs:79-91 | `fetch_is_sub_available` is membership of the target in `main/subs` |
| Dedup.FilterFrom | rworker/src/worker.rs:56-67 | the two-stage filter from one index on; Dedup.FilterFromSelects states what it keeps |
| Dedup.FilterFromSelects | rworker/src/worker.rs:56-67 | from index i on, the filter keeps, in input order, exactly the positions whose lookup is nil and whose post is recent |
| Dedup.Filter | rworker/src/worker.rs:56-67 | `filter_new_submissions`' filter over the whole batch; Dedup.FilterSelects states what it keeps |
| Dedup.FilterSelects | rworker/src/worker.rs:56-67 | the filter keeps, in input order, exactly the positions whose lookup at the same index is nil and whose post is recent |
| Dedup.FilterKeepsOnlyNew | rworker/src/worker.rs:59-66 | a kept post had a nil lookup at its index and `created_utc > now - RECENT_OFFSET`, so marked or too-old posts are dropped |
| Dedup.FilterNoneNew | src/worker.rs:59-70 | when no position passes both stages, nothing is kept |
| Dedup.FilterSkipsTooOld | rworker/src/worker.rs:66 | a post created at or before now − RECENT_OFFSET contributes no marker key to the filter's result, unless a recent post of the batch shares its id |
| Worker.FilterNewSubmissions | rworker/src/worker.rs:47-69 | MGET of the posts' keys then the filter; every kept post is fetched, unmarked and recent; fails on an MGET error |
| Worker.Row | rworker/src/worker.rs:98-102 | one subscriber's messages: one per new post, in order, with target the subscriber and link the post's URL |
| Worker.Fanout | rworker/src/worker.rs:97-106 | the nested loop builds exactly \|subscribers\| × \|news\| messages |
| Worker.FanoutAt | rworker/src/worker.rs:97-106 | position a·\|news\|+b holds the message to subscriber a with the link of post b (subscriber-major) |
| Worker.FanoutMembers | rworker/src/worker.rs:97-102 | every message goes to a subscriber and links to a new post |
| Worker.EnqueueAllSucceeds | rworker/src/worker.rs:103-106 | the queueing loop (one LPUSH per message, stopping at the first failure) returns Ok exactly when no push fails |
| Worker.EnqueueAllQueues | rworker/src/worker.rs:103-105 | the pushed prefix of the batch lies reversed on the head of `main/messages`; earlier pushes stay after a failure |
| Worker.EnqueueAll | rworker/src/worker.rs:103-105 | the queueing loop writes no list other than `main/messages`, and no marker or set |
| Worker.ReadPhase | rworker/src/worker.rs:93-96 | the read phase succeeds iff the fetch, the subscriber read and the status read all succeed, and returns their results |
| Worker.HandleUpdate | rworker/src/worker.rs:88-117 | a failed read returns Err with the store unchanged; on success results = fetched count and 0 ≤ news ≤ results; subscription sets are never written |
| Worker.HandleUpdateQueues | rworker/src/worker.rs:97-107 | after a successful read the fan-out is pushed onto `main/messages` up to the first failing push |
| Worker.HandleUpdateMarksLast | rworker/src/worker.rs:103-116 | markers are written only after every push succeeded; a failed push, or a failed pipeline with posts to mark, leaves every marker as it was (in the model, where a failed pipeline writes nothing) |
| Worker.NothingNewSucceeds | rworker/src/worker.rs:96-116 | a round whose read succeeds and finds no new post queues nothing, succeeds even if the store would refuse the (empty) marker pipeline, reports the fetched count and no news, and leaves the store as it was |
| Worker.MarkedOrOld | rworker/src/worker.rs:93-110 | after a successful update every fetched post holds a marker, or was too old at the filter time |
| Worker.SecondPollFindsNothingNew | rworker/src/worker.rs:56-67 | after a successful update, a second poll of the same feed at the same time or later finds no new post and queues nothing |
| Worker.TooOldNeverMarked | rworker/src/worker.rs:93-110 | whatever the outcome of an update, a fetched post too old to be new keeps its marker key as it was (present with the same value, or absent) |
| Worker.NotifiesOnlyNewPosts | rworker/src/worker.rs:93-106 | every notification goes to a subscriber and links a fetched, recent, unmarked post |
| Worker.EmptyFeedFails | rworker/src/worker.rs:52-55 | an empty feed makes MGET fail, so the update returns Err and writes nothing |
| Worker.LogOf | rworker/src/worker.rs:129-140 | each log names its subreddit and holds exactly one of result and error |
| Worker.CyclePass | rworker/src/worker.rs:127-150 | one pass over the topics, one update and one log each; Worker.UpdateCycle states its logs and store |
| Worker.UpdateCycle | rworker/src/worker.rs:119-152 | a failed topic read ends the worker with Err; otherwise each topic gets one log, in order, and a failed update moves on to the next topic |
| LegacyWorker.Links | src/worker.rs:15 | the batch is the URLs of all new posts, in order |
| LegacyWorker.DispatchNews | src/worker.rs:10-20 | one (subscriber, batch) per subscriber, in order, even for an empty batch; a rejected send panics after the earlier sends |
| LegacyWorker.UpdateNewSubmissions | src/worker.rs:36-51 | the marker pipeline hands the posts on unchanged and writes no list or set; it succeeds iff the store answers or there is no new post, and then nothing is written |
| LegacyWorker.ProcessSubmissions | src/worker.rs:73-88 | one status key per post in order, then the filter, then markers for exactly the posts found new; it succeeds iff MGET succeeds with at least one key and the pipeline succeeds or has nothing to write |
| LegacyWorker.TooOldNeverMarked | src/worker.rs:53-88 | `process_submissions` leaves the marker key of a too-old post as it was |
| LegacyWorker.HandleUpdate | src/worker.rs:110-122 | a failed request changes nothing; a bad listing panics before any store call; markers are written before the subscriber read, so a failed read leaves posts marked but unsent |
| Sender.Claim | rbot/src/main.rs:34 | BRPOPLPUSH moves the tail of `main/messages` to the head of `workers/1`; an empty pending list changes nothing |
| Sender.Ack | rbot/src/main.rs:41-43 | a successful send pops the tail of `workers/1`, removing one entry |
| Sender.Requeue | rbot/src/main.rs:37-40 | a failed send moves the tail of `workers/1` to the head of `main/messages`, behind every pending entry, keeping every entry |
| Sender.IterateWith | rbot/src/main.rs:34-43 | one sender iteration for a given claim; Sender.IterateFrame, Sender.IterateConserves and Sender.AttemptStep state what it does with the as-written claim |
| Sender.Iterate | rbot/src/main.rs:34-43 | the as-written iteration; its contract is stated by Sender.IterateFrame, Sender.IterateConserves, Sender.AttemptStep and Sender.StaleRun |
| Sender.IterateFrame | rbot/src/main.rs:34-35 | a timeout changes nothing; an undecodable entry panics after the claim and stays in `workers/1` |
| Sender.IterateConserves | rbot/src/main.rs:34-43 | claim and failed send keep the multiset of both lists; a successful send removes exactly one entry |
| Sender.IterateFromEmpty | rbot/src/main.rs:34-43 | starting with `workers/1` empty, it is empty again after any iteration that does not panic; the sent entry is removed, and a failed one goes back to the head of pending |
| Sender.RunWithLosesNothing | rbot/src/main.rs:33-45 | a loop whose every iteration keeps each entry queued or sends it, and keeps its invariant, loses no entry over any run |
| Sender.RunLosesNothing | rbot/src/main.rs:33-45 | from an empty `workers/1`, every entry is still queued or was sent successfully after any run |
| Sender.AttemptStep | rbot/src/main.rs:34-43 | in any state whose oldest pending entry decodes, with the store calls succeeding, the send goes to that message's `target` with its `link` as text, and is followed by an acknowledge (sent) or a requeue (failed) |
| Sender.AttemptLone | rbot/src/main.rs:34-43 | with one queued message and nothing in flight, a successful send empties both lists and a failed one puts the message back as the only pending entry |
| Sender.RetryUntilSent | rbot/src/main.rs:33-45 | a notification whose send fails twice and then succeeds is sent once and leaves both lists empty |
| Sender.StaleRun | rbot/src/main.rs:34-43 | with any entry `x` stranded in `workers/1` and [z, y] pending, a failed send then a successful one report y failed and z sent, and leave x pending and z (already sent) in flight |
| Sender.StaleEntryIsLost | rbot/src/main.rs:34-43 | see Findings: in that run y was queued beforehand and is afterwards neither queued nor sent |
| FixedSender.FixedClaim | rbot/src/main.rs:34 | the corrected claim moves the tail of `main/messages` to the tail of `workers/1` |
| FixedSender.Iterate | rbot/src/main.rs:34-43 | the iteration with the corrected claim; FixedSender.IterateSettlesClaimed and FixedSender.RunLosesNothing state its contract |
| FixedSender.IterateSettlesClaimed | rbot/src/main.rs:34-43 | with the corrected claim, acknowledge and requeue act on the entry just sent, whatever is stranded in flight |
| FixedSender.RunLosesNothing | rbot/src/main.rs:33-45 | with the corrected claim, no entry is ever lost, from any starting state |
| Commands.Waiting | src/commands.rs:94 | the streams kept after stepping over them are exactly the not-ready ones, in order |
| Commands.FirstDecisive | src/commands.rs:86-99 | the first stream answering an item or an error |
| Commands.PollUndecided | src/commands.rs:82-101 | with no item or error, the poll answers NotReady and keeps exactly the waiting streams, in order; an empty vector answers NotReady |
| Commands.PollDecidedAt | src/commands.rs:86-99 | the first item is returned with its stream kept in place; the first error is returned with its stream removed; finished streams before it are removed |
| Commands.PollSpec | src/commands.rs:81-102 | the reference poll, one stream at a time; Commands.PollSpecCharacterised, Commands.PollUndecided and Commands.PollDecidedAt state what it answers |
| Commands.PollSpecCharacterised | src/commands.rs:81-102 | a poll never answers end-of-stream; it answers as the first stream with an item or error, or NotReady |
| Commands.Poll | src/commands.rs:81-102 | the index loop, removing while iterating, computes the reference poll; each pass advances the index or shortens the vector |
| Commands.AddCommand | src/commands.rs:69-74 | `add_command` appends the stream at the end |
| Commands.AddCommandPoll | src/commands.rs:69-74 | appending a stream does not change a poll an earlier stream decides |
| Commands.Attach | src/commands.rs:34-45 | an item is paired with the connection; end, not-ready and errors pass through unchanged |
| Telegram.Target | rbot/src/telegram.rs:37-40 | a message without text names the empty topic |
| Telegram.AvailableRoundTrip | rbot/src/telegram.rs:24-27 | the `/subs` reply is the header then "- {sub}\n" per topic, and the topics can be read back in order |
| Telegram.HandleAvailableLists | rbot/src/telegram.rs:16-30 | `/subs` lists exactly the members of `main/subs`, in order |
| Telegram.ReplyTargetRoundTrip | rbot/src/telegram.rs:44-65 | the subscribe and unsubscribe confirmations name their topic recoverably |
| Telegram.HandleSubscribe | rbot/src/telegram.rs:82-100 | `/sub` subscribes the chat and confirms iff the topic is in `main/subs`; otherwise it replies "not available" and writes nothing; a store failure fails |
| Telegram.HandleUnsubscribe | rbot/src/telegram.rs:32-51 | `/unsub` removes the chat unconditionally and confirms; a store failure fails |
| Telegram.HandleAvailable | rbot/src/telegram.rs:16-30 | `/subs` replies to the chat it came from; a store failure fails |
| Telegram.HandleUnknown | rbot/src/telegram.rs:119-126 | an unknown command replies "I don't understand that" and makes no store call |
| Telegram.SubscribeThenUnsubscribe | rbot/src/telegram.rs:32-100 | `/sub` then `/unsub` of an available topic restores the store for a chat that was not subscribed |
| Telegram.SubscribeUnavailableWritesNothing | rbot/src/telegram.rs:91-98 | `/sub` of a topic not in `main/subs` never changes the store |
| LegacyTelegram.HandleSubscribe | src/telegram.rs:60-96 | `/sub` subscribes the chat whatever SISMEMBER answers, and confirms; either store failure fails |
| LegacyTelegram.HandleUnsubscribe | src/telegram.rs:33-59 | `/unsub` removes the chat and confirms |
| LegacyTelegram.HandleAvailable | src/telegram.rs:11-31 | `/subs` replies to the chat it came from |
| LegacyTelegram.SubscribesUnavailableTopic | src/telegram.rs:69-83 | the older `/sub` subscribes to a topic that is not available, where the newer one writes nothing |
| LegacyTelegram.AgreesWithNewerHandlers | src/telegram.rs:33-96 | on available topics both revisions of `/sub` agree, and `/unsub` and `/subs` always agree |

## Left out

- HTTP fetching (`fetch_submissions`, `get_subreddit_data`, `parse_response`): the response is an input. For `rworker` the input is the decoded posts, or `Err` when the request or its JSON parsing failed.
- Worker.HandleUpdate: the panic of `decode_submission_array` (at its `expect`s in `src/reddit.rs:27-36`) when `rworker` fetches a listing that does not decode is not modelled; it would end `updater_worker_context`, and the model has no such round. The older worker models that panic (LegacyWorker.HandleUpdate, Reddit.DecodeSubmissionArray).
- Telegram API calls: a send's success is an input of each sender iteration. A handler's reply is the message it would send. A failed reply send, which would fail the handler's future, is not modelled.
- Runtimes, spawning, the 30-second delay, the channel receiver, `src/main.rs`, `rworker/src/main.rs`, and the wiring in `build_commands` and `telegram_context`.
- Environment configuration and the `expect` calls on it.
- Floating point: `created_utc` and `now` are whole seconds. The `{}` formatting of a whole `f64` prints no fraction, so tags agree. `src/database.rs` sends the TTL as the float `2.0 * RECENT_OFFSET`; it is modelled as the integer 43200.
- The clock: each update takes its filter time and marking time as inputs.
- Logging, `WorkLog` timestamp and duration, and `log_work`: its definition is not part of this model.
- serde_json serialisation of notifications: queue entries are an abstract `Payload`, either an encoded message or text that does not decode.
- Redis transport: an empty pipeline succeeds without contacting the server, as redis-rs answers it locally; that library is not part of this model. Pipeline atomicity is not modelled; a failed pipeline is modelled as writing nothing. TTL expiry over time is not modelled; a marker is present with its TTL stored as data. SMEMBERS is modelled in insertion order, where Redis leaves the order unspecified.
- Worker.UpdateCycle: models one pass of the worker's endless loop, not the loop itself.
- Sender.Run: runs a finite sequence of iterations of the endless sender loop, and stops at a panic.
- Sender.IterateFromEmpty: stated for an empty `workers/1` at the start, because with an entry stranded there the as-written sender does not keep the property (see Findings).
- Commands.Poll: each stream is polled at most once per call, so a stream's answer is one input per call. The stream bodies and the handler futures behind them are not modelled.
- Database.ParseIdsMembers: states member order only when every member parses (Database.ParseIdsAllParse); with dropped members it states which ids are read, not their order. The dropping follows redis-rs's default conversion of a multi-bulk reply to a vector (`from_redis_values` filters out elements that fail to convert); that library is not part of this model.
- Database.FetchSubscribers: states each returned id through `i64::from_str` of the stored member, not textual equality, because non-canonical numerals such as "+5" also parse.

## Findings

| source | as written | input that shows it | evidently intended | confidence | as-written member | corrected member |
|---|---|---|---|---|---|---|
| rbot/src/main.rs:34-43 | the claim (BRPOPLPUSH) pushes onto the head of `workers/1`, but the acknowledge (RPOP) and the requeue (RPOPLPUSH) take its tail | `workers/1` = [x], where x (any entry) was left there by a panic after its claim (it did not decode, or its acknowledge or requeue failed) and the sender was then restarted; `main/messages` = [z, y]. The send of y fails, so x is requeued and y stays in flight. Then the send of z succeeds and y is popped. y is never sent and no longer queued; x is pending again, and z, already sent, stays in flight | each settle call acts on the entry just claimed, e.g. claim with BLMOVE `main/messages` `workers/1` RIGHT RIGHT | high (proved in the model; not executed) | Sender.StaleEntryIsLost | FixedSender.RunLosesNothing |
