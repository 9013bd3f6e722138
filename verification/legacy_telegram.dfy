/** The chat command handlers of the older bot (`src/telegram.rs`): `/sub`, `/unsub` and `/subs`,
    issuing the Redis commands directly. Unlike the newer handlers, `/sub` reads whether the topic
    is available but subscribes the chat either way. */
module LegacyTelegram {
  import opened Wrappers
  import opened Store
  import opened Database
  import opened Telegram

  /** `handle_subscribe`: SISMEMBER on `main/subs` (only its failure matters), then SADD of the chat
      to the topic's subscribers and a confirmation. */
  function HandleSubscribe(st: Store, msg: Incoming, f: Faults): (r: Result<(Reply, Store)>)
    ensures r.Ok? <==> f.readUp && f.writeUp
    ensures r.Ok? ==> r.value.0 == Reply(msg.chat, SubscribedText(Target(msg)))
    ensures r.Ok? ==> IdMember(msg.chat) in Members(r.value.1, SubscribersKey(Target(msg)))
    ensures r.Ok? ==> InsertSubscriber(st, Target(msg), msg.chat, true) == Ok(r.value.1)
  {
    var t := Target(msg);
    match FetchIsSubAvailable(st, t, f.readUp)
    case Err => Err
    case Ok(_) =>
      match InsertSubscriber(st, t, msg.chat, f.writeUp)
      case Err => Err
      case Ok(st') => Ok((Reply(msg.chat, SubscribedText(t)), st'))
  }

  /** `handle_unsubscribe`: SREM of the chat from the topic's subscribers and a confirmation. */
  function HandleUnsubscribe(st: Store, msg: Incoming, f: Faults): (r: Result<(Reply, Store)>)
    ensures r.Ok? <==> f.writeUp
    ensures r.Ok? ==> r.value.0 == Reply(msg.chat, UnsubscribedText(Target(msg)))
    ensures r.Ok? ==> IdMember(msg.chat) !in Members(r.value.1, SubscribersKey(Target(msg)))
  {
    var t := Target(msg);
    match DeleteSubscriber(st, t, msg.chat, f.writeUp)
    case Err => Err
    case Ok(st') => Ok((Reply(msg.chat, UnsubscribedText(t)), st'))
  }

  /** `handle_available`: SMEMBERS of `main/subs` and the listing reply. */
  function HandleAvailable(st: Store, msg: Incoming, f: Faults): (r: Result<Reply>)
    ensures r.Ok? <==> f.readUp
    ensures r.Ok? ==> r.value.chat == msg.chat
  {
    if f.readUp then Ok(Reply(msg.chat, AvailableText(Members(st, TOPICS)))) else Err
  }

  /** The older `/sub` subscribes the chat to a topic that is not available, where the newer one
      replies that it is not available and writes nothing. */
  lemma SubscribesUnavailableTopic(st: Store, msg: Incoming)
    requires Target(msg) !in Members(st, TOPICS)
    ensures var up := Faults(true, true);
            && IdMember(msg.chat) in Members(HandleSubscribe(st, msg, up).value.1, SubscribersKey(Target(msg)))
            && Telegram.HandleSubscribe(st, msg, up) == Ok((Reply(msg.chat, NotAvailableText(Target(msg))), st))
  {
  }

  /** On an available topic both revisions of `/sub` behave alike, and `/unsub` and `/subs` agree
      always. */
  lemma AgreesWithNewerHandlers(st: Store, msg: Incoming, f: Faults)
    ensures Target(msg) in Members(st, TOPICS) ==> HandleSubscribe(st, msg, f) == Telegram.HandleSubscribe(st, msg, f)
    ensures HandleUnsubscribe(st, msg, f) == Telegram.HandleUnsubscribe(st, msg, f)
    ensures HandleAvailable(st, msg, f) == Telegram.HandleAvailable(st, msg, f)
  {
  }
}
