/** The chat command handlers of the bot (`rbot/src/telegram.rs`): `/sub`, `/unsub`, `/subs` and the
    reply to an unknown command, each a transition on the subscription sets plus the reply sent to
    the chat the command came from. A failing store call makes the handler fail; the send itself is
    a foreign call and is represented by the reply it would send. */
module Telegram {
  import opened Wrappers
  import opened Text
  import opened Store
  import opened Database
  import Decimal

  /** An incoming command: the chat it came from and the text after the command, if any. */
  datatype Incoming = Incoming(chat: Decimal.I64, text: Option<string>)

  /** A message to send: the chat and the text. */
  datatype Reply = Reply(chat: Decimal.I64, text: string)

  /** Which store calls of a handler reach the store: the read (availability check or listing) and
      the write (SADD or SREM). */
  datatype Faults = Faults(readUp: bool, writeUp: bool)

  const SUBSCRIBED_PREFIX: string := "You are now subscribed to "
  const UNSUBSCRIBED_PREFIX: string := "You are no longer subscribed to "
  const AVAILABLE_HEADER: string := "These are the available subreddits:\n"
  const UNKNOWN_REPLY: string := "I don't understand that"

  /** The command's argument; a message without text names the empty topic. */
  function Target(msg: Incoming): (t: string)
    ensures msg.text.Some? ==> t == msg.text.value
    ensures msg.text.None? ==> t == ""
  {
    msg.text.GetOr("")
  }

  function SubscribedText(target: string): string {
    SUBSCRIBED_PREFIX + target
  }

  function NotAvailableText(target: string): string {
    "The subreddit " + target + " is not available"
  }

  function UnsubscribedText(target: string): string {
    UNSUBSCRIBED_PREFIX + target
  }

  /** One line "- {sub}\n" per topic, in order. */
  function Lines(subs: seq<string>): string {
    if subs == [] then "" else "- " + subs[0] + "\n" + Lines(subs[1..])
  }

  /** The `/subs` reply: the header, then one line per available topic. */
  function AvailableText(subs: seq<string>): string {
    AVAILABLE_HEADER + Lines(subs)
  }

  /** Reads one line "- {line}\n" off the front of `body`, giving the line and what follows. */
  function ParseLine(body: string): Option<(string, string)> {
    match StripPrefix(body, "- ")
    case None => None
    case Some(rest) => SplitOnce(rest, '\n')
  }

  /** Reads the topics back from the lines of a `/subs` reply. */
  function ParseLines(body: string): (r: Option<seq<string>>)
    decreases |body|
  {
    if body == [] then Some([])
    else
      match ParseLine(body)
      case None => None
      case Some((line, tail)) =>
        assert |tail| < |body|;
        match ParseLines(tail)
        case None => None
        case Some(more) => Some([line] + more)
  }

  function ParseAvailable(text: string): Option<seq<string>> {
    match StripPrefix(text, AVAILABLE_HEADER)
    case None => None
    case Some(body) => ParseLines(body)
  }

  /** Reading one line recovers the line and what follows it, when the line holds no line break. */
  lemma ParseLineOfJoin(line: string, tail: string)
    requires '\n' !in line
    ensures ParseLine("- " + line + "\n" + tail) == Some((line, tail))
  {
    var rest := line + ['\n'] + tail;
    assert "- " + line + "\n" + tail == "- " + rest;
    StripPrefixOfConcat("- ", rest);
    SplitOnceOfJoin(line, '\n', tail);
  }

  /** Reading one line in front of readable lines. */
  lemma ParseLinesCons(line: string, tail: string)
    requires '\n' !in line
    requires ParseLines(tail).Some?
    ensures ParseLines("- " + line + "\n" + tail) == Some([line] + ParseLines(tail).value)
  {
    ParseLineOfJoin(line, tail);
  }

  lemma {:induction false} ParseLinesRoundTrip(subs: seq<string>)
    requires forall sub | sub in subs :: '\n' !in sub
    ensures ParseLines(Lines(subs)) == Some(subs)
    decreases |subs|
  {
    if subs != [] {
      var tail := Lines(subs[1..]);
      assert forall sub | sub in subs[1..] :: sub in subs;
      ParseLinesRoundTrip(subs[1..]);
      assert Lines(subs) == "- " + subs[0] + "\n" + tail;
      ParseLinesCons(subs[0], tail);
      assert [subs[0]] + subs[1..] == subs;
    }
  }

  /** The `/subs` reply lists exactly the available topics, in order, when no topic name holds a
      line break. */
  lemma AvailableRoundTrip(subs: seq<string>)
    requires forall sub | sub in subs :: '\n' !in sub
    ensures ParseAvailable(AvailableText(subs)) == Some(subs)
  {
    StripPrefixOfConcat(AVAILABLE_HEADER, Lines(subs));
    ParseLinesRoundTrip(subs);
  }

  /** The subscribe and unsubscribe replies name their topic recoverably. */
  lemma ReplyTargetRoundTrip(target: string)
    ensures StripPrefix(SubscribedText(target), SUBSCRIBED_PREFIX) == Some(target)
    ensures StripPrefix(UnsubscribedText(target), UNSUBSCRIBED_PREFIX) == Some(target)
  {
    StripPrefixOfConcat(SUBSCRIBED_PREFIX, target);
    StripPrefixOfConcat(UNSUBSCRIBED_PREFIX, target);
  }

  /** `handle_subscribe`: checks that the topic is available; if so adds the chat to its subscribers
      and confirms, otherwise replies that it is not available and writes nothing. */
  function HandleSubscribe(st: Store, msg: Incoming, f: Faults): (r: Result<(Reply, Store)>)
    ensures var t := Target(msg);
            var available := t in Members(st, TOPICS);
            && (r.Ok? <==> f.readUp && (available ==> f.writeUp))
            && (r.Ok? ==> r.value.0.chat == msg.chat)
            && (r.Ok? && available ==>
                  && r.value.0.text == SubscribedText(t)
                  && InsertSubscriber(st, t, msg.chat, true) == Ok(r.value.1))
            && (r.Ok? && !available ==> r.value == (Reply(msg.chat, NotAvailableText(t)), st))
  {
    var t := Target(msg);
    match FetchIsSubAvailable(st, t, f.readUp)
    case Err => Err
    case Ok(available) =>
      if !available then Ok((Reply(msg.chat, NotAvailableText(t)), st))
      else
        match InsertSubscriber(st, t, msg.chat, f.writeUp)
        case Err => Err
        case Ok(st') => Ok((Reply(msg.chat, SubscribedText(t)), st'))
  }

  /** `handle_unsubscribe`: removes the chat from the topic's subscribers, whether or not it was
      one, and confirms. */
  function HandleUnsubscribe(st: Store, msg: Incoming, f: Faults): (r: Result<(Reply, Store)>)
    ensures r.Ok? <==> f.writeUp
    ensures r.Ok? ==> r.value.0 == Reply(msg.chat, UnsubscribedText(Target(msg)))
    ensures r.Ok? ==> DeleteSubscriber(st, Target(msg), msg.chat, true) == Ok(r.value.1)
  {
    var t := Target(msg);
    match DeleteSubscriber(st, t, msg.chat, f.writeUp)
    case Err => Err
    case Ok(st') => Ok((Reply(msg.chat, UnsubscribedText(t)), st'))
  }

  /** `handle_available`: lists the available topics; the store is only read. */
  function HandleAvailable(st: Store, msg: Incoming, f: Faults): (r: Result<Reply>)
    ensures r.Ok? <==> f.readUp
    ensures r.Ok? ==> r.value.chat == msg.chat
  {
    match FetchAvailableSubs(st, f.readUp)
    case Err => Err
    case Ok(subs) => Ok(Reply(msg.chat, AvailableText(subs)))
  }

  /** The `/subs` reply lists exactly the members of `main/subs`, in order. */
  lemma HandleAvailableLists(st: Store, msg: Incoming, f: Faults)
    requires f.readUp
    requires forall sub | sub in Members(st, TOPICS) :: '\n' !in sub
    ensures ParseAvailable(HandleAvailable(st, msg, f).value.text) == Some(Members(st, TOPICS))
  {
    AvailableRoundTrip(Members(st, TOPICS));
  }

  /** The reply to any other command; no store call is made. */
  function HandleUnknown(msg: Incoming): (r: Reply)
    ensures r.chat == msg.chat && r.text == UNKNOWN_REPLY
  {
    Reply(msg.chat, UNKNOWN_REPLY)
  }

  /** `/sub` on an available topic followed by `/unsub` of the same topic restores the store when the
      chat was not subscribed before. */
  lemma SubscribeThenUnsubscribe(st: Store, msg: Incoming)
    requires Valid(st)
    requires Target(msg) in Members(st, TOPICS)
    requires IdMember(msg.chat) !in Members(st, SubscribersKey(Target(msg)))
    ensures var up := Faults(true, true);
            var st1 := HandleSubscribe(st, msg, up).value.1;
            HandleUnsubscribe(st1, msg, up).value.1 == st
  {
    AddThenRemove(st, SubscribersKey(Target(msg)), IdMember(msg.chat));
  }

  /** `/sub` on a topic that is not available never changes the store, whatever it answers. */
  lemma SubscribeUnavailableWritesNothing(st: Store, msg: Incoming, f: Faults)
    requires Target(msg) !in Members(st, TOPICS)
    ensures HandleSubscribe(st, msg, f).Ok? <==> f.readUp
    ensures HandleSubscribe(st, msg, f).Ok? ==> HandleSubscribe(st, msg, f).value.1 == st
  {
  }
}
