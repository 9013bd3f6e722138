/** The store operations of the three `database.rs` revisions (rworker, src and rbot), over the
    abstract store. A transport failure of a call is an input: `up` is false when the connection
    failed, and the call then returns `Err` and changes nothing. */
module Database {
  import opened Wrappers
  import opened Seqs
  import opened Payloads
  import opened Store
  import opened Reddit
  import Decimal

  /** The delivery queue's pending list. */
  const MESSAGES: string := "main/messages"

  /** The set of topics (subreddit names) the worker polls. */
  const TOPICS: string := "main/subs"

  const SUBSCRIBERS_PREFIX: string := "subscribers/"

  /** Key of the set of chats subscribed to `topic`. */
  function SubscribersKey(topic: string): string {
    SUBSCRIBERS_PREFIX + topic
  }

  /** How a chat id is stored as a set member: SADD sends the integer in decimal. */
  function IdMember(id: Decimal.I64): string {
    Decimal.IntToString(id)
  }

  /** Different topics have different subscriber sets. */
  lemma SubscribersKeyInjective(t1: string, t2: string)
    ensures SubscribersKey(t1) == SubscribersKey(t2) <==> t1 == t2
  {
    if SubscribersKey(t1) == SubscribersKey(t2) {
      assert t1 == SubscribersKey(t1)[|SUBSCRIBERS_PREFIX|..];
      assert t2 == SubscribersKey(t2)[|SUBSCRIBERS_PREFIX|..];
    }
  }

  /** `queue_message`: LPUSH onto `main/messages`, nothing else. */
  function QueueMessage(st: Store, payload: Payload, up: bool): (r: Result<Store>)
    ensures r.Ok? <==> up
    ensures r.Ok? ==> List(r.value, MESSAGES) == [payload] + List(st, MESSAGES)
    ensures r.Ok? ==> forall k | k != MESSAGES :: List(r.value, k) == List(st, k)
    ensures r.Ok? ==> r.value.strings == st.strings && r.value.sets == st.sets
  {
    if up then Ok(LPush(st, MESSAGES, payload)) else Err
  }

  /** `fetch_available_subs`: SMEMBERS of `main/subs`. */
  function FetchAvailableSubs(st: Store, up: bool): (r: Result<seq<string>>)
    ensures r.Ok? <==> up
    ensures r.Ok? ==> r.value == Members(st, TOPICS)
  {
    if up then Ok(Members(st, TOPICS)) else Err
  }

  /** `fetch_submissions_status`: MGET of the keys, one status per key in the given order. */
  function FetchSubmissionsStatus(st: Store, keys: seq<string>, up: bool): (r: Result<seq<Status>>)
    ensures r.Ok? <==> up && keys != []
    ensures r.Ok? ==> |r.value| == |keys|
    ensures r.Ok? ==> forall i | 0 <= i < |keys| :: (r.value[i].Nil? <==> keys[i] !in st.strings)
  {
    if up then MGet(st, keys) else Err
  }

  /** Conversion of SMEMBERS' reply to `Vec<i64>`: redis-rs converts each element of a multi-bulk
      reply and drops the ones that do not convert, so a member that does not parse as an i64 is
      skipped and the others are kept, in member order. */
  function ParseIds(members: seq<string>): (r: seq<Decimal.I64>)
    ensures |r| <= |members|
    decreases |members|
  {
    if members == [] then []
    else
      match Decimal.ParseI64(members[0])
      case None => ParseIds(members[1..])
      case Some(id) => [id] + ParseIds(members[1..])
  }

  /** Every id read comes from a member that parses to it, and every member that parses yields its
      id: a member that does not parse is dropped rather than failing the read. */
  lemma {:induction false} ParseIdsMembers(members: seq<string>)
    ensures forall x | x in ParseIds(members) :: exists m | m in members :: Decimal.ParseI64(m) == Some(x)
    ensures forall m | m in members && Decimal.ParseI64(m).Some? :: Decimal.ParseI64(m).value in ParseIds(members)
    decreases |members|
  {
    if members != [] {
      ParseIdsMembers(members[1..]);
      assert forall m | m in members[1..] :: m in members;
      assert forall m | m in members :: m == members[0] || m in members[1..];
    }
  }

  /** When every member parses, none is dropped: the ids are the members read one by one. */
  lemma {:induction false} ParseIdsAllParse(members: seq<string>)
    requires forall i | 0 <= i < |members| :: Decimal.ParseI64(members[i]).Some?
    ensures |ParseIds(members)| == |members|
    ensures forall i | 0 <= i < |members| :: Decimal.ParseI64(members[i]) == Some(ParseIds(members)[i])
    decreases |members|
  {
    if members != [] {
      var rest := ParseIds(members[1..]);
      assert forall i | 0 <= i < |members| - 1 :: members[1..][i] == members[i + 1];
      ParseIdsAllParse(members[1..]);
      var id := Decimal.ParseI64(members[0]).value;
      assert ParseIds(members) == [id] + rest;
    }
  }

  /** `fetch_subscribers`: SMEMBERS of `subscribers/{topic}`, read as chat ids; it fails only when the
      store call fails. */
  function FetchSubscribers(st: Store, topic: string, up: bool): (r: Result<seq<Decimal.I64>>)
    ensures r.Ok? <==> up
    ensures r.Ok? ==> forall x | x in r.value ::
      exists m | m in Members(st, SubscribersKey(topic)) :: Decimal.ParseI64(m) == Some(x)
    ensures r.Ok? ==> forall m | m in Members(st, SubscribersKey(topic)) && Decimal.ParseI64(m).Some? ::
      Decimal.ParseI64(m).value in r.value
  {
    ParseIdsMembers(Members(st, SubscribersKey(topic)));
    if up then Ok(ParseIds(Members(st, SubscribersKey(topic)))) else Err
  }

  /** The SETEX pipeline of `update_submissions`: for each post in order, its key is set to its tag
      with a time to live of twice the recency window. A later post with the same key overwrites an
      earlier one. */
  function MarkAll(st: Store, subs: seq<Submission>, now: int): (st': Store)
    ensures st'.lists == st.lists && st'.sets == st.sets
    decreases |subs|
  {
    if subs == [] then st
    else MarkAll(SetEx(st, Key(subs[0]), MARKER_TTL, Tag(subs[0], now)), subs[1..], now)
  }

  /** Every post of the batch gets a marker with a time to live of 43200 seconds. */
  lemma {:induction false} MarkAllTtl(st: Store, subs: seq<Submission>, now: int)
    ensures forall p | p in subs ::
      Key(p) in MarkAll(st, subs, now).strings && MarkAll(st, subs, now).strings[Key(p)].ttl == MARKER_TTL
    decreases |subs|
  {
    if subs != [] {
      var st1 := SetEx(st, Key(subs[0]), MARKER_TTL, Tag(subs[0], now));
      var rest := subs[1..];
      MarkAllTtl(st1, rest, now);
      MarkAllFrame(st1, rest, now);
      assert subs == [subs[0]] + rest;
      var p := subs[0];
      if Key(p) in Keys(rest) {
        var j :| 0 <= j < |rest| && Keys(rest)[j] == Key(p);
        assert rest[j] in rest;
      }
    }
  }

  /** The marker of a key holds the tag of the last post of the batch with that key. */
  lemma {:induction false} MarkAllLastTag(st: Store, subs: seq<Submission>, now: int, i: nat)
    requires i < |subs|
    requires forall j | i < j < |subs| :: Key(subs[j]) != Key(subs[i])
    ensures Key(subs[i]) in MarkAll(st, subs, now).strings
    ensures MarkAll(st, subs, now).strings[Key(subs[i])] == Marker(Tag(subs[i], now), MARKER_TTL)
    decreases |subs|
  {
    var st1 := SetEx(st, Key(subs[0]), MARKER_TTL, Tag(subs[0], now));
    var rest := subs[1..];
    if i == 0 {
      MarkAllFrame(st1, rest, now);
      assert forall j | 0 <= j < |rest| :: Keys(rest)[j] == Key(subs[j + 1]);
      assert Key(subs[0]) !in Keys(rest);
    } else {
      MarkAllLastTag(st1, rest, now, i - 1);
    }
  }

  /** Keys of posts not in the batch keep their previous value, or stay absent. */
  lemma {:induction false} MarkAllFrame(st: Store, subs: seq<Submission>, now: int)
    ensures forall k | k !in Keys(subs) ::
      (k in MarkAll(st, subs, now).strings <==> k in st.strings)
      && (k in st.strings ==> MarkAll(st, subs, now).strings[k] == st.strings[k])
    decreases |subs|
  {
    if subs != [] {
      var st1 := SetEx(st, Key(subs[0]), MARKER_TTL, Tag(subs[0], now));
      MarkAllFrame(st1, subs[1..], now);
      assert Keys(subs) == [Key(subs[0])] + Keys(subs[1..]);
    }
  }

  /** `update_submissions` (both revisions): one SETEX per post, in one pipeline. With no post the
      pipeline is empty, and redis-rs answers an empty pipeline without contacting the server, so it
      succeeds whatever the store's state. */
  function UpdateSubmissions(st: Store, subs: seq<Submission>, now: int, up: bool): (r: Result<Store>)
    ensures r.Ok? <==> up || subs == []
    ensures subs == [] ==> r == Ok(st)
    ensures r.Ok? ==> r.value.lists == st.lists && r.value.sets == st.sets
  {
    if subs == [] then Ok(st)
    else if up then Ok(MarkAll(st, subs, now))
    else Err
  }

  /** `insert_subscriber`: SADD of the chat id to `subscribers/{target}`. */
  function InsertSubscriber(st: Store, target: string, id: Decimal.I64, up: bool): (r: Result<Store>)
    ensures r.Ok? <==> up
    ensures r.Ok? ==> IdMember(id) in Members(r.value, SubscribersKey(target))
    ensures r.Ok? ==> forall m :: m in Members(r.value, SubscribersKey(target)) <==>
      m in Members(st, SubscribersKey(target)) || m == IdMember(id)
    ensures r.Ok? ==> forall t | t != target :: Members(r.value, SubscribersKey(t)) == Members(st, SubscribersKey(t))
    ensures r.Ok? ==> r.value.strings == st.strings && r.value.lists == st.lists
    ensures r.Ok? ==> Members(r.value, TOPICS) == Members(st, TOPICS)
    ensures r.Ok? && Valid(st) ==> Valid(r.value)
  {
    if up then
      var st' := SAdd(st, SubscribersKey(target), IdMember(id));
      assert forall t | t != target :: SubscribersKey(t) != SubscribersKey(target) by {
        forall t | t != target ensures SubscribersKey(t) != SubscribersKey(target) {
          SubscribersKeyInjective(t, target);
        }
      }
      Ok(st')
    else Err
  }

  /** Subscribing twice is the same as subscribing once. */
  lemma InsertSubscriberIdempotent(st: Store, target: string, id: Decimal.I64)
    ensures var once := InsertSubscriber(st, target, id, true).value;
            InsertSubscriber(once, target, id, true).value == once
  {
  }

  /** `delete_subscriber`: SREM of the chat id from `subscribers/{target}`. */
  function DeleteSubscriber(st: Store, target: string, id: Decimal.I64, up: bool): (r: Result<Store>)
    ensures r.Ok? <==> up
    ensures r.Ok? ==> IdMember(id) !in Members(r.value, SubscribersKey(target))
    ensures r.Ok? ==> forall m :: m in Members(r.value, SubscribersKey(target)) <==>
      m in Members(st, SubscribersKey(target)) && m != IdMember(id)
    ensures r.Ok? && IdMember(id) !in Members(st, SubscribersKey(target)) ==> r.value == st
    ensures r.Ok? ==> forall t | t != target :: Members(r.value, SubscribersKey(t)) == Members(st, SubscribersKey(t))
    ensures r.Ok? ==> r.value.strings == st.strings && r.value.lists == st.lists
    ensures r.Ok? ==> Members(r.value, TOPICS) == Members(st, TOPICS)
    ensures r.Ok? && Valid(st) ==> Valid(r.value)
  {
    if up then
      var st' := SRem(st, SubscribersKey(target), IdMember(id));
      assert forall t | t != target :: SubscribersKey(t) != SubscribersKey(target) by {
        forall t | t != target ensures SubscribersKey(t) != SubscribersKey(target) {
          SubscribersKeyInjective(t, target);
        }
      }
      Ok(st')
    else Err
  }

  /** `fetch_is_sub_available`: SISMEMBER of the target in `main/subs`. */
  function FetchIsSubAvailable(st: Store, target: string, up: bool): (r: Result<bool>)
    ensures r.Ok? <==> up
    ensures r.Ok? ==> (r.value <==> target in Members(st, TOPICS))
  {
    if up then Ok(target in Members(st, TOPICS)) else Err
  }
}
