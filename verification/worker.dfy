/** The update worker of the `rworker` revision: for one subreddit, fetch the newest posts, read the
    subscribers, keep the posts not seen before and recent, queue one notification per
    (subscriber, post), and only then write the seen-markers. The HTTP fetch is an input, as are
    the transport failures of the store calls and the two clock readings. */
module Worker {
  import opened Wrappers
  import opened Seqs
  import opened Payloads
  import opened Store
  import opened Reddit
  import opened Database
  import opened Dedup
  import Decimal

  /** Outcome counters of one update: posts fetched and posts found new. */
  datatype WorkResult = WorkResult(results: int, news: int)

  /** Record of one subreddit's update in a cycle (timestamp and duration are not modelled). */
  datatype WorkLog = WorkLog(sub: string, result: Option<WorkResult>, error: Option<string>)

  /** Which store calls of one update fail: the subscriber read, the status read, the LPUSH at a
      given position of the batch, and the marker pipeline. */
  datatype Faults = Faults(subscribersUp: bool, statusesUp: bool, failingEnqueue: Option<nat>, markUp: bool)

  /** The two clock readings of one update: when the filter runs and when markers are written. */
  datatype Clock = Clock(filterAt: int, markAt: int)

  /** Everything an update depends on besides the store: the fetch result (`Err` when the request or
      its JSON parsing failed), the store faults and the clock. */
  datatype Round = Round(fetched: Result<seq<Submission>>, faults: Faults, clock: Clock)

  /** A result together with the store it leaves behind. */
  datatype Step<T> = Step(result: Result<T>, store: Store)

  /** What the read phase gathered: the fetched posts, the subscribers and the new posts. */
  datatype Plan = Plan(fetched: seq<Submission>, subscribers: seq<Decimal.I64>, news: seq<Submission>)

  /** `{:#?}` of the unit error value every failed update carries. */
  const UNIT_DEBUG: string := "()"

  /** The statuses MGET answers for the posts' keys, one per post. */
  function Lookups(st: Store, subs: seq<Submission>): (r: seq<Status>)
    ensures |r| == |subs|
  {
    seq(|subs|, i requires 0 <= i < |subs| => Lookup(st, Key(subs[i])))
  }

  /** `filter_new_submissions`: MGET of the posts' keys, then the seen-marker filter. */
  function FilterNewSubmissions(st: Store, subs: seq<Submission>, now: int, up: bool): (r: Result<seq<Submission>>)
    ensures r.Ok? <==> up && subs != []
    ensures r.Ok? ==> r.value == Dedup.Filter(Lookups(st, subs), subs, now)
    ensures r.Ok? ==> forall p | p in r.value :: p in subs && Key(p) !in st.strings && Recent(p, now)
  {
    match FetchSubmissionsStatus(st, Keys(subs), up)
    case Err => Err
    case Ok(statuses) =>
      assert statuses == Lookups(st, subs);
      FilterKeepsOnlyNew(statuses, subs, now);
      forall p | p in Filter(statuses, subs, now) ensures Key(p) !in st.strings {
        var k :| 0 <= k < |subs| && subs[k] == p && k < |statuses| && statuses[k].Nil?;
      }
      Ok(Dedup.Filter(statuses, subs, now))
  }

  /** One subscriber's share of the fan-out: a message per new post, in post order. */
  function Row(subscriber: int, news: seq<Submission>): (msgs: seq<Message>)
    ensures |msgs| == |news|
    ensures forall b | 0 <= b < |news| :: msgs[b] == Message(subscriber, Url(news[b]))
  {
    seq(|news|, b requires 0 <= b < |news| => Message(subscriber, Url(news[b])))
  }

  /** The messages of the nested loop of `handle_update`, subscriber-major. */
  function Fanout(subscribers: seq<Decimal.I64>, news: seq<Submission>): (msgs: seq<Message>)
    ensures |msgs| == |subscribers| * |news|
    decreases |subscribers|
  {
    if subscribers == [] then []
    else
      assert |subscribers| * |news| == |news| + (|subscribers| - 1) * |news|;
      Row(subscribers[0], news) + Fanout(subscribers[1..], news)
  }

  /** For subscriber `a` and post `b`, position `a * |news| + b` of the fan-out holds the message to
      `a` with the link of `b`: exactly one message per (subscriber, post) pair. */
  lemma {:induction false} FanoutAt(subscribers: seq<Decimal.I64>, news: seq<Submission>, a: nat, b: nat)
    requires a < |subscribers| && b < |news|
    ensures a * |news| + b < |Fanout(subscribers, news)|
    ensures Fanout(subscribers, news)[a * |news| + b] == Message(subscribers[a], Url(news[b]))
    decreases a
  {
    var n := |news|;
    var row := Row(subscribers[0], news);
    var rest := Fanout(subscribers[1..], news);
    assert Fanout(subscribers, news) == row + rest;
    if a > 0 {
      FanoutAt(subscribers[1..], news, a - 1, b);
      var before := (a - 1) * n;
      MulStep(a, n);
      assert a * n == before + n;
      assert subscribers[1..][a - 1] == subscribers[a];
      assert (row + rest)[a * n + b] == rest[before + b];
    }
  }

  /** One more factor of `n`. */
  lemma MulStep(a: nat, n: nat)
    requires a > 0
    ensures a * n == (a - 1) * n + n
  {
  }

  /** The queue entries of a batch of messages. */
  function Encodings(msgs: seq<Message>): (ps: seq<Payload>)
    ensures |ps| == |msgs|
    ensures forall i | 0 <= i < |msgs| :: ps[i] == Encoded(msgs[i])
  {
    seq(|msgs|, i requires 0 <= i < |msgs| => Encoded(msgs[i]))
  }

  /** How many LPUSHes of a batch of `n` succeed when the one at `failAt` fails. */
  function Pushed(n: nat, failAt: Option<nat>): (k: nat)
    ensures k <= n
  {
    if failAt.Some? && failAt.value < n then failAt.value else n
  }

  /** The queueing loop: one LPUSH per message, stopping at the first failure. Earlier pushes stay. */
  function EnqueueAll(st: Store, msgs: seq<Message>, failAt: Option<nat>): (r: Step<()>)
    ensures forall k | k != MESSAGES :: List(r.store, k) == List(st, k)
    ensures r.store.strings == st.strings && r.store.sets == st.sets
    decreases |msgs|
  {
    if msgs == [] then Step(Ok(()), st)
    else match QueueMessage(st, Encoded(msgs[0]), failAt != Some(0))
      case Err => Step(Err, st)
      case Ok(st1) => EnqueueAll(st1, msgs[1..], NextFailure(failAt))
  }

  /** The position of the failing push within the rest of the batch. */
  function NextFailure(failAt: Option<nat>): Option<nat> {
    if failAt.Some? && failAt.value > 0 then Some(failAt.value - 1) else None
  }

  /** The queueing loop succeeds exactly when no push fails. */
  lemma {:induction false} EnqueueAllSucceeds(st: Store, msgs: seq<Message>, failAt: Option<nat>)
    ensures EnqueueAll(st, msgs, failAt).result.Ok? <==> Pushed(|msgs|, failAt) == |msgs|
    decreases |msgs|
  {
    if msgs != [] && failAt != Some(0) {
      var st1 := QueueMessage(st, Encoded(msgs[0]), true).value;
      EnqueueAllSucceeds(st1, msgs[1..], NextFailure(failAt));
    }
  }

  /** The pushed prefix of the batch lies reversed on the head of `main/messages`. */
  lemma {:induction false} EnqueueAllQueues(st: Store, msgs: seq<Message>, failAt: Option<nat>)
    ensures List(EnqueueAll(st, msgs, failAt).store, MESSAGES)
            == Reverse(Encodings(msgs[..Pushed(|msgs|, failAt)])) + List(st, MESSAGES)
    decreases |msgs|
  {
    if msgs == [] || failAt == Some(0) {
      assert msgs[..Pushed(|msgs|, failAt)] == [];
    } else {
      var e := Encoded(msgs[0]);
      var st1 := QueueMessage(st, e, true).value;
      var next := NextFailure(failAt);
      var rest := msgs[1..];
      var n := Pushed(|rest|, next);
      var pushed := Encodings(rest[..n]);
      EnqueueAllStep(st, msgs, failAt);
      EnqueueAllQueues(st1, rest, next);
      EncodingsCons(msgs, n);
      ReverseAppendFront(e, pushed);
      var tail := List(st, MESSAGES);
      assert Reverse(pushed) + ([e] + tail) == (Reverse(pushed) + [e]) + tail;
    }
  }

  /** One successful push, then the loop over the rest of the batch. */
  lemma EnqueueAllStep(st: Store, msgs: seq<Message>, failAt: Option<nat>)
    requires msgs != [] && failAt != Some(0)
    ensures var st1 := QueueMessage(st, Encoded(msgs[0]), true).value;
            && EnqueueAll(st, msgs, failAt) == EnqueueAll(st1, msgs[1..], NextFailure(failAt))
            && List(st1, MESSAGES) == [Encoded(msgs[0])] + List(st, MESSAGES)
            && Pushed(|msgs|, failAt) == Pushed(|msgs[1..]|, NextFailure(failAt)) + 1
  {
  }

  /** The encodings of a prefix one longer than that of the rest. */
  lemma EncodingsCons(msgs: seq<Message>, n: nat)
    requires 0 <= n < |msgs|
    ensures Encodings(msgs[..n + 1]) == [Encoded(msgs[0])] + Encodings(msgs[1..][..n])
  {
    assert msgs[..n + 1] == [msgs[0]] + msgs[1..][..n];
  }

  lemma ReverseAppendFront<T>(x: T, s: seq<T>)
    ensures Reverse([x] + s) == Reverse(s) + [x]
  {
    assert ([x] + s)[1..] == s;
  }

  /** The read steps of an update, in order: the listing fetch, the subscriber read, then the status
      read and the filter that leave the new posts. */
  function ReadPhase(st: Store, topic: string, round: Round): (r: Result<Plan>)
    ensures r.Ok? ==> round.fetched == Ok(r.value.fetched)
    ensures r.Ok? ==> FetchSubscribers(st, topic, round.faults.subscribersUp) == Ok(r.value.subscribers)
    ensures r.Ok? ==> FilterNewSubmissions(st, r.value.fetched, round.clock.filterAt, round.faults.statusesUp)
                      == Ok(r.value.news)
    ensures round.fetched.Ok? && FetchSubscribers(st, topic, round.faults.subscribersUp).Ok?
            && FilterNewSubmissions(st, round.fetched.value, round.clock.filterAt, round.faults.statusesUp).Ok?
            ==> r.Ok?
  {
    match round.fetched
    case Err => Err
    case Ok(subs) =>
      match FetchSubscribers(st, topic, round.faults.subscribersUp)
      case Err => Err
      case Ok(subscribers) =>
        match FilterNewSubmissions(st, subs, round.clock.filterAt, round.faults.statusesUp)
        case Err => Err
        case Ok(news) => Ok(Plan(subs, subscribers, news))
  }

  /** `handle_update` of one subreddit. A failed read (fetch, subscribers, statuses) returns `Err`
      before anything is queued or marked. On success the counters are the number of fetched posts
      and of new posts. Subscriber and topic sets are never written. */
  function HandleUpdate(st: Store, topic: string, round: Round): (r: Step<WorkResult>)
    ensures r.store.sets == st.sets
    ensures ReadPhase(st, topic, round).Err? ==> r.result.Err? && r.store == st
    ensures r.result.Ok? ==> round.fetched.Ok? && r.result.value.results == |round.fetched.value|
    ensures r.result.Ok? ==> 0 <= r.result.value.news <= r.result.value.results
  {
    match ReadPhase(st, topic, round)
    case Err => Step(Err, st)
    case Ok(plan) =>
      FilterKeepsOnlyNew(Lookups(st, plan.fetched), plan.fetched, round.clock.filterAt);
      var msgs := Fanout(plan.subscribers, plan.news);
      var queued := EnqueueAll(st, msgs, round.faults.failingEnqueue);
      if queued.result.Err? then Step(Err, queued.store)
      else match UpdateSubmissions(queued.store, plan.news, round.clock.markAt, round.faults.markUp)
        case Err => Step(Err, queued.store)
        case Ok(marked) => Step(Ok(WorkResult(|plan.fetched|, |plan.news|)), marked)
  }

  /** After a successful read, the fan-out is pushed onto `main/messages` up to the first failing push
      (LPUSH, so the batch lies at the head in reverse and the sender, which takes the tail, meets it
      in queueing order). No other list changes. */
  lemma HandleUpdateQueues(st: Store, topic: string, round: Round)
    requires ReadPhase(st, topic, round).Ok?
    ensures var plan := ReadPhase(st, topic, round).value;
            var msgs := Fanout(plan.subscribers, plan.news);
            var r := HandleUpdate(st, topic, round);
            && List(r.store, MESSAGES)
               == Reverse(Encodings(msgs[..Pushed(|msgs|, round.faults.failingEnqueue)])) + List(st, MESSAGES)
            && (forall k | k != MESSAGES :: List(r.store, k) == List(st, k))
  {
    var plan := ReadPhase(st, topic, round).value;
    EnqueueAllQueues(st, Fanout(plan.subscribers, plan.news), round.faults.failingEnqueue);
  }

  /** Markers are written only after every push succeeded: a failed push, or a failed marker
      pipeline with posts to mark, returns `Err` with no marker written; otherwise the update
      succeeds and the markers are those of the new posts, tagged with the marking time. */
  lemma HandleUpdateMarksLast(st: Store, topic: string, round: Round)
    requires ReadPhase(st, topic, round).Ok?
    ensures var plan := ReadPhase(st, topic, round).value;
            var msgs := Fanout(plan.subscribers, plan.news);
            var n := Pushed(|msgs|, round.faults.failingEnqueue);
            var r := HandleUpdate(st, topic, round);
            && (n < |msgs| || (!round.faults.markUp && plan.news != []) ==>
                  r.result.Err? && r.store.strings == st.strings)
            && (n == |msgs| && (round.faults.markUp || plan.news == []) ==>
                  && r.result == Ok(WorkResult(|plan.fetched|, |plan.news|))
                  && r.store.strings == MarkAll(st, plan.news, round.clock.markAt).strings)
  {
    var plan := ReadPhase(st, topic, round).value;
    var msgs := Fanout(plan.subscribers, plan.news);
    var n := Pushed(|msgs|, round.faults.failingEnqueue);
    var queued := EnqueueAll(st, msgs, round.faults.failingEnqueue);
    EnqueueAllSucceeds(st, msgs, round.faults.failingEnqueue);
    var r := HandleUpdate(st, topic, round);
    assert queued.store.strings == st.strings;
    if n < |msgs| {
      assert r == Step(Err, queued.store);
    } else if plan.news == [] {
      assert r == Step(Ok(WorkResult(|plan.fetched|, 0)), queued.store);
    } else if !round.faults.markUp {
      assert r == Step(Err, queued.store);
    } else {
      assert r == Step(Ok(WorkResult(|plan.fetched|, |plan.news|)), MarkAll(queued.store, plan.news, round.clock.markAt));
      MarkAllStringsOnly(queued.store, st, plan.news, round.clock.markAt);
    }
  }

  /** The usual round: when the read succeeds and no post is new, nothing is queued, the empty marker
      pipeline succeeds whatever the store's state, and the update reports the fetched count and no
      news, leaving the store as it was. */
  lemma NothingNewSucceeds(st: Store, topic: string, round: Round)
    requires ReadPhase(st, topic, round).Ok? && ReadPhase(st, topic, round).value.news == []
    ensures HandleUpdate(st, topic, round) == Step(Ok(WorkResult(|round.fetched.value|, 0)), st)
  {
    var plan := ReadPhase(st, topic, round).value;
    assert |Fanout(plan.subscribers, plan.news)| == 0;
  }

  /** The markers written depend only on the string keys of the store. */
  lemma {:induction false} MarkAllStringsOnly(s1: Store, s2: Store, subs: seq<Submission>, now: int)
    requires s1.strings == s2.strings
    ensures MarkAll(s1, subs, now).strings == MarkAll(s2, subs, now).strings
    decreases |subs|
  {
    if subs != [] {
      MarkAllStringsOnly(SetEx(s1, Key(subs[0]), MARKER_TTL, Tag(subs[0], now)),
                         SetEx(s2, Key(subs[0]), MARKER_TTL, Tag(subs[0], now)), subs[1..], now);
    }
  }

  /** A key holding a marker keeps one through marking, and every marked post's key holds one. */
  lemma MarkAllKeeps(st: Store, news: seq<Submission>, now: int, k: string)
    requires k in st.strings || k in Keys(news)
    ensures k in MarkAll(st, news, now).strings
  {
    MarkAllFrame(st, news, now);
    MarkAllTtl(st, news, now);
    if k in Keys(news) {
      var j :| 0 <= j < |news| && Keys(news)[j] == k;
      assert news[j] in news;
    }
  }

  /** After a successful update every fetched post holds a marker, or was too old at the filter
      time: it was marked already, or the update found it new and marked it. */
  lemma MarkedOrOld(st: Store, topic: string, round: Round, k: nat)
    requires HandleUpdate(st, topic, round).result.Ok?
    requires k < |round.fetched.value|
    ensures var p := round.fetched.value[k];
            Key(p) in HandleUpdate(st, topic, round).store.strings || !Recent(p, round.clock.filterAt)
  {
    var plan := ReadPhase(st, topic, round).value;
    var subs := plan.fetched;
    var now := round.clock.filterAt;
    HandleUpdateMarksLast(st, topic, round);
    var key := Key(subs[k]);
    var before := Lookups(st, subs);
    if key in st.strings {
      MarkAllKeeps(st, plan.news, round.clock.markAt, key);
    } else if Recent(subs[k], now) {
      FilterSelects(before, subs, now);
      assert plan.news == Filter(before, subs, now);
      assert IsNew(before, subs, now, k);
      var idx := NewIndices(before, subs, now);
      var j :| 0 <= j < |idx| && idx[j] == k;
      assert Keys(plan.news)[j] == key;
      MarkAllKeeps(st, plan.news, round.clock.markAt, key);
    }
  }

  /** Dedup is idempotent: polling the same feed again after a successful update, at the same time or
      later, finds no new post and queues nothing. Every post was either marked already, marked by
      the first update, or too old at the first poll and so still too old. */
  lemma SecondPollFindsNothingNew(st: Store, topic: string, round: Round, again: Round)
    requires HandleUpdate(st, topic, round).result.Ok?
    requires again.fetched == round.fetched
    requires again.clock.filterAt >= round.clock.filterAt
    ensures var st1 := HandleUpdate(st, topic, round).store;
            var r := HandleUpdate(st1, topic, again);
            && (r.result.Ok? ==> r.result.value.news == 0)
            && List(r.store, MESSAGES) == List(st1, MESSAGES)
  {
    var subs := round.fetched.value;
    var st1 := HandleUpdate(st, topic, round).store;
    var after := Lookups(st1, subs);
    forall k | 0 <= k < |subs|
      ensures !IsNew(after, subs, again.clock.filterAt, k)
    {
      MarkedOrOld(st, topic, round, k);
    }
    if ReadPhase(st1, topic, again).Ok? {
      FilterNoneNew(after, subs, again.clock.filterAt, 0);
      NothingNewSucceeds(st1, topic, again);
    }
  }

  /** A fetched post created too long ago is never marked: its marker key is present after an update
      exactly when it was before, with the same value, whatever the update's outcome. This holds as
      long as no recent post of the same fetch shares its id. */
  lemma TooOldNeverMarked(st: Store, topic: string, round: Round, k: nat)
    requires round.fetched.Ok? && k < |round.fetched.value|
    requires !Recent(round.fetched.value[k], round.clock.filterAt)
    requires forall j | 0 <= j < |round.fetched.value| && Recent(round.fetched.value[j], round.clock.filterAt) ::
               round.fetched.value[j].id != round.fetched.value[k].id
    ensures var key := Key(round.fetched.value[k]);
            var st' := HandleUpdate(st, topic, round).store;
            && (key in st'.strings <==> key in st.strings)
            && (key in st.strings ==> st'.strings[key] == st.strings[key])
  {
    if ReadPhase(st, topic, round).Ok? {
      var plan := ReadPhase(st, topic, round).value;
      HandleUpdateMarksLast(st, topic, round);
      assert plan.news == Filter(Lookups(st, plan.fetched), plan.fetched, round.clock.filterAt);
      FilterSkipsTooOld(Lookups(st, plan.fetched), plan.fetched, round.clock.filterAt, k);
      MarkAllFrame(st, plan.news, round.clock.markAt);
    }
  }

  /** Every message of the fan-out goes to one of the subscribers and carries the link of one of
      the new posts. */
  lemma {:induction false} FanoutMembers(subscribers: seq<Decimal.I64>, news: seq<Submission>, m: Message)
    requires m in Fanout(subscribers, news)
    ensures m.target in subscribers
    ensures exists b | 0 <= b < |news| :: m.link == Url(news[b])
    decreases |subscribers|
  {
    var row := Row(subscribers[0], news);
    if m in row {
      var b :| 0 <= b < |row| && row[b] == m;
    } else {
      FanoutMembers(subscribers[1..], news, m);
    }
  }

  /** Every notification a successful read phase plans names a fetched post that was recent at the
      filter time and had no marker: a post created at or before `now - RECENT_OFFSET`, or one
      already marked, is never notified. */
  lemma NotifiesOnlyNewPosts(st: Store, topic: string, round: Round, m: Message)
    requires ReadPhase(st, topic, round).Ok?
    requires m in Fanout(ReadPhase(st, topic, round).value.subscribers, ReadPhase(st, topic, round).value.news)
    ensures var plan := ReadPhase(st, topic, round).value;
            && m.target in plan.subscribers
            && exists p | p in plan.fetched ::
                 m.link == Url(p) && Recent(p, round.clock.filterAt) && Key(p) !in st.strings
  {
    var plan := ReadPhase(st, topic, round).value;
    FanoutMembers(plan.subscribers, plan.news, m);
    var b :| 0 <= b < |plan.news| && m.link == Url(plan.news[b]);
    assert plan.news[b] in plan.news;
  }

  /** An empty feed is reported as a failed update: MGET without keys is a Redis error. */
  lemma EmptyFeedFails(st: Store, topic: string, round: Round)
    requires round.fetched == Ok([])
    ensures HandleUpdate(st, topic, round).result.Err?
    ensures HandleUpdate(st, topic, round).store == st
  {
  }

  /** The log of one subreddit: its result on success, the unit error's debug text on failure. */
  function LogOf(topic: string, result: Result<WorkResult>): (log: WorkLog)
    ensures log.sub == topic
    ensures log.result.Some? != log.error.Some?
    ensures log.result.Some? <==> result.Ok?
    ensures result.Ok? ==> log.result.value == result.value
  {
    match result
    case Ok(w) => WorkLog(topic, Some(w), None)
    case Err => WorkLog(topic, None, Some(UNIT_DEBUG))
  }

  /** The logs of a pass over the topics and the store it left. */
  datatype Pass = Pass(logs: seq<WorkLog>, store: Store)

  /** One pass over the topics with a given update function, each update starting from the store
      the previous one left. */
  function PassWith(update: (Store, string) -> Step<WorkResult>, st: Store, topics: seq<string>): Pass
    decreases |topics|
  {
    if topics == [] then Pass([], st)
    else
      var step := update(st, topics[0]);
      var rest := PassWith(update, step.store, topics[1..]);
      Pass([LogOf(topics[0], step.result)] + rest.logs, rest.store)
  }

  /** The update of one topic, with that topic's inputs. */
  function UpdateWith(rounds: string -> Round): (Store, string) -> Step<WorkResult> {
    (s: Store, topic: string) => HandleUpdate(s, topic, rounds(topic))
  }

  /** One pass of the worker over the topics. */
  function CyclePass(st: Store, topics: seq<string>, rounds: string -> Round): Pass {
    PassWith(UpdateWith(rounds), st, topics)
  }

  /** The pass over `subs[i..]` from `cur` is one update of `subs[i]` followed by the pass over the
      rest; so a prefix of logs extends by that update's log. */
  lemma PassAdvance(update: (Store, string) -> Step<WorkResult>, st: Store, subs: seq<string>, i: nat,
                    logs: seq<WorkLog>, cur: Store)
    requires i < |subs|
    requires PassWith(update, st, subs).logs == logs + PassWith(update, cur, subs[i..]).logs
    requires PassWith(update, st, subs).store == PassWith(update, cur, subs[i..]).store
    ensures var step := update(cur, subs[i]);
            && PassWith(update, st, subs).logs
               == (logs + [LogOf(subs[i], step.result)]) + PassWith(update, step.store, subs[i + 1..]).logs
            && PassWith(update, st, subs).store == PassWith(update, step.store, subs[i + 1..]).store
  {
    var step := update(cur, subs[i]);
    var log := LogOf(subs[i], step.result);
    assert subs[i..][0] == subs[i] && subs[i..][1..] == subs[i + 1..];
    var tail := PassWith(update, step.store, subs[i + 1..]);
    assert PassWith(update, cur, subs[i..]).logs == [log] + tail.logs;
    assert logs + ([log] + tail.logs) == (logs + [log]) + tail.logs;
  }

  /** One iteration of the outer loop of `updater_worker_context`: read the topic set (a failure ends
      the worker with `Err`), then update every topic in turn. Each topic gets exactly one log with
      exactly one of result and error, and a failed update moves on to the next topic. */
  method UpdateCycle(st: Store, topicsUp: bool, rounds: string -> Round) returns (r: Result<seq<WorkLog>>, st': Store)
    ensures r.Err? <==> !topicsUp
    ensures r.Err? ==> st' == st
    ensures r.Ok? ==> |r.value| == |Members(st, TOPICS)|
    ensures r.Ok? ==> forall k | 0 <= k < |r.value| ::
      && r.value[k].sub == Members(st, TOPICS)[k]
      && r.value[k].result.Some? != r.value[k].error.Some?
    ensures r.Ok? ==> r.value == CyclePass(st, Members(st, TOPICS), rounds).logs
    ensures r.Ok? ==> st' == CyclePass(st, Members(st, TOPICS), rounds).store
    ensures st'.sets == st.sets
  {
    var topics := FetchAvailableSubs(st, topicsUp);
    if topics.Err? {
      return Err, st;
    }
    var subs := topics.value;
    var update := UpdateWith(rounds);
    var logs: seq<WorkLog> := [];
    var cur := st;
    var i := 0;
    assert subs[0..] == subs;
    assert logs + PassWith(update, cur, subs).logs == PassWith(update, cur, subs).logs;
    while i < |subs|
      invariant 0 <= i <= |subs|
      invariant |logs| == i
      invariant forall k | 0 <= k < i :: logs[k].sub == subs[k] && logs[k].result.Some? != logs[k].error.Some?
      invariant PassWith(update, st, subs).logs == logs + PassWith(update, cur, subs[i..]).logs
      invariant PassWith(update, st, subs).store == PassWith(update, cur, subs[i..]).store
      invariant cur.sets == st.sets
    {
      var step := update(cur, subs[i]);
      var log := LogOf(subs[i], step.result);
      PassAdvance(update, st, subs, i, logs, cur);
      logs := logs + [log];
      cur := step.store;
      i := i + 1;
    }
    assert subs[i..] == [];
    assert PassWith(update, cur, subs[i..]) == Pass([], cur);
    assert logs + [] == logs;
    return Ok(logs), cur;
  }
}
