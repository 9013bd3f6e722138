/** The update worker of the older `src` revision. The steps run in a different order from the
    `rworker` revision: statuses are read, the new posts are marked at once, and only then are the
    subscribers read and the batch handed to the in-process channel. The response is an input
    (`None` when the request or its JSON parsing failed); decoding it may panic. */
module LegacyWorker {
  import opened Wrappers
  import opened Store
  import opened Reddit
  import opened Database
  import opened Dedup
  import Json
  import Decimal
  import Worker

  /** What one subscriber is sent over the channel: its id and the links of all new posts. */
  datatype Batch = Batch(subscriber: Decimal.I64, links: seq<string>)

  /** How an update ended: normally, with a logged error, or with a panic. */
  datatype Outcome = Completed | Failed | Panicked

  /** Which calls of one update fail: the status read, the marker pipeline, the subscriber read, and
      the channel send at a given subscriber position (`try_send` on a full or closed channel). */
  datatype Faults = Faults(statusesUp: bool, markUp: bool, subscribersUp: bool, failingSend: Option<nat>)

  /** The links of the new posts, in order: the batch every subscriber receives. */
  function Links(news: seq<Submission>): (links: seq<string>)
    ensures |links| == |news|
    ensures forall i | 0 <= i < |news| :: links[i] == Url(news[i])
  {
    seq(|news|, i requires 0 <= i < |news| => Url(news[i]))
  }

  /** `dispatch_news`: one `try_send` of (subscriber, batch) per subscriber, in order, even when the
      batch is empty; a rejected send panics, after the earlier sends went through. */
  method DispatchNews(news: seq<Submission>, subscribers: seq<Decimal.I64>, failAt: Option<nat>)
    returns (sent: seq<Batch>, completed: bool)
    ensures completed <==> (failAt.None? || failAt.value >= |subscribers|)
    ensures completed ==> |sent| == |subscribers|
    ensures !completed ==> |sent| == failAt.value
    ensures forall k | 0 <= k < |sent| :: sent[k] == Batch(subscribers[k], Links(news))
  {
    var batch := Links(news);
    sent := [];
    var k := 0;
    while k < |subscribers|
      invariant 0 <= k <= |subscribers|
      invariant failAt.Some? ==> k <= failAt.value
      invariant |sent| == k
      invariant forall j | 0 <= j < k :: sent[j] == Batch(subscribers[j], batch)
    {
      if failAt == Some(k) {
        return sent, false;
      }
      sent := sent + [Batch(subscribers[k], batch)];
      k := k + 1;
    }
    return sent, true;
  }

  /** `update_new_submissions`: the marker pipeline; it hands the posts on unchanged. With no new post
      the pipeline is empty and succeeds without a store call. */
  function UpdateNewSubmissions(st: Store, news: seq<Submission>, now: int, up: bool): (r: Result<(Store, seq<Submission>)>)
    ensures r.Ok? <==> up || news == []
    ensures news == [] ==> r == Ok((st, []))
    ensures r.Ok? ==> r.value.1 == news
    ensures r.Ok? ==> r.value.0.lists == st.lists && r.value.0.sets == st.sets
  {
    match UpdateSubmissions(st, news, now, up)
    case Err => Err
    case Ok(st') => Ok((st', news))
  }

  /** `process_submissions`: MGET of one key per post in post order, the seen-marker filter, then the
      markers of the posts found new. */
  function ProcessSubmissions(st: Store, subs: seq<Submission>, clock: Worker.Clock, faults: Faults)
    : (r: Result<(Store, seq<Submission>)>)
    ensures r.Ok? <==> faults.statusesUp && subs != []
                       && (faults.markUp || Filter(Worker.Lookups(st, subs), subs, clock.filterAt) == [])
    ensures r.Ok? ==> r.value.1 == Filter(Worker.Lookups(st, subs), subs, clock.filterAt)
    ensures r.Ok? ==> r.value.0 == MarkAll(st, r.value.1, clock.markAt)
  {
    match FetchSubmissionsStatus(st, Keys(subs), faults.statusesUp)
    case Err => Err
    case Ok(values) =>
      assert values == Worker.Lookups(st, subs);
      UpdateNewSubmissions(st, Filter(values, subs, clock.filterAt), clock.markAt, faults.markUp)
  }

  /** A post created too long ago is never marked by `process_submissions`: its marker key is present
      afterwards exactly when it was before, with the same value, as long as no recent post of the
      batch shares its id. */
  lemma TooOldNeverMarked(st: Store, subs: seq<Submission>, clock: Worker.Clock, faults: Faults, k: nat)
    requires k < |subs| && !Recent(subs[k], clock.filterAt)
    requires forall j | 0 <= j < |subs| && Recent(subs[j], clock.filterAt) :: subs[j].id != subs[k].id
    ensures var r := ProcessSubmissions(st, subs, clock, faults);
            r.Ok? ==> && (Key(subs[k]) in r.value.0.strings <==> Key(subs[k]) in st.strings)
                      && (Key(subs[k]) in st.strings ==> r.value.0.strings[Key(subs[k])] == st.strings[Key(subs[k])])
  {
    var news := Filter(Worker.Lookups(st, subs), subs, clock.filterAt);
    FilterSkipsTooOld(Worker.Lookups(st, subs), subs, clock.filterAt, k);
    MarkAllFrame(st, news, clock.markAt);
  }

  /** `handle_update` of the `src` revision. A failed request changes nothing; a listing that does not
      decode panics before any store call. Otherwise the new posts are marked before the
      subscribers are read, so a failed subscriber read leaves them marked but never delivered.
      When the subscribers are read, each receives the same batch, the links of all new posts in
      order, and a rejected send panics after the earlier sends. */
  method HandleUpdate(st: Store, topic: string, response: Option<Json.Value>, faults: Faults, clock: Worker.Clock)
    returns (outcome: Outcome, st': Store, sent: seq<Batch>)
    ensures response.None? ==> outcome == Failed && st' == st && sent == []
    ensures response.Some? && DecodeSubmissionArray(response.value).Panics? ==>
      outcome == Panicked && st' == st && sent == []
    ensures response.Some? && DecodeSubmissionArray(response.value).Returns? ==>
      var processed := ProcessSubmissions(st, DecodeSubmissionArray(response.value).value, clock, faults);
      && (processed.Err? ==> outcome == Failed && st' == st && sent == [])
      && (processed.Ok? ==>
            var news := processed.value.1;
            var subscribers := FetchSubscribers(processed.value.0, topic, faults.subscribersUp);
            && st' == processed.value.0
            && (subscribers.Err? ==> outcome == Failed && sent == [])
            && (subscribers.Ok? ==>
                  && |sent| <= |subscribers.value|
                  && (forall k | 0 <= k < |sent| :: sent[k] == Batch(subscribers.value[k], Links(news)))
                  && (outcome == Completed <==> |sent| == |subscribers.value|)
                  && (outcome != Completed ==> outcome == Panicked)))
  {
    if response.None? {
      return Failed, st, [];
    }
    var decoded := DecodeSubmissionArray(response.value);
    if decoded.Panics? {
      return Panicked, st, [];
    }
    var processed := ProcessSubmissions(st, decoded.value, clock, faults);
    if processed.Err? {
      return Failed, st, [];
    }
    var marked := processed.value.0;
    var news := processed.value.1;
    var subscribers := FetchSubscribers(marked, topic, faults.subscribersUp);
    if subscribers.Err? {
      return Failed, marked, [];
    }
    var completed;
    sent, completed := DispatchNews(news, subscribers.value, faults.failingSend);
    outcome := if completed then Completed else Panicked;
    st' := marked;
  }
}
