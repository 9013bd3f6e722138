/** Submissions as fetched from a subreddit's `new.json` listing: the recency window, the keys and
    tags written to the seen-marker store, the link sent to subscribers, and the decoding of a
    listing. */
module Reddit {
  import opened Wrappers
  import Decimal
  import Text
  import Json

  /** The recency window: six hours, in seconds. */
  const RECENT_OFFSET: int := 6 * 60 * 60

  /** Time to live of a seen-marker: twice the recency window (43200 seconds). */
  const MARKER_TTL: int := 2 * RECENT_OFFSET

  const KEY_PREFIX: string := "posts/"
  const URL_ORIGIN: string := "https://www.reddit.com"

  /** One post. `createdUtc` is whole seconds since the epoch. */
  datatype Submission = Submission(
    id: string,
    subreddit: string,
    title: string,
    permalink: string,
    createdUtc: int)

  /** Store key of the post's seen-marker. */
  function Key(p: Submission): string {
    KEY_PREFIX + p.id
  }

  /** Value of the post's seen-marker: creation time, a colon, observation time. */
  function Tag(p: Submission, now: int): string {
    Decimal.IntToString(p.createdUtc) + ":" + Decimal.IntToString(now)
  }

  /** Link sent to subscribers. */
  function Url(p: Submission): string {
    URL_ORIGIN + p.permalink
  }

  function Keys(subs: seq<Submission>): (keys: seq<string>)
    ensures |keys| == |subs|
    ensures forall i | 0 <= i < |subs| :: keys[i] == Key(subs[i])
  {
    seq(|subs|, i requires 0 <= i < |subs| => Key(subs[i]))
  }

  function IdOfKey(k: string): Option<string> {
    Text.StripPrefix(k, KEY_PREFIX)
  }

  function PermalinkOfUrl(u: string): Option<string> {
    Text.StripPrefix(u, URL_ORIGIN)
  }

  /** Reads a tag back as (creation time, observation time). */
  function ParseTag(t: string): Option<(int, int)> {
    match Text.SplitOnce(t, ':')
    case None => None
    case Some(parts) =>
      match (Decimal.ParseInt(parts.0), Decimal.ParseInt(parts.1))
      case (Some(created), Some(now)) => Some((created, now))
      case _ => None
  }

  /** A key names exactly one post id. */
  lemma KeyRoundTrip(p: Submission)
    ensures IdOfKey(Key(p)) == Some(p.id)
  {
    Text.StripPrefixOfConcat(KEY_PREFIX, p.id);
  }

  /** Distinct ids give distinct keys, and equal ids the same key. */
  lemma KeyInjective(p: Submission, q: Submission)
    ensures Key(p) == Key(q) <==> p.id == q.id
  {
    KeyRoundTrip(p);
    KeyRoundTrip(q);
  }

  /** The link sent to subscribers carries the post's permalink after the site origin. */
  lemma UrlRoundTrip(p: Submission)
    ensures PermalinkOfUrl(Url(p)) == Some(p.permalink)
  {
    Text.StripPrefixOfConcat(URL_ORIGIN, p.permalink);
  }

  /** A tag records both timestamps and they can be read back. */
  lemma TagRoundTrip(p: Submission, now: int)
    ensures ParseTag(Tag(p, now)) == Some((p.createdUtc, now))
  {
    var created := Decimal.IntToString(p.createdUtc);
    var observed := Decimal.IntToString(now);
    assert forall k | 0 <= k < |created| :: created[k] != ':';
    Text.SplitOnceOfJoin(created, ':', observed);
    assert Tag(p, now) == created + [':'] + observed;
    Decimal.ParseRoundTrip(p.createdUtc);
    Decimal.ParseRoundTrip(now);
  }

  function StringField(fields: map<string, Json.Value>, name: string): Option<string> {
    if name in fields && fields[name].String? then Some(fields[name].s) else None
  }

  function NumberField(fields: map<string, Json.Value>, name: string): Option<int> {
    if name in fields && fields[name].Number? then Some(fields[name].n) else None
  }

  /** `serde_json::from_value::<Submission>`: an object with the five fields (other fields are
      ignored), or an array of exactly five values in declaration order, which serde's derived
      deserializer also accepts. Anything else is an error. */
  function DecodeSubmission(v: Json.Value): (r: Option<Submission>)
    ensures v.Null? || v.Bool? || v.Number? || v.String? ==> r.None?
  {
    match v
    case Object(f) =>
      (match (StringField(f, "id"), StringField(f, "subreddit"), StringField(f, "title"),
              StringField(f, "permalink"), NumberField(f, "created_utc"))
       case (Some(id), Some(sub), Some(title), Some(link), Some(created)) =>
         Some(Submission(id, sub, title, link, created))
       case _ => None)
    case Array(items) =>
      if |items| == 5 && items[0].String? && items[1].String? && items[2].String?
         && items[3].String? && items[4].Number?
      then Some(Submission(items[0].s, items[1].s, items[2].s, items[3].s, items[4].n))
      else None
    case _ => None
  }

  /** The object form of a post, as the listing carries it. */
  function EncodeSubmission(p: Submission): Json.Value {
    Json.Object(map[
      "id" := Json.String(p.id),
      "subreddit" := Json.String(p.subreddit),
      "title" := Json.String(p.title),
      "permalink" := Json.String(p.permalink),
      "created_utc" := Json.Number(p.createdUtc)])
  }

  lemma DecodeEncode(p: Submission)
    ensures DecodeSubmission(EncodeSubmission(p)) == Some(p)
  {
  }

  /** The submission inside one listing entry: its `data` member. */
  function EntrySubmission(entry: Json.Value): Option<Submission> {
    DecodeSubmission(Json.Get(entry, "data"))
  }

  /** Decodes the entries in order; the first one that does not decode panics. */
  function DecodeEntries(entries: seq<Json.Value>): (r: Run<seq<Submission>>)
    ensures r.Returns? <==> forall i | 0 <= i < |entries| :: EntrySubmission(entries[i]).Some?
    ensures r.Returns? ==> |r.value| == |entries|
    ensures r.Returns? ==> forall i | 0 <= i < |entries| :: EntrySubmission(entries[i]) == Some(r.value[i])
    decreases |entries|
  {
    if entries == [] then Returns([])
    else match EntrySubmission(entries[0])
      case None => Panics
      case Some(p) =>
        match DecodeEntries(entries[1..])
        case Panics => Panics
        case Returns(rest) => Returns([p] + rest)
  }

  /** `data.children` of a listing (`Null` when the path is missing). */
  function Children(listing: Json.Value): Json.Value {
    Json.Get(Json.Get(listing, "data"), "children")
  }

  /** `decode_submission_array`: one submission per element of `data.children`, in order. It panics
      (there is no error result) when `data.children` is not an array or an entry does not decode. */
  function DecodeSubmissionArray(listing: Json.Value): (r: Run<seq<Submission>>)
    ensures !Children(listing).Array? ==> r.Panics?
    ensures Children(listing).Array? ==> r == DecodeEntries(Children(listing).items)
  {
    var children := Children(listing);
    if !children.Array? then Panics else DecodeEntries(children.items)
  }

  /** A listing document holding the given posts, in order. */
  function Listing(subs: seq<Submission>): Json.Value {
    var entries := seq(|subs|, i requires 0 <= i < |subs| =>
      Json.Object(map["kind" := Json.String("t3"), "data" := EncodeSubmission(subs[i])]));
    Json.Object(map["data" := Json.Object(map["children" := Json.Array(entries)])])
  }

  /** Decoding a listing returns exactly the posts it was built from, in order. */
  lemma DecodeListing(subs: seq<Submission>)
    ensures DecodeSubmissionArray(Listing(subs)) == Returns(subs)
  {
    var entries := Children(Listing(subs)).items;
    forall i | 0 <= i < |entries|
      ensures EntrySubmission(entries[i]) == Some(subs[i])
    {
      DecodeEncode(subs[i]);
    }
    var r := DecodeEntries(entries);
    assert r.Returns?;
    assert r.value == subs;
  }
}
