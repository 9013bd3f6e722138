/** The Redis state the system reads and writes, and the Redis commands it issues, with their
    standard semantics. String keys (seen-markers), lists (the delivery queue) and sets (topics and
    subscribers) are kept in separate maps; the key names the system uses never collide across
    them. Time-to-live is recorded as data; expiry over time is not modelled. */
module Store {
  import opened Wrappers
  import opened Payloads
  import opened Seqs

  /** A string value written by SETEX, with its time to live in seconds. */
  datatype Marker = Marker(value: string, ttl: int)

  /** One reply element of MGET: nil for a missing key. */
  datatype Status = Nil | Data(value: string)

  /** A Redis set is a duplicate-free sequence; SMEMBERS lists it in insertion order. */
  datatype Store = Store(
    strings: map<string, Marker>,
    lists: map<string, seq<Payload>>,
    sets: map<string, seq<string>>)

  /** Redis deletes a list or set when it becomes empty, and a set holds each member once. */
  ghost predicate Valid(st: Store) {
    && (forall k | k in st.lists :: st.lists[k] != [])
    && (forall k | k in st.sets :: st.sets[k] != [] && NoDuplicates(st.sets[k]))
  }

  const Empty: Store := Store(map[], map[], map[])

  function List(st: Store, key: string): seq<Payload> {
    if key in st.lists then st.lists[key] else []
  }

  function Members(st: Store, key: string): seq<string> {
    if key in st.sets then st.sets[key] else []
  }

  /** GET: the marker value at `key`, nil when absent. */
  function Lookup(st: Store, key: string): Status {
    if key in st.strings then Data(st.strings[key].value) else Nil
  }

  function PutList(st: Store, key: string, l: seq<Payload>): (st': Store)
    ensures List(st', key) == l
    ensures forall k | k != key :: List(st', k) == List(st, k)
    ensures st'.strings == st.strings && st'.sets == st.sets
    ensures Valid(st) ==> Valid(st')
  {
    if l == [] then st.(lists := st.lists - {key}) else st.(lists := st.lists[key := l])
  }

  function PutMembers(st: Store, key: string, m: seq<string>): (st': Store)
    ensures Members(st', key) == m
    ensures forall k | k != key :: Members(st', k) == Members(st, k)
    ensures st'.strings == st.strings && st'.lists == st.lists
    ensures Valid(st) && NoDuplicates(m) ==> Valid(st')
  {
    if m == [] then st.(sets := st.sets - {key}) else st.(sets := st.sets[key := m])
  }

  /** LPUSH: the value becomes the new head of the list. */
  function LPush(st: Store, key: string, v: Payload): (st': Store)
    ensures List(st', key) == [v] + List(st, key)
    ensures forall k | k != key :: List(st', k) == List(st, k)
    ensures st'.strings == st.strings && st'.sets == st.sets
    ensures Valid(st) ==> Valid(st')
  {
    PutList(st, key, [v] + List(st, key))
  }

  /** RPOP: removes and returns the tail, nothing for an empty list. */
  function RPop(st: Store, key: string): (r: (Option<Payload>, Store))
    ensures List(st, key) == [] ==> r.0.None? && r.1 == st
    ensures List(st, key) != [] ==>
      && r.0 == Some(List(st, key)[|List(st, key)| - 1])
      && List(r.1, key) == List(st, key)[..|List(st, key)| - 1]
    ensures forall k | k != key :: List(r.1, k) == List(st, k)
    ensures r.1.strings == st.strings && r.1.sets == st.sets
    ensures Valid(st) ==> Valid(r.1)
  {
    var l := List(st, key);
    if l == [] then (None, st) else (Some(l[|l| - 1]), PutList(st, key, l[..|l| - 1]))
  }

  /** RPOPLPUSH (and BRPOPLPUSH once an element is available): atomically moves the tail of `source`
      to the head of `destination`. */
  function RPopLPush(st: Store, source: string, destination: string): (r: (Option<Payload>, Store))
    ensures List(st, source) == [] ==> r.0.None? && r.1 == st
    ensures r.1.strings == st.strings && r.1.sets == st.sets
    ensures Valid(st) ==> Valid(r.1)
  {
    match RPop(st, source)
    case (None, _) => (None, st)
    case (Some(v), st1) => (Some(v), LPush(st1, destination, v))
  }

  /** RPUSH: the value becomes the new tail of the list. */
  function RPush(st: Store, key: string, v: Payload): (st': Store)
    ensures List(st', key) == List(st, key) + [v]
    ensures forall k | k != key :: List(st', k) == List(st, k)
    ensures st'.strings == st.strings && st'.sets == st.sets
    ensures Valid(st) ==> Valid(st')
  {
    PutList(st, key, List(st, key) + [v])
  }

  /** LMOVE `source` `destination` RIGHT RIGHT: atomically moves the tail of `source` to the tail of
      `destination`. */
  function RPopRPush(st: Store, source: string, destination: string): (r: (Option<Payload>, Store))
    ensures List(st, source) == [] ==> r.0.None? && r.1 == st
    ensures r.1.strings == st.strings && r.1.sets == st.sets
    ensures Valid(st) ==> Valid(r.1)
  {
    match RPop(st, source)
    case (None, _) => (None, st)
    case (Some(v), st1) => (Some(v), RPush(st1, destination, v))
  }

  /** SADD: adds a member; adding a present member changes nothing. */
  function SAdd(st: Store, key: string, member: string): (st': Store)
    ensures Valid(st) ==> Valid(st')
    ensures member in Members(st', key)
    ensures forall m :: m in Members(st', key) <==> m in Members(st, key) || m == member
    ensures member in Members(st, key) ==> st' == st
    ensures forall k | k != key :: Members(st', k) == Members(st, k)
    ensures st'.strings == st.strings && st'.lists == st.lists
  {
    var m := Members(st, key);
    if member in m then st
    else
      assert Valid(st) ==> NoDuplicates(m + [member]) by {
        if Valid(st) { AppendNoDuplicates(m, member); }
      }
      PutMembers(st, key, m + [member])
  }

  /** SREM: removes a member; removing an absent member changes nothing. */
  function SRem(st: Store, key: string, member: string): (st': Store)
    ensures Valid(st) ==> Valid(st')
    ensures member !in Members(st', key)
    ensures forall m :: m in Members(st', key) <==> m in Members(st, key) && m != member
    ensures member !in Members(st, key) ==> st' == st
    ensures forall k | k != key :: Members(st', k) == Members(st, k)
    ensures st'.strings == st.strings && st'.lists == st.lists
  {
    var m := Members(st, key);
    if member !in m then st
    else
      assert Valid(st) ==> NoDuplicates(Without(m, member)) by {
        if Valid(st) { WithoutNoDuplicates(m, member); }
      }
      PutMembers(st, key, Without(m, member))
  }

  /** SETEX: writes a string value with a time to live, replacing any previous value. */
  function SetEx(st: Store, key: string, ttl: int, value: string): (st': Store)
    ensures st'.strings == st.strings[key := Marker(value, ttl)]
    ensures st'.lists == st.lists && st'.sets == st.sets
  {
    st.(strings := st.strings[key := Marker(value, ttl)])
  }

  /** MGET: one status per key, in the order the keys were given. Redis refuses MGET without keys
      ("wrong number of arguments"), so an empty key list is an error. */
  function MGet(st: Store, keys: seq<string>): (r: Result<seq<Status>>)
    ensures r.Err? <==> keys == []
    ensures r.Ok? ==> |r.value| == |keys|
    ensures r.Ok? ==> forall i | 0 <= i < |keys| ::
      (r.value[i].Nil? <==> keys[i] !in st.strings)
      && (r.value[i].Data? ==> r.value[i].value == st.strings[keys[i]].value)
  {
    if keys == [] then Err else Ok(seq(|keys|, i requires 0 <= i < |keys| => Lookup(st, keys[i])))
  }

  /** SADD then SREM of a member that was absent restores the store. */
  lemma AddThenRemove(st: Store, key: string, member: string)
    requires Valid(st)
    requires member !in Members(st, key)
    ensures SRem(SAdd(st, key, member), key, member) == st
  {
    var m := Members(st, key);
    WithoutAppended(m, member);
    AppendNoDuplicates(m, member);
    var st1 := PutMembers(st, key, m + [member]);
    assert SAdd(st, key, member) == st1;
    assert member in Members(st1, key);
    var st2 := SRem(st1, key, member);
    assert st2 == PutMembers(st1, key, m);
    if m == [] {
      assert st2.sets == st.sets[key := [member]] - {key};
      assert st2.sets == st.sets;
    } else {
      assert st2.sets == st.sets[key := m + [member]][key := m];
      assert st2.sets == st.sets;
    }
  }
}
