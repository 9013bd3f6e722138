/** The command multiplexer of the older bot (`src/commands.rs`): a vector of command streams polled
    in order, where the first stream with an item wins, finished streams are dropped, and an erroring
    stream is dropped with its error returned. What each stream answers when polled is an input. */
module Commands {

  /** The answer to one poll: an item, the end of the stream, nothing yet, or an error. */
  datatype Answer<+T> = Item(item: T) | End | NotReady | Failed(error: string)

  predicate Decisive<T>(a: Answer<T>) {
    a.Item? || a.Failed?
  }

  /** The streams, in order, that answered NotReady. */
  function Waiting<S, T>(streams: seq<S>, answer: S -> Answer<T>): (r: seq<S>)
    ensures |r| <= |streams|
  {
    if streams == [] then []
    else if answer(streams[0]).NotReady? then [streams[0]] + Waiting(streams[1..], answer)
    else Waiting(streams[1..], answer)
  }

  /** The waiting streams are exactly the streams that answered NotReady. */
  lemma {:induction false} WaitingMembers<S, T>(streams: seq<S>, answer: S -> Answer<T>, x: S)
    ensures x in Waiting(streams, answer) <==> x in streams && answer(x).NotReady?
    decreases |streams|
  {
    if streams != [] {
      WaitingMembers(streams[1..], answer, x);
      assert streams == [streams[0]] + streams[1..];
    }
  }

  /** The position of the first stream with an item or an error; |streams| when there is none. */
  function FirstDecisive<S, T>(streams: seq<S>, answer: S -> Answer<T>): (k: nat)
    ensures k <= |streams|
    ensures forall j | 0 <= j < k :: !Decisive(answer(streams[j]))
    ensures k < |streams| ==> Decisive(answer(streams[k]))
  {
    if streams == [] then 0
    else if Decisive(answer(streams[0])) then 0
    else 1 + FirstDecisive(streams[1..], answer)
  }

  /** Reference definition of one poll of the multiplexer, one stream at a time: the answer and the
      streams kept for the next poll. */
  function PollSpec<S, T>(streams: seq<S>, answer: S -> Answer<T>): (Answer<T>, seq<S>)
  {
    if streams == [] then (NotReady, [])
    else
      match answer(streams[0])
      case Item(x) => (Item(x), streams)
      case Failed(e) => (Failed(e), streams[1..])
      case End => PollSpec(streams[1..], answer)
      case NotReady =>
        var (out, rest) := PollSpec(streams[1..], answer);
        (out, [streams[0]] + rest)
  }

  /** With no stream holding an item or an error, a poll answers NotReady and keeps exactly the
      waiting streams, in order. */
  lemma {:induction false} PollUndecided<S, T>(streams: seq<S>, answer: S -> Answer<T>)
    requires forall j | 0 <= j < |streams| :: !Decisive(answer(streams[j]))
    ensures PollSpec(streams, answer) == (NotReady, Waiting(streams, answer))
    decreases |streams|
  {
    if streams != [] {
      assert forall j | 0 <= j < |streams| - 1 :: streams[1..][j] == streams[j + 1];
      PollUndecided(streams[1..], answer);
    }
  }

  /** The streams a non-decisive head contributes to what is kept: itself when it waits. */
  function HeadKept<S, T>(streams: seq<S>, answer: S -> Answer<T>): seq<S>
    requires streams != []
  {
    if answer(streams[0]).NotReady? then [streams[0]] else []
  }

  /** A poll steps over a head stream without an item or an error, keeping it when it waits. */
  lemma PollStep<S, T>(streams: seq<S>, answer: S -> Answer<T>)
    requires streams != [] && !Decisive(answer(streams[0]))
    ensures PollSpec(streams, answer).0 == PollSpec(streams[1..], answer).0
    ensures PollSpec(streams, answer).1 == HeadKept(streams, answer) + PollSpec(streams[1..], answer).1
  {
  }

  /** The waiting streams of a non-empty vector: its head when it waits, then those of the rest. */
  lemma WaitingStep<S, T>(streams: seq<S>, answer: S -> Answer<T>)
    requires streams != []
    ensures Waiting(streams, answer) == HeadKept(streams, answer) + Waiting(streams[1..], answer)
  {
  }

  /** How the slices of a vector relate to those of its tail. */
  lemma DropFirst<S>(streams: seq<S>, k: nat)
    requires 0 < k < |streams|
    ensures forall j | 0 <= j < k - 1 :: streams[1..][j] == streams[j + 1]
    ensures streams[1..][k - 1] == streams[k]
    ensures streams[1..][k - 1..] == streams[k..] && streams[1..][k..] == streams[k + 1..]
    ensures streams[..k][0] == streams[0] && streams[..k][1..] == streams[1..][..k - 1]
  {
  }

  /** The streams after position `k` that a poll decided at `k` keeps: stream `k` itself when it
      has an item, not when it erred. */
  function After<S, T>(streams: seq<S>, answer: S -> Answer<T>, k: nat): seq<S>
    requires k < |streams|
  {
    if answer(streams[k]).Item? then streams[k..] else streams[k + 1..]
  }

  /** What a poll decided at `k` keeps, split into the head's share and the tail's. */
  lemma KeptStep<S, T>(streams: seq<S>, answer: S -> Answer<T>, k: nat)
    requires 0 < k < |streams|
    ensures Waiting(streams[..k], answer) + After(streams, answer, k)
            == HeadKept(streams, answer) + (Waiting(streams[1..][..k - 1], answer) + After(streams[1..], answer, k - 1))
  {
    DropFirst(streams, k);
    WaitingStep(streams[..k], answer);
  }

  /** When stream `k` is the first with an item or an error, a poll answers what it answered, drops
      the finished streams before it, and drops stream `k` too when it erred. */
  lemma {:induction false} PollDecidedAt<S, T>(streams: seq<S>, answer: S -> Answer<T>, k: nat)
    requires k < |streams| && Decisive(answer(streams[k]))
    requires forall j | 0 <= j < k :: !Decisive(answer(streams[j]))
    ensures PollSpec(streams, answer).0 == answer(streams[k])
    ensures PollSpec(streams, answer).1 == Waiting(streams[..k], answer) + After(streams, answer, k)
    decreases k
  {
    if k == 0 {
      assert streams[..0] == [];
    } else {
      DropFirst(streams, k);
      PollDecidedAt(streams[1..], answer, k - 1);
      PollStep(streams, answer);
      KeptStep(streams, answer, k);
    }
  }

  /** What one poll returns, stated through the first stream with an item or an error: that stream's
      answer, with the finished streams before it dropped (and the erroring stream dropped too);
      with no such stream, NotReady and only the waiting streams kept, in order. A poll never
      answers End. */
  lemma PollSpecCharacterised<S, T>(streams: seq<S>, answer: S -> Answer<T>)
    ensures !PollSpec(streams, answer).0.End?
    ensures FirstDecisive(streams, answer) == |streams| ==>
              PollSpec(streams, answer).0 == NotReady && PollSpec(streams, answer).1 == Waiting(streams, answer)
    ensures var k := FirstDecisive(streams, answer);
            k < |streams| ==> PollSpec(streams, answer).0 == answer(streams[k])
    ensures var k := FirstDecisive(streams, answer);
            k < |streams| && answer(streams[k]).Item? ==>
              PollSpec(streams, answer).1 == Waiting(streams[..k], answer) + streams[k..]
    ensures var k := FirstDecisive(streams, answer);
            k < |streams| && answer(streams[k]).Failed? ==>
              PollSpec(streams, answer).1 == Waiting(streams[..k], answer) + streams[k + 1..]
  {
    var k := FirstDecisive(streams, answer);
    if k == |streams| {
      PollUndecided(streams, answer);
    } else {
      assert Decisive(answer(streams[k]));
      PollDecidedAt(streams, answer, k);
    }
  }

  /** `BotCommands::poll`: walks the vector with an index, returning the first item, removing a
      finished stream and polling the one that slides into its place, removing an erroring stream
      and returning its error, and stepping over a stream that is not ready. Each pass either
      advances the index or shortens the vector, so the loop ends. */
  method Poll<S, T>(streams: seq<S>, answer: S -> Answer<T>) returns (out: Answer<T>, remaining: seq<S>)
    ensures out == PollSpec(streams, answer).0 && remaining == PollSpec(streams, answer).1
    ensures out.NotReady? ==> |remaining| <= |streams|
  {
    var v := streams;
    var index := 0;
    assert v[..0] == [] && v[0..] == v;
    while index < |v|
      invariant 0 <= index <= |v| <= |streams|
      invariant PollSpec(streams, answer).0 == PollSpec(v[index..], answer).0
      invariant PollSpec(streams, answer).1 == v[..index] + PollSpec(v[index..], answer).1
      decreases |v| - index
    {
      PollAt(v, answer, index);
      match answer(v[index]) {
        case Item(x) =>
          return Item(x), v;
        case Failed(e) =>
          return Failed(e), v[..index] + v[index + 1..];
        case End =>
          v := v[..index] + v[index + 1..];
        case NotReady =>
          index := index + 1;
      }
    }
    assert v[..index] == v && v[index..] == [];
    assert PollSpec(v[index..], answer) == (NotReady, []);
    return NotReady, v;
  }

  /** What the reference poll of the vector from `index` on does with the stream at `index`, and how
      the vector looks once that stream is removed or stepped over. */
  lemma PollAt<S, T>(v: seq<S>, answer: S -> Answer<T>, index: nat)
    requires index < |v|
    ensures answer(v[index]).Item? ==>
              PollSpec(v[index..], answer) == (answer(v[index]), v[index..]) && v[..index] + v[index..] == v
    ensures answer(v[index]).Failed? ==> PollSpec(v[index..], answer) == (answer(v[index]), v[index + 1..])
    ensures answer(v[index]).End? ==>
              && PollSpec(v[index..], answer) == PollSpec(v[index + 1..], answer)
              && (v[..index] + v[index + 1..])[..index] == v[..index]
              && (v[..index] + v[index + 1..])[index..] == v[index + 1..]
    ensures answer(v[index]).NotReady? ==>
              && PollSpec(v[index..], answer).0 == PollSpec(v[index + 1..], answer).0
              && PollSpec(v[index..], answer).1 == [v[index]] + PollSpec(v[index + 1..], answer).1
              && v[..index + 1] == v[..index] + [v[index]]
  {
    assert v[index..][0] == v[index] && v[index..][1..] == v[index + 1..];
  }

  /** `add_command`: a new stream goes to the end of the vector. */
  function AddCommand<S>(streams: seq<S>, s: S): (r: seq<S>)
    ensures |r| == |streams| + 1 && r[..|streams|] == streams && r[|streams|] == s
  {
    streams + [s]
  }

  /** Appending a stream changes nothing about a poll that an earlier stream decides, and a poll
      that no earlier stream decides is decided by the new stream alone. */
  lemma {:induction false} AddCommandPoll<S, T>(streams: seq<S>, s: S, answer: S -> Answer<T>)
    ensures var (out, rest) := PollSpec(streams, answer);
            var (out', rest') := PollSpec(AddCommand(streams, s), answer);
            && (Decisive(out) ==> out' == out && rest' == rest + [s])
            && (!Decisive(out) ==> out' == PollSpec([s], answer).0 && rest' == rest + PollSpec([s], answer).1)
    decreases |streams|
  {
    if streams != [] {
      assert AddCommand(streams, s)[1..] == AddCommand(streams[1..], s);
      AddCommandPoll(streams[1..], s, answer);
    } else {
      assert AddCommand(streams, s) == [s];
      assert PollSpec(streams, answer) == (NotReady, []);
      assert [] + PollSpec([s], answer).1 == PollSpec([s], answer).1;
    }
  }

  /** `DatabaseCommand::poll`: an item of the wrapped stream is paired with the shared connection;
      every other answer passes through. */
  function Attach<H, M, C>(a: Answer<(H, M)>, conn: C): (r: Answer<(H, M, C)>)
    ensures r.Item? <==> a.Item?
    ensures r.Item? ==> r.item.0 == a.item.0 && r.item.1 == a.item.1 && r.item.2 == conn
    ensures r.End? <==> a.End?
    ensures r.NotReady? <==> a.NotReady?
    ensures r.Failed? <==> a.Failed?
    ensures r.Failed? ==> r.error == a.error
  {
    match a
    case Item((h, m)) => Item((h, m, conn))
    case End => End
    case NotReady => NotReady
    case Failed(e) => Failed(e)
  }

  /** Drops the connection again. */
  function Detach<H, M, C>(a: Answer<(H, M, C)>): Answer<(H, M)> {
    match a
    case Item((h, m, _)) => Item((h, m))
    case End => End
    case NotReady => NotReady
    case Failed(e) => Failed(e)
  }

  /** The wrapper adds the connection and loses nothing of the wrapped stream's answer. */
  lemma AttachDetach<H, M, C>(a: Answer<(H, M)>, conn: C)
    ensures Detach(Attach(a, conn)) == a
  {
  }
}
