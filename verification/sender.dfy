/** The delivery sender of the bot (`rbot`): a loop that claims the oldest queued notification into
    an in-flight list, sends it, and then acknowledges it (success) or puts it back for retry
    (failure). The pending list is `main/messages`; the in-flight list is `workers/1`. LPUSH and the
    push side of the move commands insert at the head; RPOP and the pop side take the tail. The
    send result and the store's transport failures are inputs of each iteration. */
module Sender {
  import opened Wrappers
  import opened Payloads
  import opened Store
  import Database

  const PENDING: string := Database.MESSAGES
  const IN_FLIGHT: string := "workers/1"

  /** The inputs of one iteration: whether the claim reached the store, whether the chat send
      succeeded, and whether the follow-up store call (acknowledge or requeue) succeeded. */
  datatype Tick = Tick(claimUp: bool, sendOk: bool, settleUp: bool)

  /** What one iteration did: nothing (timeout or store error), a successful or failed send to
      `target` of the text `link`, or a panic that stops the loop. */
  datatype Event = Idle | Sent(msg: Message) | SendFailed(msg: Message) | Crashed

  /** What one iteration did and the store it left. */
  datatype Outcome = Outcome(event: Event, store: Store)

  /** The events of a run of the loop and the store it left. */
  datatype Trace = Trace(events: seq<Event>, store: Store)

  function Pending(st: Store): seq<Payload> {
    List(st, PENDING)
  }

  function InFlight(st: Store): seq<Payload> {
    List(st, IN_FLIGHT)
  }

  /** The two queue lists together, as a multiset of entries. */
  function Queued(st: Store): multiset<Payload> {
    multiset(Pending(st)) + multiset(InFlight(st))
  }

  /** Splitting off the last entry of a non-empty list. */
  lemma LastSplit(s: seq<Payload>)
    ensures s != [] ==> multiset(s) == multiset(s[..|s| - 1]) + multiset{s[|s| - 1]}
  {
    if s != [] {
      assert s == s[..|s| - 1] + [s[|s| - 1]];
    }
  }

  /** BRPOPLPUSH `main/messages` `workers/1`: moves the tail (oldest) pending entry to the head of
      the in-flight list in one step; an empty pending list times out and changes nothing. */
  function Claim(st: Store): (r: (Option<Payload>, Store))
    ensures Pending(st) == [] ==> r.0.None? && r.1 == st
    ensures Pending(st) != [] ==>
      && r.0 == Some(Pending(st)[|Pending(st)| - 1])
      && Pending(r.1) == Pending(st)[..|Pending(st)| - 1]
      && InFlight(r.1) == [r.0.value] + InFlight(st)
    ensures Queued(r.1) == Queued(st)
    ensures forall k | k != PENDING && k != IN_FLIGHT :: List(r.1, k) == List(st, k)
    ensures r.1.strings == st.strings && r.1.sets == st.sets
  {
    var p := Pending(st);
    LastSplit(p);
    RPopLPush(st, PENDING, IN_FLIGHT)
  }

  /** RPOP `workers/1` after a successful send: removes the tail of the in-flight list. */
  function Ack(st: Store): (st': Store)
    ensures InFlight(st) != [] ==>
      && InFlight(st') == InFlight(st)[..|InFlight(st)| - 1]
      && Queued(st') + multiset{InFlight(st)[|InFlight(st)| - 1]} == Queued(st)
    ensures Pending(st') == Pending(st)
    ensures forall k | k != PENDING && k != IN_FLIGHT :: List(st', k) == List(st, k)
    ensures st'.strings == st.strings && st'.sets == st.sets
  {
    var f := InFlight(st);
    LastSplit(f);
    RPop(st, IN_FLIGHT).1
  }

  /** RPOPLPUSH `workers/1` `main/messages` after a failed send: moves the tail of the in-flight list
      to the head of the pending list, behind every entry already pending. */
  function Requeue(st: Store): (st': Store)
    ensures InFlight(st) != [] ==>
      && InFlight(st') == InFlight(st)[..|InFlight(st)| - 1]
      && Pending(st') == [InFlight(st)[|InFlight(st)| - 1]] + Pending(st)
    ensures Queued(st') == Queued(st)
    ensures forall k | k != PENDING && k != IN_FLIGHT :: List(st', k) == List(st, k)
    ensures st'.strings == st.strings && st'.sets == st.sets
  {
    var f := InFlight(st);
    LastSplit(f);
    RPopLPush(st, IN_FLIGHT, PENDING).1
  }

  /** One iteration of the sender loop. A claim that fails or times out does nothing. A claimed entry
      that does not decode panics (`unwrap`), leaving it in `workers/1`. The decoded message is sent
      to `target` with `link` as text; on success the in-flight tail is popped, on failure it is moved
      back to pending. A failed acknowledge or requeue panics (`expect`). */
  function Iterate(st: Store, tick: Tick): Outcome {
    IterateWith(Claim, st, tick)
  }

  /** The iteration with the claim as a parameter, so that a corrected claim reuses the rest. */
  function IterateWith(claim: Store -> (Option<Payload>, Store), st: Store, tick: Tick): Outcome {
    if !tick.claimUp then Outcome(Idle, st)
    else
      match claim(st)
      case (None, _) => Outcome(Idle, st)
      case (Some(payload), claimed) =>
        match Decode(payload)
        case None => Outcome(Crashed, claimed)
        case Some(m) =>
          if !tick.settleUp then Outcome(Crashed, claimed)
          else if tick.sendOk then Outcome(Sent(m), Ack(claimed))
          else Outcome(SendFailed(m), Requeue(claimed))
  }

  /** An iteration changes only the two queue lists; a timeout or failed claim changes nothing; an
      entry that does not decode panics after the claim and stays in `workers/1`. */
  lemma IterateFrame(st: Store, tick: Tick)
    ensures forall k | k != PENDING && k != IN_FLIGHT :: List(Iterate(st, tick).store, k) == List(st, k)
    ensures Iterate(st, tick).store.strings == st.strings && Iterate(st, tick).store.sets == st.sets
    ensures !tick.claimUp || Pending(st) == [] ==> Iterate(st, tick) == Outcome(Idle, st)
    ensures tick.claimUp && Pending(st) != [] && Pending(st)[|Pending(st)| - 1].Garbled? ==>
              && Iterate(st, tick).event == Crashed
              && Pending(Iterate(st, tick).store) == Pending(st)[..|Pending(st)| - 1]
              && InFlight(Iterate(st, tick).store) == [Pending(st)[|Pending(st)| - 1]] + InFlight(st)
  {
  }

  /** Claim and failed send keep every entry; a successful send removes exactly one entry. */
  lemma IterateConserves(st: Store, tick: Tick)
    ensures !Iterate(st, tick).event.Sent? ==> Queued(Iterate(st, tick).store) == Queued(st)
    ensures Iterate(st, tick).event.Sent? ==> |Queued(Iterate(st, tick).store)| + 1 == |Queued(st)|
  {
    if Iterate(st, tick).event.Sent? {
      var claimed := Claim(st).1;
      assert InFlight(claimed) != [];
      assert Iterate(st, tick).store == Ack(claimed);
    }
  }

  /** With nothing in flight beforehand, an iteration that does not panic ends with nothing in
      flight, so no entry is ever in both lists; the entry acknowledged or requeued is the one whose
      send was attempted; a failed send puts it at the head of pending, after every entry already
      pending; and a successful send removes exactly that entry. */
  lemma IterateFromEmpty(st: Store, tick: Tick)
    requires InFlight(st) == []
    ensures var o := Iterate(st, tick);
            && (o.event != Crashed ==> InFlight(o.store) == [])
            && (o.event.Sent? ==> Pending(o.store) == Pending(st)[..|Pending(st)| - 1])
            && (o.event.SendFailed? ==> Pending(o.store) == [Encoded(o.event.msg)] + Pending(st)[..|Pending(st)| - 1])
            && (o.event != Crashed ==> Queued(o.store) + SentEntry(o.event) == Queued(st))
  {
    var o := Iterate(st, tick);
    if o.event.Sent? || o.event.SendFailed? {
      var claimed := Claim(st).1;
      assert InFlight(claimed) == [Claim(st).0.value];
      assert Claim(st).0.value == Encoded(o.event.msg);
    }
  }

  /** The entry a successful send removes, or none. */
  function SentEntry(ev: Event): multiset<Payload> {
    if ev.Sent? then multiset{Encoded(ev.msg)} else multiset{}
  }

  /** The entries of the messages that were sent successfully. */
  function Delivered(events: seq<Event>): multiset<Payload> {
    if events == [] then multiset{} else SentEntry(events[0]) + Delivered(events[1..])
  }

  lemma DeliveredCons(ev: Event, events: seq<Event>)
    ensures Delivered([ev] + events) == SentEntry(ev) + Delivered(events)
  {
    assert ([ev] + events)[1..] == events;
  }

  /** Runs a loop body over a sequence of iteration inputs; a panic ends the loop. */
  function RunWith(iterate: (Store, Tick) -> Outcome, st: Store, ticks: seq<Tick>): Trace
    decreases |ticks|
  {
    if ticks == [] then Trace([], st)
    else
      var first := iterate(st, ticks[0]);
      if first.event == Crashed then Trace([Crashed], first.store)
      else
        var rest := RunWith(iterate, first.store, ticks[1..]);
        Trace([first.event] + rest.events, rest.store)
  }

  /** One step of a run whose first iteration does not panic. */
  lemma RunWithStep(iterate: (Store, Tick) -> Outcome, st: Store, ticks: seq<Tick>)
    requires ticks != [] && iterate(st, ticks[0]).event != Crashed
    ensures RunWith(iterate, st, ticks).events
            == [iterate(st, ticks[0]).event] + RunWith(iterate, iterate(st, ticks[0]).store, ticks[1..]).events
    ensures RunWith(iterate, st, ticks).store == RunWith(iterate, iterate(st, ticks[0]).store, ticks[1..]).store
  {
  }

  /** A run of two iterations, neither of which panics. */
  lemma RunWithTwo(iterate: (Store, Tick) -> Outcome, st: Store, t1: Tick, t2: Tick)
    requires iterate(st, t1).event != Crashed && iterate(iterate(st, t1).store, t2).event != Crashed
    ensures RunWith(iterate, st, [t1, t2]).events == [iterate(st, t1).event, iterate(iterate(st, t1).store, t2).event]
    ensures RunWith(iterate, st, [t1, t2]).store == iterate(iterate(st, t1).store, t2).store
  {
    var s1 := iterate(st, t1).store;
    assert [t2][0] == t2 && [t2][1..] == [];
    RunWithStep(iterate, s1, [t2]);
    assert [t1, t2][0] == t1 && [t1, t2][1..] == [t2];
    RunWithStep(iterate, st, [t1, t2]);
  }

  /** An iteration settles its entries when every entry it started with is still queued afterwards
      or was sent successfully by it. */
  predicate Settles(st: Store, o: Outcome) {
    Queued(o.store) + SentEntry(o.event) == Queued(st)
  }

  /** If every iteration from a state satisfying `inv` settles its entries and keeps `inv`, then so
      does every run from such a state. */
  lemma {:induction false} RunWithLosesNothing(iterate: (Store, Tick) -> Outcome, inv: Store -> bool,
                                               st: Store, ticks: seq<Tick>)
    requires inv(st)
    requires forall s, t | inv(s) ::
               Settles(s, iterate(s, t)) && (iterate(s, t).event != Crashed ==> inv(iterate(s, t).store))
    ensures Queued(RunWith(iterate, st, ticks).store) + Delivered(RunWith(iterate, st, ticks).events) == Queued(st)
    decreases |ticks|
  {
    if ticks != [] {
      var first := iterate(st, ticks[0]);
      assert Settles(st, first);
      if first.event != Crashed {
        var rest := RunWith(iterate, first.store, ticks[1..]);
        RunWithLosesNothing(iterate, inv, first.store, ticks[1..]);
        RunWithStep(iterate, st, ticks);
        DeliveredCons(first.event, rest.events);
        assert Delivered(RunWith(iterate, st, ticks).events) == SentEntry(first.event) + Delivered(rest.events);
      } else {
        assert RunWith(iterate, st, ticks) == Trace([Crashed], first.store);
        DeliveredCons(Crashed, []);
      }
    }
  }

  /** The sender loop over a sequence of iteration inputs. */
  function Run(st: Store, ticks: seq<Tick>): Trace {
    RunWith(Iterate, st, ticks)
  }

  /** At-least-once delivery: starting with nothing in flight, every entry ever queued is, after any
      run, either still pending or in flight, or was sent successfully; none is lost. */
  lemma RunLosesNothing(st: Store, ticks: seq<Tick>)
    requires InFlight(st) == []
    ensures Queued(Run(st, ticks).store) + Delivered(Run(st, ticks).events) == Queued(st)
  {
    forall s, t | InFlight(s) == []
      ensures Settles(s, Iterate(s, t)) && (Iterate(s, t).event != Crashed ==> InFlight(Iterate(s, t).store) == [])
    {
      IterateConserves(s, t);
      IterateFromEmpty(s, t);
    }
    RunWithLosesNothing(Iterate, s => InFlight(s) == [], st, ticks);
  }

  /** One attempt at a lone queued notification, when the store answers: the send goes to the
      message's target with its link as text. */
  lemma AttemptLone(st: Store, m: Message, tick: Tick)
    requires Pending(st) == [Encoded(m)] && InFlight(st) == []
    requires tick.claimUp && tick.settleUp
    ensures Iterate(st, tick).event == if tick.sendOk then Sent(m) else SendFailed(m)
    ensures InFlight(Iterate(st, tick).store) == []
    ensures Pending(Iterate(st, tick).store) == if tick.sendOk then [] else [Encoded(m)]
  {
    assert Claim(st).0 == Some(Encoded(m));
    IterateFromEmpty(st, tick);
  }

  /** A failing-then-succeeding retry: one queued notification whose send fails twice and then
      succeeds ends with no copy pending or in flight, and exactly one successful send. */
  lemma RetryUntilSent(st: Store, m: Message)
    requires Pending(st) == [Encoded(m)] && InFlight(st) == []
    ensures Run(st, [Tick(true, false, true), Tick(true, false, true), Tick(true, true, true)]).events
            == [SendFailed(m), SendFailed(m), Sent(m)]
    ensures Pending(Run(st, [Tick(true, false, true), Tick(true, false, true), Tick(true, true, true)]).store) == []
    ensures InFlight(Run(st, [Tick(true, false, true), Tick(true, false, true), Tick(true, true, true)]).store) == []
  {
    var fail := Tick(true, false, true);
    var ok := Tick(true, true, true);
    AttemptLone(st, m, fail);
    var s1 := Iterate(st, fail).store;
    AttemptLone(s1, m, fail);
    var s2 := Iterate(s1, fail).store;
    AttemptLone(s2, m, ok);
    RunWithTwo(Iterate, s1, fail, ok);
    assert [fail, fail, ok][0] == fail && [fail, fail, ok][1..] == [fail, ok];
    RunWithStep(Iterate, st, [fail, fail, ok]);
  }

  /** An iteration whose store calls all succeed on a decodable oldest pending entry: the claim is
      followed by an acknowledge (sent) or a requeue (send failed). */
  lemma AttemptStep(st: Store, tick: Tick)
    requires tick.claimUp && tick.settleUp
    requires Pending(st) != [] && Pending(st)[|Pending(st)| - 1].Encoded?
    ensures var m := Pending(st)[|Pending(st)| - 1].msg;
            Iterate(st, tick) == if tick.sendOk then Outcome(Sent(m), Ack(Claim(st).1))
                                 else Outcome(SendFailed(m), Requeue(Claim(st).1))
  {
  }

  /** The claim pushes onto the head of `workers/1` while acknowledge and requeue act on its tail. An
      entry `x` is left there by a panic after its claim (it did not decode, or its acknowledge or
      requeue failed); once the sender is restarted, a failed send of the oldest pending entry `y`
      requeues `x` instead, and leaves `y` in flight. */
  lemma StaleFailedSend(st: Store, x: Payload, y: Message, z: Message)
    requires Pending(st) == [Encoded(z), Encoded(y)] && InFlight(st) == [x]
    ensures Iterate(st, Tick(true, false, true)).event == SendFailed(y)
    ensures Pending(Iterate(st, Tick(true, false, true)).store) == [x, Encoded(z)]
    ensures InFlight(Iterate(st, Tick(true, false, true)).store) == [Encoded(y)]
  {
    var c1 := Claim(st).1;
    assert Pending(c1) == [Encoded(z)] && InFlight(c1) == [Encoded(y), x];
    AttemptStep(st, Tick(true, false, true));
  }

  /** The next successful send, of `z`, acknowledges `y` instead, which was never sent. */
  lemma StaleSuccessfulSend(st: Store, x: Payload, y: Message, z: Message)
    requires Pending(st) == [x, Encoded(z)] && InFlight(st) == [Encoded(y)]
    ensures Iterate(st, Tick(true, true, true)).event == Sent(z)
    ensures Pending(Iterate(st, Tick(true, true, true)).store) == [x]
    ensures InFlight(Iterate(st, Tick(true, true, true)).store) == [Encoded(z)]
  {
    var c2 := Claim(st).1;
    assert Pending(c2) == [x] && InFlight(c2) == [Encoded(z), Encoded(y)];
    AttemptStep(st, Tick(true, true, true));
  }

  /** With `y` the oldest pending entry and `x` stranded in flight, a failed then a successful
      iteration report `y` failed and `z` sent, and leave `x` pending and `z` in flight. */
  lemma StaleRun(st: Store, x: Payload, y: Message, z: Message)
    requires Pending(st) == [Encoded(z), Encoded(y)] && InFlight(st) == [x]
    ensures Run(st, [Tick(true, false, true), Tick(true, true, true)]).events == [SendFailed(y), Sent(z)]
    ensures Pending(Run(st, [Tick(true, false, true), Tick(true, true, true)]).store) == [x]
    ensures InFlight(Run(st, [Tick(true, false, true), Tick(true, true, true)]).store) == [Encoded(z)]
  {
    var fail := Tick(true, false, true);
    var ok := Tick(true, true, true);
    StaleFailedSend(st, x, y, z);
    StaleSuccessfulSend(Iterate(st, fail).store, x, y, z);
    RunWithTwo(Iterate, st, fail, ok);
  }

  /** The multiset facts behind the loss: `y` is not among the entries left and sent. */
  lemma NotQueuedNorSent(left: Store, events: seq<Event>, x: Payload, y: Message, z: Message)
    requires Pending(left) == [x] && InFlight(left) == [Encoded(z)]
    requires events == [SendFailed(y), Sent(z)]
    requires x != Encoded(y) && y != z
    ensures Encoded(y) !in Queued(left) + Delivered(events)
  {
    DeliveredCons(Sent(z), []);
    DeliveredCons(SendFailed(y), [Sent(z)]);
    assert Delivered(events) == multiset{Encoded(z)};
  }

  /** The same run loses `y`: it was queued, and afterwards it is neither queued nor sent. */
  lemma StaleEntryIsLost(st: Store, x: Payload, y: Message, z: Message)
    requires Pending(st) == [Encoded(z), Encoded(y)] && InFlight(st) == [x]
    requires x != Encoded(y) && y != z
    ensures Encoded(y) in Queued(st)
    ensures Encoded(y) !in Queued(Run(st, [Tick(true, false, true), Tick(true, true, true)]).store)
                           + Delivered(Run(st, [Tick(true, false, true), Tick(true, true, true)]).events)
  {
    assert Encoded(y) in multiset(Pending(st));
    var r := Run(st, [Tick(true, false, true), Tick(true, true, true)]);
    StaleRun(st, x, y, z);
    NotQueuedNorSent(r.store, r.events, x, y, z);
  }
}
