/** The delivery sender with the claim corrected to move the oldest pending entry to the TAIL of
    `workers/1` (LMOVE/BLMOVE ... RIGHT RIGHT), the end that acknowledge (RPOP) and requeue
    (RPOPLPUSH) act on. Each settle call then acts on the entry whose send was attempted, whatever
    an earlier panic left stranded in flight. */
module FixedSender {
  import opened Wrappers
  import opened Payloads
  import opened Store
  import opened Sender

  /** BLMOVE `main/messages` `workers/1` RIGHT RIGHT. */
  function FixedClaim(st: Store): (r: (Option<Payload>, Store))
    ensures Pending(st) == [] ==> r.0.None? && r.1 == st
    ensures Pending(st) != [] ==>
      && r.0 == Some(Pending(st)[|Pending(st)| - 1])
      && Pending(r.1) == Pending(st)[..|Pending(st)| - 1]
      && InFlight(r.1) == InFlight(st) + [r.0.value]
    ensures Queued(r.1) == Queued(st)
    ensures forall k | k != PENDING && k != IN_FLIGHT :: List(r.1, k) == List(st, k)
    ensures r.1.strings == st.strings && r.1.sets == st.sets
  {
    LastSplit(Pending(st));
    RPopRPush(st, PENDING, IN_FLIGHT)
  }

  /** One iteration, as in the sender loop but with the corrected claim. */
  function Iterate(st: Store, tick: Tick): Outcome {
    IterateWith(FixedClaim, st, tick)
  }

  /** After the corrected claim, the in-flight tail is the claimed entry and the rest of the
      in-flight list is what was there before. */
  lemma ClaimedAtTail(st: Store)
    requires Pending(st) != []
    ensures var f := InFlight(FixedClaim(st).1);
            && f != []
            && f[|f| - 1] == Pending(st)[|Pending(st)| - 1]
            && f[..|f| - 1] == InFlight(st)
  {
    var f := InFlight(FixedClaim(st).1);
    assert f == InFlight(st) + [Pending(st)[|Pending(st)| - 1]];
  }

  /** Acknowledging after the corrected claim removes exactly the claimed entry. */
  lemma AckClaimed(st: Store)
    requires Pending(st) != []
    ensures var after := Ack(FixedClaim(st).1);
            && InFlight(after) == InFlight(st)
            && Pending(after) == Pending(st)[..|Pending(st)| - 1]
            && Queued(after) + multiset{Pending(st)[|Pending(st)| - 1]} == Queued(st)
  {
    ClaimedAtTail(st);
  }

  /** Requeueing after the corrected claim puts exactly the claimed entry back at the head of pending. */
  lemma RequeueClaimed(st: Store)
    requires Pending(st) != []
    ensures var after := Requeue(FixedClaim(st).1);
            && InFlight(after) == InFlight(st)
            && Pending(after) == [Pending(st)[|Pending(st)| - 1]] + Pending(st)[..|Pending(st)| - 1]
            && Queued(after) == Queued(st)
  {
    ClaimedAtTail(st);
  }

  /** An iteration whose store calls succeed on a decodable oldest pending entry. */
  lemma FixedAttempt(st: Store, tick: Tick)
    requires tick.claimUp && tick.settleUp
    requires Pending(st) != [] && Pending(st)[|Pending(st)| - 1].Encoded?
    ensures var m := Pending(st)[|Pending(st)| - 1].msg;
            Iterate(st, tick) == if tick.sendOk then Outcome(Sent(m), Ack(FixedClaim(st).1))
                                 else Outcome(SendFailed(m), Requeue(FixedClaim(st).1))
  {
  }

  /** Whatever is in flight beforehand: entries already in flight are left as they were; a successful
      send removes exactly the entry that was sent; a failed send puts exactly that entry at the head
      of pending; every other outcome keeps every entry. */
  lemma IterateSettlesClaimed(st: Store, tick: Tick)
    ensures var o := Iterate(st, tick);
            && (o.event != Crashed ==> InFlight(o.store) == InFlight(st))
            && (o.event.Sent? ==> Pending(o.store) == Pending(st)[..|Pending(st)| - 1])
            && (o.event.SendFailed? ==> Pending(o.store) == [Encoded(o.event.msg)] + Pending(st)[..|Pending(st)| - 1])
            && Queued(o.store) + SentEntry(o.event) == Queued(st)
  {
    if tick.claimUp && tick.settleUp && Pending(st) != [] && Pending(st)[|Pending(st)| - 1].Encoded? {
      FixedAttempt(st, tick);
      if tick.sendOk {
        AckClaimed(st);
      } else {
        RequeueClaimed(st);
      }
    }
  }

  /** The corrected sender loop over a sequence of iteration inputs. */
  function Run(st: Store, ticks: seq<Tick>): Trace {
    RunWith(Iterate, st, ticks)
  }

  /** At-least-once delivery from any starting state, stranded entries included: every entry is,
      after any run, still pending or in flight, or was sent successfully. */
  lemma RunLosesNothing(st: Store, ticks: seq<Tick>)
    ensures Queued(Run(st, ticks).store) + Delivered(Run(st, ticks).events) == Queued(st)
  {
    forall s, t ensures Settles(s, Iterate(s, t)) {
      IterateSettlesClaimed(s, t);
    }
    RunWithLosesNothing(Iterate, _ => true, st, ticks);
  }
}
