/** The relay's request handlers as objects: a stream turn, a long poll. */
module RelayStream {
  import opened Common
  import opened RelayModel
  import opened RelayState
  import opened RelayProtocol

  datatype Turn = Emitted(entry: SeqEvent) | Refilled | Idle | Ended

  /** The state a server-side stream carries from one turn of its loop to the next. */
  class StreamState {
    const relay: Relay
    const id: SessionId
    var lastSeq: nat
    var pending: seq<SeqEvent>

    constructor (relay: Relay, id: SessionId, since: nat)
      ensures this.relay == relay && this.id == id
      ensures View([]) == Source(since, [], [])
    {
      this.relay, this.id, lastSeq, pending := relay, id, since, [];
    }

    /** This stream as the protocol sees it, given what is on its connection. */
    function View(wire: seq<SeqEvent>): Source
      reads this
    {
      Source(lastSeq, pending, wire)
    }

    /** One turn of the loop: emit what is pending, or else read the ring again.
        `Idle` is the turn that goes on to wait. */
    method Advance() returns (turn: Turn)
      requires relay.Valid()
      modifies this
      ensures old(pending) != [] ==> turn == Emitted(old(pending)[0])
      ensures old(pending) != [] ==> forall wire :: View(wire + [old(pending)[0]]) == EmitOne(old(View(wire)))
      ensures old(pending) == [] && id !in relay.Contents() ==> turn == Ended && View([]) == old(View([]))
      ensures old(pending) == [] && id in relay.Contents() ==>
                && (turn.Refilled? || turn.Idle?)
                && (turn.Idle? <==> pending == [])
                && (forall wire :: View(wire) == Refill(old(View(wire)), relay.Contents()[id]))
    {
      if pending != [] {
        var entry := pending[0];
        pending := pending[1..];
        lastSeq := entry.number;
        return Emitted(entry);
      }
      var read := relay.EventsSince(id, lastSeq);
      match read {
        case None => return Ended;
        case Some((events, _)) =>
          if events != [] {
            pending := pending + events;
            return Refilled;
          }
          return Idle;
      }
    }
  }

  /** A request for a stream, split where the registry's lock is let go: the
      session may be gone when the attachment is announced, and then the stream
      is made all the same and ends at its first read. */
  class StreamRequest {
    const relay: Relay
    const id: SessionId
    const since: nat

    constructor (relay: Relay, id: SessionId, since: nat)
      ensures this.relay == relay && this.id == id && this.since == since
    {
      this.relay, this.id, this.since := relay, id, since;
    }

    /** The first section: an unknown session is refused. */
    method Exists() returns (known: bool)
      requires relay.Valid()
      ensures known <==> id in relay.Contents()
    {
      known := id in relay.sessions;
    }

    /** The second: the runner is told, if it still is there to be told. */
    method Announce() returns (stream: StreamState)
      requires relay.Valid()
      modifies relay.sessions.Values
      ensures relay.Valid() && relay.Contents() == Queued(old(relay.Contents()), id, ClientAttached, relay.limits)
      ensures fresh(stream) && stream.relay == relay && stream.id == id && stream.View([]) == Source(since, [], [])
    {
      var announced := relay.PushInbound(id, ClientAttached);
      stream := new StreamState(relay, id, since);
    }
  }

  /** A long poll, split where it may wait: anything can happen in between. */
  class PollRequest {
    const relay: Relay
    const id: SessionId

    constructor (relay: Relay, id: SessionId)
      ensures this.relay == relay && this.id == id
    {
      this.relay, this.id := relay, id;
    }

    method Begin(now: Instant) returns (answer: Option<seq<Message>>)
      requires relay.Valid()
      modifies relay, relay.sessions.Values
      ensures relay.Valid() && fresh(relay.sessions.Values - old(relay.sessions.Values))
      ensures var s := EntryOf(old(relay.Contents()), id, now);
              && answer == (if s.toRunner == [] then None else Some(s.toRunner))
              && relay.Contents() == Drained(old(relay.Contents()), id, now)
    {
      var ready := relay.TakeInbound(id, now);
      return if ready != [] then Some(ready) else None;
    }

    method Resume(now: Instant) returns (answer: seq<Message>)
      requires relay.Valid()
      modifies relay, relay.sessions.Values
      ensures relay.Valid() && fresh(relay.sessions.Values - old(relay.sessions.Values))
      ensures var s := EntryOf(old(relay.Contents()), id, now);
              && answer == s.toRunner
              && relay.Contents() == Drained(old(relay.Contents()), id, now)
    {
      answer := relay.TakeInbound(id, now);
    }
  }
}
