/** The relay's shared state as its methods update it in place: a registry of
    session objects, each with an inbound queue and a bounded event ring. */
module RelayState {
  import opened Common
  import opened RelayModel

  class Session {
    var toRunner: seq<Message>
    var events: seq<SeqEvent>
    var nextSeq: nat
    var lastSeen: Instant
    var facts: Facts

    constructor (now: Instant)
      ensures Value() == NewSession(now)
    {
      toRunner, events, nextSeq, lastSeen, facts := [], [], 1, now, NO_FACTS;
    }

    function Value(): SessionValue
      reads this
    {
      SessionValue(toRunner, events, nextSeq, lastSeen, facts)
    }

    /** The loop of an upload: number each event and make room for it. */
    method AppendEvents(batch: seq<Event>, capacity: nat)
      modifies this
      ensures Value() == Append(old(Value()), batch, capacity)
    {
      for i := 0 to |batch|
        invariant Value() == Append(old(Value()), batch[..i], capacity)
      {
        assert batch[..i + 1][..i] == batch[..i];
        var number := nextSeq;
        nextSeq := nextSeq + 1;
        if |events| >= capacity && |events| > 0 {
          events := events[1..];
        }
        events := events + [SeqEvent(number, batch[i])];
      }
      assert batch[..|batch|] == batch;
    }

    /** The filter of a read. */
    method EventsAfter(since: nat) returns (pending: seq<SeqEvent>)
      ensures pending == Newer(events, since)
    {
      pending := [];
      for i := 0 to |events|
        invariant pending + Newer(events[i..], since) == Newer(events, since)
      {
        assert events[i..][1..] == events[i + 1..];
        if events[i].number > since {
          pending := pending + [events[i]];
        }
      }
    }
  }

  class Relay {
    var sessions: map<SessionId, Session>
    const limits: Limits

    constructor (limits: Limits)
      ensures Valid() && this.limits == limits && Contents() == map[]
    {
      this.sessions, this.limits := map[], limits;
    }

    /** The registry owns its sessions: no two ids share one object. */
    ghost predicate Valid()
      reads this
    {
      forall a, b :: a in sessions && b in sessions && sessions[a] == sessions[b] ==> a == b
    }

    function Contents(): map<SessionId, SessionValue>
      reads this, sessions.Values
    {
      map id | id in sessions :: sessions[id].Value()
    }

    /** Find the entry, or make one. Nothing else of the registry changes. */
    method EntryOrInsert(id: SessionId, now: Instant)
      requires Valid()
      modifies this
      ensures Valid() && id in sessions && fresh(sessions.Values - old(sessions.Values))
      ensures Contents() == old(Contents())[id := EntryOf(old(Contents()), id, now)]
    {
      if id !in sessions {
        var session := new Session(now);
        sessions := sessions[id := session];
      }
    }

    /** What a registration does to its entry. */
    method Refresh(id: SessionId, carried: Facts, now: Instant)
      requires Valid() && id in sessions
      modifies sessions[id]
      ensures Valid()
      ensures Contents() == old(Contents())[id := var s := old(Contents())[id]; s.(lastSeen := now, facts := Merge(s.facts, carried))]
    {
      var session := sessions[id];
      session.lastSeen := now;
      session.facts := Merge(session.facts, carried);
    }

    /** What a poll does to its entry. */
    method Drain(id: SessionId, now: Instant) returns (batch: seq<Message>)
      requires Valid() && id in sessions
      modifies sessions[id]
      ensures Valid() && batch == old(Contents())[id].toRunner
      ensures Contents() == old(Contents())[id := old(Contents())[id].(lastSeen := now, toRunner := [])]
    {
      var session := sessions[id];
      session.lastSeen := now;
      batch := session.toRunner;
      session.toRunner := [];
    }

    /** What an upload does to its entry. */
    method AppendTo(id: SessionId, batch: seq<Event>, now: Instant)
      requires Valid() && id in sessions
      modifies sessions[id]
      ensures Valid()
      ensures Contents() == old(Contents())[id := Append(Touch(old(Contents())[id], now), batch, limits.eventBuffer)]
    {
      var session := sessions[id];
      session.lastSeen := now;
      session.AppendEvents(batch, limits.eventBuffer);
    }

    method Register(id: SessionId, carried: Facts, now: Instant)
      requires Valid()
      modifies this, sessions.Values
      ensures Valid() && fresh(sessions.Values - old(sessions.Values))
      ensures Contents() == Registered(old(Contents()), id, carried, now)
    {
      EntryOrInsert(id, now);
      Refresh(id, carried, now);
    }

    method Deregister(id: SessionId)
      requires Valid()
      modifies this
      ensures Valid() && sessions.Values <= old(sessions.Values)
      ensures Contents() == old(Contents()) - {id}
    {
      sessions := sessions - {id};
    }

    /** Take everything queued for the runner. First contact creates the session. */
    method TakeInbound(id: SessionId, now: Instant) returns (batch: seq<Message>)
      requires Valid()
      modifies this, sessions.Values
      ensures Valid() && fresh(sessions.Values - old(sessions.Values))
      ensures batch == EntryOf(old(Contents()), id, now).toRunner
      ensures Contents() == Drained(old(Contents()), id, now)
    {
      EntryOrInsert(id, now);
      batch := Drain(id, now);
    }

    /** Queue a message for the runner; false when the session is unknown. */
    method PushInbound(id: SessionId, message: Message) returns (accepted: bool)
      requires Valid()
      modifies sessions.Values
      ensures Valid()
      ensures accepted <==> id in old(Contents())
      ensures !accepted ==> Contents() == old(Contents())
      ensures accepted ==>
                var s := old(Contents())[id];
                var full := |s.toRunner| >= limits.inboundQueue && s.toRunner != [];
                Contents() == old(Contents())[id := s.(toRunner := (if full then s.toRunner[1..] else s.toRunner) + [message])]
      ensures Contents() == Queued(old(Contents()), id, message, limits)
    {
      if id !in sessions {
        return false;
      }
      var session := sessions[id];
      if |session.toRunner| >= limits.inboundQueue && |session.toRunner| > 0 {
        session.toRunner := session.toRunner[1..];
      }
      session.toRunner := session.toRunner + [message];
      return true;
    }

    method PushEvents(id: SessionId, batch: seq<Event>, now: Instant)
      requires Valid()
      modifies this, sessions.Values
      ensures Valid() && fresh(sessions.Values - old(sessions.Values))
      ensures Contents() == Uploaded(old(Contents()), id, batch, now, limits)
    {
      EntryOrInsert(id, now);
      AppendTo(id, batch, now);
    }

    /** Events newer than `since`, and the highest number issued so far. */
    method EventsSince(id: SessionId, since: nat) returns (r: Option<(seq<SeqEvent>, nat)>)
      requires Valid()
      ensures r == if id in Contents()
                   then var s := Contents()[id]; Some((Newer(s.events, since), if s.nextSeq == 0 then 0 else s.nextSeq - 1))
                   else None
    {
      if id !in sessions {
        return None;
      }
      var session := sessions[id];
      var pending := session.EventsAfter(since);
      return Some((pending, if session.nextSeq == 0 then 0 else session.nextSeq - 1));
    }

    /** Drop every session whose runner has been quiet for the TTL or longer. */
    method SweepExpired(now: Instant) returns (removed: nat)
      requires Valid()
      modifies this
      ensures Valid() && sessions.Values <= old(sessions.Values)
      ensures Contents() == Survivors(old(Contents()), now, limits.sessionTtl)
      ensures forall id :: id in Contents() <==>
                id in old(Contents()) && limits.sessionTtl > 0 && now - old(Contents())[id].lastSeen < limits.sessionTtl
      ensures forall id :: id in Contents() ==> Contents()[id] == old(Contents())[id]
      ensures removed == |old(Contents())| - |Contents()|
    {
      ghost var contents := Contents();
      assert contents.Keys == sessions.Keys;
      var before := |sessions.Keys|;
      Retain(now);
      SurvivorsAre(contents, now, limits.sessionTtl);
      SweepCount(contents, now, limits.sessionTtl);
      assert sessions.Keys == Contents().Keys;
      removed := before - |sessions.Keys|;
    }

    /** Keep the sessions that are alive, as they are. */
    method Retain(now: Instant)
      requires Valid()
      modifies this
      ensures Valid() && sessions.Values <= old(sessions.Values)
      ensures Contents() == Survivors(old(Contents()), now, limits.sessionTtl)
    {
      ghost var contents := Contents();
      sessions := map id | id in sessions && Alive(sessions[id].Value(), now, limits.sessionTtl) :: sessions[id];
      assert forall id :: id in sessions ==> sessions[id].Value() == contents[id];
    }
  }
}
