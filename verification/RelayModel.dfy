/** The relay's data as values, and what each operation of the relay does to one
    session. The classes in RelayState are proved against these functions, and
    the protocol in RelayProtocol takes its steps with them.

    A JSON event is carried verbatim, so it is a string here. Time is a reading
    of a monotonic clock, passed in by the caller. */
module RelayModel {
  import opened Common

  type SessionId = string
  type Event = string
  type Instant = nat

  datatype Message = ClientAttached | FromClient(body: string)

  /** An event as stored: `number` is the sequence number a client resumes from. */
  datatype SeqEvent = SeqEvent(number: nat, event: Event)

  /** What a registration may carry; an absent field leaves the stored one alone. */
  datatype Facts = Facts(
    deviceId: Option<string>, clientVersion: Option<string>, displayName: Option<string>, cwd: Option<string>,
    model: Option<string>, permissionMode: Option<string>, costUsd: Option<real>, title: Option<string>)

  const NO_FACTS := Facts(None, None, None, None, None, None, None, None)

  datatype Limits = Limits(eventBuffer: nat, inboundQueue: nat, sessionTtl: nat)

  datatype SessionValue = SessionValue(
    toRunner: seq<Message>, events: seq<SeqEvent>, nextSeq: nat, lastSeen: Instant, facts: Facts)

  function NewSession(now: Instant): SessionValue {
    SessionValue([], [], 1, now, NO_FACTS)
  }

  function Touch(s: SessionValue, now: Instant): SessionValue {
    s.(lastSeen := now)
  }

  function Newest<T>(carried: Option<T>, stored: Option<T>): Option<T> {
    if carried.Some? then carried else stored
  }

  function Merge(stored: Facts, carried: Facts): Facts {
    Facts(
      Newest(carried.deviceId, stored.deviceId), Newest(carried.clientVersion, stored.clientVersion),
      Newest(carried.displayName, stored.displayName), Newest(carried.cwd, stored.cwd),
      Newest(carried.model, stored.model), Newest(carried.permissionMode, stored.permissionMode),
      Newest(carried.costUsd, stored.costUsd), Newest(carried.title, stored.title))
  }

  // ---------------------------------------------------------------- inbound queue

  /** Queue one message; a full queue loses its oldest entry first. Generic in
      the message, so a history can carry each message with its push position. */
  function Enqueue<T>(queue: seq<T>, message: T, limit: nat): seq<T> {
    (if |queue| >= limit && |queue| > 0 then queue[1..] else queue) + [message]
  }

  // ---------------------------------------------------------------- event ring

  /** Append one event to the ring under the next sequence number. */
  function Offer(s: SessionValue, event: Event, capacity: nat): SessionValue {
    var kept := if |s.events| >= capacity && |s.events| > 0 then s.events[1..] else s.events;
    s.(events := kept + [SeqEvent(s.nextSeq, event)], nextSeq := s.nextSeq + 1)
  }

  function Append(s: SessionValue, batch: seq<Event>, capacity: nat): SessionValue {
    if batch == [] then s
    else Offer(Append(s, batch[..|batch| - 1], capacity), batch[|batch| - 1], capacity)
  }

  /** The entries a reader that has seen everything up to `since` is handed. */
  function Newer(events: seq<SeqEvent>, since: nat): seq<SeqEvent> {
    if events == [] then []
    else (if events[0].number > since then [events[0]] else []) + Newer(events[1..], since)
  }

  // ---------------------------------------------------------------- the full log

  /** Every event ever uploaded to a session, under its sequence number. */
  function Numbered(log: seq<Event>): (r: seq<SeqEvent>)
    ensures |r| == |log|
  {
    seq(|log|, i requires 0 <= i < |log| => SeqEvent(i + 1, log[i]))
  }

  /** How many entries a ring of this capacity can hold. The ring makes room
      before it stores, so even capacity 0 keeps the newest event. */
  function Room(capacity: nat): nat {
    if capacity == 0 then 1 else capacity
  }

  /** How many of the first uploads have left the ring again. */
  function Evicted(log: seq<Event>, capacity: nat): nat {
    if |log| <= Room(capacity) then 0 else |log| - Room(capacity)
  }

  /** The ring and its counter agree with the log of everything uploaded. */
  ghost predicate RingMatches(s: SessionValue, log: seq<Event>, capacity: nat) {
    && s.nextSeq == |log| + 1
    && s.events == Numbered(log)[Evicted(log, capacity)..]
  }

  lemma OfferKeepsRing(s: SessionValue, log: seq<Event>, event: Event, capacity: nat)
    requires RingMatches(s, log, capacity)
    ensures RingMatches(Offer(s, event, capacity), log + [event], capacity)
  {
    var before, after := Numbered(log), Numbered(log + [event]);
    assert after == before + [SeqEvent(|log| + 1, event)];
  }

  lemma {:induction false} AppendKeepsRing(s: SessionValue, log: seq<Event>, batch: seq<Event>, capacity: nat)
    requires RingMatches(s, log, capacity)
    ensures RingMatches(Append(s, batch, capacity), log + batch, capacity)
    ensures var r := Append(s, batch, capacity);
            r.toRunner == s.toRunner && r.lastSeen == s.lastSeen && r.facts == s.facts
  {
    if batch == [] {
      assert log + batch == log;
    } else {
      var init, last := batch[..|batch| - 1], batch[|batch| - 1];
      AppendKeepsRing(s, log, init, capacity);
      OfferKeepsRing(Append(s, init, capacity), log + init, last, capacity);
      assert log + batch == (log + init) + [last];
    }
  }

  function Flatten(batches: seq<seq<Event>>): seq<Event> {
    if batches == [] then [] else Flatten(batches[..|batches| - 1]) + batches[|batches| - 1]
  }

  function AppendAll(s: SessionValue, batches: seq<seq<Event>>, capacity: nat): SessionValue {
    if batches == [] then s
    else Append(AppendAll(s, batches[..|batches| - 1], capacity), batches[|batches| - 1], capacity)
  }

  /** After any sequence of uploads the ring is exactly the newest
      min(capacity, total) events, numbered consecutively up to nextSeq - 1. */
  lemma RingRefinesLog(now: Instant, batches: seq<seq<Event>>, capacity: nat)
    requires capacity >= 1
    ensures var s := AppendAll(NewSession(now), batches, capacity);
            var log := Flatten(batches);
            && RingMatches(s, log, capacity)
            && |s.events| == Min(capacity, |log|)
            && (forall i :: 0 <= i < |s.events| ==>
                  && s.events[i].number == s.nextSeq - |s.events| + i
                  && s.events[i].event == log[|log| - |s.events| + i])
  {
    AllKeepRing(now, batches, capacity);
    var s, log := AppendAll(NewSession(now), batches, capacity), Flatten(batches);
    forall i | 0 <= i < |s.events|
      ensures s.events[i] == SeqEvent(s.nextSeq - |s.events| + i, log[|log| - |s.events| + i])
    {
      assert s.events[i] == Numbered(log)[Evicted(log, capacity) + i];
    }
  }

  lemma {:induction false} AllKeepRing(now: Instant, batches: seq<seq<Event>>, capacity: nat)
    ensures RingMatches(AppendAll(NewSession(now), batches, capacity), Flatten(batches), capacity)
  {
    if batches != [] {
      var init, last := batches[..|batches| - 1], batches[|batches| - 1];
      AllKeepRing(now, init, capacity);
      AppendKeepsRing(AppendAll(NewSession(now), init, capacity), Flatten(init), last, capacity);
    }
  }

  // ---------------------------------------------------------------- reading back

  /** On consecutively numbered entries, "newer than" is a suffix. */
  lemma {:induction false} NewerIsSuffix(events: seq<SeqEvent>, first: nat, since: nat)
    requires forall i :: 0 <= i < |events| ==> events[i].number == first + i
    ensures Newer(events, since) ==
            if since < first then events else if since - first + 1 >= |events| then [] else events[since - first + 1..]
  {
    if events != [] {
      var rest := events[1..];
      assert forall i :: 0 <= i < |rest| ==> rest[i] == events[i + 1];
      NewerIsSuffix(rest, first + 1, since);
      if since >= first && since - first < |rest| {
        assert since == first ==> events[1..] == rest;
        assert since > first ==> rest[since - first - 1 + 1..] == events[since - first + 1..];
      }
    }
  }

  /** Reading the ring is reading the full log, as long as the reader is not
      older than the window; an older reader is handed the whole window. */
  lemma ReadRefinesLog(s: SessionValue, log: seq<Event>, capacity: nat, since: nat)
    requires RingMatches(s, log, capacity)
    ensures since >= Evicted(log, capacity) ==> Newer(s.events, since) == Newer(Numbered(log), since)
    ensures since < Evicted(log, capacity) ==> Newer(s.events, since) == s.events
    ensures Newer(s.events, since) == Numbered(log)[
              if since >= |log| then |log|
              else if since < Evicted(log, capacity) then Evicted(log, capacity) else since..]
  {
    var gone := Evicted(log, capacity);
    NewerIsSuffix(s.events, gone + 1, since);
    NewerIsSuffix(Numbered(log), 1, since);
  }

  /** What a read hands over, counted against what the ring holds: it is all of
      it exactly when the reader asks from no later than the ring's start, and
      what it skips are the ring's entries up to `since`. */
  lemma ReadIsWholeIff(s: SessionValue, log: seq<Event>, capacity: nat, since: nat)
    requires RingMatches(s, log, capacity)
    ensures Newer(s.events, since) == s.events <==> log == [] || since <= Evicted(log, capacity)
    ensures |s.events| - |Newer(s.events, since)|
         == if since <= Evicted(log, capacity) then 0 else Min(since, |log|) - Evicted(log, capacity)
  {
    ReadRefinesLog(s, log, capacity, since);
    assert |s.events| == |log| - Evicted(log, capacity);
  }

  // ---------------------------------------------------------------- the registry

  /** The stored session, or a new one when the id is unknown. */
  function EntryOf(sessions: map<SessionId, SessionValue>, id: SessionId, now: Instant): SessionValue {
    if id in sessions then sessions[id] else NewSession(now)
  }

  /** A session the runner has talked to less than the TTL ago. */
  predicate Alive(s: SessionValue, now: Instant, ttl: nat) {
    Elapsed(s.lastSeen, now) < ttl
  }

  /** What a sweep leaves behind. */
  function Survivors(sessions: map<SessionId, SessionValue>, now: Instant, ttl: nat): map<SessionId, SessionValue> {
    map id | id in sessions && Alive(sessions[id], now, ttl) :: sessions[id]
  }

  function Expired(sessions: map<SessionId, SessionValue>, now: Instant, ttl: nat): set<SessionId> {
    set id | id in sessions && !Alive(sessions[id], now, ttl)
  }

  /** The survivors in instants: heard of less than the TTL ago, and unchanged. */
  lemma SurvivorsAre(sessions: map<SessionId, SessionValue>, now: Instant, ttl: nat)
    ensures forall id :: id in Survivors(sessions, now, ttl) <==>
              id in sessions && ttl > 0 && now - sessions[id].lastSeen < ttl
    ensures forall id :: id in Survivors(sessions, now, ttl) ==> Survivors(sessions, now, ttl)[id] == sessions[id]
  {
  }

  lemma SweepCount(sessions: map<SessionId, SessionValue>, now: Instant, ttl: nat)
    ensures |sessions| - |Survivors(sessions, now, ttl)| == |Expired(sessions, now, ttl)|
  {
    var kept, gone := Survivors(sessions, now, ttl), Expired(sessions, now, ttl);
    assert kept.Keys == sessions.Keys - gone;
    assert |sessions.Keys| == |sessions.Keys - gone| + |gone|;
  }

  function Elapsed(since: Instant, now: Instant): nat {
    if now >= since then now - since else 0
  }

  function Registered(sessions: map<SessionId, SessionValue>, id: SessionId, carried: Facts, now: Instant)
    : map<SessionId, SessionValue>
  {
    var s := EntryOf(sessions, id, now);
    sessions[id := s.(lastSeen := now, facts := Merge(s.facts, carried))]
  }

  function Drained(sessions: map<SessionId, SessionValue>, id: SessionId, now: Instant)
    : map<SessionId, SessionValue>
  {
    sessions[id := EntryOf(sessions, id, now).(lastSeen := now, toRunner := [])]
  }

  function Queued(sessions: map<SessionId, SessionValue>, id: SessionId, message: Message, limits: Limits)
    : map<SessionId, SessionValue>
  {
    if id in sessions
    then sessions[id := var s := sessions[id]; s.(toRunner := Enqueue(s.toRunner, message, limits.inboundQueue))]
    else sessions
  }

  function Uploaded(sessions: map<SessionId, SessionValue>, id: SessionId, batch: seq<Event>, now: Instant, limits: Limits)
    : map<SessionId, SessionValue>
  {
    sessions[id := Append(Touch(EntryOf(sessions, id, now), now), batch, limits.eventBuffer)]
  }
}
