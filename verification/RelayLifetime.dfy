/** How long a session lives, and what it remembers, over whole histories of the
    relay. The reference definitions read the history backwards and mention
    nothing the relay stores. */
module RelayLifetime {
  import opened Common
  import opened RelayModel

  datatype Op =
    | Register(id: SessionId, facts: Facts)
    | Deregister(id: SessionId)
    | TakeInbound(id: SessionId)
    | PushInbound(id: SessionId, message: Message)
    | PushEvents(id: SessionId, batch: seq<Event>)
    | EventsSince(id: SessionId, since: nat)
    | Sweep

  datatype Entry = Entry(op: Op, now: Instant)

  function Apply(sessions: map<SessionId, SessionValue>, entry: Entry, limits: Limits): map<SessionId, SessionValue> {
    match entry.op
    case Register(id, facts) => Registered(sessions, id, facts, entry.now)
    case Deregister(id) => sessions - {id}
    case TakeInbound(id) => Drained(sessions, id, entry.now)
    case PushInbound(id, message) => Queued(sessions, id, message, limits)
    case PushEvents(id, batch) => Uploaded(sessions, id, batch, entry.now, limits)
    case EventsSince(_, _) => sessions
    case Sweep => Survivors(sessions, entry.now, limits.sessionTtl)
  }

  function Exec(history: seq<Entry>, limits: Limits): map<SessionId, SessionValue> {
    if history == [] then map[]
    else Apply(Exec(history[..|history| - 1], limits), history[|history| - 1], limits)
  }

  // ---------------------------------------------------------------- reference definitions

  /** The runner talked to the relay about this session. */
  predicate Contact(op: Op, id: SessionId) {
    (op.Register? || op.TakeInbound? || op.PushEvents?) && op.id == id
  }

  /** Less than the TTL lies between the two instants, the later of which may be
      read first. */
  predicate Within(contact: Instant, now: Instant, ttl: nat) {
    ttl > 0 && now - contact < ttl
  }

  /** When the runner last talked about `id`, unless the session has since been
      deregistered or found quiet for the TTL by a sweep. */
  function LastContact(history: seq<Entry>, id: SessionId, ttl: nat): Option<Instant> {
    if history == [] then None
    else
      var last, earlier := history[|history| - 1], LastContact(history[..|history| - 1], id, ttl);
      if Contact(last.op, id) then Some(last.now)
      else if last.op == Deregister(id) then None
      else if last.op.Sweep? && earlier.Some? && !Within(earlier.value, last.now, ttl) then None
      else earlier
  }

  datatype Field = DeviceId | ClientVersion | DisplayName | Cwd | Model | PermissionMode | CostUsd | Title

  datatype FieldValue = Text(text: string) | Amount(amount: real)

  function AsText(value: Option<string>): Option<FieldValue> {
    match value
    case None => None
    case Some(text) => Some(Text(text))
  }

  function Get(facts: Facts, field: Field): Option<FieldValue> {
    match field
    case DeviceId => AsText(facts.deviceId)
    case ClientVersion => AsText(facts.clientVersion)
    case DisplayName => AsText(facts.displayName)
    case Cwd => AsText(facts.cwd)
    case Model => AsText(facts.model)
    case PermissionMode => AsText(facts.permissionMode)
    case CostUsd => (match facts.costUsd case None => None case Some(x) => Some(Amount(x)))
    case Title => AsText(facts.title)
  }

  /** The last value a registration of the current incarnation carried for `field`. */
  function LastCarried(history: seq<Entry>, id: SessionId, field: Field, ttl: nat): Option<FieldValue> {
    if LastContact(history, id, ttl).None? then None
    else
      var last := history[|history| - 1];
      if last.op.Register? && last.op.id == id && Get(last.op.facts, field).Some?
      then Get(last.op.facts, field)
      else LastCarried(history[..|history| - 1], id, field, ttl)
  }

  /** Everything uploaded in the current incarnation. */
  function UploadedSince(history: seq<Entry>, id: SessionId, ttl: nat): seq<Event> {
    if LastContact(history, id, ttl).None? then []
    else
      var last, earlier := history[|history| - 1], UploadedSince(history[..|history| - 1], id, ttl);
      if last.op.PushEvents? && last.op.id == id then earlier + last.op.batch else earlier
  }

  // ---------------------------------------------------------------- one property at a time

  lemma {:induction false} LivesFollow(history: seq<Entry>, limits: Limits, id: SessionId)
    ensures var sessions, contact := Exec(history, limits), LastContact(history, id, limits.sessionTtl);
            && (id in sessions <==> contact.Some?)
            && (id in sessions ==> sessions[id].lastSeen == contact.value)
  {
    if history != [] {
      var init, last := history[..|history| - 1], history[|history| - 1];
      LivesFollow(init, limits, id);
      if last.op.PushEvents? && last.op.id == id {
        AppendKeepsClock(Touch(EntryOf(Exec(init, limits), id, last.now), last.now), last.op.batch, limits.eventBuffer);
      }
    }
  }

  lemma {:induction false} AppendKeepsClock(s: SessionValue, batch: seq<Event>, capacity: nat)
    ensures var r := Append(s, batch, capacity); r.lastSeen == s.lastSeen && r.facts == s.facts
  {
    if batch != [] {
      AppendKeepsClock(s, batch[..|batch| - 1], capacity);
    }
  }

  lemma {:induction false} FactFollows(history: seq<Entry>, limits: Limits, id: SessionId, field: Field)
    ensures var sessions := Exec(history, limits);
            id in sessions ==> Get(sessions[id].facts, field) == LastCarried(history, id, field, limits.sessionTtl)
  {
    if history != [] {
      var init, last := history[..|history| - 1], history[|history| - 1];
      FactFollows(init, limits, id, field);
      LivesFollow(init, limits, id);
      LivesFollow(history, limits, id);
      var before := Exec(init, limits);
      if last.op.PushEvents? && last.op.id == id {
        AppendKeepsClock(Touch(EntryOf(before, id, last.now), last.now), last.op.batch, limits.eventBuffer);
      } else if last.op.Register? && last.op.id == id {
        MergeTakesNewest(EntryOf(before, id, last.now).facts, last.op.facts, field);
      }
    }
  }

  lemma MergeTakesNewest(stored: Facts, carried: Facts, field: Field)
    ensures Get(Merge(stored, carried), field) == Newest(Get(carried, field), Get(stored, field))
  {
  }

  lemma {:induction false} RingFollows(history: seq<Entry>, limits: Limits, id: SessionId)
    ensures var sessions := Exec(history, limits);
            id in sessions ==> RingMatches(sessions[id], UploadedSince(history, id, limits.sessionTtl), limits.eventBuffer)
  {
    if history != [] {
      var init, last := history[..|history| - 1], history[|history| - 1];
      RingFollows(init, limits, id);
      LivesFollow(init, limits, id);
      LivesFollow(history, limits, id);
      if last.op.PushEvents? && last.op.id == id {
        var s := Touch(EntryOf(Exec(init, limits), id, last.now), last.now);
        AppendKeepsRing(s, UploadedSince(init, id, limits.sessionTtl), last.op.batch, limits.eventBuffer);
      }
    }
  }

  // ---------------------------------------------------------------- main results

  /** In every history: a session exists exactly while its last contact counts,
      its clock is that contact, each fact is the last one a registration of
      this incarnation carried, and its ring matches this incarnation's uploads. */
  lemma SessionsFollowTheRunner(history: seq<Entry>, limits: Limits, id: SessionId)
    ensures var sessions, contact := Exec(history, limits), LastContact(history, id, limits.sessionTtl);
            && (id in sessions <==> contact.Some?)
            && (id in sessions ==>
                  && sessions[id].lastSeen == contact.value
                  && (forall field :: Get(sessions[id].facts, field) == LastCarried(history, id, field, limits.sessionTtl))
                  && RingMatches(sessions[id], UploadedSince(history, id, limits.sessionTtl), limits.eventBuffer))
  {
    LivesFollow(history, limits, id);
    RingFollows(history, limits, id);
    if id in Exec(history, limits) {
      forall field: Field
        ensures Get(Exec(history, limits)[id].facts, field) == LastCarried(history, id, field, limits.sessionTtl)
      {
        FactFollows(history, limits, id, field);
      }
    }
  }

  /** A sweep removes exactly the sessions whose last register, poll or upload is
      at least the TTL old, and the number it reports is how many those were. */
  lemma SweepIsExact(history: seq<Entry>, now: Instant, limits: Limits, id: SessionId)
    ensures var before, after := Exec(history, limits), Exec(history + [Entry(Sweep, now)], limits);
            var contact := LastContact(history, id, limits.sessionTtl);
            && (id in after <==> contact.Some? && limits.sessionTtl > 0 && now - contact.value < limits.sessionTtl)
            && (id in after ==> id in before && after[id] == before[id])
            && |before| - |after| == |set id | id in before && !(limits.sessionTtl > 0 && now - before[id].lastSeen < limits.sessionTtl)|
  {
    SessionsFollowTheRunner(history, limits, id);
    SweepCount(Exec(history, limits), now, limits.sessionTtl);
    var before, ttl := Exec(history, limits), limits.sessionTtl;
    assert Expired(before, now, ttl) == set id | id in before && !(ttl > 0 && now - before[id].lastSeen < ttl);
    assert (history + [Entry(Sweep, now)])[..|history|] == history;
  }

  /** Taking every client push and stream read out of a history changes neither
      which sessions exist nor when they will expire. */
  function RunnerOnly(history: seq<Entry>): seq<Entry> {
    if history == [] then []
    else
      var last, earlier := history[|history| - 1], RunnerOnly(history[..|history| - 1]);
      if last.op.PushInbound? || last.op.EventsSince? then earlier else earlier + [last]
  }

  lemma {:induction false} ContactIgnoresClients(history: seq<Entry>, id: SessionId, ttl: nat)
    ensures LastContact(RunnerOnly(history), id, ttl) == LastContact(history, id, ttl)
  {
    if history != [] {
      var init, last := history[..|history| - 1], history[|history| - 1];
      ContactIgnoresClients(init, id, ttl);
      if !last.op.PushInbound? && !last.op.EventsSince? {
        assert (RunnerOnly(init) + [last])[..|RunnerOnly(init)|] == RunnerOnly(init);
      }
    }
  }

  lemma ClientsNeverExtendALife(history: seq<Entry>, limits: Limits)
    ensures var all, runner := Exec(history, limits), Exec(RunnerOnly(history), limits);
            && all.Keys == runner.Keys
            && (forall id :: id in all ==> all[id].lastSeen == runner[id].lastSeen)
  {
    var all, runner := Exec(history, limits), Exec(RunnerOnly(history), limits);
    forall id: SessionId
      ensures (id in all <==> id in runner) && (id in all ==> all[id].lastSeen == runner[id].lastSeen)
    {
      SessionsFollowTheRunner(history, limits, id);
      SessionsFollowTheRunner(RunnerOnly(history), limits, id);
      ContactIgnoresClients(history, id, limits.sessionTtl);
    }
  }

  // ---------------------------------------------------------------- resuming across incarnations

  /** A page that resumes from `since`, whatever incarnation it had that number
      from: it is handed everything the ring of the current incarnation holds
      exactly when the number is no later than what has been evicted from it.
      Otherwise it never sees the retained events up to `since`, and nothing at
      all until this incarnation has numbered past it. */
  lemma ResumeIsWholeIff(history: seq<Entry>, limits: Limits, id: SessionId, since: nat)
    requires id in Exec(history, limits)
    ensures var s, log := Exec(history, limits)[id], UploadedSince(history, id, limits.sessionTtl);
            var handed, gone := Newer(s.events, since), Evicted(log, limits.eventBuffer);
            && (handed == s.events <==> log == [] || since <= gone)
            && |s.events| - |handed| == (if since <= gone then 0 else Min(since, |log|) - gone)
            && (handed == [] <==> |log| <= since)
  {
    SessionsFollowTheRunner(history, limits, id);
    var s, log := Exec(history, limits)[id], UploadedSince(history, id, limits.sessionTtl);
    ReadIsWholeIff(s, log, limits.eventBuffer, since);
    ReadRefinesLog(s, log, limits.eventBuffer, since);
  }

  lemma Snoc(history: seq<Entry>, entry: Entry, limits: Limits)
    ensures Exec(history + [entry], limits) == Apply(Exec(history, limits), entry, limits)
  {
    assert (history + [entry])[..|history|] == history;
  }

  /** It happens: two uploads are seen, the session ends and starts again, and
      a page that resumes with 2 is handed nothing, although the ring holds the
      new incarnation's first event. */
  lemma StaleResumeStarves(id: SessionId, a: Event, b: Event, c: Event, limits: Limits,
                           now: Instant, ended: Op, later: Instant)
    requires ended == Deregister(id) || (ended == Sweep && !(limits.sessionTtl > 0 && later - now < limits.sessionTtl))
    ensures var first := [] + [Entry(PushEvents(id, [a, b]), now)];
            var history := first + [Entry(ended, later)] + [Entry(PushEvents(id, [c]), later)];
            && id in Exec(first, limits) && Exec(first, limits)[id].nextSeq == 3
            && id in Exec(history, limits)
            && Exec(history, limits)[id].events == [SeqEvent(1, c)]
            && Newer(Exec(history, limits)[id].events, 2) == []
  {
    var first := [] + [Entry(PushEvents(id, [a, b]), now)];
    var second := first + [Entry(ended, later)];
    FirstUpload([], id, [a, b], now, limits);
    Snoc(first, Entry(ended, later), limits);
    assert id !in Exec(second, limits);
    FirstUpload(second, id, [c], later, limits);
    var events := Exec(second + [Entry(PushEvents(id, [c]), later)], limits)[id].events;
    assert Numbered([c]) == [SeqEvent(1, c)];
    assert events[1..] == [] && Newer([], 2) == [];
  }

  lemma FirstUpload(history: seq<Entry>, id: SessionId, batch: seq<Event>, now: Instant, limits: Limits)
    requires id !in Exec(history, limits)
    ensures var after := Exec(history + [Entry(PushEvents(id, batch), now)], limits);
            id in after && after[id].lastSeen == now && RingMatches(after[id], batch, limits.eventBuffer)
  {
    var start := Touch(NewSession(now), now);
    Snoc(history, Entry(PushEvents(id, batch), now), limits);
    assert RingMatches(start, [], limits.eventBuffer);
    AppendKeepsRing(start, [], batch, limits.eventBuffer);
    assert [] + batch == batch;
  }
}
