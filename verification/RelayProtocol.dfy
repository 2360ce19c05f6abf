/** One session incarnation and everybody who talks to it, as atomic steps.

    Each step is one critical section of the relay or one event at an endpoint:
    a run is any finite list of steps, so a statement about all runs covers
    every interleaving. A step whose actor is not in a position to take it
    leaves the world alone. Besides the state the program has, the world keeps
    the history the claims are about: every event uploaded, every message
    accepted, where each of those messages went, and which polls were answered,
    in order. */
module RelayProtocol {
  import opened Common
  import opened RelayModel

  /** One open stream: the server half (`lastSeq`, `pending`) and what it has
      sent that the page has not handled yet (`wire`). */
  datatype Source = Source(lastSeq: nat, pending: seq<SeqEvent>, wire: seq<SeqEvent>)

  /** One page. `lost` records the numbers that were already evicted at a read
      this page's stream made from below them. */
  datatype Client = Client(lastSeq: nat, rendered: seq<SeqEvent>, sources: seq<Source>, lost: set<nat>)

  /** A message with its position among all accepted messages. */
  datatype Tagged = Tagged(at: nat, message: Message)

  datatype Poll = Waiting | Answered(response: seq<Message>, tagged: seq<Tagged>)

  datatype World = World(
    session: SessionValue, log: seq<Event>,
    accepted: seq<Message>, queued: seq<Tagged>, delivered: seq<Tagged>, dropped: seq<Tagged>,
    polls: map<nat, Poll>, answered: seq<nat>, clients: map<nat, Client>)

  datatype Step =
    | Register(facts: Facts, now: Instant)
    | Upload(batch: seq<Event>, now: Instant)
    | Push(message: Message)
    | PollBegin(poll: nat, now: Instant)
    | PollResume(poll: nat, now: Instant)
    | Attach(client: nat)
    | Read(client: nat, source: nat)
    | Emit(client: nat, source: nat)
    | Receive(client: nat, source: nat)
    | Drop(client: nat, source: nat)
    | Leave(client: nat)

  const NEW_CLIENT := Client(0, [], [], {})

  function Init(now: Instant): World {
    World(NewSession(now), [], [], [], [], [], map[], [], map[])
  }

  function ClientOf(w: World, c: nat): Client {
    if c in w.clients then w.clients[c] else NEW_CLIENT
  }

  // ---------------------------------------------------------------- the stream

  function Refill(s: Source, session: SessionValue): Source {
    if s.pending == [] then s.(pending := Newer(session.events, s.lastSeq)) else s
  }

  function EmitOne(s: Source): Source {
    if s.pending == [] then s
    else Source(s.pending[0].number, s.pending[1..], s.wire + [s.pending[0]])
  }

  /** The numbers a refill starting at `since` can no longer hand out. */
  function Missed(session: SessionValue, since: nat): set<nat> {
    if session.events == [] then {}
    else set k: nat | since < k < session.events[0].number && Between(since, k, session.events[0].number)
  }

  predicate Between(low: nat, k: nat, high: nat) {
    low < k < high
  }

  function DoRead(cl: Client, i: nat, session: SessionValue): Client
    requires i < |cl.sources|
  {
    var s := cl.sources[i];
    cl.(sources := cl.sources[i := Refill(s, session)],
        lost := if s.pending == [] then cl.lost + Missed(session, s.lastSeq) else cl.lost)
  }

  function DoReceive(cl: Client, i: nat): Client
    requires i < |cl.sources|
  {
    var s := cl.sources[i];
    if s.wire == [] then cl
    else Client(s.wire[0].number, cl.rendered + [s.wire[0]],
                cl.sources[i := s.(wire := s.wire[1..])], cl.lost)
  }

  function ClientStep(cl: Client, step: Step, session: SessionValue): Client {
    match step
    case Attach(_) => cl.(sources := cl.sources + [Source(cl.lastSeq, [], [])])
    case Read(_, i) => if i < |cl.sources| then DoRead(cl, i, session) else cl
    case Emit(_, i) => if i < |cl.sources| then cl.(sources := cl.sources[i := EmitOne(cl.sources[i])]) else cl
    case Receive(_, i) => if i < |cl.sources| then DoReceive(cl, i) else cl
    case Drop(_, i) => if i < |cl.sources| then cl.(sources := cl.sources[..i] + cl.sources[i + 1..]) else cl
    case Leave(_) => NEW_CLIENT.(lost := cl.lost)
    case _ => cl
  }

  // ---------------------------------------------------------------- the queue

  function PushMessage(w: World, m: Message, limits: Limits): World {
    var full := |w.queued| >= limits.inboundQueue && |w.queued| > 0;
    w.(session := w.session.(toRunner := Enqueue(w.session.toRunner, m, limits.inboundQueue)),
       queued := Enqueue(w.queued, Tagged(|w.accepted|, m), limits.inboundQueue),
       dropped := if full then w.dropped + [w.queued[0]] else w.dropped,
       accepted := w.accepted + [m])
  }

  /** One drain of the inbound queue, answering poll `p` with what it took. */
  function Drain(w: World, p: nat, now: Instant): World {
    w.(session := w.session.(lastSeen := now, toRunner := []),
       queued := [],
       delivered := w.delivered + w.queued,
       answered := w.answered + [p],
       polls := w.polls[p := Answered(w.session.toRunner, w.queued)])
  }

  function Apply(w: World, step: Step, limits: Limits): World {
    match step
    case Register(facts, now) =>
      w.(session := w.session.(lastSeen := now, facts := Merge(w.session.facts, facts)))
    case Upload(batch, now) =>
      w.(session := Append(Touch(w.session, now), batch, limits.eventBuffer), log := w.log + batch)
    case Push(m) => PushMessage(w, m, limits)
    case PollBegin(p, now) =>
      if p in w.polls then w
      else if w.session.toRunner == [] then w.(session := Touch(w.session, now), polls := w.polls[p := Waiting])
      else Drain(w, p, now)
    case PollResume(p, now) =>
      if p in w.polls && w.polls[p].Waiting? then Drain(w, p, now) else w
    case Attach(c) =>
      var pushed := PushMessage(w, ClientAttached, limits);
      pushed.(clients := w.clients[c := ClientStep(ClientOf(w, c), step, w.session)])
    case _ =>
      w.(clients := w.clients[step.client := ClientStep(ClientOf(w, step.client), step, w.session)])
  }

  function Exec(now: Instant, steps: seq<Step>, limits: Limits): World {
    if steps == [] then Init(now)
    else Apply(Exec(now, steps[..|steps| - 1], limits), steps[|steps| - 1], limits)
  }
}
