/** The two ends of the agent protocol: the agent's connection and the editor's
    client. Each numbers its requests from 1 and keeps the ones it is waiting
    for; each is a class proved against a function on values. */
module Endpoints {
  import opened Common
  import opened JsonRpc

  /** What the caller of a request is told. `Abandoned` means the caller went away. */
  datatype Settled = Answered(outcome: Outcome) | TimedOut | Exited | Unsent | Abandoned

  // ---------------------------------------------------------------- the agent's end

  /** `pending` maps the key of an id to the number of the request waiting under it. */
  datatype AgentEnd = AgentEnd(next: int, pending: map<string, int>, settled: map<int, Settled>)

  const NEW_AGENT := AgentEnd(1, map[], map[])

  datatype Sending = Written | Unserializable | Unwritable

  /** A request goes out, or fails before it reaches the wire. One whose
      parameters cannot be serialised leaves its entry behind. */
  function AgentSend(e: AgentEnd, how: Sending): AgentEnd {
    var key := IdKey(NumberId(e.next));
    match how
    case Written => AgentEnd(e.next + 1, e.pending[key := e.next], e.settled)
    case Unserializable => AgentEnd(e.next + 1, e.pending[key := e.next], e.settled[e.next := Unsent])
    case Unwritable => AgentEnd(e.next + 1, e.pending[key := e.next] - {key}, e.settled[e.next := Unsent])
  }

  /** A response settles the request under its key, if its caller still waits. */
  function AgentComplete(e: AgentEnd, id: Id, outcome: Outcome): AgentEnd {
    var key := IdKey(id);
    if key !in e.pending then e
    else
      var n := e.pending[key];
      AgentEnd(e.next, e.pending - {key}, if n in e.settled then e.settled else e.settled[n := Answered(outcome)])
  }

  function AgentHandle(e: AgentEnd, line: Line): AgentEnd {
    match AgentRoute(line)
    case Response(id, outcome) => AgentComplete(e, id, outcome)
    case _ => e
  }

  function AgentAbandon(e: AgentEnd, n: int): AgentEnd {
    if 1 <= n < e.next && n !in e.settled then e.(settled := e.settled[n := Abandoned]) else e
  }

  class Connection {
    var nextOutboundId: int
    var pending: map<string, int>
    var settled: map<int, Settled>
    /** Lines written, and what the reader passed on to the server. */
    var written: seq<Line>
    var inbound: seq<Route>

    constructor ()
      ensures View() == NEW_AGENT && written == [] && inbound == []
    {
      nextOutboundId, pending, settled, written, inbound := 1, map[], map[], [], [];
    }

    function View(): AgentEnd
      reads this
    {
      AgentEnd(nextOutboundId, pending, settled)
    }

    /** `params` is absent when it cannot be serialised; `broken` is a failing writer. */
    method SendRequest(verb: string, params: Option<Json>, broken: bool) returns (number: int)
      modifies this
      ensures number == old(nextOutboundId) && inbound == old(inbound)
      ensures View() == AgentSend(old(View()), if params.None? then Unserializable else if broken then Unwritable else Written)
      ensures nextOutboundId == number + 1
      ensures var key := IdKey(NumberId(number));
              && pending == (if params.Some? && broken then old(pending)[key := number] - {key} else old(pending)[key := number])
              && settled == (if params.Some? && !broken then old(settled) else old(settled)[number := Unsent])
      ensures written == if params.Some? && !broken
                         then old(written) + [Encode(Ask(number, Call(verb, params.value)))] else old(written)
    {
      number := nextOutboundId;
      nextOutboundId := nextOutboundId + 1;
      var key := IdKey(NumberId(number));
      pending := pending[key := number];
      if params.None? {
        settled := settled[number := Unsent];
        return;
      }
      if broken {
        pending := pending - {key};
        settled := settled[number := Unsent];
        return;
      }
      written := written + [Message(Some(NumberId(number)), Named(verb), params, None, None)];
    }

    method CompletePending(id: Id, outcome: Outcome)
      modifies this`pending, this`settled
      ensures View() == AgentComplete(old(View()), id, outcome)
      ensures IdKey(id) !in old(pending) ==> pending == old(pending) && settled == old(settled)
      ensures IdKey(id) in old(pending) ==>
                var number := old(pending)[IdKey(id)];
                && pending == old(pending) - {IdKey(id)}
                && settled == (if number in old(settled) then old(settled) else old(settled)[number := Answered(outcome)])
    {
      var key := IdKey(id);
      if key in pending {
        var number := pending[key];
        pending := pending - {key};
        if number !in settled {
          settled := settled[number := Answered(outcome)];
        }
      }
    }

    /** One line of the reader loop. */
    method HandleLine(line: Line)
      modifies this
      ensures View() == AgentHandle(old(View()), line)
      ensures var route := AgentRoute(line);
              && inbound == (if route.Request? || route.Notification? then old(inbound) + [route] else old(inbound))
              && written == (if route.Unparseable?
                             then old(written) + [Message(Some(NullId), Absent, None, None, Some("parse error"))]
                             else old(written))
    {
      match AgentRoute(line) {
        case Skipped | Unrecognized =>
        case Unparseable =>
          written := written + [Message(Some(NullId), Absent, None, None, Some("parse error"))];
        case Response(id, outcome) => CompletePending(id, outcome);
        case Request(id, verb, params) => inbound := inbound + [Request(id, verb, params)];
        case Notification(verb, params) => inbound := inbound + [Notification(verb, params)];
      }
    }

    /** The reader loop, to the end of its input. */
    method RunReader(lines: seq<Line>)
      modifies this
      ensures View() == AgentHandleAll(old(View()), lines)
      ensures inbound == old(inbound) + PassedOn(lines)
      ensures written == old(written) + Complaints(lines)
    {
      for i := 0 to |lines|
        invariant View() == AgentHandleAll(old(View()), lines[..i])
        invariant inbound == old(inbound) + PassedOn(lines[..i])
        invariant written == old(written) + Complaints(lines[..i])
      {
        assert lines[..i + 1][..i] == lines[..i];
        HandleLine(lines[i]);
      }
      assert lines[..|lines|] == lines;
    }
  }

  function AgentHandleAll(e: AgentEnd, lines: seq<Line>): AgentEnd {
    if lines == [] then e else AgentHandle(AgentHandleAll(e, lines[..|lines| - 1]), lines[|lines| - 1])
  }

  /** The requests and notifications among the lines, in order. */
  function PassedOn(lines: seq<Line>): seq<Route> {
    if lines == [] then []
    else
      var route := AgentRoute(lines[|lines| - 1]);
      PassedOn(lines[..|lines| - 1]) + (if route.Request? || route.Notification? then [route] else [])
  }

  /** One answer for every line that does not parse. */
  function Complaints(lines: seq<Line>): seq<Line> {
    if lines == [] then []
    else
      Complaints(lines[..|lines| - 1])
      + (if lines[|lines| - 1].Garbage? then [Message(Some(NullId), Absent, None, None, Some("parse error"))] else [])
  }

  /** The reader takes its lines one by one: what it makes of two inputs is what it
      makes of the second after the first. */
  lemma {:induction false} ReaderGoesOn(e: AgentEnd, a: seq<Line>, b: seq<Line>)
    ensures AgentHandleAll(e, a + b) == AgentHandleAll(AgentHandleAll(e, a), b)
    ensures PassedOn(a + b) == PassedOn(a) + PassedOn(b)
    ensures Complaints(a + b) == Complaints(a) + Complaints(b)
  {
    if b == [] {
      assert a + b == a;
    } else {
      var n := |b| - 1;
      ReaderGoesOn(e, a, b[..n]);
      assert (a + b)[..|a + b| - 1] == a + b[..n];
    }
  }

  /** And of one line: a request and a notification are passed on as they stand,
      a response settles its request, garbage is answered, and nothing else
      comes of any of them. */
  lemma ReaderTakesOne(e: AgentEnd, line: Line)
    ensures line.Message? && line.id.Some? && line.id.value.NumberId? && line.verb.Named? ==>
              PassedOn([line]) == [Request(line.id.value, line.verb.name, line.params)] && AgentHandleAll(e, [line]) == e
    ensures line.Message? && line.id.None? && line.verb.Named? ==>
              PassedOn([line]) == [Notification(line.verb.name, line.params)] && AgentHandleAll(e, [line]) == e
    ensures line.Message? && line.id.Some? && line.id.value.NumberId? && line.verb.Absent? && line.result.Some? ==>
              && PassedOn([line]) == []
              && AgentHandleAll(e, [line]) == AgentComplete(e, line.id.value, Success(line.result.value))
    ensures line.Message? && line.id.Some? && line.id.value.NumberId? && line.verb.Absent? && line.result.None? && line.error.Some? ==>
              && PassedOn([line]) == []
              && AgentHandleAll(e, [line]) == AgentComplete(e, line.id.value, Failure(line.error.value))
    ensures line.Blank? || line.Garbage? ==> PassedOn([line]) == [] && AgentHandleAll(e, [line]) == e
    ensures Complaints([line])
         == if line.Garbage? then [Message(Some(NullId), Absent, None, None, Some("parse error"))] else []
  {
    OneLineReads(e, line);
  }

  lemma OneLineReads(e: AgentEnd, line: Line)
    ensures var route := AgentRoute(line);
            && AgentHandleAll(e, [line]) == AgentHandle(e, line)
            && PassedOn([line]) == (if route.Request? || route.Notification? then [route] else [])
            && Complaints([line]) == (if line.Garbage? then [Message(Some(NullId), Absent, None, None, Some("parse error"))] else [])
  {
    assert [line][..0] == [];
  }

  // ---------------------------------------------------------------- the editor's end

  datatype ClientEnd = ClientEnd(next: int, pending: set<int>, timers: set<int>, settled: map<int, Settled>)

  const NEW_CLIENT := ClientEnd(1, {}, {}, map[])

  function ClientSend(e: ClientEnd, deadline: bool): ClientEnd {
    ClientEnd(e.next + 1, e.pending + {e.next}, if deadline then e.timers + {e.next} else e.timers, e.settled)
  }

  /** Settling a request clears its timer. Only a number can match: the map is
      keyed by the numbers this end handed out. */
  function ClientHandle(e: ClientEnd, line: Line): ClientEnd {
    match ClientRoute(line)
    case Response(NumberId(n), outcome) =>
      if n in e.pending
      then ClientEnd(e.next, e.pending - {n}, e.timers - {n}, e.settled[n := Answered(outcome)])
      else e
    case _ => e
  }

  function ClientDeadline(e: ClientEnd, n: int): ClientEnd {
    if n in e.timers then ClientEnd(e.next, e.pending - {n}, e.timers - {n}, e.settled[n := TimedOut]) else e
  }

  function ClientExit(e: ClientEnd): ClientEnd {
    ClientEnd(e.next, {}, e.timers - e.pending, Refuse(e.settled, e.pending))
  }

  function Refuse(settled: map<int, Settled>, refused: set<int>): map<int, Settled> {
    settled + map n | n in refused :: Exited
  }

  class AcpClient {
    var nextId: int
    var pending: set<int>
    var timers: set<int>
    var settled: map<int, Settled>
    var written: seq<Line>
    var handled: seq<Route>

    constructor ()
      ensures View() == NEW_CLIENT && written == [] && handled == []
    {
      nextId, pending, timers, settled, written, handled := 1, {}, {}, map[], [], [];
    }

    function View(): ClientEnd
      reads this
    {
      ClientEnd(nextId, pending, timers, settled)
    }

    method SendRequest(verb: string, params: Json, deadline: bool) returns (number: int)
      modifies this
      ensures number == old(nextId) && handled == old(handled)
      ensures View() == ClientSend(old(View()), deadline)
      ensures nextId == number + 1 && pending == old(pending) + {number} && settled == old(settled)
      ensures timers == if deadline then old(timers) + {number} else old(timers)
      ensures written == old(written) + [Encode(Ask(number, Call(verb, params)))]
    {
      number := nextId;
      nextId := nextId + 1;
      pending := pending + {number};
      if deadline {
        timers := timers + {number};
      }
      written := written + [Message(Some(NumberId(number)), Named(verb), Some(params), None, None)];
    }

    method HandleLine(line: Line)
      modifies this
      ensures View() == ClientHandle(old(View()), line) && written == old(written)
      ensures var route := ClientRoute(line);
              if route.Response? && route.id.NumberId? && route.id.number in old(pending)
              then && pending == old(pending) - {route.id.number} && timers == old(timers) - {route.id.number}
                   && settled == old(settled)[route.id.number := Answered(route.outcome)]
              else pending == old(pending) && timers == old(timers) && settled == old(settled)
      ensures var route := ClientRoute(line);
              handled == if route.Request? || route.Notification? then old(handled) + [route] else old(handled)
    {
      match ClientRoute(line) {
        case Response(id, outcome) =>
          if id.NumberId? && id.number in pending {
            pending := pending - {id.number};
            timers := timers - {id.number};
            settled := settled[id.number := Answered(outcome)];
          }
        case Request(id, verb, params) => handled := handled + [Request(id, verb, params)];
        case Notification(verb, params) => handled := handled + [Notification(verb, params)];
        case _ =>
      }
    }

    method OnDeadline(n: int)
      requires n in timers
      modifies this
      ensures View() == ClientDeadline(old(View()), n) && written == old(written) && handled == old(handled)
      ensures pending == old(pending) - {n} && timers == old(timers) - {n} && settled == old(settled)[n := TimedOut]
    {
      timers := timers - {n};
      pending := pending - {n};
      settled := settled[n := TimedOut];
    }

    /** The child exited, or could not be run: every pending request is refused. */
    method OnExit()
      modifies this
      ensures View() == ClientExit(old(View())) && written == old(written) && handled == old(handled)
      ensures pending == {} && timers == old(timers) - old(pending)
      ensures forall n :: n in old(pending) ==> n in settled && settled[n] == Exited
      ensures forall n :: n !in old(pending) ==> (n in settled <==> n in old(settled))
      ensures forall n :: n in old(settled) && n !in old(pending) ==> settled[n] == old(settled)[n]
    {
      settled := settled + map n | n in pending :: Exited;
      timers := timers - pending;
      pending := {};
    }
  }
}
