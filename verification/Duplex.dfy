/** Both endpoints on one pair of pipes, each asking and answering, in every
    interleaving. What the two directions share is stated once, about a `Half`:
    one end's requests and the other end's answers to them. */
module Duplex {
  import opened Common
  import opened JsonRpc
  import opened Endpoints

  /** `agentSent` holds the requests the agent really wrote, `clientInbox` those
      the client has read, `clientAnswers` every answer it gave, and `agentGot`
      the answers the agent has read, in order; and the same the other way
      round. Pipes carry the messages in order. */
  datatype World = World(
    agent: AgentEnd, client: ClientEnd, toClient: seq<Packet>, toAgent: seq<Packet>,
    agentSent: map<int, Call>, clientInbox: map<int, Call>, clientAnswers: seq<Packet>, agentGot: seq<Packet>,
    clientSent: map<int, Call>, agentInbox: map<int, Call>, agentAnswers: seq<Packet>, clientGot: seq<Packet>)

  const INIT := World(NEW_AGENT, NEW_CLIENT, [], [], map[], map[], [], [], map[], map[], [], [])

  datatype Step =
    | AgentAsks(call: Call, how: Sending)
    | AgentAbandons(number: int)
    | AgentReplies(number: int, outcome: Outcome)
    | AgentSays(line: Line)
    | AgentReads
    | ClientAsks(call: Call, deadline: bool)
    | ClientTimesOut(number: int)
    | ClientExits
    | ClientReplies(number: int, outcome: Outcome)
    | ClientSays(line: Line)
    | ClientReads

  const PARSE_ERROR := Noise(Message(Some(NullId), Absent, None, None, Some("parse error")))

  function DoAgentReads(w: World): World {
    if w.toAgent == [] then w
    else
      var p := w.toAgent[0];
      var route := AgentRoute(Encode(p));
      w.(agent := AgentHandle(w.agent, Encode(p)),
         toAgent := w.toAgent[1..],
         agentGot := if p.Reply? then w.agentGot + [p] else w.agentGot,
         agentInbox := if p.Ask? && route.Request? then w.agentInbox[p.number := Call(route.verb, p.call.params)] else w.agentInbox,
         toClient := if route.Unparseable? then w.toClient + [PARSE_ERROR] else w.toClient)
  }

  function DoClientReads(w: World): World {
    if w.toClient == [] then w
    else
      var p := w.toClient[0];
      var route := ClientRoute(Encode(p));
      w.(client := ClientHandle(w.client, Encode(p)),
         toClient := w.toClient[1..],
         clientGot := if p.Reply? then w.clientGot + [p] else w.clientGot,
         clientInbox := if p.Ask? && route.Request? then w.clientInbox[p.number := Call(route.verb, p.call.params)] else w.clientInbox)
  }

  function Apply(w: World, step: Step): World {
    match step
    case AgentAsks(call, how) =>
      var n := w.agent.next;
      if how.Written?
      then w.(agent := AgentSend(w.agent, how), toClient := w.toClient + [Ask(n, call)], agentSent := w.agentSent[n := call])
      else w.(agent := AgentSend(w.agent, how))
    case AgentAbandons(n) => w.(agent := AgentAbandon(w.agent, n))
    case AgentReplies(n, outcome) =>
      if n in w.agentInbox
      then w.(toClient := w.toClient + [Reply(n, outcome)], agentAnswers := w.agentAnswers + [Reply(n, outcome)])
      else w
    case AgentSays(line) => if Proper(Noise(line)) then w.(toClient := w.toClient + [Noise(line)]) else w
    case AgentReads => DoAgentReads(w)
    case ClientAsks(call, deadline) =>
      var n := w.client.next;
      w.(client := ClientSend(w.client, deadline), toAgent := w.toAgent + [Ask(n, call)], clientSent := w.clientSent[n := call])
    case ClientTimesOut(n) => w.(client := ClientDeadline(w.client, n))
    case ClientExits => w.(client := ClientExit(w.client))
    case ClientReplies(n, outcome) =>
      if n in w.clientInbox
      then w.(toAgent := w.toAgent + [Reply(n, outcome)], clientAnswers := w.clientAnswers + [Reply(n, outcome)])
      else w
    case ClientSays(line) => if Proper(Noise(line)) then w.(toAgent := w.toAgent + [Noise(line)]) else w
    case ClientReads => DoClientReads(w)
  }

  function Exec(steps: seq<Step>): World {
    if steps == [] then INIT else Apply(Exec(steps[..|steps| - 1]), steps[|steps| - 1])
  }

  // ---------------------------------------------------------------- one direction

  datatype Half = Half(
    next: int, waiting: set<int>, settled: map<int, Settled>, sent: map<int, Call>, forward: seq<Packet>,
    inbox: map<int, Call>, answers: seq<Packet>, got: seq<Packet>, back: seq<Packet>)

  /** The answers still on their way. */
  function Replies(back: seq<Packet>): seq<Packet> {
    if back == [] then []
    else (if back[0].Reply? then [back[0]] else []) + Replies(back[1..])
  }

  /** The answer that was given first under a number. */
  function FirstAnswer(answers: seq<Packet>, n: int): Option<Outcome> {
    if answers == [] then None
    else if answers[0].Reply? && answers[0].number == n then Some(answers[0].outcome)
    else FirstAnswer(answers[1..], n)
  }

  /** What is on the pipes and in the books of the two ends is what was sent. */
  ghost predicate Booked(h: Half) {
    && (forall n :: n in h.waiting || n in h.settled || n in h.sent ==> 1 <= n < h.next)
    && (forall n :: n in h.waiting ==> n !in h.settled)
    && (forall p :: p in h.forward ==> Proper(p) && (p.Ask? ==> p.number in h.sent && h.sent[p.number] == p.call))
    && (forall p :: p in h.back ==> Proper(p))
    && (forall n :: n in h.inbox ==> n in h.sent && h.inbox[n] == h.sent[n])
    && (forall p :: p in h.answers ==> p.Reply? && p.number in h.inbox)
  }

  /** Answers arrive in order, and the first one to arrive settles. */
  ghost predicate InOrder(h: Half) {
    && h.answers == h.got + Replies(h.back)
    && (forall n :: n in h.waiting ==> FirstAnswer(h.got, n) == None)
  }

  ghost predicate Honest(h: Half) {
    forall n :: n in h.settled && h.settled[n].Answered? ==>
      n in h.inbox && FirstAnswer(h.answers, n) == Some(h.settled[n].outcome)
  }

  /** Nothing is lost: a request that was written is on its way or has arrived,
      and waits or is settled. */
  ghost predicate Kept(h: Half) {
    && (forall n :: n in h.sent ==> n in h.inbox || Ask(n, h.sent[n]) in h.forward)
    && (forall n :: n in h.sent ==> n in h.waiting || n in h.settled)
  }

  ghost predicate HalfGood(h: Half) {
    Booked(h) && InOrder(h) && Honest(h) && Kept(h)
  }

  lemma {:induction false} RepliesJoin(a: seq<Packet>, b: seq<Packet>)
    ensures Replies(a + b) == Replies(a) + Replies(b)
  {
    if a == [] {
      assert a + b == b;
    } else {
      assert (a + b)[1..] == a[1..] + b;
      RepliesJoin(a[1..], b);
      var head := if a[0].Reply? then [a[0]] else [];
      assert head + (Replies(a[1..]) + Replies(b)) == (head + Replies(a[1..])) + Replies(b);
    }
  }

  lemma {:induction false} FirstAnswerJoin(a: seq<Packet>, b: seq<Packet>, n: int)
    ensures FirstAnswer(a + b, n) == if FirstAnswer(a, n).Some? then FirstAnswer(a, n) else FirstAnswer(b, n)
  {
    if a == [] {
      assert a + b == b;
    } else {
      assert (a + b)[1..] == a[1..] + b;
      FirstAnswerJoin(a[1..], b, n);
    }
  }

  lemma {:induction false} NotAnswered(answers: seq<Packet>, n: int)
    requires forall p :: p in answers ==> p.Reply? && p.number != n
    ensures FirstAnswer(answers, n) == None
  {
    if answers != [] {
      NotAnswered(answers[1..], n);
    }
  }

  /** A request is numbered, and perhaps written. */
  function Asked(h: Half, call: Call, written: bool, waits: bool): Half {
    var n := h.next;
    h.(next := n + 1,
       waiting := if waits then h.waiting + {n} else h.waiting,
       settled := if waits then h.settled else h.settled[n := Unsent],
       sent := if written then h.sent[n := call] else h.sent,
       forward := if written then h.forward + [Ask(n, call)] else h.forward)
  }

  lemma AskGood(h: Half, call: Call, written: bool, waits: bool)
    requires HalfGood(h) && h.next >= 1 && (written ==> waits)
    ensures HalfGood(Asked(h, call, written, waits))
  {
    AskBooked(h, call, written, waits);
    AskInOrder(h, call, written, waits);
    AskKept(h, call, written, waits);
  }

  lemma AskKept(h: Half, call: Call, written: bool, waits: bool)
    requires Kept(h) && (written ==> waits)
    ensures Kept(Asked(h, call, written, waits))
  {
  }

  lemma AskBooked(h: Half, call: Call, written: bool, waits: bool)
    requires Booked(h) && h.next >= 1 && (written ==> waits)
    ensures Booked(Asked(h, call, written, waits))
  {
  }

  lemma AskInOrder(h: Half, call: Call, written: bool, waits: bool)
    requires Booked(h) && InOrder(h)
    ensures InOrder(Asked(h, call, written, waits))
  {
    var n := h.next;
    forall p | p in h.got
      ensures p.Reply? && p.number != n
    {
      assert p in h.answers;
    }
    NotAnswered(h.got, n);
  }

  /** A waiting request is settled by its own side. */
  lemma GiveUpGood(h: Half, gone: set<int>, settled: map<int, Settled>)
    requires HalfGood(h)
    requires forall n :: n in settled && settled[n].Answered? ==> n in h.settled && settled[n] == h.settled[n]
    requires forall n :: n in settled ==> n in h.settled || n in gone
    requires forall n :: n in gone ==> 1 <= n < h.next
    requires forall n :: n in h.waiting - gone ==> n !in settled
    requires forall n :: n in h.settled || (n in h.waiting && n in gone) ==> n in settled
    ensures HalfGood(h.(waiting := h.waiting - gone, settled := settled))
  {
  }

  lemma ForwardGrows(h: Half, p: Packet)
    requires HalfGood(h) && Proper(p) && !p.Ask?
    ensures HalfGood(h.(forward := h.forward + [p]))
  {
  }

  lemma ForwardShrinks(h: Half)
    requires HalfGood(h) && h.forward != []
    ensures var p := h.forward[0];
            HalfGood(h.(forward := h.forward[1..], inbox := if p.Ask? then h.inbox[p.number := p.call] else h.inbox))
  {
    assert h.forward[0] in h.forward;
  }

  lemma BackGrows(h: Half, p: Packet)
    requires HalfGood(h) && Proper(p) && !p.Reply?
    ensures HalfGood(h.(back := h.back + [p]))
  {
    RepliesJoin(h.back, [p]);
    assert Replies([p]) == [];
    assert Replies(h.back + [p]) == Replies(h.back);
  }

  lemma ReplyGood(h: Half, n: int, outcome: Outcome)
    requires HalfGood(h) && n in h.inbox
    ensures HalfGood(h.(back := h.back + [Reply(n, outcome)], answers := h.answers + [Reply(n, outcome)]))
  {
    var p := Reply(n, outcome);
    var h' := h.(back := h.back + [p], answers := h.answers + [p]);
    RepliesJoin(h.back, [p]);
    assert Replies([p]) == [p] + Replies([p][1..]);
    assert Replies(h'.back) == Replies(h.back) + [p];
    assert h'.answers == h.got + (Replies(h.back) + [p]);
    forall k | k in h.settled && h.settled[k].Answered?
      ensures FirstAnswer(h'.answers, k) == Some(h.settled[k].outcome)
    {
      FirstAnswerJoin(h.answers, [p], k);
    }
  }

  /** Something other than a reply arrives. */
  lemma OtherArrives(h: Half)
    requires HalfGood(h) && h.back != [] && !h.back[0].Reply?
    ensures HalfGood(h.(back := h.back[1..]))
  {
    assert Replies(h.back) == Replies(h.back[1..]);
  }

  lemma FirstOfOne(p: Packet, n: int)
    requires p.Reply?
    ensures FirstAnswer([p], n) == if p.number == n then Some(p.outcome) else None
  {
    assert [p][1..] == [];
  }

  function Arrived(h: Half): Half
    requires h.back != [] && h.back[0].Reply?
  {
    var p := h.back[0];
    h.(back := h.back[1..], got := h.got + [p], waiting := h.waiting - {p.number},
       settled := if p.number in h.waiting then h.settled[p.number := Answered(p.outcome)] else h.settled)
  }

  lemma ArrivalAnswers(h: Half, n: int)
    requires InOrder(h) && h.back != [] && h.back[0].Reply? && n in h.waiting
    ensures n != h.back[0].number ==> FirstAnswer(h.got + [h.back[0]], n) == None
    ensures n == h.back[0].number ==> FirstAnswer(h.answers, n) == Some(h.back[0].outcome)
  {
    var p, rest := h.back[0], h.back[1..];
    FirstAnswerJoin(h.got, [p], n);
    FirstOfOne(p, n);
    FirstAnswerJoin(h.got + [p], Replies(rest), n);
    assert h.answers == (h.got + [p]) + Replies(rest);
  }

  lemma ArrivalInOrder(h: Half)
    requires InOrder(h) && h.back != [] && h.back[0].Reply?
    ensures InOrder(Arrived(h)) && h.back[0] in h.answers
  {
    var p, h' := h.back[0], Arrived(h);
    assert Replies(h.back) == [p] + Replies(h.back[1..]);
    assert h.answers == (h.got + [p]) + Replies(h'.back);
    assert h.answers[|h.got|] == p;
    forall n | n in h'.waiting
      ensures FirstAnswer(h'.got, n) == None
    {
      ArrivalAnswers(h, n);
    }
  }

  lemma ArrivalHonest(h: Half)
    requires HalfGood(h) && h.back != [] && h.back[0].Reply?
    ensures Honest(Arrived(h))
  {
    var p := h.back[0];
    ArrivalInOrder(h);
    if p.number in h.waiting {
      ArrivalAnswers(h, p.number);
    }
  }

  /** A reply arrives: it settles its own request if that still waits, and
      nothing else. */
  lemma ReplyArrives(h: Half)
    requires HalfGood(h) && h.back != [] && h.back[0].Reply?
    ensures HalfGood(Arrived(h))
  {
    ArrivalInOrder(h);
    ArrivalHonest(h);
    assert forall q :: q in Arrived(h).back ==> q in h.back;
  }

  // ---------------------------------------------------------------- both directions

  /** Every key is the key of the number stored under it. */
  ghost predicate KeysMatch(e: AgentEnd) {
    && e.next >= 1
    && (forall k :: k in e.pending ==> 1 <= e.pending[k] < e.next && k == IdKey(NumberId(e.pending[k])))
  }

  function AgentWaiting(e: AgentEnd): set<int> {
    set k | k in e.pending && e.pending[k] !in e.settled :: e.pending[k]
  }

  function AgentHalf(w: World): Half {
    Half(w.agent.next, AgentWaiting(w.agent), w.agent.settled, w.agentSent, w.toClient,
         w.clientInbox, w.clientAnswers, w.agentGot, w.toAgent)
  }

  function ClientHalf(w: World): Half {
    Half(w.client.next, w.client.pending, w.client.settled, w.clientSent, w.toAgent,
         w.agentInbox, w.agentAnswers, w.clientGot, w.toClient)
  }

  ghost predicate Good(w: World) {
    && KeysMatch(w.agent) && w.client.next >= 1 && w.client.timers <= w.client.pending
    && HalfGood(AgentHalf(w)) && HalfGood(ClientHalf(w))
  }

  lemma WaitingByKey(e: AgentEnd, n: int)
    requires KeysMatch(e)
    ensures n in AgentWaiting(e) <==> IdKey(NumberId(n)) in e.pending && e.pending[IdKey(NumberId(n))] == n && n !in e.settled
    ensures IdKey(NumberId(n)) in e.pending ==> e.pending[IdKey(NumberId(n))] == n
  {
    if IdKey(NumberId(n)) in e.pending {
      KeysAreInjective(NumberId(n), NumberId(e.pending[IdKey(NumberId(n))]));
    }
  }

  lemma CompleteNumber(e: AgentEnd, n: int, outcome: Outcome)
    requires KeysMatch(e)
    ensures var e' := AgentComplete(e, NumberId(n), outcome);
            && KeysMatch(e')
            && e'.settled == (if n in AgentWaiting(e) then e.settled[n := Answered(outcome)] else e.settled)
            && AgentWaiting(e') == AgentWaiting(e) - {n}
  {
    var e' := AgentComplete(e, NumberId(n), outcome);
    WaitingByKey(e, n);
    forall k: int
      ensures k in AgentWaiting(e') <==> k in AgentWaiting(e) - {n}
    {
      WaitingByKey(e, k);
      WaitingByKey(e', k);
      KeysAreInjective(NumberId(n), NumberId(k));
    }
  }

  /** A response under an id the agent never handed out settles nothing. */
  lemma CompleteOther(e: AgentEnd, id: Id, outcome: Outcome)
    requires KeysMatch(e) && !id.NumberId? && !id.OddId?
    ensures AgentComplete(e, id, outcome) == e
  {
    if IdKey(id) in e.pending {
      KeysAreInjective(id, NumberId(e.pending[IdKey(id)]));
    }
  }

  // ---------------------------------------------------------------- every step

  lemma AgentAsksGood(w: World, call: Call, how: Sending)
    requires Good(w)
    ensures Good(Apply(w, AgentAsks(call, how)))
  {
    var w' := Apply(w, AgentAsks(call, how));
    AskGood(AgentHalf(w), call, how.Written?, how.Written?);
    SendKeeps(w.agent, how);
    if how.Written? {
      ForwardedElsewhere(w, w');
    }
  }

  lemma SendKeeps(e: AgentEnd, how: Sending)
    requires KeysMatch(e) && e.next !in e.settled
    ensures KeysMatch(AgentSend(e, how))
    ensures AgentWaiting(AgentSend(e, how)) == if how.Written? then AgentWaiting(e) + {e.next} else AgentWaiting(e)
  {
    var n, e' := e.next, AgentSend(e, how);
    forall k | k in e.pending
      ensures k != IdKey(NumberId(n))
    {
      KeysAreInjective(NumberId(n), NumberId(e.pending[k]));
    }
    forall k: int
      ensures k in AgentWaiting(e') <==> k in AgentWaiting(e) || (k == n && how.Written?)
    {
      WaitingByKey(e, k);
      WaitingByKey(e', k);
      KeysAreInjective(NumberId(n), NumberId(k));
    }
  }

  /** Asking is noise to the other direction. */
  lemma ForwardedElsewhere(w: World, w': World)
    requires HalfGood(ClientHalf(w)) && w'.client == w.client && w'.toAgent == w.toAgent
    requires w'.clientSent == w.clientSent && w'.agentInbox == w.agentInbox && w'.agentAnswers == w.agentAnswers
    requires w'.clientGot == w.clientGot
    requires exists p :: w'.toClient == w.toClient + [p] && Proper(p) && !p.Reply?
    ensures HalfGood(ClientHalf(w'))
  {
    var p :| w'.toClient == w.toClient + [p] && Proper(p) && !p.Reply?;
    BackGrows(ClientHalf(w), p);
  }

  lemma ClientAsksGood(w: World, call: Call, deadline: bool)
    requires Good(w)
    ensures Good(Apply(w, ClientAsks(call, deadline)))
  {
    AskGood(ClientHalf(w), call, true, true);
    BackGrows(AgentHalf(w), Ask(w.client.next, call));
  }

  lemma AgentReadsGood(w: World)
    requires Good(w)
    ensures Good(DoAgentReads(w))
  {
    if w.toAgent == [] {
      return;
    }
    var p := w.toAgent[0];
    assert p in w.toAgent;
    ReadersDecode(p);
    ForwardShrinks(ClientHalf(w));
    var read := DoAgentReads(w).(toClient := w.toClient);
    assert ClientHalf(read) == ClientHalf(w).(forward := w.toAgent[1..],
      inbox := if p.Ask? then w.agentInbox[p.number := p.call] else w.agentInbox);
    AgentReadsOwn(w);
    if AgentRoute(Encode(p)).Unparseable? {
      ForwardGrows(AgentHalf(read), PARSE_ERROR);
      BackGrows(ClientHalf(read), PARSE_ERROR);
    }
  }

  lemma AgentReadsOwn(w: World)
    requires Good(w) && w.toAgent != []
    ensures var read := DoAgentReads(w).(toClient := w.toClient);
            KeysMatch(read.agent) && HalfGood(AgentHalf(read))
  {
    var p := w.toAgent[0];
    var read := DoAgentReads(w).(toClient := w.toClient);
    assert p in w.toAgent;
    ReadersDecode(p);
    if p.Reply? {
      CompleteNumber(w.agent, p.number, p.outcome);
      ReplyArrives(AgentHalf(w));
      assert AgentHalf(read) == Arrived(AgentHalf(w));
    } else {
      OtherArrives(AgentHalf(w));
      if AgentRoute(Encode(p)).Response? {
        CompleteOther(w.agent, AgentRoute(Encode(p)).id, AgentRoute(Encode(p)).outcome);
      }
      assert AgentHalf(read) == AgentHalf(w).(back := w.toAgent[1..]);
    }
  }

  lemma ClientReadsGood(w: World)
    requires Good(w)
    ensures Good(DoClientReads(w))
  {
    if w.toClient == [] {
      return;
    }
    var p := w.toClient[0];
    assert p in w.toClient;
    ReadersDecode(p);
    ForwardShrinks(AgentHalf(w));
    assert AgentHalf(DoClientReads(w)) == AgentHalf(w).(forward := w.toClient[1..],
      inbox := if p.Ask? then w.clientInbox[p.number := p.call] else w.clientInbox);
    ClientReadsOwn(w);
  }

  lemma ClientReadsOwn(w: World)
    requires Good(w) && w.toClient != []
    ensures HalfGood(ClientHalf(DoClientReads(w))) && DoClientReads(w).client.timers <= DoClientReads(w).client.pending
  {
    var p, w' := w.toClient[0], DoClientReads(w);
    assert p in w.toClient;
    ReadersDecode(p);
    if p.Reply? {
      ReplyArrives(ClientHalf(w));
      assert p.number !in w.client.pending ==> w.client.pending - {p.number} == w.client.pending;
      assert ClientHalf(w') == Arrived(ClientHalf(w));
    } else {
      OtherArrives(ClientHalf(w));
      assert ClientHalf(w') == ClientHalf(w).(back := w.toClient[1..]);
    }
  }

  lemma AbandonGood(w: World, n: int)
    requires Good(w)
    ensures Good(Apply(w, AgentAbandons(n)))
  {
    var e := AgentAbandon(w.agent, n);
    if 1 <= n < w.agent.next && n !in w.agent.settled {
      forall k: int
        ensures k in AgentWaiting(e) <==> k in AgentWaiting(w.agent) - {n}
      {
        WaitingByKey(w.agent, k);
        WaitingByKey(e, k);
      }
      assert AgentWaiting(e) == AgentWaiting(w.agent) - {n};
      GiveUpGood(AgentHalf(w), {n}, e.settled);
    }
  }

  lemma ClientGivesUpGood(w: World, step: Step)
    requires Good(w) && (step.ClientTimesOut? || step.ClientExits?)
    ensures Good(Apply(w, step))
  {
    if step.ClientExits? {
      GiveUpGood(ClientHalf(w), w.client.pending, ClientExit(w.client).settled);
      assert w.client.pending - w.client.pending == {};
    } else if step.number in w.client.timers {
      GiveUpGood(ClientHalf(w), {step.number}, ClientDeadline(w.client, step.number).settled);
    }
  }

  lemma AgentRepliesGood(w: World, n: int, outcome: Outcome)
    requires Good(w)
    ensures Good(Apply(w, AgentReplies(n, outcome)))
  {
    if n in w.agentInbox {
      ForwardGrows(AgentHalf(w), Reply(n, outcome));
      ReplyGood(ClientHalf(w), n, outcome);
    }
  }

  lemma ClientRepliesGood(w: World, n: int, outcome: Outcome)
    requires Good(w)
    ensures Good(Apply(w, ClientReplies(n, outcome)))
  {
    if n in w.clientInbox {
      ForwardGrows(ClientHalf(w), Reply(n, outcome));
      ReplyGood(AgentHalf(w), n, outcome);
    }
  }

  lemma AgentSaysGood(w: World, line: Line)
    requires Good(w)
    ensures Good(Apply(w, AgentSays(line)))
  {
    if Proper(Noise(line)) {
      ForwardGrows(AgentHalf(w), Noise(line));
      BackGrows(ClientHalf(w), Noise(line));
    }
  }

  lemma ClientSaysGood(w: World, line: Line)
    requires Good(w)
    ensures Good(Apply(w, ClientSays(line)))
  {
    if Proper(Noise(line)) {
      ForwardGrows(ClientHalf(w), Noise(line));
      BackGrows(AgentHalf(w), Noise(line));
    }
  }

  lemma StepGood(w: World, step: Step)
    requires Good(w)
    ensures Good(Apply(w, step))
  {
    match step
    case AgentAsks(call, how) => AgentAsksGood(w, call, how);
    case AgentAbandons(n) => AbandonGood(w, n);
    case AgentReplies(n, outcome) => AgentRepliesGood(w, n, outcome);
    case AgentSays(line) => AgentSaysGood(w, line);
    case AgentReads => AgentReadsGood(w);
    case ClientAsks(call, deadline) => ClientAsksGood(w, call, deadline);
    case ClientTimesOut(_) => ClientGivesUpGood(w, step);
    case ClientExits => ClientGivesUpGood(w, step);
    case ClientReplies(n, outcome) => ClientRepliesGood(w, n, outcome);
    case ClientSays(line) => ClientSaysGood(w, line);
    case ClientReads => ClientReadsGood(w);
  }

  lemma {:induction false} RunsAreGood(steps: seq<Step>)
    ensures Good(Exec(steps))
  {
    if steps != [] {
      RunsAreGood(steps[..|steps| - 1]);
      StepGood(Exec(steps[..|steps| - 1]), steps[|steps| - 1]);
    }
  }

  // ---------------------------------------------------------------- main results

  /** In every run, in both directions: a request that was settled by a response
      was really written, reached the peer as it was written, and was settled
      with the peer's first answer to that very request; and what still waits is
      not settled. */
  lemma Correlation(steps: seq<Step>, n: int)
    ensures var w := Exec(steps);
            && (n in w.agent.settled && w.agent.settled[n].Answered? ==>
                  && n in w.agentSent && n in w.clientInbox && w.clientInbox[n] == w.agentSent[n]
                  && FirstAnswer(w.clientAnswers, n) == Some(w.agent.settled[n].outcome))
            && (n in w.client.settled && w.client.settled[n].Answered? ==>
                  && n in w.clientSent && n in w.agentInbox && w.agentInbox[n] == w.clientSent[n]
                  && FirstAnswer(w.agentAnswers, n) == Some(w.client.settled[n].outcome))
            && (n in AgentWaiting(w.agent) ==> n !in w.agent.settled)
            && (n in w.client.pending ==> n !in w.client.settled)
  {
    RunsAreGood(steps);
    var w := Exec(steps);
    assert HalfGood(AgentHalf(w)) && HalfGood(ClientHalf(w));
  }

  /** A step only ever settles requests that were waiting; what is settled stays
      as it was settled, and a number is never handed out again. */
  lemma StepSettlesOnce(w: World, step: Step, n: int)
    requires Good(w)
    ensures var w' := Apply(w, step);
            && w.agent.next <= w'.agent.next && w.client.next <= w'.client.next
            && (n in w.agent.settled ==> n in w'.agent.settled && w'.agent.settled[n] == w.agent.settled[n])
            && (n in w.client.settled ==> n in w'.client.settled && w'.client.settled[n] == w.client.settled[n])
  {
    AgentSettlesOnce(w, step, n);
    ClientSettlesOnce(w, step, n);
  }

  lemma AgentSettlesOnce(w: World, step: Step, n: int)
    requires Booked(AgentHalf(w))
    ensures var w' := Apply(w, step);
            && w.agent.next <= w'.agent.next
            && (n in w.agent.settled ==> n in w'.agent.settled && w'.agent.settled[n] == w.agent.settled[n])
  {
    if step.AgentReads? && w.toAgent != [] {
      assert Apply(w, step).agent == AgentHandle(w.agent, Encode(w.toAgent[0]));
    }
  }

  lemma ClientSettlesOnce(w: World, step: Step, n: int)
    requires Booked(ClientHalf(w)) && w.client.timers <= w.client.pending
    ensures var w' := Apply(w, step);
            && w.client.next <= w'.client.next
            && (n in w.client.settled ==> n in w'.client.settled && w'.client.settled[n] == w.client.settled[n])
  {
    if step.ClientReads? && w.toClient != [] {
      assert Apply(w, step).client == ClientHandle(w.client, Encode(w.toClient[0]));
    }
  }

  /** What is settled under `n` in the one world is so in the other. */
  ghost predicate Stays(w: World, w': World, n: int) {
    && (n in w.agent.settled ==> n in w'.agent.settled && w'.agent.settled[n] == w.agent.settled[n])
    && (n in w.client.settled ==> n in w'.client.settled && w'.client.settled[n] == w.client.settled[n])
  }

  lemma StaysOn(w: World, w': World, step: Step, n: int)
    requires Stays(w, w', n) && Good(w')
    ensures Stays(w, Apply(w', step), n)
  {
    StepSettlesOnce(w', step, n);
  }

  /** So every request settles at most once over a whole run. */
  lemma {:induction false} SettledForGood(steps: seq<Step>, more: seq<Step>, n: int)
    ensures Stays(Exec(steps), Exec(steps + more), n)
  {
    if more == [] {
      assert steps + more == steps;
    } else {
      var last := |more| - 1;
      SettledForGood(steps, more[..last], n);
      RunsAreGood(steps + more[..last]);
      StaysOn(Exec(steps), Exec(steps + more[..last]), more[last], n);
      ExecJoin(steps, more);
    }
  }

  lemma ExecJoin(steps: seq<Step>, more: seq<Step>)
    requires more != []
    ensures Exec(steps + more) == Apply(Exec(steps + more[..|more| - 1]), more[|more| - 1])
  {
    assert (steps + more)[..|steps + more| - 1] == steps + more[..|more| - 1];
  }
}
