/** Tool approvals: a queue of requests, drained by each turn's drainer, put to
    the client over the shared connection, and decided by its answer. The
    connection is the one of module Duplex, with everything else that may happen
    on it going on at the same time. */
module Approval {
  import opened Common
  import opened JsonRpc
  import opened Endpoints
  import opened Duplex
  import DuplexProgress

  datatype Decision = Allow | AllowPermanently | Deny | DenyPermanently

  /** What the client's result says, as far as the agent can read it. */
  datatype Picked = Selected(optionId: string) | Dismissed | Unreadable

  /** The session whose tools ask, and how its agent reads a result. Whatever way
      of reading that is, the claims hold. */
  datatype Agent = Agent(sessionId: string, read: Json -> Picked)

  function DecisionFor(optionId: string): Decision {
    if optionId == "allow_once" then Allow
    else if optionId == "allow_always" then AllowPermanently
    else if optionId == "reject_always" then DenyPermanently
    else Deny
  }

  /** A request that could not be put, was refused with an error, or was
      answered with something unreadable is denied. */
  function Conclusion(s: Settled, read: Json -> Picked): Decision {
    match s
    case Answered(Success(result)) =>
      (match read(result)
       case Selected(optionId) => DecisionFor(optionId)
       case _ => Deny)
    case _ => Deny
  }

  /** The request was answered, and the answer reads as this option picked. */
  predicate Picks(s: Settled, read: Json -> Picked, optionId: string) {
    s.Answered? && s.outcome.Success? && read(s.outcome.value) == Selected(optionId)
  }

  /** Each decision belongs to one option, and denial to everything else. */
  predicate DecisionMatches(d: Decision, s: Settled, read: Json -> Picked) {
    && (d == Allow <==> Picks(s, read, "allow_once"))
    && (d == AllowPermanently <==> Picks(s, read, "allow_always"))
    && (d == DenyPermanently <==> Picks(s, read, "reject_always"))
  }

  /** One tool's request. `useNumber` is what the session's turn counter held. */
  datatype ToolRequest = ToolRequest(useNumber: nat, details: string)

  function ToolUseId(sessionId: string, useNumber: nat): string {
    "perm-" + sessionId + "-" + Digits(useNumber)
  }

  lemma ToolUseIdsDiffer(sessionId: string, m: nat, n: nat)
    ensures ToolUseId(sessionId, m) == ToolUseId(sessionId, n) <==> m == n
  {
    var front := "perm-" + sessionId + "-";
    DigitsParse(m);
    DigitsParse(n);
    assert ToolUseId(sessionId, m)[|front|..] == Digits(m) && ToolUseId(sessionId, n)[|front|..] == Digits(n);
  }

  /** The call that puts a request to the client. Different requests may well
      make the same call. */
  function CallFor(agent: Agent, r: ToolRequest): Call {
    Call("session/request_permission", ToolUseId(agent.sessionId, r.useNumber) + "\n" + r.details)
  }

  // ---------------------------------------------------------------- the desk

  /** What tools, drainers and forwarders share: the turn counter, every request
      made (a ticket is its index), the tickets queued and the tickets popped,
      in order, and the decisions given. */
  datatype Desk = Desk(
    counter: nat, requests: seq<ToolRequest>, queue: seq<nat>, popped: seq<nat>, decisions: map<nat, Decision>)

  const NEW_DESK := Desk(0, [], [], [], map[])

  function AskAt(d: Desk, details: string): Desk {
    d.(counter := d.counter + 1, requests := d.requests + [ToolRequest(d.counter, details)], queue := d.queue + [|d.requests|])
  }

  function DrainAt(d: Desk): Desk {
    d.(queue := [], popped := d.popped + d.queue)
  }

  function DecideAt(d: Desk, ticket: nat, decision: Decision): Desk {
    d.(decisions := d.decisions[ticket := decision])
  }

  /** One waiting tool, and the one-shot its decision goes to. */
  class Pending {
    const ticket: nat
    const request: ToolRequest
    var decision: Option<Decision>

    constructor (ticket: nat, request: ToolRequest)
      ensures this.ticket == ticket && this.request == request && decision == None
    {
      this.ticket, this.request, decision := ticket, request, None;
    }
  }

  function Tickets(pendings: seq<Pending>): (tickets: seq<nat>)
    ensures |tickets| == |pendings|
  {
    seq(|pendings|, i requires 0 <= i < |pendings| => pendings[i].ticket)
  }

  function Requests(pendings: seq<Pending>): (requests: seq<ToolRequest>)
    ensures |requests| == |pendings|
  {
    seq(|pendings|, i requires 0 <= i < |pendings| => pendings[i].request)
  }

  class PermissionDesk {
    var currentTurn: nat
    var queue: seq<Pending>
    /** History: every request made, and those a drainer has taken. */
    var issued: seq<Pending>
    var popped: seq<Pending>

    constructor ()
      ensures Valid() && View() == NEW_DESK
    {
      currentTurn, queue, issued, popped := 0, [], [], [];
    }

    ghost predicate Valid()
      reads this
    {
      forall i :: 0 <= i < |issued| ==> issued[i].ticket == i
    }

    ghost function View(): Desk
      reads this, issued
    {
      Desk(currentTurn, Requests(issued), Tickets(queue), Tickets(popped),
           map i | 0 <= i < |issued| && issued[i].decision.Some? :: issued[i].decision.value)
    }

    /** The query loop enters its next model turn. */
    method StoreTurn(turn: nat)
      requires Valid()
      modifies this`currentTurn
      ensures Valid() && issued == old(issued) && View() == old(View()).(counter := turn)
    {
      currentTurn := turn;
    }

    /** A tool asks: the counter names the request and moves on. */
    method Ask(details: string) returns (pending: Pending)
      requires Valid()
      modifies this
      ensures Valid() && fresh(pending) && issued == old(issued) + [pending]
      ensures View() == AskAt(old(View()), details)
    {
      pending := new Pending(|issued|, ToolRequest(currentTurn, details));
      currentTurn := currentTurn + 1;
      issued := issued + [pending];
      queue := queue + [pending];
    }

    /** One tick of a drainer: the queue is taken under its lock, and then each
        request is handed to a forwarder of its own. */
    method Drain()
      requires Valid()
      modifies this`queue, this`popped
      ensures Valid() && View() == DrainAt(old(View()))
      ensures popped == old(popped) + old(queue)
    {
      var taken := queue;
      queue := [];
      for i := 0 to |taken|
        invariant popped == old(popped) + taken[..i] && queue == []
      {
        popped := popped + [taken[i]];
      }
      assert taken[..|taken|] == taken;
      assert Tickets(popped) == Tickets(old(popped)) + Tickets(taken) && Tickets(queue) == [];
    }

    /** What is left of forwarding once the request to the client has settled. */
    method Conclude(pending: Pending, settled: Settled, read: Json -> Picked)
      requires Valid() && pending in issued && pending.decision.None?
      modifies pending
      ensures Valid() && View() == DecideAt(old(View()), pending.ticket, Conclusion(settled, read))
      ensures pending.decision.Some? && DecisionMatches(pending.decision.value, settled, read)
    {
      var decision := Deny;
      match settled {
        case Answered(Success(result)) =>
          match read(result) {
            case Selected(optionId) => decision := DecisionFor(optionId);
            case _ =>
          }
        case _ =>
      }
      pending.decision := Some(decision);
    }
  }

  // ---------------------------------------------------------------- the machine

  /** `asked` maps a ticket to the number of the request that put it to the client. */
  datatype State = State(agent: Agent, wire: Duplex.World, desk: Desk, drainers: set<nat>, asked: map<nat, int>)

  function Start(agent: Agent): State {
    State(agent, Duplex.INIT, NEW_DESK, {}, map[])
  }

  datatype Act =
    | ModelTurn(turn: nat)
    | ToolAsks(details: string)
    | TurnStarts(drainer: nat)
    | TurnEnds(drainer: nat)
    | Tick(drainer: nat)
    | Forward(ticket: nat, how: Sending)
    | Decide(ticket: nat)
    | Elsewhere(step: Duplex.Step)

  function Put(s: State, t: nat, how: Sending): State
    requires t < |s.desk.requests|
  {
    s.(wire := Duplex.Apply(s.wire, AgentAsks(CallFor(s.agent, s.desk.requests[t]), how)), asked := s.asked[t := s.wire.agent.next])
  }

  function Take(s: State, act: Act): State {
    match act
    case ModelTurn(turn) => s.(desk := s.desk.(counter := turn))
    case ToolAsks(details) => s.(desk := AskAt(s.desk, details))
    case TurnStarts(d) => s.(drainers := s.drainers + {d})
    case TurnEnds(d) => s.(drainers := s.drainers - {d})
    case Tick(d) => if d in s.drainers then s.(desk := DrainAt(s.desk)) else s
    case Forward(t, how) =>
      if t in s.desk.popped && t !in s.asked && t < |s.desk.requests| then Put(s, t, how) else s
    case Decide(t) =>
      if t in s.asked && t !in s.desk.decisions && s.asked[t] in s.wire.agent.settled
      then s.(desk := DecideAt(s.desk, t, Conclusion(s.wire.agent.settled[s.asked[t]], s.agent.read)))
      else s
    case Elsewhere(step) => s.(wire := Duplex.Apply(s.wire, step))
  }

  function Run(agent: Agent, acts: seq<Act>): State {
    if acts == [] then Start(agent) else Take(Run(agent, acts[..|acts| - 1]), acts[|acts| - 1])
  }

  function UpTo(n: nat): (r: seq<nat>)
    ensures |r| == n && forall i :: 0 <= i < n ==> r[i] == i
  {
    if n == 0 then [] else UpTo(n - 1) + [n - 1]
  }

  ghost predicate Ticketed(s: State) {
    && s.desk.popped + s.desk.queue == UpTo(|s.desk.requests|)
    && (forall t :: t in s.asked ==> t in s.desk.popped && t < |s.desk.requests|)
  }

  ghost predicate Asked(s: State) {
    && (forall t :: t in s.asked ==> t < |s.desk.requests| && 1 <= s.asked[t] < s.wire.agent.next)
    && (forall t, u :: t in s.asked && u in s.asked && t != u ==> s.asked[t] != s.asked[u])
    && (forall t :: t in s.asked && s.asked[t] in s.wire.agentSent ==>
          s.wire.agentSent[s.asked[t]] == CallFor(s.agent, s.desk.requests[t]))
  }

  ghost predicate Decided(s: State) {
    forall t :: t in s.desk.decisions ==>
      t in s.asked && s.asked[t] in s.wire.agent.settled
      && s.desk.decisions[t] == Conclusion(s.wire.agent.settled[s.asked[t]], s.agent.read)
  }

  ghost predicate GoodState(s: State) {
    Duplex.Good(s.wire) && Ticketed(s) && Asked(s) && Decided(s)
  }

  /** What a step of the connection leaves in place. */
  ghost predicate Extends(w: Duplex.World, w': Duplex.World) {
    && w.agent.next <= w'.agent.next
    && (forall n :: n in w.agent.settled ==> n in w'.agent.settled && w'.agent.settled[n] == w.agent.settled[n])
    && (forall n :: n in w'.agentSent && n < w.agent.next ==> n in w.agentSent && w'.agentSent[n] == w.agentSent[n])
  }

  lemma WireKeeps(w: Duplex.World, step: Duplex.Step)
    requires Duplex.Good(w)
    ensures Duplex.Good(Duplex.Apply(w, step)) && Extends(w, Duplex.Apply(w, step))
  {
    Duplex.StepGood(w, step);
    SentKeeps(w, step);
    forall n: int
      ensures n in w.agent.settled ==>
                n in Duplex.Apply(w, step).agent.settled && Duplex.Apply(w, step).agent.settled[n] == w.agent.settled[n]
    {
      Duplex.StepSettlesOnce(w, step, n);
    }
    Duplex.StepSettlesOnce(w, step, 0);
  }

  lemma SentKeeps(w: Duplex.World, step: Duplex.Step)
    ensures forall n :: n in Duplex.Apply(w, step).agentSent && n < w.agent.next ==>
              n in w.agentSent && Duplex.Apply(w, step).agentSent[n] == w.agentSent[n]
  {
  }

  lemma WireMoves(s: State, w: Duplex.World)
    requires Asked(s) && Decided(s) && Extends(s.wire, w)
    ensures Asked(s.(wire := w)) && Decided(s.(wire := w))
  {
  }

  lemma ForwardGood(s: State, t: nat, how: Sending)
    requires GoodState(s)
    ensures GoodState(Take(s, Forward(t, how)))
  {
    if t in s.desk.popped && t !in s.asked && t < |s.desk.requests| {
      var call := CallFor(s.agent, s.desk.requests[t]);
      var w := Duplex.Apply(s.wire, AgentAsks(call, how));
      WireKeeps(s.wire, AgentAsks(call, how));
      WireMoves(s, w);
      AskedFresh(s.wire, call, how);
      AskedAnew(s, t, w);
      DecidedStays(s, t, w);
      assert Take(s, Forward(t, how)) == Put(s, t, how);
    }
  }

  lemma DecidedStays(s: State, t: nat, w: Duplex.World)
    requires Decided(s.(wire := w)) && t !in s.asked
    ensures Decided(s.(wire := w, asked := s.asked[t := s.wire.agent.next]))
  {
  }

  lemma AskedFresh(w: Duplex.World, call: Call, how: Sending)
    requires Duplex.Good(w)
    ensures var w' := Duplex.Apply(w, AgentAsks(call, how));
            && 1 <= w.agent.next < w'.agent.next
            && (w.agent.next in w'.agentSent ==> w'.agentSent[w.agent.next] == call)
  {
    assert Duplex.Booked(AgentHalf(w));
  }

  lemma AskedAnew(s: State, t: nat, w: Duplex.World)
    requires Asked(s) && Asked(s.(wire := w)) && 1 <= s.wire.agent.next < w.agent.next && t < |s.desk.requests|
    requires s.wire.agent.next in w.agentSent ==>
               w.agentSent[s.wire.agent.next] == CallFor(s.agent, s.desk.requests[t])
    ensures Asked(s.(wire := w, asked := s.asked[t := s.wire.agent.next]))
  {
  }

  lemma AskGood(s: State, details: string)
    requires GoodState(s)
    ensures GoodState(s.(desk := AskAt(s.desk, details)))
  {
    var n := |s.desk.requests|;
    assert s.desk.popped + (s.desk.queue + [n]) == (s.desk.popped + s.desk.queue) + [n];
  }

  lemma DrainGood(s: State)
    requires GoodState(s)
    ensures GoodState(s.(desk := DrainAt(s.desk)))
  {
    assert (s.desk.popped + s.desk.queue) + [] == s.desk.popped + s.desk.queue;
  }

  lemma TakeGood(s: State, act: Act)
    requires GoodState(s)
    ensures GoodState(Take(s, act))
  {
    match act
    case ToolAsks(details) => AskGood(s, details);
    case Tick(d) => DrainGood(s);
    case Forward(t, how) => ForwardGood(s, t, how);
    case Elsewhere(step) =>
      WireKeeps(s.wire, step);
      WireMoves(s, Duplex.Apply(s.wire, step));
    case _ =>
  }

  lemma {:induction false} RunsAreGood(agent: Agent, acts: seq<Act>)
    ensures GoodState(Run(agent, acts)) && Run(agent, acts).agent == agent
  {
    if acts == [] {
      Duplex.RunsAreGood([]);
    } else {
      var before := Run(agent, acts[..|acts| - 1]);
      RunsAreGood(agent, acts[..|acts| - 1]);
      TakeGood(before, acts[|acts| - 1]);
    }
  }

  // ---------------------------------------------------------------- main results

  /** In every run: a tool is allowed, once or for good, only if its request went
      to the client under a number no other request has, reached it under that
      number, and the client's first answer to that number selected exactly that
      option. */
  lemma ApprovalProvenance(agent: Agent, acts: seq<Act>, t: nat)
    requires t in Run(agent, acts).desk.decisions
    requires Run(agent, acts).desk.decisions[t].Allow? || Run(agent, acts).desk.decisions[t].AllowPermanently?
    ensures var s := Run(agent, acts);
            && t in s.asked && t < |s.desk.requests|
            && (forall u :: u in s.asked && u != t ==> s.asked[u] != s.asked[t])
            && s.asked[t] in s.wire.clientInbox
            && s.wire.clientInbox[s.asked[t]]
               == Call("session/request_permission",
                       ToolUseId(agent.sessionId, s.desk.requests[t].useNumber) + "\n" + s.desk.requests[t].details)
            && (var answer := FirstAnswer(s.wire.clientAnswers, s.asked[t]);
                && answer.Some? && answer.value.Success?
                && agent.read(answer.value.value)
                   == Selected(if s.desk.decisions[t].Allow? then "allow_once" else "allow_always"))
  {
    RunsAreGood(agent, acts);
    var s := Run(agent, acts);
    assert Duplex.Booked(AgentHalf(s.wire)) && Duplex.Honest(AgentHalf(s.wire));
  }

  /** In every run: a ticket is decided as its request was settled. It is allowed
      once or for good, or denied for good, exactly when the answer picked the
      option for that, and denied in every other case. */
  lemma DecisionIs(agent: Agent, acts: seq<Act>, t: nat)
    requires t in Run(agent, acts).desk.decisions
    ensures var s := Run(agent, acts);
            && t in s.asked && s.asked[t] in s.wire.agent.settled
            && DecisionMatches(s.desk.decisions[t], s.wire.agent.settled[s.asked[t]], agent.read)
  {
    RunsAreGood(agent, acts);
  }

  /** Every request leaves the queue once, in the order tools asked, into a
      drainer's hands; and no two requests share a number on the connection. */
  lemma EachForwardedOnce(agent: Agent, acts: seq<Act>)
    ensures var s := Run(agent, acts);
            && s.desk.popped + s.desk.queue == UpTo(|s.desk.requests|)
            && (forall t :: t in s.asked ==> t in s.desk.popped)
            && (forall t, u :: t in s.asked && u in s.asked && t != u ==> s.asked[t] != s.asked[u])
  {
    RunsAreGood(agent, acts);
  }

  lemma TakeKeeps(s: State, act: Act, t: nat)
    ensures var s' := Take(s, act);
            && (t in s.desk.decisions ==> t in s'.desk.decisions && s'.desk.decisions[t] == s.desk.decisions[t])
            && (t in s.asked ==> t in s'.asked && s'.asked[t] == s.asked[t])
            && s.desk.popped <= s'.desk.popped && s.desk.requests <= s'.desk.requests
  {
  }

  /** A decision is given at most once: it stands for the rest of the run, and so
      do the request and the number it was asked under. */
  lemma {:induction false} DecidedForGood(agent: Agent, acts: seq<Act>, more: seq<Act>, t: nat)
    ensures var s, s' := Run(agent, acts), Run(agent, acts + more);
            && (t in s.desk.decisions ==> t in s'.desk.decisions && s'.desk.decisions[t] == s.desk.decisions[t])
            && (t in s.asked ==> t in s'.asked && s'.asked[t] == s.asked[t])
            && s.desk.popped <= s'.desk.popped && s.desk.requests <= s'.desk.requests
  {
    if more == [] {
      assert acts + more == acts;
    } else {
      var init := more[..|more| - 1];
      DecidedForGood(agent, acts, init, t);
      TakeKeeps(Run(agent, acts + init), more[|more| - 1], t);
      assert (acts + more)[..|acts + more| - 1] == acts + init;
    }
  }

  /** The turn whose drainer this is has started and not ended since. */
  predicate AtWork(acts: seq<Act>, d: nat) {
    acts != [] && (acts[|acts| - 1] == TurnStarts(d)
                   || (acts[|acts| - 1] != TurnEnds(d) && AtWork(acts[..|acts| - 1], d)))
  }

  /** Requests leave the queue only into the hands of a drainer whose turn is
      under way. */
  lemma {:induction false} OnlyDrainersTake(agent: Agent, acts: seq<Act>, d: nat)
    ensures d in Run(agent, acts).drainers <==> AtWork(acts, d)
    ensures var s, s' := Run(agent, acts), Run(agent, acts + [Tick(d)]);
            s'.desk == if AtWork(acts, d) then s.desk.(queue := [], popped := s.desk.popped + s.desk.queue) else s.desk
  {
    Snoc(agent, acts, Tick(d));
    if acts != [] {
      OnlyDrainersTake(agent, acts[..|acts| - 1], d);
    }
  }

  /** Nothing is stuck: while a drainer runs, its next tick hands every queued
      ticket over, and each of those can then be put to the client. */
  lemma TickLeavesNothing(agent: Agent, acts: seq<Act>, d: nat, t: nat)
    requires d in Run(agent, acts).drainers && t in Run(agent, acts).desk.queue
    ensures var s := Run(agent, acts + [Tick(d)]);
            && s.desk.queue == [] && t in s.desk.popped && t !in s.asked
            && t in Run(agent, acts + [Tick(d), Forward(t, Written)]).asked
  {
    RunsAreGood(agent, acts);
    var s := Run(agent, acts);
    assert (acts + [Tick(d)])[..|acts|] == acts;
    assert (acts + [Tick(d), Forward(t, Written)])[..|acts| + 1] == acts + [Tick(d)];
    QueuedIsNotPopped(s, t);
  }

  function Elsewheres(steps: seq<Duplex.Step>): seq<Act> {
    if steps == [] then [] else Elsewheres(steps[..|steps| - 1]) + [Elsewhere(steps[|steps| - 1])]
  }

  lemma {:induction false} WireGoesOn(agent: Agent, acts: seq<Act>, steps: seq<Duplex.Step>)
    ensures var s := Run(agent, acts);
            Run(agent, acts + Elsewheres(steps)) == s.(wire := DuplexProgress.After(s.wire, steps))
  {
    if steps == [] {
      assert acts + [] == acts;
    } else {
      var init, last := steps[..|steps| - 1], steps[|steps| - 1];
      WireGoesOn(agent, acts, init);
      Snoc(agent, acts + Elsewheres(init), Elsewhere(last));
      ActsRegroup(acts, Elsewheres(init), [Elsewhere(last)]);
    }
  }

  lemma ActsRegroup(a: seq<Act>, b: seq<Act>, c: seq<Act>)
    ensures a + (b + c) == a + b + c
  {
  }

  /** A queued request gets through, from any moment of any run while a drainer is
      at work: it can be put to the client and answered, whatever the answer, and
      is then decided as the answer says. */
  lemma RequestGetsThrough(agent: Agent, acts: seq<Act>, d: nat, t: nat, outcome: Outcome) returns (more: seq<Act>)
    requires d in Run(agent, acts).drainers && t in Run(agent, acts).desk.queue
    ensures var s := Run(agent, acts + more);
            t in s.desk.decisions && DecisionMatches(s.desk.decisions[t], Answered(outcome), agent.read)
  {
    var n := Run(agent, acts).wire.agent.next;
    var put := acts + [Tick(d)] + [Forward(t, Written)];
    PutGoesOut(agent, acts, d, t);
    var steps := DuplexProgress.AgentRequestGetsThrough(Run(agent, put).wire, n, outcome);
    WireGoesOn(agent, put, steps);
    Snoc(agent, put + Elsewheres(steps), Decide(t));
    AnsweredIsDecided(Run(agent, put + Elsewheres(steps)), t, outcome);
    more := [Tick(d)] + [Forward(t, Written)] + Elsewheres(steps) + [Decide(t)];
    Regroup(acts, [Tick(d)], [Forward(t, Written)], Elsewheres(steps), [Decide(t)]);
    RunsAreGood(agent, acts);
  }

  lemma Regroup(a: seq<Act>, b: seq<Act>, c: seq<Act>, d: seq<Act>, e: seq<Act>)
    ensures a + (b + c + d + e) == a + b + c + d + e
  {
  }

  /** A tick and a forward put a queued ticket on the wire, where it waits. */
  lemma PutGoesOut(agent: Agent, acts: seq<Act>, d: nat, t: nat)
    requires d in Run(agent, acts).drainers && t in Run(agent, acts).desk.queue
    ensures var n, s := Run(agent, acts).wire.agent.next, Run(agent, acts + [Tick(d)] + [Forward(t, Written)]);
            && s.agent == agent && t in s.asked && s.asked[t] == n && t !in s.desk.decisions
            && Duplex.Good(s.wire) && n in s.wire.agentSent && n !in s.wire.agent.settled
            && FirstAnswer(s.wire.clientAnswers, n) == None
  {
    RunsAreGood(agent, acts);
    var s := Run(agent, acts);
    QueuedIsNotPopped(s, t);
    StillUndecided(agent, acts, t);
    Snoc(agent, acts, Tick(d));
    Snoc(agent, acts + [Tick(d)], Forward(t, Written));
    PutWaits(Run(agent, acts + [Tick(d)]), t);
  }

  lemma PutWaits(s: State, t: nat)
    requires Duplex.Good(s.wire) && t in s.desk.popped && t !in s.asked && t < |s.desk.requests|
    ensures var n, s' := s.wire.agent.next, Take(s, Forward(t, Written));
            && s'.agent == s.agent && s'.desk == s.desk && t in s'.asked && s'.asked[t] == n
            && Duplex.Good(s'.wire) && n in s'.wire.agentSent && n !in s'.wire.agent.settled
            && FirstAnswer(s'.wire.clientAnswers, n) == None
  {
    DuplexProgress.AgentRequestWaits(s.wire, CallFor(s.agent, s.desk.requests[t]));
    assert Take(s, Forward(t, Written)) == Put(s, t, Written);
  }

  lemma AnsweredIsDecided(s: State, t: nat, outcome: Outcome)
    requires t in s.asked && t !in s.desk.decisions
    requires s.asked[t] in s.wire.agent.settled && s.wire.agent.settled[s.asked[t]] == Answered(outcome)
    ensures var s' := Take(s, Decide(t));
            t in s'.desk.decisions && DecisionMatches(s'.desk.decisions[t], Answered(outcome), s.agent.read)
  {
  }

  lemma StillUndecided(agent: Agent, acts: seq<Act>, t: nat)
    requires t !in Run(agent, acts).desk.popped
    ensures t !in Run(agent, acts).asked && t !in Run(agent, acts).desk.decisions
  {
    RunsAreGood(agent, acts);
  }

  lemma QueuedIsNotPopped(s: State, t: nat)
    requires Ticketed(s) && t in s.desk.queue
    ensures t !in s.desk.popped && t < |s.desk.requests|
  {
    var i :| 0 <= i < |s.desk.queue| && s.desk.queue[i] == t;
    var all := UpTo(|s.desk.requests|);
    assert all[|s.desk.popped| + i] == t;
    forall j | 0 <= j < |s.desk.popped|
      ensures s.desk.popped[j] != t
    {
      assert all[j] == s.desk.popped[j];
    }
  }

  // ---------------------------------------------------------------- tool use ids

  function AsksIn(acts: seq<Act>): nat {
    if acts == [] then 0 else AsksIn(acts[..|acts| - 1]) + (if acts[|acts| - 1].ToolAsks? then 1 else 0)
  }

  /** The number of the model turn under way, 0 before the first. */
  function LastStored(acts: seq<Act>): nat {
    if acts == [] then 0
    else if acts[|acts| - 1].ModelTurn? then acts[|acts| - 1].turn
    else LastStored(acts[..|acts| - 1])
  }

  /** How many requests were made since that turn began. */
  function AsksSinceStore(acts: seq<Act>): nat {
    if acts == [] || acts[|acts| - 1].ModelTurn? then 0
    else AsksSinceStore(acts[..|acts| - 1]) + (if acts[|acts| - 1].ToolAsks? then 1 else 0)
  }

  lemma {:induction false} CounterIs(agent: Agent, acts: seq<Act>)
    ensures Run(agent, acts).desk.counter == LastStored(acts) + AsksSinceStore(acts)
    ensures |Run(agent, acts).desk.requests| == AsksIn(acts)
  {
    if acts != [] {
      CounterIs(agent, acts[..|acts| - 1]);
    }
  }

  /** The request a tool makes at step `p` is named after the model turn and the
      requests made in it so far. */
  lemma {:induction false} RequestIs(agent: Agent, acts: seq<Act>, p: nat)
    requires p < |acts| && acts[p].ToolAsks?
    ensures var i, requests := AsksIn(acts[..p]), Run(agent, acts).desk.requests;
            && i < |requests|
            && requests[i] == ToolRequest(LastStored(acts[..p]) + AsksSinceStore(acts[..p]), acts[p].details)
  {
    var init := acts[..|acts| - 1];
    if p == |init| {
      CounterIs(agent, init);
    } else {
      assert init[..p] == acts[..p];
      RequestIs(agent, init, p);
      TakeKeeps(Run(agent, init), acts[|init|], 0);
    }
  }

  /** Two requests of a session carry the same tool use id exactly when model
      turn plus requests made in it so far come to the same for both. */
  lemma SharedIdIff(agent: Agent, acts: seq<Act>, p: nat, q: nat)
    requires p < |acts| && q < |acts| && acts[p].ToolAsks? && acts[q].ToolAsks?
    ensures var requests := Run(agent, acts).desk.requests;
            var i, j := AsksIn(acts[..p]), AsksIn(acts[..q]);
            && i < |requests| && j < |requests|
            && (ToolUseId(agent.sessionId, requests[i].useNumber) == ToolUseId(agent.sessionId, requests[j].useNumber)
                <==> LastStored(acts[..p]) + AsksSinceStore(acts[..p]) == LastStored(acts[..q]) + AsksSinceStore(acts[..q]))
  {
    RequestIs(agent, acts, p);
    RequestIs(agent, acts, q);
    ToolUseIdsDiffer(agent.sessionId, LastStored(acts[..p]) + AsksSinceStore(acts[..p]),
                     LastStored(acts[..q]) + AsksSinceStore(acts[..q]));
  }

  /** Within one model turn the sum only grows, so its requests are all told apart. */
  lemma DistinctInOneModelTurn(agent: Agent, acts: seq<Act>, p: nat, q: nat)
    requires p < q < |acts| && acts[p].ToolAsks? && acts[q].ToolAsks?
    requires forall k :: p < k < q ==> !acts[k].ModelTurn?
    ensures var requests := Run(agent, acts).desk.requests;
            var i, j := AsksIn(acts[..p]), AsksIn(acts[..q]);
            && i < j < |requests|
            && ToolUseId(agent.sessionId, requests[i].useNumber) != ToolUseId(agent.sessionId, requests[j].useNumber)
  {
    SharedIdIff(agent, acts, p, q);
    AsksGrow(acts, p, q);
  }

  lemma {:induction false} AsksGrow(acts: seq<Act>, p: nat, q: nat)
    requires p < q <= |acts| && acts[p].ToolAsks?
    requires forall k :: p < k < q ==> !acts[k].ModelTurn?
    ensures LastStored(acts[..q]) == LastStored(acts[..p])
    ensures AsksSinceStore(acts[..q]) > AsksSinceStore(acts[..p]) && AsksIn(acts[..q]) > AsksIn(acts[..p])
  {
    assert acts[..q][..q - 1] == acts[..q - 1];
    if p < q - 1 {
      AsksGrow(acts, p, q - 1);
    }
  }

  /** Ids do repeat: in the first turns of two prompts, and in two turns of one. */
  lemma TwoRequestsOneId(agent: Agent, a: string, b: string, c: string)
    ensures var acts := [] + [ModelTurn(1)] + [ToolAsks(a)] + [ModelTurn(1)] + [ToolAsks(b)];
            Run(agent, acts).desk.requests == [ToolRequest(1, a), ToolRequest(1, b)]
    ensures var acts := [] + [ModelTurn(1)] + [ToolAsks(a)] + [ToolAsks(b)] + [ModelTurn(2)] + [ToolAsks(c)];
            Run(agent, acts).desk.requests == [ToolRequest(1, a), ToolRequest(2, b), ToolRequest(2, c)]
  {
    Snoc(agent, [], ModelTurn(1));
    var first := [] + [ModelTurn(1)] + [ToolAsks(a)];
    Snoc(agent, [] + [ModelTurn(1)], ToolAsks(a));
    Snoc(agent, first, ModelTurn(1));
    Snoc(agent, first + [ModelTurn(1)], ToolAsks(b));
    Snoc(agent, first, ToolAsks(b));
    Snoc(agent, first + [ToolAsks(b)], ModelTurn(2));
    Snoc(agent, first + [ToolAsks(b)] + [ModelTurn(2)], ToolAsks(c));
  }

  lemma Snoc(agent: Agent, acts: seq<Act>, act: Act)
    ensures Run(agent, acts + [act]) == Take(Run(agent, acts), act)
  {
    assert (acts + [act])[..|acts|] == acts;
  }
}
