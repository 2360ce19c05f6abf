/** Answers do get through: whatever is on the pipes, a request that was written
    and is still waited for can be read, answered, and settled with that answer. */
module DuplexProgress {
  import opened Common
  import opened JsonRpc
  import opened Endpoints
  import opened Duplex

  function After(w: World, steps: seq<Step>): World {
    if steps == [] then w else Apply(After(w, steps[..|steps| - 1]), steps[|steps| - 1])
  }

  lemma {:induction false} AfterJoin(w: World, a: seq<Step>, b: seq<Step>)
    ensures After(w, a + b) == After(After(w, a), b)
  {
    if b == [] {
      assert a + b == a;
    } else {
      var n := |b| - 1;
      AfterJoin(w, a, b[..n]);
      assert (a + b)[..|a + b| - 1] == a + b[..n];
    }
  }

  lemma AfterOne(w: World, step: Step)
    ensures After(w, [step]) == Apply(w, step)
  {
    assert [step][..0] == [];
  }

  lemma {:induction false} AfterExec(steps: seq<Step>, more: seq<Step>)
    ensures Exec(steps + more) == After(Exec(steps), more)
  {
    if more == [] {
      assert steps + more == steps;
    } else {
      var n := |more| - 1;
      AfterExec(steps, more[..n]);
      ExecJoin(steps, more);
    }
  }

  lemma AfterSnoc(w: World, steps: seq<Step>, step: Step)
    ensures After(w, steps + [step]) == Apply(After(w, steps), step)
  {
    assert (steps + [step])[..|steps|] == steps;
  }

  /** New settlements are answers, and old ones stay. */
  ghost predicate SettledByAnswers(before: map<int, Settled>, after: map<int, Settled>) {
    && (forall n :: n in before ==> n in after && after[n] == before[n])
    && (forall n :: n in after && n !in before ==> after[n].Answered?)
  }

  // ---------------------------------------------------------------- emptying a pipe

  lemma ClientReadsOne(w: World)
    requires Good(w) && w.toClient != []
    ensures var w' := Apply(w, ClientReads);
            && Good(w') && w'.toClient == w.toClient[1..] && w'.toAgent == w.toAgent && w'.agent == w.agent
            && w'.agentSent == w.agentSent && w'.clientAnswers == w.clientAnswers
            && w'.clientSent == w.clientSent && w'.agentAnswers == w.agentAnswers && w'.agentInbox == w.agentInbox
            && SettledByAnswers(w.client.settled, w'.client.settled)
  {
    StepGood(w, ClientReads);
    forall n: int
      ensures n in w.client.settled ==>
                n in Apply(w, ClientReads).client.settled && Apply(w, ClientReads).client.settled[n] == w.client.settled[n]
    {
      StepSettlesOnce(w, ClientReads, n);
    }
  }

  /** The client can read its pipe empty while nothing else happens. */
  lemma {:induction false} ClientReadsAll(w: World) returns (steps: seq<Step>)
    requires Good(w)
    ensures var w' := After(w, steps);
            && Good(w') && w'.toClient == [] && w'.toAgent == w.toAgent && w'.agent == w.agent
            && w'.agentSent == w.agentSent && w'.clientAnswers == w.clientAnswers
            && w'.clientSent == w.clientSent && w'.agentAnswers == w.agentAnswers && w'.agentInbox == w.agentInbox
            && SettledByAnswers(w.client.settled, w'.client.settled)
    decreases |w.toClient|
  {
    if w.toClient == [] {
      steps := [];
    } else {
      ClientReadsOne(w);
      AfterOne(w, ClientReads);
      var rest := ClientReadsAll(Apply(w, ClientReads));
      AfterJoin(w, [ClientReads], rest);
      steps := [ClientReads] + rest;
    }
  }

  lemma AgentReadsOne(w: World)
    requires Good(w) && w.toAgent != []
    ensures var w' := Apply(w, AgentReads);
            && Good(w') && w'.toAgent == w.toAgent[1..] && w'.client == w.client
            && w'.agentSent == w.agentSent && w'.clientAnswers == w.clientAnswers && w'.clientInbox == w.clientInbox
            && w'.clientSent == w.clientSent && w'.agentAnswers == w.agentAnswers
            && SettledByAnswers(w.agent.settled, w'.agent.settled)
  {
    StepGood(w, AgentReads);
    forall n: int
      ensures n in w.agent.settled ==>
                n in Apply(w, AgentReads).agent.settled && Apply(w, AgentReads).agent.settled[n] == w.agent.settled[n]
    {
      StepSettlesOnce(w, AgentReads, n);
    }
  }

  /** The agent can read its pipe empty; it may complain about garbage meanwhile. */
  lemma {:induction false} AgentReadsAll(w: World) returns (steps: seq<Step>)
    requires Good(w)
    ensures var w' := After(w, steps);
            && Good(w') && w'.toAgent == [] && w'.client == w.client
            && w'.agentSent == w.agentSent && w'.clientAnswers == w.clientAnswers && w'.clientInbox == w.clientInbox
            && w'.clientSent == w.clientSent && w'.agentAnswers == w.agentAnswers
            && SettledByAnswers(w.agent.settled, w'.agent.settled)
    decreases |w.toAgent|
  {
    if w.toAgent == [] {
      steps := [];
    } else {
      AgentReadsOne(w);
      AfterOne(w, AgentReads);
      var rest := AgentReadsAll(Apply(w, AgentReads));
      AfterJoin(w, [AgentReads], rest);
      steps := [AgentReads] + rest;
    }
  }

  // ---------------------------------------------------------------- one direction

  /** Once every answer has arrived, a request with an answer is settled with it,
      unless it was settled otherwise before. */
  lemma AllArrived(h: Half, n: int, outcome: Outcome)
    requires HalfGood(h) && h.back == [] && n in h.sent && FirstAnswer(h.answers, n) == Some(outcome)
    ensures n in h.settled && (h.settled[n].Answered? ==> h.settled[n] == Answered(outcome))
  {
    assert h.answers == h.got + [] == h.got;
  }

  lemma FirstGiven(answers: seq<Packet>, n: int, outcome: Outcome)
    requires FirstAnswer(answers, n) == None
    ensures FirstAnswer(answers + [Reply(n, outcome)], n) == Some(outcome)
  {
    FirstAnswerJoin(answers, [Reply(n, outcome)], n);
    FirstOfOne(Reply(n, outcome), n);
  }

  // ---------------------------------------------------------------- main results

  /** In any run: a request the agent wrote and still waits for, which the client
      has not answered yet, can be answered, and is then settled with what the
      client says. */
  lemma AgentRequestGetsThrough(w: World, n: int, outcome: Outcome) returns (steps: seq<Step>)
    requires Good(w) && n in w.agentSent && n !in w.agent.settled && FirstAnswer(w.clientAnswers, n) == None
    ensures var w' := After(w, steps);
            && Good(w') && n in w'.agent.settled && w'.agent.settled[n] == Answered(outcome)
            && n in w'.clientInbox && w'.clientInbox[n] == w.agentSent[n]
  {
    var first := ClientReadsAll(w);
    var w1, reply := After(w, first), ClientReplies(n, outcome);
    ClientAnswers(w1, n, outcome);
    var last := AgentReadsAll(Apply(w1, reply));
    ThreeParts(w, first, reply, last);
    steps := first + [reply] + last;
    AllArrived(AgentHalf(After(w, steps)), n, outcome);
  }

  lemma ThreeParts(w: World, first: seq<Step>, step: Step, last: seq<Step>)
    ensures After(w, first + [step] + last) == After(Apply(After(w, first), step), last)
  {
    AfterSnoc(w, first, step);
    AfterJoin(w, first + [step], last);
  }

  lemma ClientAnswers(w: World, n: int, outcome: Outcome)
    requires Good(w) && w.toClient == [] && n in w.agentSent && FirstAnswer(w.clientAnswers, n) == None
    ensures n in w.clientInbox && w.clientInbox[n] == w.agentSent[n]
    ensures var w' := Apply(w, ClientReplies(n, outcome));
            && Good(w') && FirstAnswer(w'.clientAnswers, n) == Some(outcome)
            && w'.agent == w.agent && w'.agentSent == w.agentSent && w'.clientInbox == w.clientInbox
  {
    Delivered(AgentHalf(w), n);
    StepGood(w, ClientReplies(n, outcome));
    FirstGiven(w.clientAnswers, n, outcome);
    ReplyOnly(w, n, outcome);
  }

  lemma ReplyOnly(w: World, n: int, outcome: Outcome)
    requires n in w.clientInbox
    ensures Apply(w, ClientReplies(n, outcome))
         == w.(toAgent := w.toAgent + [Reply(n, outcome)], clientAnswers := w.clientAnswers + [Reply(n, outcome)])
  {
  }

  /** With nothing on the way, what was written has arrived. */
  lemma Delivered(h: Half, n: int)
    requires HalfGood(h) && h.forward == [] && n in h.sent
    ensures n in h.inbox && h.inbox[n] == h.sent[n]
  {
  }

  /** And the same the other way round. */
  lemma ClientRequestGetsThrough(w: World, n: int, outcome: Outcome) returns (steps: seq<Step>)
    requires Good(w) && n in w.clientSent && n !in w.client.settled && FirstAnswer(w.agentAnswers, n) == None
    ensures var w' := After(w, steps);
            && Good(w') && n in w'.client.settled && w'.client.settled[n] == Answered(outcome)
            && n in w'.agentInbox && w'.agentInbox[n] == w.clientSent[n]
  {
    var first := AgentReadsAll(w);
    var w1, reply := After(w, first), AgentReplies(n, outcome);
    AgentAnswers(w1, n, outcome);
    var last := ClientReadsAll(Apply(w1, reply));
    ThreeParts(w, first, reply, last);
    steps := first + [reply] + last;
    AllArrived(ClientHalf(After(w, steps)), n, outcome);
  }

  lemma AgentAnswers(w: World, n: int, outcome: Outcome)
    requires Good(w) && w.toAgent == [] && n in w.clientSent && FirstAnswer(w.agentAnswers, n) == None
    ensures n in w.agentInbox && w.agentInbox[n] == w.clientSent[n]
    ensures var w' := Apply(w, AgentReplies(n, outcome));
            && Good(w') && FirstAnswer(w'.agentAnswers, n) == Some(outcome)
            && w'.client == w.client && w'.clientSent == w.clientSent && w'.agentInbox == w.agentInbox
  {
    Delivered(ClientHalf(w), n);
    StepGood(w, AgentReplies(n, outcome));
    FirstGiven(w.agentAnswers, n, outcome);
  }

  /** A new request of the agent's is written and waits, in any run. */
  lemma AgentRequestWaits(w: World, call: Call)
    requires Good(w)
    ensures var n, w' := w.agent.next, Apply(w, AgentAsks(call, Written));
            && Good(w') && w'.agent.next == n + 1
            && n in w'.agentSent && w'.agentSent[n] == call && n !in w'.agent.settled
            && FirstAnswer(w'.clientAnswers, n) == None
  {
    StepGood(w, AgentAsks(call, Written));
    assert Booked(AgentHalf(w));
    NotAnswered(w.clientAnswers, w.agent.next);
  }

  /** And one of the client's, with a timer exactly when it has a deadline. */
  lemma ClientRequestWaits(w: World, call: Call, deadline: bool)
    requires Good(w)
    ensures var n, w' := w.client.next, Apply(w, ClientAsks(call, deadline));
            && Good(w') && w'.client.next == n + 1
            && n in w'.clientSent && w'.clientSent[n] == call && n !in w'.client.settled
            && (n in w'.client.timers <==> deadline) && FirstAnswer(w'.agentAnswers, n) == None
  {
    StepGood(w, ClientAsks(call, deadline));
    assert Booked(ClientHalf(w));
    NotAnswered(w.agentAnswers, w.client.next);
  }

  /** When the agent's process is gone, every request that waited is refused, and
      nothing that was settled changes. */
  lemma ExitRefusesAll(w: World)
    requires Good(w)
    ensures var w' := Apply(w, ClientExits);
            && w'.client.pending == {} && w'.client.timers == {}
            && (forall n :: n in w.client.pending ==> n in w'.client.settled && w'.client.settled[n] == Exited)
            && (forall n :: n in w.client.settled ==> n in w'.client.settled && w'.client.settled[n] == w.client.settled[n])
            && (forall n :: n in w'.client.settled ==> n in w.client.settled || n in w.client.pending)
  {
    assert Booked(ClientHalf(w));
  }

  /** A caller of the agent's that goes away leaves its request settled as that. */
  lemma AbandonSettles(w: World, n: int)
    requires Good(w) && 1 <= n < w.agent.next && n !in w.agent.settled
    ensures Apply(w, AgentAbandons(n)).agent == w.agent.(settled := w.agent.settled[n := Abandoned])
  {
  }

  /** Everything else that is said travels too, and garbage is answered. */
  lemma NoiseTravels(w: World, line: Line)
    requires Proper(Noise(line))
    ensures Apply(w, AgentSays(line)) == w.(toClient := w.toClient + [Noise(line)])
    ensures Apply(w, ClientSays(line)) == w.(toAgent := w.toAgent + [Noise(line)])
    ensures w.toAgent != [] && w.toAgent[0] == Noise(line) && line.Garbage? ==>
              Apply(w, AgentReads)
              == w.(toAgent := w.toAgent[1..],
                    toClient := w.toClient + [Noise(Message(Some(NullId), Absent, None, None, Some("parse error")))])
  {
  }

  /** A deadline that runs out times its request out, and only it. */
  lemma DeadlineSettles(w: World, n: int)
    requires Good(w) && n in w.client.timers
    ensures var w' := Apply(w, ClientTimesOut(n));
            && w'.client.settled == w.client.settled[n := TimedOut] && n !in w.client.settled
            && w'.client.pending == w.client.pending - {n} && w'.client.timers == w.client.timers - {n}
  {
    assert Booked(ClientHalf(w));
  }
}
