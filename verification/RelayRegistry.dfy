/** The relay's own operations, over any history, run the protocol: what they
    make of a session since its first contact is what the protocol's steps make
    of its one session. So what holds in every run of the protocol holds of
    the registry. */
module RelayRegistry {
  import opened Common
  import opened RelayModel
  import opened RelayInbound
  import Lifetime = RelayLifetime
  import Protocol = RelayProtocol

  /** What one operation is to session `id`. A drain is a poll of its own. */
  function StepOf(entry: Lifetime.Entry, id: SessionId, poll: nat): seq<Protocol.Step> {
    match entry.op
    case Register(other, facts) => if other == id then [Protocol.Register(facts, entry.now)] else []
    case TakeInbound(other) => if other == id then [Protocol.PollBegin(poll, entry.now)] else []
    case PushInbound(other, message) => if other == id then [Protocol.Push(message)] else []
    case PushEvents(other, batch) => if other == id then [Protocol.Upload(batch, entry.now)] else []
    case _ => []
  }

  /** The run of the current incarnation: when it began, and its steps since. */
  datatype Incarnation = Incarnation(start: Instant, steps: seq<Protocol.Step>)

  function Since(history: seq<Lifetime.Entry>, id: SessionId, ttl: nat): Incarnation {
    if Lifetime.LastContact(history, id, ttl).None? then Incarnation(0, [])
    else
      var n := |history| - 1;
      var step := StepOf(history[n], id, n);
      if Lifetime.LastContact(history[..n], id, ttl).None? then Incarnation(history[n].now, step)
      else
        var earlier := Since(history[..n], id, ttl);
        earlier.(steps := earlier.steps + step)
  }

  function WorldOf(history: seq<Lifetime.Entry>, id: SessionId, limits: Limits): Protocol.World {
    var run := Since(history, id, limits.sessionTtl);
    Protocol.Exec(run.start, run.steps, limits)
  }

  /** An operation on a session that is there does what its step does. */
  lemma OperationIsStep(sessions: map<SessionId, SessionValue>, entry: Lifetime.Entry, limits: Limits,
                        id: SessionId, w: Protocol.World, poll: nat)
    requires id in sessions && w.session == sessions[id] && poll !in w.polls
    requires id in Lifetime.Apply(sessions, entry, limits)
    ensures var step := StepOf(entry, id, poll);
            && |step| <= 1
            && Lifetime.Apply(sessions, entry, limits)[id]
               == (if step == [] then w else Protocol.Apply(w, step[0], limits)).session
  {
  }

  /** The first one makes the session it finds missing. */
  lemma FirstOperation(sessions: map<SessionId, SessionValue>, entry: Lifetime.Entry, limits: Limits, id: SessionId, poll: nat)
    requires id !in sessions && Lifetime.Contact(entry.op, id)
    ensures var step := StepOf(entry, id, poll);
            && |step| == 1 && id in Lifetime.Apply(sessions, entry, limits)
            && Lifetime.Apply(sessions, entry, limits)[id]
               == Protocol.Apply(Protocol.Init(entry.now), step[0], limits).session
  {
  }

  lemma ExecOne(now: Instant, steps: seq<Protocol.Step>, step: seq<Protocol.Step>, limits: Limits)
    requires |step| <= 1
    ensures Protocol.Exec(now, steps + step, limits)
         == if step == [] then Protocol.Exec(now, steps, limits)
            else Protocol.Apply(Protocol.Exec(now, steps, limits), step[0], limits)
  {
    if step == [] {
      assert steps + step == steps;
    } else {
      assert (steps + step)[..|steps|] == steps;
    }
  }

  ghost predicate PollsBelow(w: Protocol.World, bound: nat) {
    forall p :: p in w.polls ==> p < bound
  }

  lemma PollsStayBelow(w: Protocol.World, entry: Lifetime.Entry, id: SessionId, n: nat, limits: Limits)
    requires PollsBelow(w, n)
    ensures var step := StepOf(entry, id, n);
            |step| <= 1 && (step != [] ==> PollsBelow(Protocol.Apply(w, step[0], limits), n + 1))
  {
  }

  /** In every history, a session that exists is what its incarnation's run of
      the protocol has made of it. */
  lemma {:induction false} RegistryRunsTheProtocol(history: seq<Lifetime.Entry>, limits: Limits, id: SessionId)
    ensures PollsBelow(WorldOf(history, id, limits), |history|)
    ensures id in Lifetime.Exec(history, limits) ==>
              Lifetime.Exec(history, limits)[id] == WorldOf(history, id, limits).session
  {
    Lifetime.LivesFollow(history, limits, id);
    if Lifetime.LastContact(history, id, limits.sessionTtl).Some? {
      var n := |history| - 1;
      var before, entry := history[..n], history[n];
      var step := StepOf(entry, id, n);
      RegistryRunsTheProtocol(before, limits, id);
      Lifetime.LivesFollow(before, limits, id);
      if Lifetime.LastContact(before, id, limits.sessionTtl).None? {
        FirstOperation(Lifetime.Exec(before, limits), entry, limits, id, n);
        ExecOne(entry.now, [], step, limits);
        assert [] + step == step;
        PollsStayBelow(Protocol.Init(entry.now), entry, id, n, limits);
      } else {
        var run := Since(before, id, limits.sessionTtl);
        var w := Protocol.Exec(run.start, run.steps, limits);
        OperationIsStep(Lifetime.Exec(before, limits), entry, limits, id, w, n);
        PollsStayBelow(w, entry, id, n, limits);
        ExecOne(run.start, run.steps, step, limits);
      }
    }
  }

  /** So every message an incarnation accepted is in exactly one answer, still in
      the registry's queue for that session, or dropped by overflow. */
  lemma RegistryConserves(history: seq<Lifetime.Entry>, limits: Limits, id: SessionId)
    requires id in Lifetime.Exec(history, limits)
    ensures var w := WorldOf(history, id, limits);
            && Lifetime.Exec(history, limits)[id].toRunner == Messages(w.queued)
            && Listed(w.polls, w.answered) && w.delivered == Handed(w.polls, w.answered)
            && multiset(w.delivered) + multiset(w.queued) + multiset(w.dropped) == multiset(AllTagged(w.accepted))
            && Rising(w.delivered + w.queued) && Rising(w.dropped + w.queued)
  {
    var run := Since(history, id, limits.sessionTtl);
    RegistryRunsTheProtocol(history, limits, id);
    InboundConservation(run.start, run.steps, limits);
  }

  /** And a drain hands over what the registry has queued for the session. */
  lemma DrainIsAnswer(history: seq<Lifetime.Entry>, limits: Limits, id: SessionId, now: Instant)
    requires id in Lifetime.Exec(history, limits)
    ensures var queued := Lifetime.Exec(history, limits)[id].toRunner;
            var after := history + [Lifetime.Entry(Lifetime.TakeInbound(id), now)];
            var w := WorldOf(after, id, limits);
            && id in Lifetime.Exec(after, limits) && Lifetime.Exec(after, limits)[id].toRunner == []
            && |history| in w.polls
            && (if queued == [] then w.polls[|history|].Waiting?
                else w.polls[|history|].Answered? && w.polls[|history|].response == queued)
  {
    var entry := Lifetime.Entry(Lifetime.TakeInbound(id), now);
    var after := history + [entry];
    assert after[..|history|] == history;
    RegistryRunsTheProtocol(history, limits, id);
    Lifetime.LivesFollow(history, limits, id);
    Lifetime.LivesFollow(after, limits, id);
    var run := Since(history, id, limits.sessionTtl);
    ExecOne(run.start, run.steps, StepOf(entry, id, |history|), limits);
  }
}
