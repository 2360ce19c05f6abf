/** The page and the relay together: one session of the relay, and a page that
    may look at it, leave it and come back. What the page does to its streams of
    that session are the protocol's steps; everything else goes on around it. */
module RelayPage {
  import opened Common
  import opened RelayModel
  import opened RelayProtocol
  import opened RelayDelivery
  import RelayOverlap
  import LivePage

  /** What the page has done so far, and what has happened to the session. */
  datatype Joint = Joint(acts: seq<LivePage.Act>, steps: seq<Step>)

  datatype Move = Does(act: LivePage.Act) | Elsewhere(step: Step)

  /** The steps that are page `c`'s to take. */
  predicate Own(step: Step, c: nat) {
    (step.Attach? || step.Receive? || step.Drop? || step.Leave?) && step.client == c
  }

  /** What an act of page `c` is to session `id`, while it holds one stream at most. */
  function Follow(p: LivePage.Page, act: LivePage.Act, id: SessionId, c: nat): seq<Step> {
    match act
    case Open(other) =>
      if p.sessionId == Some(other) then []
      else if p.sessionId == Some(id) then [Leave(c)]
      else if other == id then [Attach(c)]
      else []
    case Leave => if p.sessionId == Some(id) then [Leave(c)] else []
    case Fail(source) => if source in p.open && p.open[source] == id then [Drop(c, 0)] else []
    case TimerFired(i) =>
      if i < |p.timers| && p.timers[i] == id && p.sessionId == Some(id) then [Attach(c)] else []
    case Message(source, _) => if source in p.open && p.open[source] == id then [Receive(c, 0)] else []
    case _ => []
  }

  /** A message is what the stream it comes on has sent. */
  predicate Possible(p: LivePage.Page, act: LivePage.Act, id: SessionId, cl: Client) {
    act.Message? && act.source in p.open && p.open[act.source] == id ==>
      cl.sources != [] && cl.sources[0].wire != [] && cl.sources[0].wire[0].number == act.number
  }

  function Together(now: Instant, moves: seq<Move>, limits: Limits, id: SessionId, c: nat): Joint {
    if moves == [] then Joint([], [])
    else
      var j := Together(now, moves[..|moves| - 1], limits, id, c);
      match moves[|moves| - 1]
      case Elsewhere(step) => if Own(step, c) then j else j.(steps := j.steps + [step])
      case Does(act) =>
        var p := LivePage.Run(j.acts);
        if Possible(p, act, id, ClientOf(Exec(now, j.steps, limits), c))
        then Joint(j.acts + [act], j.steps + Follow(p, act, id, c))
        else j
  }

  // ---------------------------------------------------------------- in step

  /** Page and relay agree on the page's stream of the session, and on the number
      it would resume from. */
  ghost predicate Agree(p: LivePage.Page, cl: Client, id: SessionId) {
    && LivePage.OneStream(p)
    && |cl.sources| <= 1
    && (p.sessionId == Some(id) ==> (cl.sources == [] <==> p.open == map[]) && cl.lastSeq == p.lastSeq)
    && (p.sessionId != Some(id) ==> cl.sources == [] && cl.lastSeq == 0)
  }

  ghost predicate InStep(now: Instant, j: Joint, limits: Limits, id: SessionId, c: nat) {
    && Agree(LivePage.Run(j.acts), ClientOf(Exec(now, j.steps, limits), c), id)
    && OneStream(now, j.steps, limits, c)
  }

  lemma ExecOne(now: Instant, steps: seq<Step>, step: Step, limits: Limits)
    ensures Exec(now, steps + [step], limits) == Apply(Exec(now, steps, limits), step, limits)
  {
    assert (steps + [step])[..|steps|] == steps;
  }

  lemma OneStreamNext(now: Instant, steps: seq<Step>, step: Step, limits: Limits, c: nat)
    requires OneStream(now, steps, limits, c)
    requires step == Attach(c) ==> ClientOf(Exec(now, steps, limits), c).sources == []
    ensures OneStream(now, steps + [step], limits, c)
  {
    var all := steps + [step];
    forall i | 0 <= i < |all| && all[i] == Attach(c)
      ensures ClientOf(Exec(now, all[..i], limits), c).sources == []
    {
      assert all[..i] == steps[..i];
      assert steps[..|steps|] == steps;
    }
  }

  /** Nothing but the page's own steps opens or closes its streams or moves its number. */
  lemma ElsewhereKeeps(w: World, step: Step, limits: Limits, c: nat)
    requires !Own(step, c)
    ensures var cl, cl' := ClientOf(w, c), ClientOf(Apply(w, step, limits), c);
            |cl'.sources| == |cl.sources| && cl'.lastSeq == cl.lastSeq
  {
  }

  function Reacts(cl: Client, steps: seq<Step>, s: SessionValue): Client {
    if steps == [] then cl else ClientStep(cl, steps[0], s)
  }

  /** An act that is no overlapping timer keeps the two in step. */
  lemma ActAgrees(p: LivePage.Page, act: LivePage.Act, cl: Client, id: SessionId, c: nat, s: SessionValue)
    requires Agree(p, cl, id) && Possible(p, act, id, cl) && !LivePage.Overlaps(p, act)
    ensures Agree(LivePage.Take(p, act), Reacts(cl, Follow(p, act, id, c), s), id)
    ensures Follow(p, act, id, c) == [Attach(c)] ==> cl.sources == []
  {
    LivePage.SecondStreamOnlyByTimer(p, act);
    match act
    case Fail(source) =>
      if source in p.open {
        assert p.open.Keys == {source};
        assert (p.open - {source}).Keys == {};
        assert p.open - {source} == map[];
      }
    case _ =>
  }

  lemma MoveInStep(now: Instant, moves: seq<Move>, limits: Limits, id: SessionId, c: nat)
    requires moves != []
    requires LivePage.NeverOverlaps(Together(now, moves, limits, id, c).acts)
    requires InStep(now, Together(now, moves[..|moves| - 1], limits, id, c), limits, id, c)
    ensures InStep(now, Together(now, moves, limits, id, c), limits, id, c)
  {
    var j := Together(now, moves[..|moves| - 1], limits, id, c);
    var w, p := Exec(now, j.steps, limits), LivePage.Run(j.acts);
    match moves[|moves| - 1]
    case Elsewhere(step) =>
      if !Own(step, c) {
        ExecOne(now, j.steps, step, limits);
        ElsewhereKeeps(w, step, limits, c);
        OneStreamNext(now, j.steps, step, limits, c);
      }
    case Does(act) =>
      if Possible(p, act, id, ClientOf(w, c)) {
        ActsOne(j.acts, act);
        ActAgrees(p, act, ClientOf(w, c), id, c, w.session);
        FollowInStep(now, j, act, limits, id, c);
      }
  }

  lemma OwnStep(w: World, step: Step, limits: Limits, c: nat)
    requires Own(step, c)
    ensures ClientOf(Apply(w, step, limits), c) == ClientStep(ClientOf(w, c), step, w.session)
  {
  }

  lemma FollowIsOwn(p: LivePage.Page, act: LivePage.Act, id: SessionId, c: nat)
    ensures Follow(p, act, id, c) == [] || (|Follow(p, act, id, c)| == 1 && Own(Follow(p, act, id, c)[0], c))
  {
  }

  lemma OwnStepInStep(now: Instant, acts: seq<LivePage.Act>, steps: seq<Step>, step: Step, limits: Limits, id: SessionId, c: nat)
    requires OneStream(now, steps, limits, c) && Own(step, c)
    requires step == Attach(c) ==> ClientOf(Exec(now, steps, limits), c).sources == []
    requires var w := Exec(now, steps, limits);
             Agree(LivePage.Run(acts), ClientStep(ClientOf(w, c), step, w.session), id)
    ensures InStep(now, Joint(acts, steps + [step]), limits, id, c)
  {
    ExecOne(now, steps, step, limits);
    OneStreamNext(now, steps, step, limits, c);
    OwnStep(Exec(now, steps, limits), step, limits, c);
  }

  lemma FollowInStep(now: Instant, j: Joint, act: LivePage.Act, limits: Limits, id: SessionId, c: nat)
    requires OneStream(now, j.steps, limits, c)
    requires var w, p := Exec(now, j.steps, limits), LivePage.Run(j.acts);
             && (Follow(p, act, id, c) == [Attach(c)] ==> ClientOf(w, c).sources == [])
             && Agree(LivePage.Take(p, act), Reacts(ClientOf(w, c), Follow(p, act, id, c), w.session), id)
    ensures InStep(now, Joint(j.acts + [act], j.steps + Follow(LivePage.Run(j.acts), act, id, c)), limits, id, c)
  {
    var follow := Follow(LivePage.Run(j.acts), act, id, c);
    ActsOne(j.acts, act);
    FollowIsOwn(LivePage.Run(j.acts), act, id, c);
    if follow == [] {
      assert j.steps + follow == j.steps;
    } else {
      assert follow == [follow[0]];
      OwnStepInStep(now, j.acts + [act], j.steps, follow[0], limits, id, c);
    }
  }

  lemma ActsOne(acts: seq<LivePage.Act>, act: LivePage.Act)
    ensures LivePage.Run(acts + [act]) == LivePage.Take(LivePage.Run(acts), act)
    ensures LivePage.NeverOverlaps(acts + [act]) <==>
            LivePage.NeverOverlaps(acts) && !LivePage.Overlaps(LivePage.Run(acts), act)
  {
    assert (acts + [act])[..|acts|] == acts;
  }

  // ---------------------------------------------------------------- main results

  /** A page on which no reconnect timer fires over an open stream keeps to one
      stream of the session, and resumes from the number the relay thinks it
      does: so everything delivery promises, it promises to that page. */
  lemma {:induction false} PageKeepsToOneStream(now: Instant, moves: seq<Move>, limits: Limits, id: SessionId, c: nat)
    requires LivePage.NeverOverlaps(Together(now, moves, limits, id, c).acts)
    ensures InStep(now, Together(now, moves, limits, id, c), limits, id, c)
    ensures RelayOverlap.AtMostOnce(now, Together(now, moves, limits, id, c).steps, limits, c)
  {
    if moves != [] {
      NoOverlapBefore(now, moves, limits, id, c);
      PageKeepsToOneStream(now, moves[..|moves| - 1], limits, id, c);
      MoveInStep(now, moves, limits, id, c);
    }
    EndToEnd(now, Together(now, moves, limits, id, c).steps, limits, c);
  }

  lemma NoOverlapBefore(now: Instant, moves: seq<Move>, limits: Limits, id: SessionId, c: nat)
    requires moves != [] && LivePage.NeverOverlaps(Together(now, moves, limits, id, c).acts)
    ensures LivePage.NeverOverlaps(Together(now, moves[..|moves| - 1], limits, id, c).acts)
  {
    var j := Together(now, moves[..|moves| - 1], limits, id, c);
    var last := moves[|moves| - 1];
    if last.Does? {
      ActsOne(j.acts, last.act);
    }
  }

  /** And the first timer for the session that does fire over an open stream loses
      it: from there the relay can go on so that the page renders an event twice. */
  lemma OverlapLosesAtMostOnce(now: Instant, moves: seq<Move>, timer: nat, limits: Limits, id: SessionId, c: nat)
    returns (more: seq<Step>)
    requires LivePage.NeverOverlaps(Together(now, moves, limits, id, c).acts)
    requires var p := LivePage.Run(Together(now, moves, limits, id, c).acts);
             LivePage.Overlaps(p, LivePage.TimerFired(timer)) && p.sessionId == Some(id)
    ensures RelayOverlap.NoAttach(more)
    ensures var j := Together(now, moves + [Does(LivePage.TimerFired(timer))], limits, id, c);
            !RelayOverlap.AtMostOnce(now, j.steps + more, limits, c)
  {
    var j := Together(now, moves, limits, id, c);
    PageKeepsToOneStream(now, moves, limits, id, c);
    TimerMove(now, moves, timer, limits, id, c);
    ExecOne(now, j.steps, Attach(c), limits);
    OwnStep(Exec(now, j.steps, limits), Attach(c), limits, c);
    more := RelayOverlap.TwoStreamsRenderTwice(now, j.steps + [Attach(c)], limits, c);
  }

  lemma TimerMove(now: Instant, moves: seq<Move>, timer: nat, limits: Limits, id: SessionId, c: nat)
    requires var p := LivePage.Run(Together(now, moves, limits, id, c).acts);
             LivePage.Overlaps(p, LivePage.TimerFired(timer)) && p.sessionId == Some(id)
    ensures Together(now, moves + [Does(LivePage.TimerFired(timer))], limits, id, c).steps
         == Together(now, moves, limits, id, c).steps + [Attach(c)]
  {
    var act, j := LivePage.TimerFired(timer), Together(now, moves, limits, id, c);
    var all := moves + [Does(act)];
    assert all[..|moves|] == moves && all[|moves|] == Does(act);
    assert Follow(LivePage.Run(j.acts), act, id, c) == [Attach(c)];
  }
}
