/** What a second stream does to a page: from any moment at which a page holds
    two, it can be made to render an event twice. So a page renders each event
    at most once, whatever comes, exactly when it never opens a second one. */
module RelayOverlap {
  import opened Common
  import opened RelayModel
  import opened RelayProtocol
  import opened RelayDelivery

  // ---------------------------------------------------------------- in every run

  /** The entry is what was uploaded under its number. */
  predicate Genuine(e: SeqEvent, log: seq<Event>) {
    1 <= e.number <= |log| && e.event == log[e.number - 1]
  }

  predicate AllGenuine(entries: seq<SeqEvent>, log: seq<Event>) {
    forall i :: 0 <= i < |entries| ==> Genuine(entries[i], log)
  }

  ghost predicate SourceGenuine(s: Source, log: seq<Event>) {
    s.lastSeq <= |log| && AllGenuine(s.pending, log) && AllGenuine(s.wire, log)
  }

  ghost predicate ClientGenuine(cl: Client, log: seq<Event>) {
    && cl.lastSeq <= |log| && AllGenuine(cl.rendered, log)
    && (forall i :: 0 <= i < |cl.sources| ==> SourceGenuine(cl.sources[i], log))
  }

  ghost predicate WorldGenuine(w: World, limits: Limits, c: nat) {
    RingMatches(w.session, w.log, limits.eventBuffer) && ClientGenuine(ClientOf(w, c), w.log)
  }

  lemma RefillGenuine(s: Source, session: SessionValue, log: seq<Event>, capacity: nat)
    requires SourceGenuine(s, log) && RingMatches(session, log, capacity)
    ensures SourceGenuine(Refill(s, session), log)
  {
    ReadGenuine(session, log, capacity, s.lastSeq);
  }

  /** A read hands out the end of the log, and its newest event if that is new. */
  lemma ReadGenuine(session: SessionValue, log: seq<Event>, capacity: nat, since: nat)
    requires RingMatches(session, log, capacity)
    ensures var more := Newer(session.events, since);
            && AllGenuine(more, log)
            && (since < |log| ==> more != [] && more[|more| - 1].number == |log|)
  {
    var at := ReadStart(log, capacity, since);
    ReadRefinesLog(session, log, capacity, since);
    assert Newer(session.events, since) == Numbered(log)[at..];
    SuffixGenuine(log, at);
  }

  lemma SuffixGenuine(log: seq<Event>, at: nat)
    requires at <= |log|
    ensures AllGenuine(Numbered(log)[at..], log)
    ensures at < |log| ==> Numbered(log)[at..][|log| - at - 1].number == |log|
  {
    NumberedSuffix(log, at);
  }

  lemma GenuineGrows(cl: Client, log: seq<Event>, more: seq<Event>)
    requires ClientGenuine(cl, log)
    ensures ClientGenuine(cl, log + more)
  {
  }

  lemma ClientStepGenuine(cl: Client, step: Step, session: SessionValue, log: seq<Event>, capacity: nat)
    requires ClientGenuine(cl, log) && RingMatches(session, log, capacity)
    ensures ClientGenuine(ClientStep(cl, step, session), log)
  {
    match step
    case Read(_, i) => if i < |cl.sources| { RefillGenuine(cl.sources[i], session, log, capacity); }
    case Emit(_, i) => if i < |cl.sources| { assert SourceGenuine(cl.sources[i], log); }
    case Receive(_, i) => if i < |cl.sources| { assert SourceGenuine(cl.sources[i], log); }
    case _ =>
  }

  lemma StepGenuine(w: World, step: Step, limits: Limits, c: nat)
    requires WorldGenuine(w, limits, c)
    ensures WorldGenuine(Apply(w, step, limits), limits, c)
  {
    if step.Upload? {
      AppendKeepsRing(Touch(w.session, step.now), w.log, step.batch, limits.eventBuffer);
      GenuineGrows(ClientOf(w, c), w.log, step.batch);
    } else if !step.Register? && !step.Push? && !step.PollBegin? && !step.PollResume? && step.client == c {
      ClientStepGenuine(ClientOf(w, c), step, w.session, w.log, limits.eventBuffer);
    }
  }

  /** In every run, however many streams a page holds: everything it renders is
      what was uploaded under that number, and it never asks from a number that
      has not been given out. */
  lemma {:induction false} RenderedAsUploaded(now: Instant, steps: seq<Step>, limits: Limits, c: nat)
    ensures WorldGenuine(Exec(now, steps, limits), limits, c)
  {
    if steps != [] {
      RenderedAsUploaded(now, steps[..|steps| - 1], limits, c);
      StepGenuine(Exec(now, steps[..|steps| - 1], limits), steps[|steps| - 1], limits, c);
    }
  }

  // ---------------------------------------------------------------- going on from a world

  function After(w: World, steps: seq<Step>, limits: Limits): World {
    if steps == [] then w else Apply(After(w, steps[..|steps| - 1], limits), steps[|steps| - 1], limits)
  }

  lemma {:induction false} AfterExec(now: Instant, steps: seq<Step>, more: seq<Step>, limits: Limits)
    ensures Exec(now, steps + more, limits) == After(Exec(now, steps, limits), more, limits)
  {
    if more == [] {
      assert steps + more == steps;
    } else {
      var n := |more| - 1;
      AfterExec(now, steps, more[..n], limits);
      assert (steps + more)[..|steps + more| - 1] == steps + more[..n];
    }
  }

  lemma {:induction false} AfterJoin(w: World, a: seq<Step>, b: seq<Step>, limits: Limits)
    ensures After(w, a + b, limits) == After(After(w, a, limits), b, limits)
  {
    if b == [] {
      assert a + b == a;
    } else {
      var n := |b| - 1;
      AfterJoin(w, a, b[..n], limits);
      assert (a + b)[..|a + b| - 1] == a + b[..n];
    }
  }

  lemma AfterOne(w: World, step: Step, limits: Limits)
    ensures After(w, [step], limits) == Apply(w, step, limits)
  {
    assert [step][..0] == [];
  }

  predicate NoAttach(steps: seq<Step>) {
    forall i :: 0 <= i < |steps| ==> !steps[i].Attach?
  }

  // ---------------------------------------------------------------- emptying one stream

  /** Everything on its way on a stream, in order. */
  function OnTheWay(s: Source): seq<SeqEvent> {
    s.wire + s.pending
  }

  /** Where the stream stands once everything on its way has been emitted. */
  function EndSeq(s: Source): nat {
    if s.pending == [] then s.lastSeq else s.pending[|s.pending| - 1].number
  }

  /** One event reaches the page: the first on the wire, or else the first pending. */
  lemma OneArrives(w: World, limits: Limits, c: nat, i: nat) returns (steps: seq<Step>)
    requires i < |ClientOf(w, c).sources| && OnTheWay(ClientOf(w, c).sources[i]) != []
    ensures NoAttach(steps)
    ensures var cl, w' := ClientOf(w, c), After(w, steps, limits);
            var s, cl' := cl.sources[i], ClientOf(w', c);
            && w'.session == w.session && w'.log == w.log
            && cl'.rendered == cl.rendered + [OnTheWay(s)[0]]
            && |cl'.sources| == |cl.sources|
            && (forall j :: 0 <= j < |cl.sources| && j != i ==> cl'.sources[j] == cl.sources[j])
            && OnTheWay(cl'.sources[i]) == OnTheWay(s)[1..]
            && EndSeq(cl'.sources[i]) == EndSeq(s)
  {
    var s := ClientOf(w, c).sources[i];
    if s.wire != [] {
      steps := [Receive(c, i)];
      AfterOne(w, Receive(c, i), limits);
      assert OnTheWay(s)[1..] == s.wire[1..] + s.pending;
    } else {
      steps := [Emit(c, i), Receive(c, i)];
      AfterOne(w, Emit(c, i), limits);
      var w1 := Apply(w, Emit(c, i), limits);
      AfterOne(w1, Receive(c, i), limits);
      AfterJoin(w, [Emit(c, i)], [Receive(c, i)], limits);
      assert [Emit(c, i)] + [Receive(c, i)] == steps;
      assert [] + s.pending == s.pending;
    }
  }

  /** The page can be made to render everything on its way on one stream, while
      nothing else happens. */
  lemma {:induction false} Flush(w: World, limits: Limits, c: nat, i: nat) returns (steps: seq<Step>)
    requires i < |ClientOf(w, c).sources|
    ensures NoAttach(steps)
    ensures var cl, w' := ClientOf(w, c), After(w, steps, limits);
            var s, cl' := cl.sources[i], ClientOf(w', c);
            && w'.session == w.session && w'.log == w.log
            && cl'.rendered == cl.rendered + OnTheWay(s)
            && |cl'.sources| == |cl.sources|
            && (forall j :: 0 <= j < |cl.sources| && j != i ==> cl'.sources[j] == cl.sources[j])
            && cl'.sources[i] == Source(EndSeq(s), [], [])
    decreases |OnTheWay(ClientOf(w, c).sources[i])|
  {
    var cl := ClientOf(w, c);
    var s := cl.sources[i];
    if OnTheWay(s) == [] {
      steps := [];
      assert cl.rendered + [] == cl.rendered;
    } else {
      var first := OneArrives(w, limits, c, i);
      var rest := Flush(After(w, first, limits), limits, c, i);
      AfterJoin(w, first, rest, limits);
      steps := first + rest;
      assert (cl.rendered + [OnTheWay(s)[0]]) + OnTheWay(s)[1..] == cl.rendered + OnTheWay(s);
    }
  }

  /** A stream with nothing on its way reads on from where it stands. */
  lemma ReadCaughtUp(w: World, limits: Limits, c: nat, i: nat, since: nat)
    requires RingMatches(w.session, w.log, limits.eventBuffer) && since < |w.log|
    requires i < |ClientOf(w, c).sources| && ClientOf(w, c).sources[i] == Source(since, [], [])
    ensures var cl, w' := ClientOf(w, c), Apply(w, Read(c, i), limits);
            var cl' := ClientOf(w', c);
            && w'.session == w.session && w'.log == w.log && cl'.rendered == cl.rendered
            && |cl'.sources| == |cl.sources|
            && (forall j :: 0 <= j < |cl.sources| && j != i ==> cl'.sources[j] == cl.sources[j])
            && (var more := OnTheWay(cl'.sources[i]); more != [] && more[|more| - 1].number == |w.log|)
  {
    var more := Newer(w.session.events, since);
    ReadGenuine(w.session, w.log, limits.eventBuffer, since);
    assert OnTheWay(Source(since, more, [])) == more;
    assert Refill(Source(since, [], []), w.session) == Source(since, more, []);
    assert ClientOf(Apply(w, Read(c, i), limits), c) == DoRead(ClientOf(w, c), i, w.session);
  }

  /** A stream that is behind can be made to render the newest event. */
  lemma ShowNewest(w: World, limits: Limits, c: nat, i: nat) returns (steps: seq<Step>)
    requires RingMatches(w.session, w.log, limits.eventBuffer)
    requires i < |ClientOf(w, c).sources| && EndSeq(ClientOf(w, c).sources[i]) < |w.log|
    ensures NoAttach(steps)
    ensures var cl, w' := ClientOf(w, c), After(w, steps, limits);
            var cl' := ClientOf(w', c);
            && w'.session == w.session && w'.log == w.log
            && |cl.rendered| < |cl'.rendered| && cl.rendered <= cl'.rendered
            && cl'.rendered[|cl'.rendered| - 1].number == |w.log|
            && |cl'.sources| == |cl.sources|
            && (forall j :: 0 <= j < |cl.sources| && j != i ==> cl'.sources[j] == cl.sources[j])
  {
    var since := EndSeq(ClientOf(w, c).sources[i]);
    var first := Flush(w, limits, c, i);
    var w1 := After(w, first, limits);
    AfterOne(w1, Read(c, i), limits);
    var w2 := Apply(w1, Read(c, i), limits);
    ReadCaughtUp(w1, limits, c, i, since);
    var last := Flush(w2, limits, c, i);
    AfterJoin(w, first, [Read(c, i)], limits);
    AfterJoin(w, first + [Read(c, i)], last, limits);
    steps := first + [Read(c, i)] + last;
  }

  // ---------------------------------------------------------------- main results

  /** The page has rendered no event twice. */
  ghost predicate AtMostOnce(now: Instant, steps: seq<Step>, limits: Limits, c: nat) {
    var rendered := ClientOf(Exec(now, steps, limits), c).rendered;
    forall i, j :: 0 <= i < j < |rendered| ==> rendered[i].number != rendered[j].number
  }

  /** From every moment of every run at which a page holds two streams, there is
      a continuation, opening no further stream, after which it has rendered one
      event twice: an upload, and both streams hand it over. */
  lemma TwoStreamsRenderTwice(now: Instant, steps: seq<Step>, limits: Limits, c: nat) returns (more: seq<Step>)
    requires |ClientOf(Exec(now, steps, limits), c).sources| >= 2
    ensures NoAttach(more) && !AtMostOnce(now, steps + more, limits, c)
  {
    var w := Exec(now, steps, limits);
    RenderedAsUploaded(now, steps, limits, c);
    var upload := Upload([""], now);
    AfterOne(w, upload, limits);
    var w1 := Apply(w, upload, limits);
    AppendKeepsRing(Touch(w.session, now), w.log, [""], limits.eventBuffer);
    NotYet(ClientOf(w, c), w.log, 0);
    NotYet(ClientOf(w, c), w.log, 1);
    var first := ShowNewest(w1, limits, c, 0);
    var w2 := After(w1, first, limits);
    var second := ShowNewest(w2, limits, c, 1);
    AfterJoin(w1, first, second, limits);
    AfterJoin(w, [upload], first + second, limits);
    more := [upload] + (first + second);
    AfterExec(now, steps, more, limits);
    var once, twice := ClientOf(w2, c).rendered, ClientOf(Exec(now, steps + more, limits), c).rendered;
    assert twice[|once| - 1] == once[|once| - 1];
  }

  /** Nothing on its way has a number that is yet to be given out. */
  lemma NotYet(cl: Client, log: seq<Event>, i: nat)
    requires ClientGenuine(cl, log) && i < |cl.sources|
    ensures EndSeq(cl.sources[i]) <= |log|
  {
    var s := cl.sources[i];
    assert SourceGenuine(s, log);
    assert s.pending != [] ==> Genuine(s.pending[|s.pending| - 1], log);
  }

  /** A page renders each event at most once, whenever one stops and however
      the relay goes on from there, exactly when it never attached a stream
      while it had one open. */
  lemma AtMostOnceIff(now: Instant, steps: seq<Step>, limits: Limits, c: nat)
    ensures OneStream(now, steps, limits, c) <==>
            forall n: nat, more :: n <= |steps| && NoAttach(more) ==> AtMostOnce(now, steps[..n] + more, limits, c)
  {
    if OneStream(now, steps, limits, c) {
      forall n: nat, more | n <= |steps| && NoAttach(more)
        ensures AtMostOnce(now, steps[..n] + more, limits, c)
      {
        OneStreamGoesOn(now, steps, limits, c, n, more);
        EndToEnd(now, steps[..n] + more, limits, c);
      }
    } else {
      var i :| 0 <= i < |steps| && steps[i] == Attach(c) && ClientOf(Exec(now, steps[..i], limits), c).sources != [];
      assert steps[..i + 1][..i] == steps[..i];
      var more := TwoStreamsRenderTwice(now, steps[..i + 1], limits, c);
      assert NoAttach(more) && !AtMostOnce(now, steps[..i + 1] + more, limits, c);
    }
  }

  lemma OneStreamGoesOn(now: Instant, steps: seq<Step>, limits: Limits, c: nat, n: nat, more: seq<Step>)
    requires OneStream(now, steps, limits, c) && n <= |steps| && NoAttach(more)
    ensures OneStream(now, steps[..n] + more, limits, c)
  {
    var all := steps[..n] + more;
    forall i | n <= i < |all| ensures !all[i].Attach? {
      assert all[i] == more[i - n];
    }
    forall i | 0 <= i < |all| && all[i] == Attach(c)
      ensures ClientOf(Exec(now, all[..i], limits), c).sources == []
    {
      assert all[..i] == steps[..i] && all[i] == steps[i];
    }
  }
}
