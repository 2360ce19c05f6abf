/** The page's connection handling: which event streams it holds open, and when
    a reconnect timer opens a second one.

    A stream that fails is closed and, if it was the current one, the page asks
    whether the session still exists and schedules a reconnect. Neither the
    question nor the timer is cancelled when the user moves on. */
module LivePage {
  import opened Common
  import opened RelayModel

  /** `open` maps each stream that is still open to the session it follows;
      `source` is the stream the page regards as its current one. */
  datatype Page = Page(
    sessionId: Option<SessionId>, source: Option<nat>, open: map<nat, SessionId>, nextSource: nat,
    probes: seq<SessionId>, timers: seq<SessionId>, lastSeq: nat)

  const BLANK := Page(None, None, map[], 0, [], [], 0)

  datatype Act =
    | Open(id: SessionId)
    | Leave
    | Fail(source: nat)
    | ProbeFailed(probe: nat)
    | ProbeAnswered(probe: nat, listed: bool)
    | TimerFired(timer: nat)
    | Message(source: nat, number: nat)

  function Connect(p: Page): Page
    requires p.sessionId.Some?
  {
    p.(open := p.open[p.nextSource := p.sessionId.value], source := Some(p.nextSource), nextSource := p.nextSource + 1)
  }

  function LeaveSession(p: Page): Page {
    p.(open := if p.source.Some? then p.open - {p.source.value} else p.open,
       source := None, sessionId := None, lastSeq := 0)
  }

  function OpenSession(p: Page, id: SessionId): Page {
    if p.sessionId == Some(id) then p else Connect(LeaveSession(p).(sessionId := Some(id)))
  }

  function StreamFailed(p: Page, source: nat): Page {
    if source !in p.open then p
    else
      var closed := p.(open := p.open - {source});
      if p.source != Some(source) || p.sessionId.None? then closed
      else closed.(probes := p.probes + [p.sessionId.value])
  }

  function Without<T>(s: seq<T>, i: nat): seq<T>
    requires i < |s|
  {
    s[..i] + s[i + 1..]
  }

  function Take(p: Page, act: Act): Page {
    match act
    case Open(id) => OpenSession(p, id)
    case Leave => LeaveSession(p)
    case Fail(source) => StreamFailed(p, source)
    case ProbeFailed(i) =>
      if i >= |p.probes| then p
      else p.(probes := Without(p.probes, i), timers := p.timers + [p.probes[i]])
    case ProbeAnswered(i, listed) =>
      if i >= |p.probes| then p
      else if p.sessionId == Some(p.probes[i]) && listed
      then p.(probes := Without(p.probes, i), timers := p.timers + [p.probes[i]])
      else p.(probes := Without(p.probes, i))
    case TimerFired(i) =>
      if i >= |p.timers| then p
      else
        var rest := p.(timers := Without(p.timers, i));
        if p.sessionId == Some(p.timers[i]) then Connect(rest) else rest
    case Message(source, number) =>
      if source in p.open then p.(lastSeq := number) else p
  }

  function Run(acts: seq<Act>): Page {
    if acts == [] then BLANK else Take(Run(acts[..|acts| - 1]), acts[|acts| - 1])
  }

  /** The view object, updated in place by the page's event handlers. */
  class Live {
    var sessionId: Option<SessionId>
    var source: Option<nat>
    var open: map<nat, SessionId>
    var nextSource: nat
    var probes: seq<SessionId>
    var timers: seq<SessionId>
    var lastSeq: nat

    constructor ()
      ensures View() == BLANK
    {
      sessionId, source, open, nextSource, probes, timers, lastSeq := None, None, map[], 0, [], [], 0;
    }

    function View(): Page
      reads this
    {
      Page(sessionId, source, open, nextSource, probes, timers, lastSeq)
    }

    method ConnectStream()
      requires sessionId.Some?
      modifies this
      ensures View() == Connect(old(View()))
    {
      open := open[nextSource := sessionId.value];
      source := Some(nextSource);
      nextSource := nextSource + 1;
    }

    method Leave()
      modifies this
      ensures View() == LeaveSession(old(View()))
    {
      if source.Some? {
        open := open - {source.value};
      }
      source := None;
      sessionId := None;
      lastSeq := 0;
    }

    method OpenNamed(id: SessionId)
      modifies this
      ensures View() == OpenSession(old(View()), id)
    {
      if sessionId == Some(id) {
        return;
      }
      Leave();
      sessionId := Some(id);
      ConnectStream();
    }

    method OnError(failed: nat)
      requires failed in open
      modifies this
      ensures View() == StreamFailed(old(View()), failed)
    {
      open := open - {failed};
      if source != Some(failed) || sessionId.None? {
        return;
      }
      probes := probes + [sessionId.value];
    }

    method OnTimer(i: nat)
      requires i < |timers|
      modifies this
      ensures View() == Take(old(View()), TimerFired(i))
    {
      var id := timers[i];
      timers := Without(timers, i);
      if sessionId == Some(id) {
        ConnectStream();
      }
    }

    method OnMessage(from: nat, number: nat)
      requires from in open
      modifies this`lastSeq
      ensures View() == Take(old(View()), Message(from, number))
    {
      lastSeq := number;
    }
  }

  /** A reconnect is scheduled for every question that could not be asked, and for
      those answered with the session listed while it still is on screen. Asking
      once settles a question, and touches nothing else. */
  lemma ReconnectScheduledIff(p: Page, i: nat, listed: bool)
    requires i < |p.probes|
    ensures var rest := p.probes[..i] + p.probes[i + 1..];
            && Take(p, ProbeFailed(i)) == p.(probes := rest, timers := p.timers + [p.probes[i]])
            && Take(p, ProbeAnswered(i, listed))
               == p.(probes := rest,
                     timers := if listed && p.sessionId == Some(p.probes[i]) then p.timers + [p.probes[i]] else p.timers)
  {
  }

  /** A timer fires once, and connects exactly when its session is on screen. */
  lemma TimerConnectsIff(p: Page, i: nat)
    requires i < |p.timers|
    ensures var rest := p.(timers := p.timers[..i] + p.timers[i + 1..]);
            Take(p, TimerFired(i))
            == if p.sessionId != Some(p.timers[i]) then rest
               else rest.(open := p.open[p.nextSource := p.timers[i]], source := Some(p.nextSource), nextSource := p.nextSource + 1)
  {
  }

  /** A stream fails once: then it is closed, and the page asks about the session
      exactly when the stream was its current one for a session on screen. */
  lemma AskedAboutIff(p: Page, source: nat)
    ensures source !in p.open ==> Take(p, Fail(source)) == p
    ensures source in p.open ==>
              Take(p, Fail(source))
              == p.(open := p.open - {source},
                    probes := if p.source == Some(source) && p.sessionId.Some? then p.probes + [p.sessionId.value] else p.probes)
  {
  }

  /** At most one stream is open, and it is the current one, for the open session. */
  ghost predicate OneStream(p: Page) {
    && (forall s :: s in p.open ==> p.source == Some(s) && p.sessionId == Some(p.open[s]))
    && (forall s :: s in p.open ==> s < p.nextSource)
    && (p.source.Some? ==> p.source.value < p.nextSource)
  }

  /** The act that opens a second stream: a timer for the session on screen,
      firing while its stream is already open again. */
  ghost predicate Overlaps(p: Page, act: Act) {
    act.TimerFired? && act.timer < |p.timers| && p.sessionId == Some(p.timers[act.timer]) && p.open != map[]
  }

  /** From a page with one stream, an act keeps it that way exactly when it is
      not such a timer. */
  lemma SecondStreamOnlyByTimer(p: Page, act: Act)
    requires OneStream(p)
    ensures OneStream(Take(p, act)) <==> !Overlaps(p, act)
  {
    if Overlaps(p, act) {
      var s :| s in p.open;
      var p' := Take(p, act);
      assert s in p'.open && p.nextSource in p'.open;
    }
  }

  /** The page held at most one stream at every moment of the run. */
  ghost predicate AlwaysOneStream(acts: seq<Act>) {
    OneStream(Run(acts)) && (acts == [] || AlwaysOneStream(acts[..|acts| - 1]))
  }

  /** No timer of the run fired for the session on screen over an open stream. */
  ghost predicate NeverOverlaps(acts: seq<Act>) {
    acts == [] || (NeverOverlaps(acts[..|acts| - 1]) && !Overlaps(Run(acts[..|acts| - 1]), acts[|acts| - 1]))
  }

  /** Over whole runs, the one is the case exactly when the other is. */
  lemma {:induction false} OneStreamThroughout(acts: seq<Act>)
    ensures AlwaysOneStream(acts) <==> NeverOverlaps(acts)
  {
    if acts != [] {
      var init, last := acts[..|acts| - 1], acts[|acts| - 1];
      OneStreamThroughout(init);
      var before := Run(init);
      assert Run(acts) == Take(before, last);
      assert acts != [];
      if AlwaysOneStream(init) {
        assert OneStream(before);
        SecondStreamOnlyByTimer(before, last);
      }
    }
  }

  /** It does happen: the stream fails, the user looks at another session and
      comes back before the reconnect timer fires. */
  lemma TwoStreamsAfterComingBack()
    ensures var p := Run([Open("a"), Fail(0), ProbeFailed(0), Open("b"), Open("a"), TimerFired(0)]);
            p.open == map[2 := "a", 3 := "a"]
  {
    var acts := [Open("a"), Fail(0), ProbeFailed(0), Open("b"), Open("a"), TimerFired(0)];
    assert acts[..5] == [Open("a"), Fail(0), ProbeFailed(0), Open("b"), Open("a")];
    assert acts[..5][..4] == [Open("a"), Fail(0), ProbeFailed(0), Open("b")];
    assert acts[..5][..4][..3] == [Open("a"), Fail(0), ProbeFailed(0)];
    assert acts[..5][..4][..3][..2] == [Open("a"), Fail(0)];
    assert acts[..5][..4][..3][..2][..1] == [Open("a")];
    assert Run([Open("a")]) == Page(Some("a"), Some(0), map[0 := "a"], 1, [], [], 0);
    assert acts[..2][..1] == [Open("a")] && acts[..3][..2] == acts[..2];
    assert acts[..4][..3] == acts[..3] && acts[..5][..4] == acts[..4];
    assert Run(acts[..2]) == Page(Some("a"), Some(0), map[], 1, ["a"], [], 0);
    assert Run(acts[..3]) == Page(Some("a"), Some(0), map[], 1, [], ["a"], 0);
    assert LeaveSession(Run(acts[..3])) == Page(None, None, map[], 1, [], ["a"], 0);
    assert Run(acts[..4]) == Page(Some("b"), Some(1), map[1 := "b"], 2, [], ["a"], 0);
    assert LeaveSession(Run(acts[..4])) == Page(None, None, map[], 2, [], ["a"], 0);
    assert Run(acts[..5]) == Page(Some("a"), Some(2), map[2 := "a"], 3, [], ["a"], 0);
  }
}
