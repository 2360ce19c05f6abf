/** What a page is owed: events in order, at most once, as uploaded, with every
    gap explained by eviction. */
module RelayDelivery {
  import opened Common
  import opened RelayModel
  import opened RelayProtocol

  // ---------------------------------------------------------------- chains

  function LastNumber(chain: seq<SeqEvent>): nat {
    if chain == [] then 0 else chain[|chain| - 1].number
  }

  function Before(chain: seq<SeqEvent>, i: nat): nat
    requires i <= |chain|
  {
    LastNumber(chain[..i])
  }

  /** Entry `e` may follow number `from`: it is the event uploaded under its
      number, it is later, and the numbers between are all lost. */
  ghost predicate Link(from: nat, e: SeqEvent, log: seq<Event>, lost: set<nat>) {
    && from < e.number <= |log|
    && e.event == log[e.number - 1]
    && (forall k: nat :: from < k < e.number ==> k in lost)
  }

  ghost predicate Chain(chain: seq<SeqEvent>, log: seq<Event>, lost: set<nat>) {
    forall i :: 0 <= i < |chain| ==> Link(Before(chain, i), chain[i], log, lost)
  }

  lemma ChainGrows(chain: seq<SeqEvent>, log: seq<Event>, lost: set<nat>, log': seq<Event>, lost': set<nat>)
    requires Chain(chain, log, lost) && log <= log' && lost <= lost'
    ensures Chain(chain, log', lost')
  {
    forall i | 0 <= i < |chain|
      ensures Link(Before(chain, i), chain[i], log', lost')
    {
      assert Link(Before(chain, i), chain[i], log, lost);
    }
  }

  lemma ChainPrefix(chain: seq<SeqEvent>, n: nat, log: seq<Event>, lost: set<nat>)
    requires Chain(chain, log, lost) && n <= |chain|
    ensures Chain(chain[..n], log, lost)
  {
    forall i | 0 <= i < n
      ensures Link(Before(chain[..n], i), chain[..n][i], log, lost)
    {
      assert chain[..n][..i] == chain[..i];
      assert Link(Before(chain, i), chain[i], log, lost);
    }
  }

  /** Joining a chain to entries that link up after it. */
  lemma ChainJoins(chain: seq<SeqEvent>, more: seq<SeqEvent>, log: seq<Event>, lost: set<nat>)
    requires Chain(chain, log, lost)
    requires more != [] ==> Link(LastNumber(chain), more[0], log, lost)
    requires forall i :: 0 < i < |more| ==> Link(more[i - 1].number, more[i], log, lost)
    ensures Chain(chain + more, log, lost)
  {
    var both := chain + more;
    forall i | 0 <= i < |both|
      ensures Link(Before(both, i), both[i], log, lost)
    {
      if i < |chain| {
        assert both[..i] == chain[..i];
        assert Link(Before(chain, i), chain[i], log, lost);
      } else if i == |chain| {
        assert both[..i] == chain;
      } else {
        assert both[..i][i - 1] == more[i - 1 - |chain|];
      }
    }
  }

  /** Where in the log a read that asks from `since` starts. */
  function ReadStart(log: seq<Event>, capacity: nat, since: nat): (at: nat)
    ensures at <= |log|
  {
    if since >= |log| then |log| else if since < Evicted(log, capacity) then Evicted(log, capacity) else since
  }

  lemma NumberedSuffix(log: seq<Event>, at: nat)
    requires at <= |log|
    ensures var more := Numbered(log)[at..];
            forall i :: 0 <= i < |more| ==> more[i] == SeqEvent(at + i + 1, log[at + i])
  {
  }

  lemma MissedIs(s: SessionValue, log: seq<Event>, capacity: nat, since: nat, k: nat)
    requires RingMatches(s, log, capacity)
    ensures k in Missed(s, since) <==> since < k <= Evicted(log, capacity)
  {
    NumberedSuffix(log, Evicted(log, capacity));
    if s.events != [] && since < k <= Evicted(log, capacity) {
      assert Between(since, k, s.events[0].number);
    }
  }

  /** What a read hands out links up after the number it was asked from. */
  lemma ReadLinks(s: SessionValue, log: seq<Event>, capacity: nat, since: nat, lost: set<nat>)
    requires RingMatches(s, log, capacity) && Missed(s, since) <= lost
    ensures var more := Newer(s.events, since);
            && (more != [] ==> Link(since, more[0], log, lost))
            && (forall i :: 0 < i < |more| ==> Link(more[i - 1].number, more[i], log, lost))
  {
    var at := ReadStart(log, capacity, since);
    ReadRefinesLog(s, log, capacity, since);
    forall k: nat | since < k <= at < |log| ensures k in lost {
      MissedIs(s, log, capacity, since, k);
      assert k in Missed(s, since);
    }
    SuffixLinks(log, at, since, lost);
  }

  lemma SuffixLinks(log: seq<Event>, at: nat, since: nat, lost: set<nat>)
    requires at <= |log| && (since <= at || at == |log|)
    requires forall k: nat :: since < k <= at < |log| ==> k in lost
    ensures var more := Numbered(log)[at..];
            && (more != [] ==> Link(since, more[0], log, lost))
            && (forall i :: 0 < i < |more| ==> Link(more[i - 1].number, more[i], log, lost))
  {
    var more := Numbered(log)[at..];
    NumberedSuffix(log, at);
    forall i | 0 < i < |more| ensures Link(more[i - 1].number, more[i], log, lost) {
      assert more[i - 1].number == at + i && more[i] == SeqEvent(at + i + 1, log[at + i]);
    }
  }

  /** A chain goes on with what a read hands out. */
  lemma ChainExtends(chain: seq<SeqEvent>, s: SessionValue, log: seq<Event>, capacity: nat, lost: set<nat>)
    requires Chain(chain, log, lost) && RingMatches(s, log, capacity)
    ensures Chain(chain + Newer(s.events, LastNumber(chain)), log, lost + Missed(s, LastNumber(chain)))
  {
    var since := LastNumber(chain);
    var lost' := lost + Missed(s, since);
    ReadLinks(s, log, capacity, since, lost');
    ChainGrows(chain, log, lost, log, lost');
    ChainJoins(chain, Newer(s.events, since), log, lost');
  }

  // ---------------------------------------------------------------- invariant

  /** Everything a page has rendered or is about to, in order. */
  function InFlight(cl: Client): seq<SeqEvent> {
    if cl.sources == [] then [] else cl.sources[0].wire + cl.sources[0].pending
  }

  function Owed(cl: Client): seq<SeqEvent> {
    cl.rendered + InFlight(cl)
  }

  /** Page and stream each remember the last number they handed on. */
  ghost predicate Marked(cl: Client) {
    && cl.lastSeq == LastNumber(cl.rendered)
    && (cl.sources != [] ==> cl.sources[0].lastSeq == LastNumber(cl.rendered + cl.sources[0].wire))
  }

  ghost predicate ClientGood(cl: Client, log: seq<Event>, gone: nat) {
    && |cl.sources| <= 1
    && Chain(Owed(cl), log, cl.lost)
    && Marked(cl)
    && (forall k :: k in cl.lost ==> k <= gone)
  }

  ghost predicate Good(w: World, limits: Limits, c: nat) {
    && RingMatches(w.session, w.log, limits.eventBuffer)
    && ClientGood(ClientOf(w, c), w.log, Evicted(w.log, limits.eventBuffer))
  }

  /** Page `c` attaches only while it has no stream open. What other pages do is
      of no consequence to it. */
  ghost predicate OneStream(now: Instant, steps: seq<Step>, limits: Limits, c: nat) {
    forall i :: 0 <= i < |steps| && steps[i] == Attach(c) ==>
      ClientOf(Exec(now, steps[..i], limits), c).sources == []
  }

  lemma AttachGood(cl: Client, log: seq<Event>, gone: nat, step: Step, s: SessionValue)
    requires ClientGood(cl, log, gone) && step.Attach? && cl.sources == []
    ensures ClientGood(ClientStep(cl, step, s), log, gone)
  {
    assert cl.rendered + [] == cl.rendered;
    assert cl.rendered + ([] + []) == cl.rendered;
  }

  /** A read at the end of a batch puts what it is handed behind everything else. */
  lemma ReadAppends(cl: Client, s: SessionValue)
    requires |cl.sources| == 1 && Marked(cl) && cl.sources[0].pending == []
    ensures var chain := Owed(cl);
            var after := DoRead(cl, 0, s);
            && Owed(after) == chain + Newer(s.events, LastNumber(chain)) && Marked(after)
            && after.lost == cl.lost + Missed(s, LastNumber(chain)) && |after.sources| == 1
  {
    var wire := cl.sources[0].wire;
    assert wire + [] == wire;
    assert (cl.rendered + wire) + Newer(s.events, cl.sources[0].lastSeq)
        == cl.rendered + (wire + Newer(s.events, cl.sources[0].lastSeq));
  }

  lemma ReadGood(cl: Client, s: SessionValue, log: seq<Event>, capacity: nat)
    requires RingMatches(s, log, capacity)
    requires ClientGood(cl, log, Evicted(log, capacity)) && |cl.sources| == 1
    ensures ClientGood(DoRead(cl, 0, s), log, Evicted(log, capacity))
  {
    if cl.sources[0].pending == [] {
      ReadAppends(cl, s);
      ChainExtends(Owed(cl), s, log, capacity, cl.lost);
      forall k | k in Missed(s, LastNumber(Owed(cl))) ensures k <= Evicted(log, capacity) {
        MissedIs(s, log, capacity, LastNumber(Owed(cl)), k);
      }
    }
  }

  /** An emit moves one event from the batch to the wire. */
  lemma EmitMoves(cl: Client)
    requires |cl.sources| == 1 && Marked(cl)
    ensures var after := cl.(sources := cl.sources[0 := EmitOne(cl.sources[0])]);
            Owed(after) == Owed(cl) && Marked(after)
  {
    var src := cl.sources[0];
    if src.pending != [] {
      var first, rest := src.pending[0], src.pending[1..];
      assert src.pending == [first] + rest;
      assert (src.wire + [first]) + rest == src.wire + src.pending;
      assert cl.rendered + (src.wire + [first]) == (cl.rendered + src.wire) + [first];
    }
  }

  lemma EmitGood(cl: Client, log: seq<Event>, gone: nat)
    requires ClientGood(cl, log, gone) && |cl.sources| == 1
    ensures ClientGood(cl.(sources := cl.sources[0 := EmitOne(cl.sources[0])]), log, gone)
  {
    EmitMoves(cl);
  }

  /** Handling an event moves it from the wire to the page. */
  lemma ReceiveMoves(cl: Client)
    requires |cl.sources| == 1 && Marked(cl)
    ensures var after := DoReceive(cl, 0);
            Owed(after) == Owed(cl) && Marked(after) && |after.sources| == 1 && after.lost == cl.lost
  {
    var src := cl.sources[0];
    if src.wire != [] {
      var first, rest := src.wire[0], src.wire[1..];
      assert src.wire == [first] + rest;
      assert (cl.rendered + [first]) + rest == cl.rendered + src.wire;
      Reassociate(cl.rendered, first, rest, src.pending);
    }
  }

  lemma Reassociate(a: seq<SeqEvent>, e: SeqEvent, b: seq<SeqEvent>, c: seq<SeqEvent>)
    ensures (a + [e]) + (b + c) == a + (([e] + b) + c)
  {
  }

  lemma ReceiveGood(cl: Client, log: seq<Event>, gone: nat)
    requires ClientGood(cl, log, gone) && |cl.sources| == 1
    ensures ClientGood(DoReceive(cl, 0), log, gone)
  {
    ReceiveMoves(cl);
  }

  lemma DropGood(cl: Client, log: seq<Event>, gone: nat)
    requires ClientGood(cl, log, gone)
    ensures ClientGood(cl.(sources := []), log, gone)
  {
    ChainPrefix(Owed(cl), |cl.rendered|, log, cl.lost);
    assert Owed(cl)[..|cl.rendered|] == cl.rendered;
    assert cl.rendered + [] == cl.rendered;
  }

  lemma ClientStepGood(cl: Client, step: Step, s: SessionValue, log: seq<Event>, capacity: nat)
    requires RingMatches(s, log, capacity) && ClientGood(cl, log, Evicted(log, capacity))
    requires step.Attach? ==> cl.sources == []
    ensures ClientGood(ClientStep(cl, step, s), log, Evicted(log, capacity))
  {
    var gone := Evicted(log, capacity);
    match step
    case Attach(_) => AttachGood(cl, log, gone, step, s);
    case Read(_, i) => if i < |cl.sources| { ReadGood(cl, s, log, capacity); }
    case Emit(_, i) => if i < |cl.sources| { EmitGood(cl, log, gone); }
    case Receive(_, i) => if i < |cl.sources| { ReceiveGood(cl, log, gone); }
    case Drop(_, i) => if i < |cl.sources| { DropGood(cl, log, gone); }
    case _ =>
  }

  lemma UploadGood(w: World, batch: seq<Event>, now: Instant, limits: Limits, c: nat)
    requires Good(w, limits, c)
    ensures Good(Apply(w, Upload(batch, now), limits), limits, c)
  {
    AppendKeepsRing(Touch(w.session, now), w.log, batch, limits.eventBuffer);
    var cl, log := ClientOf(w, c), w.log + batch;
    ChainGrows(Owed(cl), w.log, cl.lost, log, cl.lost);
  }

  lemma StepGood(w: World, step: Step, limits: Limits, c: nat)
    requires Good(w, limits, c)
    requires step == Attach(c) ==> ClientOf(w, c).sources == []
    ensures Good(Apply(w, step, limits), limits, c)
  {
    if step.Upload? {
      UploadGood(w, step.batch, step.now, limits, c);
    } else if !step.Register? && !step.Push? && !step.PollBegin? && !step.PollResume? {
      if step.client == c {
        ClientStepGood(ClientOf(w, c), step, w.session, w.log, limits.eventBuffer);
      }
    }
  }

  lemma OneStreamBefore(now: Instant, steps: seq<Step>, limits: Limits, c: nat, n: nat)
    requires OneStream(now, steps, limits, c) && n <= |steps|
    ensures OneStream(now, steps[..n], limits, c)
  {
    var init := steps[..n];
    forall i | 0 <= i < n && init[i] == Attach(c)
      ensures ClientOf(Exec(now, init[..i], limits), c).sources == []
    {
      assert init[..i] == steps[..i] && init[i] == steps[i];
    }
  }

  lemma {:induction false} RunsAreGood(now: Instant, steps: seq<Step>, limits: Limits, c: nat)
    requires OneStream(now, steps, limits, c)
    ensures Good(Exec(now, steps, limits), limits, c)
  {
    if steps != [] {
      var n := |steps| - 1;
      OneStreamBefore(now, steps, limits, c, n);
      RunsAreGood(now, steps[..n], limits, c);
      StepGood(Exec(now, steps[..n], limits), steps[n], limits, c);
    }
  }

  // ---------------------------------------------------------------- what follows from a chain

  lemma {:induction false} ChainRises(chain: seq<SeqEvent>, i: nat, j: nat, log: seq<Event>, lost: set<nat>)
    requires Chain(chain, log, lost) && i < j < |chain|
    ensures chain[i].number < chain[j].number
  {
    assert Link(Before(chain, j), chain[j], log, lost);
    assert chain[..j][j - 1] == chain[j - 1];
    if i < j - 1 {
      ChainRises(chain, i, j - 1, log, lost);
    }
  }

  lemma {:induction false} ChainAccounts(chain: seq<SeqEvent>, k: nat, log: seq<Event>, lost: set<nat>)
    requires Chain(chain, log, lost) && 1 <= k <= LastNumber(chain)
    ensures k in lost || exists i :: 0 <= i < |chain| && chain[i].number == k
  {
    var last := |chain| - 1;
    assert Link(Before(chain, last), chain[last], log, lost);
    if k == chain[last].number {
      assert chain[last].number == k;
    } else if k <= Before(chain, last) {
      ChainPrefix(chain, last, log, lost);
      ChainAccounts(chain[..last], k, log, lost);
    }
  }

  lemma {:induction false} ChainWithoutLoss(chain: seq<SeqEvent>, log: seq<Event>, lost: set<nat>)
    requires Chain(chain, log, lost) && (forall k :: k in lost ==> k == 0)
    ensures |chain| <= |log| && chain == Numbered(log)[..|chain|]
  {
    if chain != [] {
      var last := |chain| - 1;
      ChainPrefix(chain, last, log, lost);
      ChainWithoutLoss(chain[..last], log, lost);
      assert Link(Before(chain, last), chain[last], log, lost);
      var from := Before(chain, last);
      assert from == last by {
        assert last > 0 ==> chain[..last][last - 1] == Numbered(log)[last - 1];
      }
      assert from + 1 < chain[last].number ==> from + 1 in lost;
      assert chain[last] == Numbered(log)[last];
      assert chain == chain[..last] + [chain[last]];
    }
  }

  // ---------------------------------------------------------------- main results

  lemma RenderedIsChain(now: Instant, steps: seq<Step>, limits: Limits, c: nat)
    requires OneStream(now, steps, limits, c)
    ensures var w := Exec(now, steps, limits);
            var cl := ClientOf(w, c);
            && Chain(cl.rendered, w.log, cl.lost)
            && cl.lastSeq == LastNumber(cl.rendered)
            && (forall k :: k in cl.lost ==> k <= Evicted(w.log, limits.eventBuffer))
  {
    RunsAreGood(now, steps, limits, c);
    var w := Exec(now, steps, limits);
    var cl := ClientOf(w, c);
    DropGood(cl, w.log, Evicted(w.log, limits.eventBuffer));
    assert cl.rendered + [] == cl.rendered;
  }

  /** In every run in which this page never holds two streams, what it renders is
      in strictly increasing number order (so each event at most once), is what
      was uploaded under that number, and skips only numbers that this page's
      own stream found evicted when it read from below them. */
  lemma EndToEnd(now: Instant, steps: seq<Step>, limits: Limits, c: nat)
    requires OneStream(now, steps, limits, c)
    ensures var w := Exec(now, steps, limits);
            var cl := ClientOf(w, c);
            && (forall i, j :: 0 <= i < j < |cl.rendered| ==> cl.rendered[i].number < cl.rendered[j].number)
            && (forall i :: 0 <= i < |cl.rendered| ==>
                  && 1 <= cl.rendered[i].number <= |w.log|
                  && cl.rendered[i].event == w.log[cl.rendered[i].number - 1])
            && cl.lastSeq == LastNumber(cl.rendered)
            && (forall k :: 1 <= k <= cl.lastSeq ==>
                  k in cl.lost || exists i :: 0 <= i < |cl.rendered| && cl.rendered[i].number == k)
            && (forall k :: k in cl.lost ==> k <= Evicted(w.log, limits.eventBuffer))
  {
    RenderedIsChain(now, steps, limits, c);
    var w := Exec(now, steps, limits);
    var cl := ClientOf(w, c);
    var chain := cl.rendered;
    forall i, j | 0 <= i < j < |chain|
      ensures chain[i].number < chain[j].number
    {
      ChainRises(chain, i, j, w.log, cl.lost);
    }
    forall i | 0 <= i < |chain|
      ensures 1 <= chain[i].number <= |w.log| && chain[i].event == w.log[chain[i].number - 1]
    {
      assert Link(Before(chain, i), chain[i], w.log, cl.lost);
    }
    forall k | 1 <= k <= cl.lastSeq
      ensures k in cl.lost || exists i :: 0 <= i < |chain| && chain[i].number == k
    {
      ChainAccounts(chain, k, w.log, cl.lost);
    }
  }

  /** Without overflow, delivery is exactly once and in order: the page has
      rendered precisely the first `lastSeq` uploads. */
  lemma ExactlyOnceWithoutOverflow(now: Instant, steps: seq<Step>, limits: Limits, c: nat)
    requires OneStream(now, steps, limits, c)
    requires |Exec(now, steps, limits).log| <= Room(limits.eventBuffer)
    ensures var w := Exec(now, steps, limits);
            var cl := ClientOf(w, c);
            cl.lastSeq <= |w.log| && cl.rendered == Numbered(w.log)[..cl.lastSeq]
  {
    RenderedIsChain(now, steps, limits, c);
    var w := Exec(now, steps, limits);
    var cl := ClientOf(w, c);
    ChainWithoutLoss(cl.rendered, w.log, cl.lost);
    assert cl.rendered != [] ==> Numbered(w.log)[|cl.rendered| - 1].number == |cl.rendered|;
  }

  /** A number enters `lost` only at a read that starts below it and finds the
      ring already past it. */
  lemma LossIsEviction(w: World, step: Step, limits: Limits, c: nat, k: nat)
    requires RingMatches(w.session, w.log, limits.eventBuffer)
    requires k !in ClientOf(w, c).lost && k in ClientOf(Apply(w, step, limits), c).lost
    ensures step.Read? && step.client == c && step.source < |ClientOf(w, c).sources|
    ensures ClientOf(w, c).sources[step.source].lastSeq < k <= Evicted(w.log, limits.eventBuffer)
    ensures forall i :: 0 <= i < |w.session.events| ==> w.session.events[i].number != k
  {
  }

  /** What is lost to a page stays lost, whatever it or anybody does. */
  lemma LossStays(w: World, step: Step, limits: Limits, c: nat)
    ensures ClientOf(w, c).lost <= ClientOf(Apply(w, step, limits), c).lost
  {
  }
}
