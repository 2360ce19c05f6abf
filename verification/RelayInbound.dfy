/** What becomes of the messages clients send: every accepted message is in
    exactly one poll's answer, still queued, or dropped by overflow. */
module RelayInbound {
  import opened Common
  import opened RelayModel
  import opened RelayProtocol

  function Messages(tagged: seq<Tagged>): seq<Message> {
    seq(|tagged|, i requires 0 <= i < |tagged| => tagged[i].message)
  }

  /** Every accepted message with its position. */
  function AllTagged(accepted: seq<Message>): seq<Tagged> {
    seq(|accepted|, i requires 0 <= i < |accepted| => Tagged(i, accepted[i]))
  }

  ghost predicate Rising(tagged: seq<Tagged>) {
    forall i, j :: 0 <= i < j < |tagged| ==> tagged[i].at < tagged[j].at
  }

  ghost predicate AllBelow(tagged: seq<Tagged>, bound: nat) {
    forall i :: 0 <= i < |tagged| ==> tagged[i].at < bound
  }

  ghost predicate QueueGood(w: World, limits: Limits) {
    && w.session.toRunner == Messages(w.queued)
    && |w.queued| <= Room(limits.inboundQueue)
    && Rising(w.delivered + w.queued) && AllBelow(w.delivered + w.queued, |w.accepted|)
    && Rising(w.dropped + w.queued) && AllBelow(w.dropped, |w.accepted|)
    && multiset(w.delivered) + multiset(w.queued) + multiset(w.dropped) == multiset(AllTagged(w.accepted))
  }

  /** `answered` lists the polls that have an answer, each once. */
  ghost predicate Listed(polls: map<nat, Poll>, answered: seq<nat>) {
    && (forall p :: p in answered <==> p in polls && polls[p].Answered?)
    && (forall i, j :: 0 <= i < j < |answered| ==> answered[i] != answered[j])
  }

  /** The answers of these polls, one after another. */
  function Handed(polls: map<nat, Poll>, answered: seq<nat>): seq<Tagged>
    requires forall p :: p in answered ==> p in polls && polls[p].Answered?
  {
    if answered == [] then []
    else Handed(polls, answered[..|answered| - 1]) + polls[answered[|answered| - 1]].tagged
  }

  ghost predicate PollsGood(w: World) {
    && Listed(w.polls, w.answered)
    && w.delivered == Handed(w.polls, w.answered)
    && AnswersGood(w.polls, w.delivered)
    && AnswersApart(w.polls)
  }

  ghost predicate AnswersGood(polls: map<nat, Poll>, delivered: seq<Tagged>) {
    forall p :: p in polls && polls[p].Answered? ==>
      && polls[p].response == Messages(polls[p].tagged)
      && Rising(polls[p].tagged)
      && (forall t :: t in polls[p].tagged ==> t in delivered)
  }

  ghost predicate AnswersApart(polls: map<nat, Poll>) {
    forall p, q :: p in polls && q in polls && p != q && polls[p].Answered? && polls[q].Answered? ==>
      forall t :: t in polls[p].tagged ==> t !in polls[q].tagged
  }

  /** An answer of messages nobody has been handed keeps answers apart. */
  lemma AnswerAdded(polls: map<nat, Poll>, delivered: seq<Tagged>, p: nat, answer: Poll)
    requires AnswersGood(polls, delivered) && AnswersApart(polls) && answer.Answered?
    requires answer.response == Messages(answer.tagged) && Rising(answer.tagged)
    requires forall t :: t in answer.tagged ==> t !in delivered
    ensures AnswersGood(polls[p := answer], delivered + answer.tagged) && AnswersApart(polls[p := answer])
  {
  }

  lemma {:induction false} HandedSame(polls: map<nat, Poll>, polls': map<nat, Poll>, answered: seq<nat>)
    requires forall p :: p in answered ==> p in polls && polls[p].Answered? && p in polls' && polls'[p] == polls[p]
    ensures Handed(polls, answered) == Handed(polls', answered)
  {
    if answered != [] {
      HandedSame(polls, polls', answered[..|answered| - 1]);
    }
  }

  /** A new answer comes after all the others. */
  lemma HandedNext(polls: map<nat, Poll>, answered: seq<nat>, p: nat, answer: Poll)
    requires Listed(polls, answered) && p !in answered && answer.Answered?
    ensures Listed(polls[p := answer], answered + [p])
    ensures Handed(polls[p := answer], answered + [p]) == Handed(polls, answered) + answer.tagged
  {
    var polls', answered' := polls[p := answer], answered + [p];
    HandedSame(polls, polls', answered);
    assert answered'[..|answered|] == answered;
    forall q | q in polls' && polls'[q].Answered? ensures q in answered' {
      assert q == p || q in answered;
    }
  }

  lemma PushGood(w: World, m: Message, limits: Limits)
    requires QueueGood(w, limits)
    ensures QueueGood(PushMessage(w, m, limits), limits)
  {
    var w' := PushMessage(w, m, limits);
    var t := Tagged(|w.accepted|, m);
    var full := |w.queued| >= limits.inboundQueue && |w.queued| > 0;
    assert Rising(w.dropped + w.queued) && AllBelow(w.dropped + w.queued, t.at) by {
      AllBelowParts(w.delivered, w.queued, t.at);
    }
    DroppedThenQueued(w.dropped, w.queued, t, full);
    RisingAfterPush(w.delivered, w.queued, w'.queued, t, full);
    PushCounts(w.delivered, w.queued, w.dropped, t, full);
    assert AllTagged(w'.accepted) == AllTagged(w.accepted) + [t];
    if full {
      AllBelowParts(w.delivered, w.queued, t.at);
    }
  }

  lemma AllBelowParts(a: seq<Tagged>, b: seq<Tagged>, bound: nat)
    requires AllBelow(a + b, bound)
    ensures AllBelow(a, bound) && AllBelow(b, bound)
  {
    assert forall i :: 0 <= i < |a| ==> a[i] == (a + b)[i];
    assert forall i :: 0 <= i < |b| ==> b[i] == (a + b)[|a| + i];
  }

  /** Whether or not the oldest is dropped, dropped followed by queued only grows. */
  lemma DroppedThenQueued(dropped: seq<Tagged>, queued: seq<Tagged>, t: Tagged, full: bool)
    requires Rising(dropped + queued) && AllBelow(dropped + queued, t.at)
    requires full ==> |queued| > 0
    ensures var dropped' := if full then dropped + [queued[0]] else dropped;
            var queued' := (if full then queued[1..] else queued) + [t];
            dropped' + queued' == (dropped + queued) + [t] && Rising(dropped' + queued')
  {
    if full {
      assert queued == [queued[0]] + queued[1..];
    }
  }

  lemma PushCounts(delivered: seq<Tagged>, queued: seq<Tagged>, dropped: seq<Tagged>, t: Tagged, full: bool)
    requires full ==> |queued| > 0
    ensures var dropped' := if full then dropped + [queued[0]] else dropped;
            var queued' := (if full then queued[1..] else queued) + [t];
            multiset(delivered) + multiset(queued') + multiset(dropped')
            == multiset(delivered) + multiset(queued) + multiset(dropped) + multiset{t}
  {
    if full {
      assert queued == [queued[0]] + queued[1..];
    }
  }

  lemma RisingAfterPush(before: seq<Tagged>, queued: seq<Tagged>, queued': seq<Tagged>, t: Tagged, full: bool)
    requires Rising(before + queued) && AllBelow(before + queued, t.at)
    requires full ==> |queued| > 0
    requires queued' == (if full then queued[1..] else queued) + [t]
    ensures Rising(before + queued') && AllBelow(before + queued', t.at + 1)
  {
    var long := before + queued;
    var shift := if full then 1 else 0;
    assert forall i :: 0 <= i < |before| ==> (before + queued')[i] == long[i];
    assert forall i :: |before| <= i < |before + queued'| - 1 ==> (before + queued')[i] == long[i + shift];
  }

  lemma DrainGood(w: World, p: nat, now: Instant, limits: Limits)
    requires QueueGood(w, limits)
    ensures QueueGood(Drain(w, p, now), limits)
  {
    assert (w.delivered + w.queued) + [] == w.delivered + w.queued;
    assert forall i :: 0 <= i < |w.dropped| ==> w.dropped[i] == (w.dropped + w.queued)[i];
    assert w.dropped + [] == w.dropped;
  }

  lemma DrainPolls(w: World, p: nat, now: Instant, limits: Limits)
    requires QueueGood(w, limits) && PollsGood(w)
    requires p in w.polls ==> w.polls[p].Waiting?
    ensures PollsGood(Drain(w, p, now))
  {
    HandedNext(w.polls, w.answered, p, Answered(w.session.toRunner, w.queued));
    RisingParts(w.delivered, w.queued);
    AnswerAdded(w.polls, w.delivered, p, Answered(w.session.toRunner, w.queued));
  }

  lemma RisingParts(a: seq<Tagged>, b: seq<Tagged>)
    requires Rising(a + b)
    ensures Rising(b) && forall t :: t in b ==> t !in a
  {
    assert forall i :: 0 <= i < |b| ==> b[i] == (a + b)[|a| + i];
    forall t | t in b
      ensures t !in a
    {
      var j :| 0 <= j < |b| && b[j] == t;
      forall i | 0 <= i < |a|
        ensures a[i] != t
      {
        assert (a + b)[i].at < (a + b)[|a| + j].at;
      }
    }
  }

  lemma FrameGood(w: World, w': World, limits: Limits)
    requires QueueGood(w, limits) && PollsGood(w)
    requires w'.session.toRunner == w.session.toRunner && w'.queued == w.queued && w'.delivered == w.delivered
    requires w'.dropped == w.dropped && w'.accepted == w.accepted && w'.answered == w.answered
    requires forall p :: p in w'.polls && w'.polls[p].Answered? ==> p in w.polls && w.polls[p] == w'.polls[p]
    requires forall p :: p in w.polls && w.polls[p].Answered? ==> p in w'.polls && w.polls[p] == w'.polls[p]
    ensures QueueGood(w', limits) && PollsGood(w')
  {
    HandedSame(w.polls, w'.polls, w.answered);
  }

  /** A poll takes its turn: it waits, or a drain answers it. */
  lemma PollStepGood(w: World, step: Step, limits: Limits)
    requires QueueGood(w, limits) && PollsGood(w) && (step.PollBegin? || step.PollResume?)
    ensures QueueGood(Apply(w, step, limits), limits) && PollsGood(Apply(w, step, limits))
  {
    var p, now := step.poll, step.now;
    if Apply(w, step, limits) == Drain(w, p, now) && (p in w.polls ==> w.polls[p].Waiting?) {
      DrainGood(w, p, now, limits);
      DrainPolls(w, p, now, limits);
    } else {
      FrameGood(w, Apply(w, step, limits), limits);
    }
  }

  /** A message comes in; the polls and what they got stay as they were. */
  lemma PushStepGood(w: World, m: Message, limits: Limits)
    requires QueueGood(w, limits) && PollsGood(w)
    ensures QueueGood(PushMessage(w, m, limits), limits) && PollsGood(PushMessage(w, m, limits))
  {
    PushGood(w, m, limits);
  }

  lemma StepGood(w: World, step: Step, limits: Limits)
    requires QueueGood(w, limits) && PollsGood(w)
    ensures QueueGood(Apply(w, step, limits), limits) && PollsGood(Apply(w, step, limits))
  {
    var w' := Apply(w, step, limits);
    match step
    case Push(m) => PushStepGood(w, m, limits);
    case Attach(_) =>
      PushStepGood(w, ClientAttached, limits);
      FrameGood(PushMessage(w, ClientAttached, limits), w', limits);
    case PollBegin(_, _) => PollStepGood(w, step, limits);
    case PollResume(_, _) => PollStepGood(w, step, limits);
    case Upload(batch, now) =>
      AppendKeepsQueue(Touch(w.session, now), batch, limits.eventBuffer);
      FrameGood(w, w', limits);
    case _ =>
      FrameGood(w, w', limits);
  }

  lemma {:induction false} AppendKeepsQueue(s: SessionValue, batch: seq<Event>, capacity: nat)
    ensures Append(s, batch, capacity).toRunner == s.toRunner
  {
    if batch != [] {
      AppendKeepsQueue(s, batch[..|batch| - 1], capacity);
    }
  }

  lemma {:induction false} RunsAreGood(now: Instant, steps: seq<Step>, limits: Limits)
    ensures QueueGood(Exec(now, steps, limits), limits) && PollsGood(Exec(now, steps, limits))
  {
    if steps == [] {
      assert AllTagged([]) == [];
    } else {
      RunsAreGood(now, steps[..|steps| - 1], limits);
      StepGood(Exec(now, steps[..|steps| - 1], limits), steps[|steps| - 1], limits);
    }
  }

  /** In every run: each accepted message is exactly once among delivered, queued
      and dropped; what was delivered is the answers of the polls, each poll's
      once, one after another; delivered followed by queued is in push order;
      everything dropped is older than everything still queued; the queue keeps
      its limit; and no two polls were ever answered with the same message, nor
      one poll with a message twice. */
  lemma InboundConservation(now: Instant, steps: seq<Step>, limits: Limits)
    ensures var w := Exec(now, steps, limits);
            && multiset(w.delivered) + multiset(w.queued) + multiset(w.dropped) == multiset(AllTagged(w.accepted))
            && Listed(w.polls, w.answered) && w.delivered == Handed(w.polls, w.answered)
            && (forall p :: p in w.polls && w.polls[p].Answered? ==> Rising(w.polls[p].tagged))
            && Rising(w.delivered + w.queued)
            && Rising(w.dropped + w.queued)
            && w.session.toRunner == Messages(w.queued)
            && (limits.inboundQueue >= 1 ==> |w.session.toRunner| <= limits.inboundQueue)
            && (forall p, q :: p in w.polls && q in w.polls && p != q && w.polls[p].Answered? && w.polls[q].Answered? ==>
                  forall t :: t in w.polls[p].tagged ==> t !in w.polls[q].tagged)
            && (forall p :: p in w.polls && w.polls[p].Answered? ==> w.polls[p].response == Messages(w.polls[p].tagged))
  {
    RunsAreGood(now, steps, limits);
  }

  /** Only a push onto a full queue drops, and it drops the oldest untaken message. */
  lemma DropTakesTheOldest(now: Instant, steps: seq<Step>, step: Step, limits: Limits)
    ensures var w, w' := Exec(now, steps, limits), Apply(Exec(now, steps, limits), step, limits);
            || w'.dropped == w.dropped
            || (&& (step.Push? || step.Attach?)
                && |w.queued| >= Room(limits.inboundQueue)
                && w'.dropped == w.dropped + [w.queued[0]]
                && (forall t :: t in w.queued ==> w.queued[0].at <= t.at))
  {
    RunsAreGood(now, steps, limits);
    var w := Exec(now, steps, limits);
    forall t | t in w.queued
      ensures w.queued[0].at <= t.at
    {
      var j :| 0 <= j < |w.queued| && w.queued[j] == t;
      assert (w.dropped + w.queued)[|w.dropped|] == w.queued[0];
      assert (w.dropped + w.queued)[|w.dropped| + j] == t;
    }
  }

  /** Nothing is lost to a missed wake-up: whenever a waiting poll is resumed, it
      is answered with everything queued at that moment. */
  lemma ResumeTakesEverything(now: Instant, steps: seq<Step>, limits: Limits, p: nat, at: Instant)
    requires var w := Exec(now, steps, limits); p in w.polls && w.polls[p].Waiting?
    ensures var w, w' := Exec(now, steps, limits), Exec(now, steps + [PollResume(p, at)], limits);
            && w'.polls[p] == Answered(Messages(w.queued), w.queued)
            && w'.delivered == w.delivered + w.queued && w'.queued == []
  {
    RunsAreGood(now, steps, limits);
    assert (steps + [PollResume(p, at)])[..|steps|] == steps;
  }

  /** A poll that begins is answered with everything queued, or waits when that
      is nothing. */
  lemma BeginTakesEverything(now: Instant, steps: seq<Step>, limits: Limits, p: nat, at: Instant)
    requires p !in Exec(now, steps, limits).polls
    ensures var w, w' := Exec(now, steps, limits), Exec(now, steps + [PollBegin(p, at)], limits);
            && p in w'.polls
            && w'.polls[p] == (if w.queued == [] then Waiting else Answered(Messages(w.queued), w.queued))
            && w'.delivered == w.delivered + w.queued && w'.queued == []
  {
    RunsAreGood(now, steps, limits);
    assert (steps + [PollBegin(p, at)])[..|steps|] == steps;
  }

  /** A message that is pushed is accepted, and is the newest in the queue: the
      next poll is answered with it last. */
  lemma PushedIsNext(now: Instant, steps: seq<Step>, limits: Limits, m: Message, p: nat, at: Instant)
    requires p !in Exec(now, steps, limits).polls
    ensures var w, w' := Exec(now, steps, limits), Exec(now, steps + [Push(m)] + [PollBegin(p, at)], limits);
            && w'.accepted == w.accepted + [m]
            && p in w'.polls && w'.polls[p].Answered?
            && w'.polls[p].response != [] && w'.polls[p].response[|w'.polls[p].response| - 1] == m
  {
    var w1 := Exec(now, steps + [Push(m)], limits);
    assert (steps + [Push(m)])[..|steps|] == steps;
    assert w1.queued != [] && w1.queued[|w1.queued| - 1].message == m;
    BeginTakesEverything(now, steps + [Push(m)], limits, p, at);
  }
}
