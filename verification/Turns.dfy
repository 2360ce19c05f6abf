/** Turns on one agent session: a compare-and-swap claim, a fresh cancellation
    token per turn, and a transcript that a turn clones, works on and writes
    back. Claiming and installing the token are two steps, and so are cloning
    and writing back; everything else may happen in between. */
module Turns {
  import opened Common

  type Message = string
  type Transcript = seq<Message>

  /** What a prompt asks for: nothing valid, a slash command, or a turn. A command
      makes a new transcript of the one it finds, and may hand a turn to the
      model that it read off it, as a retry does. */
  datatype Plan =
    | Invalid
    | Command(run: Transcript -> (Transcript, Option<Message>))
    | Plain(turn: Message)

  // ---------------------------------------------------------------- the session object

  /** The session as its lock-free parts and its tokens show it: tokens are
      numbered in the order they were installed, and `current` is in the slot. */
  datatype Slot = Slot(messages: Transcript, inFlight: bool, current: nat, tokens: nat, cancelled: set<nat>)

  class CancellationToken {
    var cancelled: bool

    constructor ()
      ensures !cancelled
    {
      cancelled := false;
    }
  }

  class SessionState {
    var messages: Transcript
    var cancelToken: CancellationToken
    var turnInFlight: bool
    /** History: every token the slot has held. */
    var tokens: seq<CancellationToken>

    constructor (messages: Transcript)
      ensures Valid() && View() == Slot(messages, false, 0, 1, {}) && fresh(cancelToken)
    {
      var token := new CancellationToken();
      this.messages, cancelToken, turnInFlight, tokens := messages, token, false, [token];
    }

    ghost predicate Valid()
      reads this
    {
      && tokens != [] && tokens[|tokens| - 1] == cancelToken
      && (forall i, j :: 0 <= i < j < |tokens| ==> tokens[i] != tokens[j])
    }

    ghost function View(): Slot
      requires Valid()
      reads this, tokens
    {
      Slot(messages, turnInFlight, |tokens| - 1, |tokens|, set k | 0 <= k < |tokens| && tokens[k].cancelled)
    }

    /** The claim: succeeds for one caller until the turn is over. */
    method Claim() returns (claimed: bool)
      requires Valid()
      modifies this`turnInFlight
      ensures Valid() && claimed == !old(View()).inFlight && View() == old(View()).(inFlight := true)
    {
      claimed := !turnInFlight;
      turnInFlight := true;
    }

    /** The slot gets a token nobody has cancelled. Older ones stay as they were. */
    method InstallToken() returns (token: CancellationToken)
      requires Valid()
      modifies this`cancelToken, this`tokens
      ensures Valid() && fresh(token) && !token.cancelled && tokens == old(tokens) + [token]
      ensures View() == old(View()).(current := old(View()).tokens, tokens := old(View()).tokens + 1)
    {
      token := new CancellationToken();
      cancelToken := token;
      tokens := tokens + [token];
    }

    method BeginTurn() returns (token: Option<CancellationToken>)
      requires Valid()
      modifies this`turnInFlight, this`cancelToken, this`tokens
      ensures Valid() && (token.Some? <==> !old(View()).inFlight)
      ensures token.None? ==> View() == old(View()) && tokens == old(tokens)
      ensures token.Some? ==>
                && fresh(token.value) && !token.value.cancelled && tokens == old(tokens) + [token.value]
                && View() == old(View()).(inFlight := true, current := old(View()).tokens, tokens := old(View()).tokens + 1)
    {
      var claimed := Claim();
      if !claimed {
        return None;
      }
      var installed := InstallToken();
      return Some(installed);
    }

    /** Only the token in the slot is cancelled. */
    method Cancel()
      requires Valid()
      modifies cancelToken
      ensures Valid() && View() == old(View()).(cancelled := old(View()).cancelled + {old(View()).current})
    {
      cancelToken.cancelled := true;
    }

    /** Dropping the guard. */
    method Release()
      requires Valid()
      modifies this`turnInFlight
      ensures Valid() && View() == old(View()).(inFlight := false)
    {
      turnInFlight := false;
    }

    /** A turn with nothing in between: claim, run, write back, release. */
    method Prompt(plan: Plan, work: Transcript -> Transcript) returns (accepted: bool)
      requires Valid()
      modifies this`messages, this`turnInFlight, this`cancelToken, this`tokens
      ensures Valid() && accepted == !old(View()).inFlight
      ensures accepted ==> !View().inFlight && View().messages == WholeEffect(plan, work, old(View()).messages)
      ensures !accepted ==> View() == old(View())
    {
      var token := BeginTurn();
      if token.None? {
        return false;
      }
      accepted := true;
      var turn: Option<Message> := None;
      match plan {
        case Invalid =>
        case Command(run) =>
          var (edited, handedOver) := run(messages);
          messages := edited;
          turn := handedOver;
        case Plain(text) =>
          turn := Some(text);
      }
      if turn.Some? {
        var local := messages + [turn.value];
        local := work(local);
        messages := local;
      }
      Release();
    }
  }

  // ---------------------------------------------------------------- what a turn does

  /** The words that go to the model, for a turn that starts from `before`. */
  function TextFor(plan: Plan, before: Transcript): Option<Message> {
    match plan
    case Invalid => None
    case Command(run) => run(before).1
    case Plain(turn) => Some(turn)
  }

  function WholeEffect(plan: Plan, work: Transcript -> Transcript, before: Transcript): Transcript {
    var edited := if plan.Command? then plan.run(before).0 else before;
    match TextFor(plan, before)
    case None => edited
    case Some(text) => work(edited + [text])
  }

  datatype Phase = Claimed | Ready | Editing | Edited | Cloned | Worked | WrittenBack | Over

  /** `local` is the turn's own copy of the transcript, and `text` the words it is
      going to put to the model, as far as it knows them. `edited` and `wrote`
      say which of its writes have reached the session. */
  datatype Turn = Turn(
    plan: Plan, work: Transcript -> Transcript, phase: Phase, token: Option<nat>, local: Transcript,
    text: Option<Message>, edited: bool, wrote: bool)

  function NewTurn(plan: Plan, work: Transcript -> Transcript): Turn {
    Turn(plan, work, Claimed, None, [], if plan.Plain? then Some(plan.turn) else None, false, false)
  }

  /** The transcript with the command's edit, if this turn has made it. */
  function WithEdit(turn: Turn, before: Transcript): Transcript {
    if turn.edited && turn.plan.Command? then turn.plan.run(before).0 else before
  }

  /** What the writes this turn has made amount to, applied to `before`. */
  function Effect(turn: Turn, before: Transcript): Transcript {
    var text := TextFor(turn.plan, before);
    if turn.wrote && text.Some? then turn.work(WithEdit(turn, before) + [text.value]) else WithEdit(turn, before)
  }

  /** A turn that made every write its plan calls for has its whole effect. */
  lemma CompleteTurnHasWholeEffect(turn: Turn, before: Transcript)
    requires turn.edited <==> turn.plan.Command?
    requires turn.wrote <==> TextFor(turn.plan, before).Some?
    ensures Effect(turn, before) == WholeEffect(turn.plan, turn.work, before)
  {
  }

  // ---------------------------------------------------------------- the machine

  /** `claims` lists the turns that got the session, in order; `current` is the
      token in the session's slot. */
  datatype World = World(
    messages: Transcript, inFlight: bool, current: nat, tokens: nat, cancelled: set<nat>,
    turns: map<nat, Turn>, claims: seq<nat>, refused: set<nat>)

  function Init(messages: Transcript): World {
    World(messages, false, 0, 1, {}, map[], [], {})
  }

  datatype Step =
    | Prompt(id: nat, plan: Plan, work: Transcript -> Transcript)
    | Install(id: nat)
    | CommandReads(id: nat)
    | CommandWrites(id: nat)
    | Clone(id: nat)
    | Work(id: nat)
    | WriteBack(id: nat)
    | Exit(id: nat)
    | Cancel

  function Claim(w: World, s: Step): World
    requires s.Prompt?
  {
    if s.id in w.turns || s.id in w.refused then w
    else if w.inFlight then w.(refused := w.refused + {s.id})
    else w.(inFlight := true, claims := w.claims + [s.id],
            turns := w.turns[s.id := NewTurn(s.plan, s.work)])
  }

  /** A turn's own step, given its record and the session's transcript. */
  function Advance(t: Turn, s: Step, messages: Transcript, newToken: nat): Turn {
    match s
    case Install(_) => if t.phase.Claimed? then t.(phase := Ready, token := Some(newToken)) else t
    case CommandReads(_) =>
      if t.phase.Ready? && t.plan.Command? then t.(phase := Editing, local := messages) else t
    case CommandWrites(_) =>
      if t.phase.Editing? && t.plan.Command?
      then t.(phase := Edited, edited := true, text := t.plan.run(t.local).1) else t
    case Clone(_) =>
      if t.text.Some? && (if t.plan.Command? then t.phase.Edited? else t.phase.Ready?)
      then t.(phase := Cloned, local := messages + [t.text.value]) else t
    case Work(_) => if t.phase.Cloned? then t.(phase := Worked, local := t.work(t.local)) else t
    case WriteBack(_) => if t.phase.Worked? then t.(phase := WrittenBack, wrote := true) else t
    case Exit(_) => t.(phase := Over)
    case _ => t
  }

  function Written(t: Turn, s: Step, messages: Transcript): Transcript {
    match s
    case CommandWrites(_) => if t.phase.Editing? && t.plan.Command? then t.plan.run(t.local).0 else messages
    case WriteBack(_) => if t.phase.Worked? then t.local else messages
    case _ => messages
  }

  function Issued(tokens: nat, another: bool): nat {
    if another then tokens + 1 else tokens
  }

  function Apply(w: World, s: Step): World {
    match s
    case Prompt(_, _, _) => Claim(w, s)
    case Cancel => w.(cancelled := w.cancelled + {w.current})
    case _ =>
      if s.id !in w.turns || w.turns[s.id].phase.Over? then w
      else
        var t := w.turns[s.id];
        var installs := s.Install? && t.phase.Claimed?;
        w.(messages := Written(t, s, w.messages),
           turns := w.turns[s.id := Advance(t, s, w.messages, w.tokens)],
           current := if installs then w.tokens else w.current,
           tokens := Issued(w.tokens, installs),
           inFlight := if s.Exit? then false else w.inFlight)
  }

  function Exec(messages: Transcript, steps: seq<Step>): World {
    if steps == [] then Init(messages) else Apply(Exec(messages, steps[..|steps| - 1]), steps[|steps| - 1])
  }

  /** What the machine's steps do to the session is what the object's methods do:
      a claim, an install, a cancel and a release, and the writes of a command
      and of a turn, which touch nothing but the transcript. */
  function SlotOf(w: World): Slot {
    Slot(w.messages, w.inFlight, w.current, w.tokens, w.cancelled)
  }

  lemma SlotFollows(w: World, s: Step)
    ensures var slot, slot' := SlotOf(w), SlotOf(Apply(w, s));
            && (s.Cancel? ==> slot' == slot.(cancelled := slot.cancelled + {slot.current}))
            && (s.Prompt? ==> slot' == slot || slot' == slot.(inFlight := true))
            && (s.Install? ==> slot' == slot || slot' == slot.(current := slot.tokens, tokens := slot.tokens + 1))
            && (s.Exit? ==> slot' == slot || slot' == slot.(inFlight := false))
            && (s.CommandWrites? || s.WriteBack? ==> slot' == slot.(messages := slot'.messages))
            && (s.CommandReads? || s.Clone? || s.Work? ==> slot' == slot)
  {
  }

  // ---------------------------------------------------------------- serialisation

  /** The turns so far, one after another, each as if it had run alone. */
  function Fold(messages: Transcript, turns: map<nat, Turn>, claims: seq<nat>): Transcript
    requires forall i :: 0 <= i < |claims| ==> claims[i] in turns
  {
    if claims == [] then messages
    else Effect(turns[claims[|claims| - 1]], Fold(messages, turns, claims[..|claims| - 1]))
  }

  ghost predicate Ordered(w: World) {
    && (forall i :: 0 <= i < |w.claims| ==> w.claims[i] in w.turns)
    && (forall id :: id in w.turns ==> id in w.claims)
    && (forall i, j :: 0 <= i < j < |w.claims| ==> w.claims[i] != w.claims[j])
    && (forall i :: 0 <= i < |w.claims| - 1 ==> w.turns[w.claims[i]].phase.Over?)
    && (w.inFlight <==> w.claims != [] && !w.turns[w.claims[|w.claims| - 1]].phase.Over?)
  }

  /** The running turn started from `before`: its copy and its words still are
      what its plan calls for from there. */
  ghost predicate Current(t: Turn, before: Transcript) {
    && (t.phase.Editing? ==> t.plan.Command? && t.local == before)
    && (t.edited || !t.plan.Command? ==> t.text == TextFor(t.plan, before))
    && (t.phase.Cloned? ==> t.text.Some? && t.local == WithEdit(t, before) + [t.text.value])
    && (t.phase.Worked? ==> t.text.Some? && t.local == t.work(WithEdit(t, before) + [t.text.value]))
    && (t.edited ==> t.plan.Command?)
    && (t.phase.Claimed? || t.phase.Ready? || t.phase.Editing? ==> !t.edited)
    && (t.phase.Edited? ==> t.edited)
    && (t.phase.Cloned? || t.phase.Worked? || t.phase.WrittenBack? ==> t.edited == t.plan.Command?)
    && (!t.phase.WrittenBack? && !t.phase.Over? ==> !t.wrote)
    && (t.phase.WrittenBack? ==> t.wrote)
    && (t.wrote ==> t.edited == t.plan.Command?)
  }

  ghost predicate Serial(w: World, messages: Transcript) {
    && Ordered(w)
    && w.messages == Fold(messages, w.turns, w.claims)
    && (w.inFlight ==>
          Current(w.turns[w.claims[|w.claims| - 1]], Fold(messages, w.turns, w.claims[..|w.claims| - 1])))
    && (forall id :: id in w.turns && w.turns[id].wrote ==> w.turns[id].edited == w.turns[id].plan.Command?)
  }

  lemma {:induction false} FoldIgnores(messages: Transcript, turns: map<nat, Turn>, claims: seq<nat>, id: nat, t: Turn)
    requires forall i :: 0 <= i < |claims| ==> claims[i] in turns && claims[i] != id
    ensures Fold(messages, turns[id := t], claims) == Fold(messages, turns, claims)
  {
    if claims != [] {
      FoldIgnores(messages, turns, claims[..|claims| - 1], id, t);
    }
  }

  lemma ClaimKeepsOrder(w: World, s: Step)
    requires Ordered(w) && s.Prompt? && s.id !in w.turns && !w.inFlight
    ensures Ordered(w.(inFlight := true, claims := w.claims + [s.id],
                       turns := w.turns[s.id := NewTurn(s.plan, s.work)]))
    ensures s.id !in w.claims
  {
    var claims := w.claims + [s.id];
    assert forall i :: 0 <= i < |w.claims| ==> w.claims[i] != s.id && claims[i] == w.claims[i];
    forall i | 0 <= i < |w.claims|
      ensures w.turns[w.claims[i]].phase.Over?
    {
      assert i == |w.claims| - 1 || i < |w.claims| - 1;
    }
    assert claims[|w.claims|] == s.id;
  }

  lemma FoldSnoc(messages: Transcript, turns: map<nat, Turn>, claims: seq<nat>, id: nat)
    requires (forall i :: 0 <= i < |claims| ==> claims[i] in turns) && id in turns
    ensures forall i :: 0 <= i < |claims + [id]| ==> (claims + [id])[i] in turns
    ensures Fold(messages, turns, claims + [id]) == Effect(turns[id], Fold(messages, turns, claims))
  {
    assert (claims + [id])[..|claims|] == claims;
  }

  lemma ClaimSerial(w: World, messages: Transcript, s: Step)
    requires Serial(w, messages) && s.Prompt?
    ensures Serial(Claim(w, s), messages)
  {
    if s.id !in w.turns && s.id !in w.refused && !w.inFlight {
      var t := NewTurn(s.plan, s.work);
      ClaimKeepsOrder(w, s);
      ClaimFold(w, messages, s.id, t);
      assert Claim(w, s).turns == w.turns[s.id := t] && Claim(w, s).claims == w.claims + [s.id];
    }
  }

  /** A new turn has no effect yet, on what all the others made. */
  lemma ClaimFold(w: World, messages: Transcript, id: nat, t: Turn)
    requires Ordered(w) && w.messages == Fold(messages, w.turns, w.claims)
    requires id !in w.claims && t == NewTurn(t.plan, t.work)
    ensures var turns, claims := w.turns[id := t], w.claims + [id];
            && (forall i :: 0 <= i < |claims| ==> claims[i] in turns)
            && Fold(messages, turns, claims) == w.messages
            && claims[..|claims| - 1] == w.claims
            && Fold(messages, turns, w.claims) == w.messages
            && Current(t, w.messages)
  {
    var turns, claims := w.turns[id := t], w.claims + [id];
    forall i | 0 <= i < |w.claims| ensures w.claims[i] in w.turns && w.claims[i] != id {
      assert w.claims[i] in w.claims;
    }
    FoldIgnores(messages, w.turns, w.claims, id, t);
    assert Fold(messages, turns, w.claims) == w.messages;
    FoldSnoc(messages, turns, w.claims, id);
    assert Fold(messages, turns, claims) == Effect(t, w.messages) == w.messages;
    assert claims[..|w.claims|] == w.claims;
  }

  /** Only the last turn can still take a step. */
  lemma RunningIsLast(w: World, id: nat)
    requires Ordered(w) && id in w.turns && !w.turns[id].phase.Over?
    ensures w.claims != [] && w.claims[|w.claims| - 1] == id
    ensures forall i :: 0 <= i < |w.claims| - 1 ==> w.claims[i] != id
    ensures forall other :: other in w.turns && other != id ==> w.turns[other].phase.Over?
  {
    var last := |w.claims| - 1;
    var at :| 0 <= at < |w.claims| && w.claims[at] == id;
    assert at == last;
    forall other | other in w.turns && other != id
      ensures w.turns[other].phase.Over?
    {
      var i :| 0 <= i < |w.claims| && w.claims[i] == other;
    }
  }

  /** ... and its step keeps the fold. */
  lemma AdvanceFold(w: World, messages: Transcript, s: Step)
    requires Serial(w, messages) && !s.Prompt? && !s.Cancel?
    requires s.id in w.turns && !w.turns[s.id].phase.Over?
    ensures var w' := Apply(w, s);
            && (forall i :: 0 <= i < |w'.claims| ==> w'.claims[i] in w'.turns)
            && w'.claims != [] && w'.messages == Fold(messages, w'.turns, w'.claims)
            && (w'.turns[s.id].phase.Over?
                || Current(w'.turns[s.id], Fold(messages, w'.turns, w'.claims[..|w'.claims| - 1])))
            && (w'.turns[s.id].wrote ==> w'.turns[s.id].edited == w'.turns[s.id].plan.Command?)
  {
    RunningIsLast(w, s.id);
    var w', init := Apply(w, s), w.claims[..|w.claims| - 1];
    var t, t' := w.turns[s.id], w'.turns[s.id];
    FoldIgnores(messages, w.turns, init, s.id, t');
    AdvanceEffect(t, s, Fold(messages, w.turns, init), w.tokens);
  }

  lemma AdvanceOrder(w: World, s: Step)
    requires Ordered(w) && !s.Prompt? && !s.Cancel?
    requires s.id in w.turns && !w.turns[s.id].phase.Over?
    ensures Ordered(Apply(w, s))
  {
    RunningIsLast(w, s.id);
    assert Apply(w, s).turns[s.id].phase.Over? <==> s.Exit?;
  }

  lemma AdvanceSerial(w: World, messages: Transcript, s: Step)
    requires Serial(w, messages) && !s.Prompt? && !s.Cancel?
    requires s.id in w.turns && !w.turns[s.id].phase.Over?
    ensures Serial(Apply(w, s), messages)
  {
    AdvanceOrder(w, s);
    AdvanceFold(w, messages, s);
    RunningIsLast(w, s.id);
  }

  /** The heart of it: what the turn writes is its effect on what it started from. */
  lemma AdvanceEffect(t: Turn, s: Step, before: Transcript, newToken: nat)
    requires !s.Prompt? && !s.Cancel? && !t.phase.Over?
    requires Current(t, before)
    ensures var messages, t' := Effect(t, before), Advance(t, s, Effect(t, before), newToken);
            && Written(t, s, messages) == Effect(t', before)
            && (t'.phase.Over? || Current(t', before))
            && (t'.wrote ==> t'.edited == t'.plan.Command?)
  {
  }

  lemma {:induction false} RunsAreSerial(messages: Transcript, steps: seq<Step>)
    ensures Serial(Exec(messages, steps), messages)
  {
    if steps != [] {
      RunsAreSerial(messages, steps[..|steps| - 1]);
      StepSerial(Exec(messages, steps[..|steps| - 1]), messages, steps[|steps| - 1]);
    }
  }

  lemma StepSerial(w: World, messages: Transcript, s: Step)
    requires Serial(w, messages)
    ensures Serial(Apply(w, s), messages)
  {
    if s.Prompt? {
      ClaimSerial(w, messages, s);
    } else if !s.Cancel? && s.id in w.turns && !w.turns[s.id].phase.Over? {
      AdvanceSerial(w, messages, s);
    }
  }

  /** In every interleaving of prompts: at most one turn holds the session, and
      the transcript is what the turns make of it one after another in claim
      order, each on top of the ones before. A turn whose copy was written back
      counts with its whole effect; one that was not, with at most the edit its
      command made. */
  lemma TurnsSerialise(messages: Transcript, steps: seq<Step>)
    ensures var w := Exec(messages, steps);
            && Ordered(w)
            && w.messages == Fold(messages, w.turns, w.claims)
            && (forall a, b :: a in w.turns && b in w.turns && !w.turns[a].phase.Over? && !w.turns[b].phase.Over? ==> a == b)
            && (forall id :: id in w.turns && w.turns[id].wrote ==>
                  forall before :: Effect(w.turns[id], before) == WholeEffect(w.turns[id].plan, w.turns[id].work, before))
            && (forall id :: id in w.turns && !w.turns[id].wrote ==>
                  forall before :: Effect(w.turns[id], before) == before
                    || (w.turns[id].plan.Command? && Effect(w.turns[id], before) == w.turns[id].plan.run(before).0))
  {
    RunsAreSerial(messages, steps);
    OneRuns(Exec(messages, steps));
  }

  lemma OneRuns(w: World)
    requires Ordered(w)
    ensures forall a, b :: a in w.turns && b in w.turns && !w.turns[a].phase.Over? && !w.turns[b].phase.Over? ==> a == b
  {
    forall a, b | a in w.turns && b in w.turns && !w.turns[a].phase.Over? && !w.turns[b].phase.Over?
      ensures a == b
    {
      RunningIsLast(w, a);
    }
  }

  /** A prompt is refused exactly while a turn is running, and changes nothing
      then; and a turn can leave at any point, which frees the session for the
      next prompt without touching the transcript. */
  lemma RefusedOrFreed(messages: Transcript, steps: seq<Step>, s: Step, holder: nat)
    requires s.Prompt? && s.id !in Exec(messages, steps).turns && s.id !in Exec(messages, steps).refused
    ensures var w, w' := Exec(messages, steps), Exec(messages, steps + [s]);
            && (s.id in w'.refused <==> w.inFlight)
            && (s.id in w'.turns <==> !w.inFlight)
            && (w.inFlight ==> w' == w.(refused := w.refused + {s.id}))
    ensures var w := Exec(messages, steps);
            holder in w.turns && !w.turns[holder].phase.Over? ==>
              var w' := Exec(messages, steps + [Exit(holder), s]);
              s.id in w'.turns && w'.inFlight && w'.messages == w.messages
  {
    RunsAreSerial(messages, steps);
    Snoc(messages, steps, s);
    Snoc(messages, steps, Exit(holder));
    Snoc(messages, steps + [Exit(holder)], s);
    assert steps + [Exit(holder), s] == steps + [Exit(holder)] + [s];
  }

  // ---------------------------------------------------------------- a turn gets through

  /** The session is free and nobody has used this id. */
  predicate FreeFor(w: World, id: nat) {
    !w.inFlight && id !in w.turns && id !in w.refused
  }

  /** From any moment at which the session is free, a prompt that takes all its
      steps puts exactly its own work on top of the transcript, and leaves the
      session free again. */
  lemma PlainTurnGetsThrough(messages: Transcript, steps: seq<Step>, id: nat, text: Message, work: Transcript -> Transcript)
    requires FreeFor(Exec(messages, steps), id)
    ensures var w := Exec(messages, steps + [Prompt(id, Plain(text), work), Install(id)]
                                    + [Clone(id), Work(id), WriteBack(id), Exit(id)]);
            && w.messages == work(Exec(messages, steps).messages + [text])
            && !w.inFlight && id in w.turns && w.turns[id].wrote
  {
    var plan := Plain(text);
    Begins(messages, steps, id, plan, work);
    ModelRuns(messages, steps + [Prompt(id, plan, work), Install(id)], id, text);
  }

  /** The same for a command: its edit, and on top of that the work on the words
      it handed over, if it did. */
  lemma CommandGetsThrough(messages: Transcript, steps: seq<Step>, id: nat,
                           run: Transcript -> (Transcript, Option<Message>), work: Transcript -> Transcript)
    requires FreeFor(Exec(messages, steps), id)
    ensures var before := Exec(messages, steps).messages;
            var edited := steps + [Prompt(id, Command(run), work), Install(id)] + [CommandReads(id), CommandWrites(id)];
            match run(before).1
            case None =>
              var w := Exec(messages, edited + [Exit(id)]);
              w.messages == run(before).0 && !w.inFlight
            case Some(text) =>
              var w := Exec(messages, edited + [Clone(id), Work(id), WriteBack(id), Exit(id)]);
              w.messages == work(run(before).0 + [text]) && !w.inFlight
  {
    var plan := Command(run);
    var begun := steps + [Prompt(id, plan, work), Install(id)];
    Begins(messages, steps, id, plan, work);
    Snoc(messages, begun, CommandReads(id));
    Snoc(messages, begun + [CommandReads(id)], CommandWrites(id));
    var edited := begun + [CommandReads(id), CommandWrites(id)];
    assert edited == begun + [CommandReads(id)] + [CommandWrites(id)];
    match run(Exec(messages, steps).messages).1
    case None => Snoc(messages, edited, Exit(id));
    case Some(text) => ModelRuns(messages, edited, id, text);
  }

  lemma Begins(messages: Transcript, steps: seq<Step>, id: nat, plan: Plan, work: Transcript -> Transcript)
    requires FreeFor(Exec(messages, steps), id)
    ensures var w := Exec(messages, steps + [Prompt(id, plan, work), Install(id)]);
            && id in w.turns && w.messages == Exec(messages, steps).messages
            && w.turns[id] == NewTurn(plan, work).(phase := Ready, token := w.turns[id].token)
  {
    Snoc(messages, steps, Prompt(id, plan, work));
    Snoc(messages, steps + [Prompt(id, plan, work)], Install(id));
    assert steps + [Prompt(id, plan, work), Install(id)] == steps + [Prompt(id, plan, work)] + [Install(id)];
  }

  lemma ModelRuns(messages: Transcript, steps: seq<Step>, id: nat, text: Message)
    requires var w := Exec(messages, steps);
             && id in w.turns && w.turns[id].text == Some(text) && !w.turns[id].plan.Invalid?
             && (if w.turns[id].plan.Command? then w.turns[id].phase.Edited? else w.turns[id].phase.Ready?)
    ensures var w, w' := Exec(messages, steps), Exec(messages, steps + [Clone(id), Work(id), WriteBack(id), Exit(id)]);
            && w'.messages == w.turns[id].work(w.messages + [text])
            && !w'.inFlight && id in w'.turns && w'.turns[id].wrote
  {
    Snoc(messages, steps, Clone(id));
    Snoc(messages, steps + [Clone(id)], Work(id));
    Snoc(messages, steps + [Clone(id)] + [Work(id)], WriteBack(id));
    Snoc(messages, steps + [Clone(id)] + [Work(id)] + [WriteBack(id)], Exit(id));
    assert steps + [Clone(id), Work(id), WriteBack(id), Exit(id)]
        == steps + [Clone(id)] + [Work(id)] + [WriteBack(id)] + [Exit(id)];
    var w := Exec(messages, steps);
    Works(w, id, text);
    Finishes(Apply(Apply(w, Clone(id)), Work(id)), id);
  }

  lemma Works(w: World, id: nat, text: Message)
    requires id in w.turns && w.turns[id].text == Some(text)
    requires if w.turns[id].plan.Command? then w.turns[id].phase.Edited? else w.turns[id].phase.Ready?
    ensures var w' := Apply(Apply(w, Clone(id)), Work(id));
            && id in w'.turns && w'.turns[id].phase.Worked? && w'.turns[id].local == w.turns[id].work(w.messages + [text])
  {
  }

  lemma Finishes(w: World, id: nat)
    requires id in w.turns && w.turns[id].phase.Worked?
    ensures var w' := Apply(Apply(w, WriteBack(id)), Exit(id));
            w'.messages == w.turns[id].local && !w'.inFlight && id in w'.turns && w'.turns[id].wrote
  {
  }

  // ---------------------------------------------------------------- cancellation

  ghost predicate TokensGood(w: World) {
    && w.current == w.tokens - 1
    && (forall k :: k in w.cancelled ==> k < w.tokens)
    && (forall id :: id in w.turns && w.turns[id].token.Some? ==> w.turns[id].token.value < w.tokens)
    && (forall a, b :: a in w.turns && b in w.turns && a != b && w.turns[a].token.Some? ==>
          w.turns[a].token != w.turns[b].token)
    && (forall id :: id in w.turns && w.turns[id].phase.Claimed? ==> w.turns[id].token.None?)
  }

  lemma {:induction false} RunsKeepTokens(messages: Transcript, steps: seq<Step>)
    ensures TokensGood(Exec(messages, steps))
  {
    if steps != [] {
      RunsKeepTokens(messages, steps[..|steps| - 1]);
      TokensStep(Exec(messages, steps[..|steps| - 1]), steps[|steps| - 1]);
    }
  }

  lemma TokensStep(w: World, s: Step)
    requires TokensGood(w)
    ensures TokensGood(Apply(w, s))
  {
    if !s.Prompt? && !s.Cancel? && s.id in w.turns && !w.turns[s.id].phase.Over? {
      var t, t' := w.turns[s.id], Apply(w, s).turns[s.id];
      assert t'.token == (if s.Install? && t.phase.Claimed? then Some(w.tokens) else t.token);
    }
  }

  /** Some cancel of the run found token `k` in the session's slot. */
  ghost predicate HitBy(messages: Transcript, steps: seq<Step>, k: nat) {
    exists i :: 0 <= i < |steps| && steps[i].Cancel? && Exec(messages, steps[..i]).current == k
  }

  lemma {:induction false} CancelledIffHit(messages: Transcript, steps: seq<Step>, k: nat)
    ensures k in Exec(messages, steps).cancelled <==> HitBy(messages, steps, k)
  {
    if steps != [] {
      var init := steps[..|steps| - 1];
      CancelledIffHit(messages, init, k);
      assert forall i :: 0 <= i < |init| ==> init[..i] == steps[..i] && init[i] == steps[i];
      assert steps[..|init|] == init;
      if HitBy(messages, init, k) {
        var i :| 0 <= i < |init| && init[i].Cancel? && Exec(messages, init[..i]).current == k;
        assert steps[i].Cancel? && Exec(messages, steps[..i]).current == k;
      }
    }
  }

  /** While turn `id`'s token is the newest installed. */
  ghost predicate HasTheSlot(w: World, id: nat) {
    && id in w.turns && w.turns[id].token.Some?
    && (forall other :: other in w.turns && w.turns[other].token.Some? ==>
          w.turns[other].token.value <= w.turns[id].token.value)
  }

  function TokenOf(w: World, id: nat): Option<nat> {
    if id in w.turns then w.turns[id].token else None
  }

  /** One step hands out at most the next token, and takes none away. */
  lemma TokenMoves(w: World, s: Step, id: nat)
    requires TokensGood(w)
    ensures var w' := Apply(w, s);
            && w.tokens <= w'.tokens
            && (TokenOf(w, id).Some? ==> TokenOf(w', id) == TokenOf(w, id))
            && (TokenOf(w, id).None? && TokenOf(w', id).Some? ==> TokenOf(w', id) == Some(w.tokens))
  {
  }

  /** Once a turn has a token it keeps it; and while it has none, nobody's slot
      holds the token it is going to get. */
  lemma {:induction false} SlotInHistory(messages: Transcript, steps: seq<Step>, i: nat, id: nat)
    requires i <= |steps|
    requires TokenOf(Exec(messages, steps), id).Some?
    ensures var early, k := Exec(messages, steps[..i]), TokenOf(Exec(messages, steps), id).value;
            if TokenOf(early, id).Some? then TokenOf(early, id).value == k else early.tokens <= k
    decreases |steps| - i
  {
    if i == |steps| {
      assert steps[..i] == steps;
    } else {
      SlotInHistory(messages, steps, i + 1, id);
      assert steps[..i + 1][..i] == steps[..i];
      RunsKeepTokens(messages, steps[..i]);
      TokenMoves(Exec(messages, steps[..i]), steps[i], id);
    }
  }

  /** A turn's token ends up cancelled if and only if some cancel ran after that
      turn installed it and before any later turn installed its own. */
  lemma CancelReachesExactlyItsTurn(messages: Transcript, steps: seq<Step>, id: nat)
    requires id in Exec(messages, steps).turns && Exec(messages, steps).turns[id].token.Some?
    ensures Exec(messages, steps).turns[id].token.value in Exec(messages, steps).cancelled <==>
            exists i :: 0 <= i < |steps| && steps[i].Cancel? && HasTheSlot(Exec(messages, steps[..i]), id)
  {
    var k := Exec(messages, steps).turns[id].token.value;
    CancelledIffHit(messages, steps, k);
    SlotIsOwned(messages, steps);
    assert TokenOf(Exec(messages, steps), id) == Some(k);
    forall i | 0 <= i < |steps|
      ensures Exec(messages, steps[..i]).current == k <==> HasTheSlot(Exec(messages, steps[..i]), id)
    {
      SlotInHistory(messages, steps, i, id);
      SlotIsOwned(messages, steps[..i]);
      SlotHolder(Exec(messages, steps[..i]), id, k);
    }
  }

  /** The newest token is some turn's, unless it is the one the session began with. */
  ghost predicate SlotOwned(w: World) {
    && (w.current > 0 ==> exists id :: TokenOf(w, id) == Some(w.current))
    && (forall id :: TokenOf(w, id).Some? ==> 0 < TokenOf(w, id).value)
  }

  lemma SlotStep(w: World, s: Step)
    requires TokensGood(w) && SlotOwned(w)
    ensures SlotOwned(Apply(w, s))
  {
    var w' := Apply(w, s);
    forall id
      ensures TokenOf(w', id).Some? ==> 0 < TokenOf(w', id).value
      ensures TokenOf(w, id).Some? ==> TokenOf(w', id) == TokenOf(w, id)
    {
      TokenMoves(w, s, id);
    }
    if w'.current == w.current {
      if w.current > 0 {
        var id :| TokenOf(w, id) == Some(w.current);
        assert TokenOf(w', id) == Some(w'.current);
      }
    } else {
      assert TokenOf(w', s.id) == Some(w'.current);
    }
  }

  lemma {:induction false} SlotIsOwned(messages: Transcript, steps: seq<Step>)
    ensures TokensGood(Exec(messages, steps)) && SlotOwned(Exec(messages, steps))
  {
    RunsKeepTokens(messages, steps);
    if steps != [] {
      SlotIsOwned(messages, steps[..|steps| - 1]);
      SlotStep(Exec(messages, steps[..|steps| - 1]), steps[|steps| - 1]);
    }
  }

  lemma SlotHolder(w: World, id: nat, k: nat)
    requires TokensGood(w) && SlotOwned(w) && k > 0
    requires if TokenOf(w, id).Some? then TokenOf(w, id).value == k else w.tokens <= k
    ensures w.current == k <==> HasTheSlot(w, id)
  {
    if HasTheSlot(w, id) {
      assert TokenOf(w, id).Some? && w.current > 0;
      var other :| TokenOf(w, other) == Some(w.current);
      assert other in w.turns;
    }
  }

  lemma {:induction false} HolderHasToken(messages: Transcript, steps: seq<Step>, id: nat)
    requires id in Exec(messages, steps).turns && !Exec(messages, steps).turns[id].phase.Over?
    ensures Exec(messages, steps).turns[id].token.Some? <==> !Exec(messages, steps).turns[id].phase.Claimed?
  {
    var w, s := Exec(messages, steps[..|steps| - 1]), steps[|steps| - 1];
    if id in w.turns && !w.turns[id].phase.Over? {
      HolderHasToken(messages, steps[..|steps| - 1], id);
    }
  }

  /** A cancel meant for the running turn reaches it exactly when that turn has
      already installed its token. In the window between the claim and the
      install the cancel goes to the token before it, and the turn then installs
      one that nobody has cancelled. */
  lemma CancelInTheWindowIsLost(messages: Transcript, steps: seq<Step>, id: nat)
    requires id in Exec(messages, steps).turns && !Exec(messages, steps).turns[id].phase.Over?
    ensures var w := Exec(messages, steps);
            var w' := Apply(Apply(w, Cancel), Install(id));
            && id in w'.turns && w'.turns[id].token.Some?
            && (w.turns[id].phase.Claimed? <==> w'.turns[id].token.value !in w'.cancelled)
  {
    var w := Exec(messages, steps);
    RunsKeepTokens(messages, steps);
    HolderHasToken(messages, steps, id);
    HolderHasTheSlot(messages, steps);
  }

  /** The turn that runs, once it has its token, is the one the slot is for. */
  ghost predicate Held(w: World) {
    forall id :: id in w.turns && !w.turns[id].phase.Over? && !w.turns[id].phase.Claimed? ==>
      w.turns[id].token == Some(w.current)
  }

  lemma HeldStep(w: World, s: Step)
    requires Ordered(w) && Held(w)
    ensures Held(Apply(w, s))
  {
    if !s.Prompt? && !s.Cancel? && s.id in w.turns && !w.turns[s.id].phase.Over? {
      RunningIsLast(w, s.id);
    }
  }

  lemma {:induction false} HolderHasTheSlot(messages: Transcript, steps: seq<Step>)
    ensures Held(Exec(messages, steps))
  {
    if steps != [] {
      RunsAreSerial(messages, steps[..|steps| - 1]);
      HolderHasTheSlot(messages, steps[..|steps| - 1]);
      HeldStep(Exec(messages, steps[..|steps| - 1]), steps[|steps| - 1]);
    }
  }

  /** It happens: the turn is claimed, the cancel comes, and then the turn
      installs its token and goes on. */
  lemma CancelLost(messages: Transcript, text: Message, work: Transcript -> Transcript)
    ensures var w := Exec(messages, [] + [Prompt(0, Plain(text), work)] + [Cancel] + [Install(0)]);
            && 0 in w.turns && w.turns[0].phase.Ready?
            && w.turns[0].token == Some(1) && w.cancelled == {0}
  {
    var first := [] + [Prompt(0, Plain(text), work)];
    Snoc(messages, [], Prompt(0, Plain(text), work));
    Snoc(messages, first, Cancel);
    Snoc(messages, first + [Cancel], Install(0));
  }

  lemma Snoc(messages: Transcript, steps: seq<Step>, s: Step)
    ensures Exec(messages, steps + [s]) == Apply(Exec(messages, steps), s)
  {
    assert (steps + [s])[..|steps|] == steps;
  }
}
