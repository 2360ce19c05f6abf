/** A stored transcript turned back into the updates a client draws it from. */
module Replay {
  import opened Common
  import Lines

  type Json = string

  datatype Role = User | Assistant

  datatype Block =
    | Text(text: string)
    | Thinking(thinking: string)
    | ToolUse(id: string, name: string, input: Json)
    | ToolResult(useId: string, parts: ResultContent, isError: Option<bool>)
    | Image(data: Option<string>, mediaType: Option<string>)
    | OtherBlock

  datatype ResultContent = TextResult(text: string) | PartsResult(parts: seq<ResultPart>)

  datatype ResultPart = TextPart(text: string) | OtherPart

  datatype Content = TextContent(text: string) | Blocks(blocks: seq<Block>)

  datatype Message = Message(role: Role, content: Content)

  datatype Status = InProgress | Completed | Failed

  datatype Chunk = TextChunk(text: string) | ImageChunk(data: string, mediaType: string)

  datatype Speaker = TheUser | TheAgent | Thought

  datatype Update =
    | Said(speaker: Speaker, chunk: Chunk)
    | ToolCall(id: string, name: string, input: Json)
    | ToolCallUpdate(id: string, status: Status, text: string)

  const NEVER_REPORTED := "The session ended before this tool reported a result."

  function SpeakerOf(role: Role): Speaker {
    if role.User? then TheUser else TheAgent
  }

  function TextParts(parts: seq<ResultPart>): seq<string> {
    if parts == [] then []
    else (if parts[0].TextPart? then [parts[0].text] else []) + TextParts(parts[1..])
  }

  function ResultText(content: ResultContent): string {
    match content
    case TextResult(text) => text
    case PartsResult(parts) => Lines.Join(TextParts(parts))
  }

  function ResultStatus(isError: Option<bool>): Status {
    if isError == Some(true) then Failed else Completed
  }

  function UpdateFor(role: Role, block: Block): seq<Update> {
    match block
    case Text(text) => [Said(SpeakerOf(role), TextChunk(text))]
    case Thinking(thinking) => [Said(Thought, TextChunk(thinking))]
    case ToolUse(id, name, input) => [ToolCall(id, name, input)]
    case ToolResult(id, content, isError) => [ToolCallUpdate(id, ResultStatus(isError), ResultText(content))]
    case Image(Some(data), Some(mediaType)) => [Said(SpeakerOf(role), ImageChunk(data, mediaType))]
    case _ => []
  }

  // ---------------------------------------------------------------- specification

  /** One block as it was said. Text stored without blocks is one text block. */
  datatype Spoken = Spoken(role: Role, block: Block)

  function SpokenIn(m: Message): seq<Spoken> {
    match m.content
    case TextContent(text) => [Spoken(m.role, Text(text))]
    case Blocks(blocks) => SpokenBlocks(m.role, blocks)
  }

  function SpokenBlocks(role: Role, blocks: seq<Block>): seq<Spoken> {
    if blocks == [] then []
    else SpokenBlocks(role, blocks[..|blocks| - 1]) + [Spoken(role, blocks[|blocks| - 1])]
  }

  function Transcript(messages: seq<Message>): seq<Spoken> {
    if messages == [] then []
    else Transcript(messages[..|messages| - 1]) + SpokenIn(messages[|messages| - 1])
  }

  function Told(spoken: seq<Spoken>): seq<Update> {
    if spoken == [] then []
    else Told(spoken[..|spoken| - 1]) + UpdateFor(spoken[|spoken| - 1].role, spoken[|spoken| - 1].block)
  }

  function Started(spoken: seq<Spoken>): seq<string> {
    if spoken == [] then []
    else Started(spoken[..|spoken| - 1])
         + (if spoken[|spoken| - 1].block.ToolUse? then [spoken[|spoken| - 1].block.id] else [])
  }

  predicate Answered(spoken: seq<Spoken>, id: string) {
    exists i :: 0 <= i < |spoken| && spoken[i].block.ToolResult? && spoken[i].block.useId == id
  }

  function Closing(started: seq<string>, spoken: seq<Spoken>): seq<Update> {
    if started == [] then []
    else
      var id := started[|started| - 1];
      Closing(started[..|started| - 1], spoken)
      + (if Answered(spoken, id) then [] else [ToolCallUpdate(id, Failed, NEVER_REPORTED)])
  }

  function Updates(messages: seq<Message>): seq<Update> {
    var spoken := Transcript(messages);
    Told(spoken) + Closing(Started(spoken), spoken)
  }

  // ---------------------------------------------------------------- the loops

  lemma ToldJoin(a: seq<Spoken>, s: Spoken)
    ensures Told(a + [s]) == Told(a) + UpdateFor(s.role, s.block)
    ensures Started(a + [s]) == Started(a) + (if s.block.ToolUse? then [s.block.id] else [])
  {
    assert (a + [s])[..|a|] == a;
  }

  lemma {:induction false} ToldConcat(a: seq<Spoken>, b: seq<Spoken>)
    ensures Told(a + b) == Told(a) + Told(b)
  {
    if b == [] {
      assert a + b == a;
    } else {
      var init, last := b[..|b| - 1], b[|b| - 1];
      ToldConcat(a, init);
      assert b == init + [last];
      ToldConcatSnoc(a, init, last);
    }
  }

  lemma ToldConcatSnoc(a: seq<Spoken>, b: seq<Spoken>, s: Spoken)
    requires Told(a + b) == Told(a) + Told(b)
    ensures Told(a + (b + [s])) == Told(a) + Told(b + [s])
  {
    assert a + (b + [s]) == (a + b) + [s];
    ToldJoin(a + b, s);
    ToldJoin(b, s);
    Regroup(Told(a), Told(b), UpdateFor(s.role, s.block));
  }

  lemma Regroup(a: seq<Update>, b: seq<Update>, c: seq<Update>)
    ensures (a + b) + c == a + (b + c)
  {
  }

  method UpdatesForBlocks(role: Role, blocks: seq<Block>) returns (updates: seq<Update>)
    ensures updates == Told(SpokenBlocks(role, blocks))
  {
    updates := [];
    for j := 0 to |blocks|
      invariant updates == Told(SpokenBlocks(role, blocks[..j]))
    {
      assert blocks[..j + 1][..j] == blocks[..j];
      ToldJoin(SpokenBlocks(role, blocks[..j]), Spoken(role, blocks[j]));
      updates := updates + UpdateFor(role, blocks[j]);
    }
    assert blocks[..|blocks|] == blocks;
  }

  method UpdatesFor(messages: seq<Message>) returns (updates: seq<Update>)
    ensures updates == Updates(messages)
  {
    updates := [];
    for i := 0 to |messages|
      invariant updates == Told(Transcript(messages[..i]))
    {
      assert messages[..i + 1][..i] == messages[..i];
      ToldConcat(Transcript(messages[..i]), SpokenIn(messages[i]));
      match messages[i].content {
        case TextContent(text) =>
          ToldJoin([], Spoken(messages[i].role, Text(text)));
          assert [] + [Spoken(messages[i].role, Text(text))] == SpokenIn(messages[i]);
          updates := updates + [Said(SpeakerOf(messages[i].role), TextChunk(text))];
        case Blocks(blocks) =>
          var more := UpdatesForBlocks(messages[i].role, blocks);
          updates := updates + more;
      }
    }
    assert messages[..|messages|] == messages;
    updates := FinishUnansweredCalls(Transcript(messages), updates);
  }

  method FinishUnansweredCalls(spoken: seq<Spoken>, updates: seq<Update>) returns (finished: seq<Update>)
    ensures finished == updates + Closing(Started(spoken), spoken)
  {
    var started: seq<string>, answered: seq<string> := [], [];
    for i := 0 to |spoken|
      invariant started == Started(spoken[..i])
      invariant forall id :: id in answered <==> Answered(spoken[..i], id)
    {
      assert spoken[..i + 1] == spoken[..i] + [spoken[i]];
      ToldJoin(spoken[..i], spoken[i]);
      AnsweredJoin(spoken[..i], spoken[i]);
      match spoken[i].block {
        case ToolUse(id, _, _) => started := started + [id];
        case ToolResult(id, _, _) => answered := answered + [id];
        case _ =>
      }
    }
    assert spoken[..|spoken|] == spoken;
    finished := updates;
    for k := 0 to |started|
      invariant finished == updates + Closing(started[..k], spoken)
    {
      assert started[..k + 1][..k] == started[..k];
      if started[k] !in answered {
        finished := finished + [ToolCallUpdate(started[k], Failed, NEVER_REPORTED)];
      }
    }
    assert started[..|started|] == started;
  }

  lemma AnsweredJoin(a: seq<Spoken>, s: Spoken)
    ensures forall id :: Answered(a + [s], id) <==> Answered(a, id) || (s.block.ToolResult? && s.block.useId == id)
  {
    var both := a + [s];
    forall id
      ensures Answered(both, id) <==> Answered(a, id) || (s.block.ToolResult? && s.block.useId == id)
    {
      if Answered(a, id) {
        var i :| 0 <= i < |a| && a[i].block.ToolResult? && a[i].block.useId == id;
        assert both[i] == a[i];
      }
      assert both[|a|] == s;
    }
  }

  // ---------------------------------------------------------------- what a client ends up showing

  /** The status a client shows for a call after these updates. */
  function Shows(updates: seq<Update>, id: string): Option<Status> {
    if updates == [] then None
    else
      match updates[|updates| - 1]
      case ToolCall(other, _, _) => if other == id then Some(InProgress) else Shows(updates[..|updates| - 1], id)
      case ToolCallUpdate(other, status, _) => if other == id then Some(status) else Shows(updates[..|updates| - 1], id)
      case Said(_, _) => Shows(updates[..|updates| - 1], id)
  }

  /** What the transcript last records about a call. */
  function LastRecord(spoken: seq<Spoken>, id: string): Option<Status> {
    if spoken == [] then None
    else
      match spoken[|spoken| - 1].block
      case ToolUse(other, _, _) => if other == id then Some(InProgress) else LastRecord(spoken[..|spoken| - 1], id)
      case ToolResult(other, _, isError) =>
        if other == id then Some(ResultStatus(isError)) else LastRecord(spoken[..|spoken| - 1], id)
      case _ => LastRecord(spoken[..|spoken| - 1], id)
  }

  function TimesUpdated(updates: seq<Update>, id: string): nat {
    if updates == [] then 0
    else TimesUpdated(updates[..|updates| - 1], id)
         + (if updates[|updates| - 1].ToolCallUpdate? && updates[|updates| - 1].id == id then 1 else 0)
  }

  function TimesStarted(started: seq<string>, id: string): nat {
    if started == [] then 0
    else TimesStarted(started[..|started| - 1], id) + (if started[|started| - 1] == id then 1 else 0)
  }

  function TimesAnswered(spoken: seq<Spoken>, id: string): nat {
    if spoken == [] then 0
    else TimesAnswered(spoken[..|spoken| - 1], id)
         + (if spoken[|spoken| - 1].block.ToolResult? && spoken[|spoken| - 1].block.useId == id then 1 else 0)
  }

  /** Everything said, in order, with its speaker: the reference for the chunks. */
  function Utterances(spoken: seq<Spoken>): seq<Update> {
    if spoken == [] then []
    else
      var s := spoken[|spoken| - 1];
      Utterances(spoken[..|spoken| - 1])
      + (match s.block
         case Text(text) => [Said(if s.role.User? then TheUser else TheAgent, TextChunk(text))]
         case Thinking(text) => [Said(Thought, TextChunk(text))]
         case Image(Some(data), Some(media)) => [Said(if s.role.User? then TheUser else TheAgent, ImageChunk(data, media))]
         case _ => [])
  }

  function Chunks(updates: seq<Update>): seq<Update> {
    if updates == [] then []
    else Chunks(updates[..|updates| - 1]) + (if updates[|updates| - 1].Said? then [updates[|updates| - 1]] else [])
  }

  lemma {:induction false} ViewJoin(a: seq<Update>, b: seq<Update>, id: string)
    ensures Shows(a + b, id) == if Shows(b, id).Some? then Shows(b, id) else Shows(a, id)
    ensures TimesUpdated(a + b, id) == TimesUpdated(a, id) + TimesUpdated(b, id)
    ensures Chunks(a + b) == Chunks(a) + Chunks(b)
  {
    if b == [] {
      assert a + b == a;
    } else {
      assert (a + b)[..|a + b| - 1] == a + b[..|b| - 1];
      ViewJoin(a, b[..|b| - 1], id);
    }
  }

  lemma OneUpdateView(s: Spoken, id: string)
    ensures var u := UpdateFor(s.role, s.block);
            && Shows(u, id) == LastRecord([s], id)
            && TimesUpdated(u, id) == (if s.block.ToolResult? && s.block.useId == id then 1 else 0)
            && Chunks(u) == Utterances([s])
  {
    var u := UpdateFor(s.role, s.block);
    assert |u| <= 1 && (|u| == 1 ==> u[..0] == []);
    assert [s][..0] == [];
  }

  lemma {:induction false} ToldView(spoken: seq<Spoken>, id: string)
    ensures Shows(Told(spoken), id) == LastRecord(spoken, id)
    ensures TimesUpdated(Told(spoken), id) == TimesAnswered(spoken, id)
    ensures Chunks(Told(spoken)) == Utterances(spoken)
  {
    if spoken != [] {
      var init, s := spoken[..|spoken| - 1], spoken[|spoken| - 1];
      ToldView(init, id);
      ViewJoin(Told(init), UpdateFor(s.role, s.block), id);
      OneUpdateView(s, id);
      LastSpoken(spoken, id);
    }
  }

  /** The references, read one block further. */
  lemma LastSpoken(spoken: seq<Spoken>, id: string)
    requires spoken != []
    ensures var init, s := spoken[..|spoken| - 1], spoken[|spoken| - 1];
            && LastRecord(spoken, id) == (if LastRecord([s], id).Some? then LastRecord([s], id) else LastRecord(init, id))
            && Utterances(spoken) == Utterances(init) + Utterances([s])
  {
    var s := spoken[|spoken| - 1];
    assert [s][..0] == [];
    assert LastRecord([], id) == None && Utterances([]) == [];
  }

  lemma {:induction false} ClosingView(started: seq<string>, spoken: seq<Spoken>, id: string)
    ensures Shows(Closing(started, spoken), id) == if id in started && !Answered(spoken, id) then Some(Failed) else None
    ensures TimesUpdated(Closing(started, spoken), id) == if Answered(spoken, id) then 0 else TimesStarted(started, id)
    ensures Chunks(Closing(started, spoken)) == []
  {
    if started != [] {
      var init, last := started[..|started| - 1], started[|started| - 1];
      ClosingView(init, spoken, id);
      if Answered(spoken, last) {
        assert Closing(init, spoken) + [] == Closing(init, spoken);
      } else {
        FailedView(Closing(init, spoken), ToolCallUpdate(last, Failed, NEVER_REPORTED), id);
      }
      assert started == init + [last];
    }
  }

  /** One more call closed as failed. */
  lemma FailedView(updates: seq<Update>, u: Update, id: string)
    requires u.ToolCallUpdate? && u.status.Failed?
    ensures Shows(updates + [u], id) == (if u.id == id then Some(Failed) else Shows(updates, id))
    ensures TimesUpdated(updates + [u], id) == TimesUpdated(updates, id) + (if u.id == id then 1 else 0)
    ensures Chunks(updates + [u]) == Chunks(updates)
  {
    assert (updates + [u])[..|updates|] == updates;
    assert Chunks(updates) + [] == Chunks(updates);
  }

  lemma {:induction false} RecordFacts(spoken: seq<Spoken>, id: string)
    ensures Answered(spoken, id) <==> TimesAnswered(spoken, id) > 0
    ensures id in Started(spoken) || Answered(spoken, id) <==> LastRecord(spoken, id).Some?
    ensures !Answered(spoken, id) && id in Started(spoken) ==> LastRecord(spoken, id) == Some(InProgress)
  {
    if spoken != [] {
      var init, last := spoken[..|spoken| - 1], spoken[|spoken| - 1];
      RecordFacts(init, id);
      AnsweredJoin(init, last);
      assert spoken == init + [last];
    }
  }

  // ---------------------------------------------------------------- main results

  /** What each kind of block is told as. */
  lemma EachBlockIsTold(role: Role, id: string, name: string, input: Json, text: string, data: string, media: string,
                        content: ResultContent, isError: Option<bool>)
    ensures var speaker := if role.User? then TheUser else TheAgent;
            && UpdateFor(role, Text(text)) == [Said(speaker, TextChunk(text))]
            && UpdateFor(role, Thinking(text)) == [Said(Thought, TextChunk(text))]
            && UpdateFor(role, Image(Some(data), Some(media))) == [Said(speaker, ImageChunk(data, media))]
            && UpdateFor(role, Image(None, Some(media))) == UpdateFor(role, Image(Some(data), None)) == []
            && UpdateFor(role, Image(None, None)) == UpdateFor(role, OtherBlock) == []
            && UpdateFor(role, ToolUse(id, name, input)) == [ToolCall(id, name, input)]
            && UpdateFor(role, ToolResult(id, content, isError))
               == [ToolCallUpdate(id, if isError == Some(true) then Failed else Completed, ResultText(content))]
  {
  }

  /** The text of a result: as it stands, or its text parts, each on its own line. */
  lemma ResultTextIs(text: string, a: seq<ResultPart>, b: seq<ResultPart>)
    ensures ResultText(TextResult(text)) == text
    ensures ResultText(PartsResult([])) == "" && ResultText(PartsResult([TextPart(text)])) == text
    ensures ResultText(PartsResult(a + [OtherPart] + b)) == ResultText(PartsResult(a + b))
    ensures ResultText(PartsResult(a + [TextPart(text)] + b))
         == (if HasText(a) then ResultText(PartsResult(a)) + "\n" else "") + text
            + (if HasText(b) then "\n" + ResultText(PartsResult(b)) else "")
  {
    OnePart(TextPart(text));
    OnePart(OtherPart);
    TextPartsJoin(a, [OtherPart]);
    TextPartsJoin(a + [OtherPart], b);
    TextPartsJoin(a, b);
    assert TextParts(a) + [] == TextParts(a);
    TextPartsJoin(a, [TextPart(text)]);
    TextPartsJoin(a + [TextPart(text)], b);
    TextPartsSome(a);
    TextPartsSome(b);
    Around(TextParts(a), text, TextParts(b));
  }

  predicate HasText(parts: seq<ResultPart>) {
    exists i :: 0 <= i < |parts| && parts[i].TextPart?
  }

  lemma OnePart(part: ResultPart)
    ensures TextParts([part]) == if part.TextPart? then [part.text] else []
  {
    assert [part][1..] == [];
  }

  lemma {:induction false} TextPartsSome(parts: seq<ResultPart>)
    ensures HasText(parts) <==> TextParts(parts) != []
  {
    if parts != [] {
      TextPartsSome(parts[1..]);
      assert forall i :: 0 <= i < |parts[1..]| ==> parts[1..][i] == parts[i + 1];
      if HasText(parts[1..]) {
        var i :| 0 <= i < |parts[1..]| && parts[1..][i].TextPart?;
        assert parts[i + 1].TextPart?;
      }
    }
  }

  lemma Around(a: seq<string>, text: string, b: seq<string>)
    ensures Lines.Join(a + [text] + b)
         == (if a != [] then Lines.Join(a) + "\n" else "") + text + (if b != [] then "\n" + Lines.Join(b) else "")
  {
    if a != [] {
      Lines.JoinConcat(a, [text]);
    } else {
      assert a + [text] == [text];
    }
    if b != [] {
      Lines.JoinConcat(a + [text], b);
    } else {
      assert a + [text] + b == a + [text];
    }
  }

  lemma {:induction false} TextPartsJoin(a: seq<ResultPart>, b: seq<ResultPart>)
    ensures TextParts(a + b) == TextParts(a) + TextParts(b)
  {
    if a == [] {
      assert a + b == b;
    } else {
      assert (a + b)[1..] == a[1..] + b;
      TextPartsJoin(a[1..], b);
    }
  }

  /** A call nobody answered is closed with the reason. */
  lemma UnansweredIsClosed(role: Role, id: string, name: string, input: Json)
    ensures Updates([Message(role, Blocks([ToolUse(id, name, input)]))])
         == [ToolCall(id, name, input),
             ToolCallUpdate(id, Failed, "The session ended before this tool reported a result.")]
  {
    var use := ToolUse(id, name, input);
    var m, said := Message(role, Blocks([use])), Spoken(role, use);
    OnlyMessage(m);
    SpokenOne(role, use);
    ToldOne(said);
    ClosingOne(id, [said]);
    assert forall i :: 0 <= i < |[said]| ==> [said][i].block == use;
    assert Updates([m]) == Told([said]) + Closing([id], [said]);
  }

  lemma ToldOne(s: Spoken)
    ensures Told([s]) == UpdateFor(s.role, s.block)
    ensures Started([s]) == if s.block.ToolUse? then [s.block.id] else []
  {
    assert [s][..0] == [];
  }

  lemma ClosingOne(id: string, spoken: seq<Spoken>)
    requires !Answered(spoken, id)
    ensures Closing([id], spoken)
         == [ToolCallUpdate(id, Failed, "The session ended before this tool reported a result.")]
  {
    assert [id][..0] == [];
  }

  /** For any transcript: a call that was never answered is shown failed, and one
      that was is shown as the transcript last records it. */
  lemma CallsAreShownAsRecorded(messages: seq<Message>, id: string)
    ensures var spoken := Transcript(messages);
            Shows(Updates(messages), id) ==
              if id in Started(spoken) && !Answered(spoken, id) then Some(Failed) else LastRecord(spoken, id)
  {
    var spoken := Transcript(messages);
    ToldView(spoken, id);
    ClosingView(Started(spoken), spoken, id);
    ViewJoin(Told(spoken), Closing(Started(spoken), spoken), id);
  }

  /** Nothing after `j` uses or answers the id. */
  ghost predicate LastSaid(spoken: seq<Spoken>, j: nat, id: string) {
    j < |spoken| && forall k :: j < k < |spoken| ==> !Uses(spoken[k], id) && !Answers(spoken[k], id)
  }

  lemma {:induction false} LastRecordIs(spoken: seq<Spoken>, j: nat, id: string)
    requires LastSaid(spoken, j, id) && Answers(spoken[j], id)
    ensures LastRecord(spoken, id) == Some(ResultStatus(spoken[j].block.isError)) && Answered(spoken, id)
  {
    var init := spoken[..|spoken| - 1];
    if j < |init| {
      assert !Uses(spoken[|init|], id) && !Answers(spoken[|init|], id);
      assert forall k :: j < k < |init| ==> init[k] == spoken[k];
      LastRecordIs(init, j, id);
    }
  }

  /** A call whose last record is a result is shown failed if that result was
      recorded as an error, and completed if not. */
  lemma ResultIsShown(messages: seq<Message>, id: string, j: nat)
    requires LastSaid(Transcript(messages), j, id) && Answers(Transcript(messages)[j], id)
    ensures Shows(Updates(messages), id)
         == (if Transcript(messages)[j].block.isError == Some(true) then Some(Failed) else Some(Completed))
  {
    CallsAreShownAsRecorded(messages, id);
    LastRecordIs(Transcript(messages), j, id);
  }

  predicate Uses(s: Spoken, id: string) {
    s.block.ToolUse? && s.block.id == id
  }

  predicate Answers(s: Spoken, id: string) {
    s.block.ToolResult? && s.block.useId == id
  }

  /** The id is used after an answer to it, and not answered after that. */
  ghost predicate UsedAgain(spoken: seq<Spoken>, id: string) {
    exists i, j :: 0 <= i < j < |spoken| && Answers(spoken[i], id) && Uses(spoken[j], id) && Unanswered(spoken, j, id)
  }

  ghost predicate Unanswered(spoken: seq<Spoken>, from: nat, id: string) {
    forall k :: from < k < |spoken| ==> !Answers(spoken[k], id)
  }

  lemma {:induction false} UsedAgainIff(spoken: seq<Spoken>, id: string)
    ensures UsedAgain(spoken, id) <==> Answered(spoken, id) && LastRecord(spoken, id) == Some(InProgress)
  {
    if spoken != [] {
      var init, last := spoken[..|spoken| - 1], spoken[|spoken| - 1];
      UsedAgainIff(init, id);
      AnsweredJoin(init, last);
      UsedAgainNext(init, last, id);
      assert spoken == init + [last];
    }
  }

  lemma UsedAgainNext(spoken: seq<Spoken>, last: Spoken, id: string)
    ensures UsedAgain(spoken + [last], id) <==>
            !Answers(last, id) && (if Uses(last, id) then Answered(spoken, id) else UsedAgain(spoken, id))
  {
    var all := spoken + [last];
    assert all[|spoken|] == last;
    if Uses(last, id) && Answered(spoken, id) {
      var i :| 0 <= i < |spoken| && spoken[i].block.ToolResult? && spoken[i].block.useId == id;
      assert Answers(all[i], id) && Uses(all[|spoken|], id) && Unanswered(all, |spoken|, id);
    } else if !Uses(last, id) && !Answers(last, id) && UsedAgain(spoken, id) {
      var i, j :| 0 <= i < j < |spoken| && Answers(spoken[i], id) && Uses(spoken[j], id) && Unanswered(spoken, j, id);
      assert Answers(all[i], id) && Uses(all[j], id) && Unanswered(all, j, id);
    }
    if UsedAgain(all, id) {
      var i, j :| 0 <= i < j < |all| && Answers(all[i], id) && Uses(all[j], id) && Unanswered(all, j, id);
      assert all[i] == spoken[i];
      if j < |spoken| {
        assert Answers(spoken[i], id) && Uses(spoken[j], id);
        assert Unanswered(spoken, j, id) by {
          assert forall k :: j < k < |spoken| ==> spoken[k] == all[k];
        }
      }
    }
  }

  /** So the replay leaves a call running if and only if the transcript answered
      it, used its id again later, and did not answer that. */
  lemma StillRunningIff(messages: seq<Message>, id: string)
    ensures Shows(Updates(messages), id) == Some(InProgress) <==> UsedAgain(Transcript(messages), id)
  {
    CallsAreShownAsRecorded(messages, id);
    RecordFacts(Transcript(messages), id);
    UsedAgainIff(Transcript(messages), id);
  }

  /** The shortest such transcript: one message of a use, an answer and a use. */
  lemma ReusedIdStaysRunning(role: Role, use: Block, answer: Block, again: Block)
    requires use.ToolUse? && answer.ToolResult? && again.ToolUse? && use.id == answer.useId == again.id
    ensures Shows(Updates([Message(role, Blocks([use] + [answer] + [again]))]), use.id) == Some(InProgress)
  {
    var m := Message(role, Blocks([use] + [answer] + [again]));
    var spoken := [Spoken(role, use)] + [Spoken(role, answer)] + [Spoken(role, again)];
    SpokenOne(role, use);
    SpokenSnoc(role, [use], answer);
    SpokenSnoc(role, [use] + [answer], again);
    OnlyMessage(m);
    StillRunningIff([m], use.id);
    assert Answers(spoken[1], use.id) && Uses(spoken[2], use.id) && Unanswered(spoken, 2, use.id);
  }

  lemma SpokenOne(role: Role, b: Block)
    ensures SpokenBlocks(role, [b]) == [Spoken(role, b)]
  {
    assert [b][..0] == [];
  }

  lemma OnlyMessage(m: Message)
    ensures Transcript([m]) == SpokenIn(m)
  {
    assert [m][..0] == [];
  }

  lemma SpokenSnoc(role: Role, blocks: seq<Block>, b: Block)
    ensures SpokenBlocks(role, blocks + [b]) == SpokenBlocks(role, blocks) + [Spoken(role, b)]
  {
    assert (blocks + [b])[..|blocks|] == blocks;
  }

  /** No use of this id comes after an answer to it. Distinct ids, each result
      after its use, are a special case. */
  ghost predicate Orderly(spoken: seq<Spoken>, id: string) {
    forall i :: 0 <= i < |spoken| && spoken[i].block.ToolUse? && spoken[i].block.id == id ==> !Answered(spoken[..i], id)
  }

  lemma {:induction false} OrderlyRecord(spoken: seq<Spoken>, id: string)
    requires Orderly(spoken, id)
    ensures Answered(spoken, id) ==> LastRecord(spoken, id) != Some(InProgress)
  {
    if spoken != [] {
      var init, last := spoken[..|spoken| - 1], spoken[|spoken| - 1];
      assert forall i :: 0 <= i < |init| ==> init[..i] == spoken[..i] && init[i] == spoken[i];
      OrderlyRecord(init, id);
      AnsweredJoin(init, last);
      assert spoken == init + [last];
    }
  }

  /** Then every announced call ends completed or failed. */
  lemma ReplayClosesEveryCall(messages: seq<Message>, id: string)
    requires Orderly(Transcript(messages), id) && id in Started(Transcript(messages))
    ensures Shows(Updates(messages), id) == Some(Completed) || Shows(Updates(messages), id) == Some(Failed)
  {
    CallsAreShownAsRecorded(messages, id);
    RecordFacts(Transcript(messages), id);
    OrderlyRecord(Transcript(messages), id);
    var status := Shows(Updates(messages), id).value;
    assert status.InProgress? || status.Completed? || status.Failed?;
  }

  /** A call gets as many terminal updates as the transcript has results for it,
      or one per use when it has none: exactly one for a call used once and
      answered at most once. */
  lemma TerminalUpdatesPerCall(messages: seq<Message>, id: string)
    ensures var spoken := Transcript(messages);
            TimesUpdated(Updates(messages), id) ==
              if TimesAnswered(spoken, id) > 0 then TimesAnswered(spoken, id) else TimesStarted(Started(spoken), id)
  {
    var spoken := Transcript(messages);
    ToldView(spoken, id);
    ClosingView(Started(spoken), spoken, id);
    ViewJoin(Told(spoken), Closing(Started(spoken), spoken), id);
    RecordFacts(spoken, id);
  }

  /** Text, thoughts and replayable images come out in transcript order, each
      with the right speaker, and nothing else is said. */
  lemma ChunksInOrder(messages: seq<Message>)
    ensures Chunks(Updates(messages)) == Utterances(Transcript(messages))
  {
    var spoken := Transcript(messages);
    ToldView(spoken, "");
    ClosingView(Started(spoken), spoken, "");
    ViewJoin(Told(spoken), Closing(Started(spoken), spoken), "");
  }
}
