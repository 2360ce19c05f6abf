/** A prompt's content blocks turned into the ones the model is sent: runs of
    text joined into one block each, images kept where they stood. */
module PromptBlocks {
  import opened Common

  datatype Block =
    | TextBlock(text: string)
    | ResourceLink(uri: string)
    | Resource(source: Option<string>, contents: Option<string>)
    | ImageBlock(data: string, mimeType: string)
    | Audio
    | Unknown

  datatype Rendered = Text(text: string) | Image(data: string, mimeType: string)

  /** The words a block contributes, if any. */
  function PartOf(b: Block): Option<string> {
    match b
    case TextBlock(text) => Some(text)
    case ResourceLink(uri) => Some("[resource link: " + uri + "]")
    case Resource(Some(uri), Some(text)) => Some("[" + uri + "]\n" + text)
    case Resource(None, Some(text)) => Some(text)
    case Resource(Some(uri), None) => Some("[resource: " + uri + "]")
    case _ => None
  }

  function Joined(parts: seq<string>): string {
    if parts == [] then ""
    else if |parts| == 1 then parts[0]
    else parts[0] + "\n\n" + Joined(parts[1..])
  }

  function Flush(rendered: seq<Rendered>, parts: seq<string>): seq<Rendered> {
    if parts == [] then rendered else rendered + [Text(Joined(parts))]
  }

  /** Blocks rendered so far, and the run of text still being collected. */
  type Progress = (seq<Rendered>, seq<string>)

  function After(progress: Progress, b: Block): Progress {
    var (rendered, parts) := progress;
    if b.ImageBlock? then (Flush(rendered, parts) + [Image(b.data, b.mimeType)], [])
    else if PartOf(b).Some? then (rendered, parts + [PartOf(b).value])
    else (rendered, parts)
  }

  /** What the loop has when it has seen `blocks`. */
  function Collected(blocks: seq<Block>): Progress {
    if blocks == [] then ([], []) else After(Collected(blocks[..|blocks| - 1]), blocks[|blocks| - 1])
  }

  function Render(blocks: seq<Block>): seq<Rendered> {
    Flush(Collected(blocks).0, Collected(blocks).1)
  }

  method RenderPromptBlocks(blocks: seq<Block>) returns (rendered: seq<Rendered>)
    ensures rendered == Render(blocks)
  {
    rendered := [];
    var parts: seq<string> := [];
    for i := 0 to |blocks|
      invariant (rendered, parts) == Collected(blocks[..i])
    {
      assert blocks[..i + 1][..i] == blocks[..i];
      match blocks[i] {
        case TextBlock(text) => parts := parts + [text];
        case ResourceLink(uri) => parts := parts + ["[resource link: " + uri + "]"];
        case Resource(uri, text) =>
          if uri.Some? && text.Some? {
            parts := parts + ["[" + uri.value + "]\n" + text.value];
          } else if text.Some? {
            parts := parts + [text.value];
          } else if uri.Some? {
            parts := parts + ["[resource: " + uri.value + "]"];
          }
        case ImageBlock(data, mimeType) =>
          if parts != [] {
            rendered := rendered + [Text(Joined(parts))];
            parts := [];
          }
          rendered := rendered + [Image(data, mimeType)];
        case Audio | Unknown =>
      }
    }
    assert blocks[..|blocks|] == blocks;
    if parts != [] {
      rendered := rendered + [Text(Joined(parts))];
    }
  }

  // ---------------------------------------------------------------- reference views

  function Texts(rendered: seq<Rendered>): seq<string> {
    if rendered == [] then []
    else Texts(rendered[..|rendered| - 1])
         + (if rendered[|rendered| - 1].Text? then [rendered[|rendered| - 1].text] else [])
  }

  function TextOf(rendered: seq<Rendered>): string {
    Joined(Texts(rendered))
  }

  function Images(rendered: seq<Rendered>): seq<Rendered> {
    if rendered == [] then []
    else Images(rendered[..|rendered| - 1])
         + (if rendered[|rendered| - 1].Image? then [rendered[|rendered| - 1]] else [])
  }

  function Parts(blocks: seq<Block>): seq<string> {
    if blocks == [] then []
    else Parts(blocks[..|blocks| - 1])
         + (if PartOf(blocks[|blocks| - 1]).Some? then [PartOf(blocks[|blocks| - 1]).value] else [])
  }

  function Pictures(blocks: seq<Block>): seq<Rendered> {
    if blocks == [] then []
    else
      var b := blocks[|blocks| - 1];
      Pictures(blocks[..|blocks| - 1]) + (if b.ImageBlock? then [Image(b.data, b.mimeType)] else [])
  }

  predicate Dropped(b: Block) {
    !b.ImageBlock? && PartOf(b).None?
  }

  function Kept(blocks: seq<Block>): seq<Block> {
    if blocks == [] then []
    else Kept(blocks[..|blocks| - 1]) + (if Dropped(blocks[|blocks| - 1]) then [] else [blocks[|blocks| - 1]])
  }

  ghost predicate NoAdjacentTexts(rendered: seq<Rendered>) {
    |rendered| >= 2 ==>
      && NoAdjacentTexts(rendered[..|rendered| - 1])
      && (rendered[|rendered| - 2].Image? || rendered[|rendered| - 1].Image?)
  }

  // ---------------------------------------------------------------- lemmas

  lemma ViewSnoc(rendered: seq<Rendered>, r: Rendered)
    ensures Texts(rendered + [r]) == if r.Text? then Texts(rendered) + [r.text] else Texts(rendered)
    ensures Images(rendered + [r]) == if r.Image? then Images(rendered) + [r] else Images(rendered)
  {
    assert (rendered + [r])[..|rendered|] == rendered;
    assert Texts(rendered) + [] == Texts(rendered) && Images(rendered) + [] == Images(rendered);
  }

  lemma CollectedSnoc(blocks: seq<Block>, b: Block)
    ensures Collected(blocks + [b]) == After(Collected(blocks), b)
  {
    assert (blocks + [b])[..|blocks|] == blocks;
  }

  /** The loop's two halves, read off from what comes after an image. */
  lemma {:induction false} CollectedAfterImage(a: seq<Block>, image: Block, b: seq<Block>)
    requires image.ImageBlock?
    ensures Collected(a + [image] + b) ==
            (Render(a) + [Image(image.data, image.mimeType)] + Collected(b).0, Collected(b).1)
  {
    var front := Render(a) + [Image(image.data, image.mimeType)];
    if b == [] {
      CollectedSnoc(a, image);
      assert a + [image] + b == a + [image];
      assert front + [] == front;
    } else {
      var init, last := b[..|b| - 1], b[|b| - 1];
      CollectedAfterImage(a, image, init);
      CollectedSnoc(a + [image] + init, last);
      assert a + [image] + b == (a + [image] + init) + [last];
      AfterBehind(front, Collected(init), last);
    }
  }

  /** What is in front does not matter to a step. */
  lemma AfterBehind(front: seq<Rendered>, progress: Progress, b: Block)
    ensures After((front + progress.0, progress.1), b) == (front + After(progress, b).0, After(progress, b).1)
  {
    var (rendered, parts) := progress;
    assert Flush(front + rendered, parts) == front + Flush(rendered, parts);
    if b.ImageBlock? {
      Regroup(front, Flush(rendered, parts), [Image(b.data, b.mimeType)]);
    }
  }

  lemma Regroup(a: seq<Rendered>, b: seq<Rendered>, c: seq<Rendered>)
    ensures (a + b) + c == a + (b + c)
  {
  }

  lemma {:induction false} WithoutImages(blocks: seq<Block>)
    requires forall b :: b in blocks ==> !b.ImageBlock?
    ensures Collected(blocks) == ([], Parts(blocks))
  {
    if blocks != [] {
      assert blocks[|blocks| - 1] in blocks;
      assert Parts(blocks[..|blocks| - 1]) + [] == Parts(blocks[..|blocks| - 1]);
      WithoutImages(blocks[..|blocks| - 1]);
    }
  }

  lemma {:induction false} JoinedConcat(a: seq<string>, b: seq<string>)
    requires a != [] && b != []
    ensures Joined(a + b) == Joined(a) + "\n\n" + Joined(b)
  {
    if |a| == 1 {
      assert (a + b)[1..] == b;
    } else {
      assert (a + b)[1..] == a[1..] + b;
      JoinedConcat(a[1..], b);
      assert a[0] + "\n\n" + (Joined(a[1..]) + "\n\n" + Joined(b)) == a[0] + "\n\n" + Joined(a[1..]) + "\n\n" + Joined(b);
    }
  }

  /** Joining runs that were joined already is joining everything. */
  lemma JoinedRun(runs: seq<string>, before: seq<string>, run: seq<string>)
    requires run != [] && Joined(runs) == Joined(before) && (runs == [] <==> before == [])
    ensures Joined(runs + [Joined(run)]) == Joined(before + run)
  {
    if runs == [] {
      assert runs + [Joined(run)] == [Joined(run)] && before + run == run;
    } else {
      JoinedConcat(runs, [Joined(run)]);
      JoinedConcat(before, run);
    }
  }

  /** How the loop's state relates to the parts seen: the runs already rendered
      spell the earlier parts, and the run being collected is the rest. */
  lemma {:induction false} CollectedSpells(blocks: seq<Block>) returns (done: seq<string>)
    ensures var (rendered, parts) := Collected(blocks);
            && Parts(blocks) == done + parts
            && Joined(Texts(rendered)) == Joined(done)
            && (Texts(rendered) == [] <==> done == [])
  {
    if blocks == [] {
      return [];
    }
    var init, b := blocks[..|blocks| - 1], blocks[|blocks| - 1];
    done := CollectedSpells(init);
    var (rendered, parts) := Collected(init);
    if b.ImageBlock? {
      ViewSnoc(Flush(rendered, parts), Image(b.data, b.mimeType));
      if parts != [] {
        ViewSnoc(rendered, Text(Joined(parts)));
        JoinedRun(Texts(rendered), done, parts);
      } else {
        assert done + parts == done;
      }
      done := done + parts;
      assert done + [] == Parts(blocks);
    } else if PartOf(b).Some? {
      assert done + (parts + [PartOf(b).value]) == (done + parts) + [PartOf(b).value];
    }
  }

  lemma AdjacentSnoc(rendered: seq<Rendered>, r: Rendered)
    requires NoAdjacentTexts(rendered)
    requires rendered != [] ==> rendered[|rendered| - 1].Image? || r.Image?
    ensures NoAdjacentTexts(rendered + [r])
  {
    assert (rendered + [r])[..|rendered|] == rendered;
  }

  lemma FlushShape(rendered: seq<Rendered>, parts: seq<string>)
    requires NoAdjacentTexts(rendered) && (rendered != [] ==> rendered[|rendered| - 1].Image?)
    ensures NoAdjacentTexts(Flush(rendered, parts))
    ensures Images(Flush(rendered, parts)) == Images(rendered)
  {
    if parts != [] {
      AdjacentSnoc(rendered, Text(Joined(parts)));
      ViewSnoc(rendered, Text(Joined(parts)));
    }
  }

  /** No two texts stand side by side, and the next text has an image before it. */
  ghost predicate Shaped(rendered: seq<Rendered>, images: seq<Rendered>) {
    && NoAdjacentTexts(rendered)
    && (rendered != [] ==> rendered[|rendered| - 1].Image?)
    && Images(rendered) == images
  }

  lemma {:induction false} CollectedShape(blocks: seq<Block>)
    ensures Shaped(Collected(blocks).0, Pictures(blocks))
  {
    if blocks != [] {
      var init, b := blocks[..|blocks| - 1], blocks[|blocks| - 1];
      CollectedShape(init);
      if b.ImageBlock? {
        ImageShape(Collected(init).0, Collected(init).1, Image(b.data, b.mimeType), Pictures(init));
      } else {
        assert Pictures(init) + [] == Pictures(init);
      }
    }
  }

  lemma ImageShape(rendered: seq<Rendered>, parts: seq<string>, image: Rendered, images: seq<Rendered>)
    requires Shaped(rendered, images) && image.Image?
    ensures Shaped(Flush(rendered, parts) + [image], images + [image])
  {
    FlushShape(rendered, parts);
    AdjacentSnoc(Flush(rendered, parts), image);
    ViewSnoc(Flush(rendered, parts), image);
  }

  // ---------------------------------------------------------------- main results

  /** Images stay, in order, and no two text blocks stand side by side. */
  lemma RenderShape(blocks: seq<Block>)
    ensures NoAdjacentTexts(Render(blocks)) && Images(Render(blocks)) == Pictures(blocks)
  {
    CollectedShape(blocks);
    FlushShape(Collected(blocks).0, Collected(blocks).1);
  }

  /** What each kind of block contributes on its own. */
  lemma EachBlockRenders(text: string, uri: string, data: string, mimeType: string)
    ensures Render([TextBlock(text)]) == [Text(text)]
    ensures Render([ResourceLink(uri)]) == [Text("[resource link: " + uri + "]")]
    ensures Render([Resource(Some(uri), Some(text))]) == [Text("[" + uri + "]\n" + text)]
    ensures Render([Resource(None, Some(text))]) == [Text(text)]
    ensures Render([Resource(Some(uri), None)]) == [Text("[resource: " + uri + "]")]
    ensures Render([Resource(None, None)]) == Render([Audio]) == Render([Unknown]) == []
    ensures Render([ImageBlock(data, mimeType)]) == [Image(data, mimeType)]
  {
    OneBlock(TextBlock(text));
    OneBlock(ResourceLink(uri));
    OneBlock(Resource(Some(uri), Some(text)));
    OneBlock(Resource(None, Some(text)));
    OneBlock(Resource(Some(uri), None));
    OneBlock(Resource(None, None));
    OneBlock(Audio);
    OneBlock(Unknown);
    OneBlock(ImageBlock(data, mimeType));
  }

  lemma OneBlock(b: Block)
    ensures Render([b]) ==
            if b.ImageBlock? then [Image(b.data, b.mimeType)]
            else if PartOf(b).Some? then [Text(PartOf(b).value)] else []
  {
    assert [b][..0] == [];
    assert Collected([b]) == After(([], []), b);
  }

  /** An image splits the rendering exactly in two. */
  lemma RenderSplitsAtImage(a: seq<Block>, image: Block, b: seq<Block>)
    requires image.ImageBlock?
    ensures Render(a + [image] + b) == Render(a) + [Image(image.data, image.mimeType)] + Render(b)
  {
    CollectedAfterImage(a, image, b);
  }

  /** Between images there is one block holding all the words, or none. With the
      split at images this says what rendering is for every list of blocks. */
  lemma RenderWithoutImages(blocks: seq<Block>)
    requires forall b :: b in blocks ==> !b.ImageBlock?
    ensures Render(blocks) == if Parts(blocks) == [] then [] else [Text(Joined(Parts(blocks)))]
  {
    WithoutImages(blocks);
  }

  /** What the prompt said in words is all its text joined, as if no image were there. */
  lemma TextIgnoresImages(blocks: seq<Block>)
    ensures TextOf(Render(blocks)) == Joined(Parts(blocks))
  {
    var done := CollectedSpells(blocks);
    var (rendered, parts) := Collected(blocks);
    if parts == [] {
      assert done + parts == done;
    } else {
      ViewSnoc(rendered, Text(Joined(parts)));
      JoinedRun(Texts(rendered), done, parts);
    }
  }

  /** Blocks of a kind that is dropped leave no trace. */
  lemma {:induction false} DroppedLeaveNoTrace(blocks: seq<Block>)
    ensures Collected(Kept(blocks)) == Collected(blocks) && Render(Kept(blocks)) == Render(blocks)
  {
    if blocks != [] {
      var init, b := blocks[..|blocks| - 1], blocks[|blocks| - 1];
      DroppedLeaveNoTrace(init);
      if Dropped(b) {
        assert Kept(init) + [] == Kept(init);
      } else {
        CollectedSnoc(Kept(init), b);
      }
    }
  }

  // ---------------------------------------------------------------- the guard

  predicate White(c: char) {
    c == ' ' || '\t' <= c <= '\r' || c == '\U{0085}' || c == '\U{00A0}' || c == '\U{1680}'
    || '\U{2000}' <= c <= '\U{200A}' || c == '\U{2028}' || c == '\U{2029}' || c == '\U{202F}'
    || c == '\U{205F}' || c == '\U{3000}'
  }

  predicate BlankText(text: string) {
    forall i :: 0 <= i < |text| ==> White(text[i])
  }

  predicate Refused(blocks: seq<Block>) {
    var rendered := Render(blocks);
    |rendered| == 0 || (BlankText(TextOf(rendered)) && |rendered| == 1)
  }

  /** White space as `char::is_whitespace` has it, by code points. */
  lemma WhiteIff(c: char)
    ensures White(c) <==>
            || 9 <= c as int <= 13 || 8192 <= c as int <= 8202
            || c as int in {32, 133, 160, 5760, 8232, 8233, 8239, 8287, 12288}
  {
  }

  /** A text is blank when every character of it is. */
  lemma BlankIff(a: string, c: char, b: string)
    ensures BlankText("") && (BlankText(a + [c] + b) <==> BlankText(a) && White(c) && BlankText(b))
  {
    var all := a + [c] + b;
    assert forall i :: 0 <= i < |a| ==> all[i] == a[i];
    assert all[|a|] == c;
    assert forall i :: 0 <= i < |b| ==> all[|a| + 1 + i] == b[i];
  }

  /** A prompt is refused exactly when it has no image and only blank words, or
      is one image without a word. The second is refused although nothing in
      it is missing. */
  lemma RefusedIff(blocks: seq<Block>)
    ensures Refused(blocks) <==>
            || (Pictures(blocks) == [] && BlankText(Joined(Parts(blocks))))
            || (|Pictures(blocks)| == 1 && Parts(blocks) == [])
  {
    TextIgnoresImages(blocks);
    RenderShape(blocks);
    CountBlocks(Render(blocks));
    var done := CollectedSpells(blocks);
    CollectedTexts(blocks);
    AdjacentCount(Render(blocks));
  }

  lemma {:induction false} CountBlocks(rendered: seq<Rendered>)
    ensures |rendered| == |Texts(rendered)| + |Images(rendered)|
  {
    if rendered != [] {
      CountBlocks(rendered[..|rendered| - 1]);
    }
  }

  /** Without an image to separate them there is at most one text block. */
  lemma {:induction false} AdjacentCount(rendered: seq<Rendered>)
    requires NoAdjacentTexts(rendered)
    ensures |Texts(rendered)| <= |Images(rendered)| + (if rendered != [] && rendered[|rendered| - 1].Text? then 1 else 0)
  {
    if rendered != [] {
      var init := rendered[..|rendered| - 1];
      AdjacentCount(init);
      if rendered[|rendered| - 1].Text? && init != [] {
        assert init[|init| - 1] == rendered[|init| - 1];
        assert rendered[|init| - 1].Image?;
      }
    }
  }

  /** There are words in the rendering exactly when there are parts. */
  lemma CollectedTexts(blocks: seq<Block>)
    ensures Texts(Render(blocks)) == [] <==> Parts(blocks) == []
  {
    var done := CollectedSpells(blocks);
    var (rendered, parts) := Collected(blocks);
    ViewSnoc(rendered, Text(Joined(parts)));
  }
}
