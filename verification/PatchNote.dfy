/** Putting one more patch bullet into a release's notes: what repeating that
    does to the section at the top and to the body below it. */
module PatchNote {
  import opened Lines

  const HEADING: string := "## \U{1FA79} Patches"

  // ---------------------------------------------------------------- strings as Python has them

  predicate White(c: char) {
    '\t' <= c <= '\r' || '\U{001C}' <= c <= ' ' || c == '\U{0085}' || c == '\U{00A0}'
    || c == '\U{1680}' || '\U{2000}' <= c <= '\U{200A}' || c == '\U{2028}' || c == '\U{2029}'
    || c == '\U{202F}' || c == '\U{205F}' || c == '\U{3000}'
  }

  function Strip(s: string): string {
    if s == "" then s
    else if White(s[0]) then Strip(s[1..])
    else if White(s[|s| - 1]) then Strip(s[..|s| - 1])
    else s
  }

  /** Every "\r\n", read from the left, becomes "\n". */
  function Unix(s: string): string {
    if |s| < 2 then s
    else if s[0] == '\r' && s[1] == '\n' then "\n" + Unix(s[2..])
    else [s[0]] + Unix(s[1..])
  }

  function WithoutTrailing(s: string): string {
    if s != "" && s[|s| - 1] == '\n' then WithoutTrailing(s[..|s| - 1]) else s
  }

  // ---------------------------------------------------------------- the splice

  /** A body as the splice first reads it. */
  function Read(body: string): string {
    WithoutTrailing(Unix(body))
  }

  function LinesOf(text: string): seq<string> {
    if text == "" then [] else Split(text)
  }

  predicate Blank(line: string) {
    Strip(line) == ""
  }

  predicate Bullet(line: string) {
    "- " <= line
  }

  function PastBlanks(lines: seq<string>, i: nat): (end: nat)
    requires i <= |lines|
    ensures i <= end <= |lines|
    ensures forall k :: i <= k < end ==> Blank(lines[k])
    ensures end < |lines| ==> !Blank(lines[end])
    decreases |lines| - i
  {
    if i < |lines| && Blank(lines[i]) then PastBlanks(lines, i + 1) else i
  }

  function PastBullets(lines: seq<string>, i: nat): (end: nat)
    requires i <= |lines|
    ensures i <= end <= |lines|
    ensures forall k :: i <= k < end ==> Bullet(lines[k])
    ensures end < |lines| ==> !Bullet(lines[end])
    decreases |lines| - i
  {
    if i < |lines| && Bullet(lines[i]) then PastBullets(lines, i + 1) else i
  }

  predicate Headed(lines: seq<string>) {
    var head := PastBlanks(lines, 0);
    head < |lines| && Strip(lines[head]) == HEADING
  }

  /** Where the list under the heading ends. */
  function ListEnd(lines: seq<string>): (end: nat)
    requires Headed(lines)
    ensures end <= |lines|
  {
    PastBullets(lines, PastBlanks(lines, PastBlanks(lines, 0) + 1))
  }

  /** Lines with others, if there are any, under them and a blank line between. */
  function Above(top: seq<string>, lines: seq<string>): seq<string> {
    if lines == [] then top else top + ([""] + lines)
  }

  function SplicedLines(lines: seq<string>, bullet: string): seq<string> {
    if Headed(lines) then lines[..ListEnd(lines)] + [bullet] + lines[ListEnd(lines)..]
    else Above([HEADING, "", bullet], lines)
  }

  function Spliced(body: string, bullet: string): string {
    Join(SplicedLines(LinesOf(Read(body)), WithoutTrailing(bullet))) + "\n"
  }

  method Splice(body: string, bullet: string) returns (text: string)
    ensures text == Spliced(body, bullet)
  {
    var read := WithoutTrailing(Unix(body));
    var line := WithoutTrailing(bullet);
    var lines := if read != "" then Split(read) else [];
    ghost var was := lines;
    var head := 0;
    while head < |lines| && Strip(lines[head]) == ""
      invariant head <= |lines| && PastBlanks(lines, head) == PastBlanks(lines, 0)
    {
      head := head + 1;
    }
    assert head == PastBlanks(was, 0);
    if head < |lines| && Strip(lines[head]) == HEADING {
      var j := head + 1;
      while j < |lines| && Strip(lines[j]) == ""
        invariant head < j <= |lines| && PastBlanks(lines, j) == PastBlanks(lines, head + 1)
      {
        j := j + 1;
      }
      ghost var first := j;
      assert first == PastBlanks(was, head + 1);
      while j < |lines| && "- " <= lines[j]
        invariant first <= j <= |lines| && PastBullets(lines, j) == PastBullets(lines, first)
      {
        j := j + 1;
      }
      assert Headed(was) && j == ListEnd(was);
      lines := lines[..j] + [line] + lines[j..];
      return Join(lines) + "\n";
    }
    assert !Headed(was);
    var section := [HEADING, "", line];
    if read != "" {
      section := section + [""];
      section := section + [read];
      TextAbove([HEADING, "", line], read);
    }
    return Join(section) + "\n";
  }

  // ---------------------------------------------------------------- lines and text

  lemma TextAbove(top: seq<string>, read: string)
    requires top != [] && read != ""
    ensures Join(top + [""] + [read]) == Join(Above(top, LinesOf(read)))
  {
    JoinSplit(read);
    JoinConcat(top + [""], [read]);
    JoinConcat(top + [""], Split(read));
    assert top + ([""] + Split(read)) == (top + [""]) + Split(read);
  }

  // ---------------------------------------------------------------- stripping

  /** The characters `str.strip` takes for white space, by their code points. */
  lemma WhiteIff(c: char)
    ensures White(c) <==>
            || 9 <= c as int <= 13 || 28 <= c as int <= 32 || 8192 <= c as int <= 8202
            || c as int in {133, 160, 5760, 8232, 8233, 8239, 8287, 12288}
  {
  }

  predicate AllWhite(s: string) {
    forall i :: 0 <= i < |s| ==> White(s[i])
  }

  /** What is left is what stands between the first and the last character that
      is not white, untouched; nothing, if all is white. */
  lemma {:induction false} StripTrims(front: string, s: string, back: string)
    requires AllWhite(front) && AllWhite(back)
    requires s != "" ==> !White(s[0]) && !White(s[|s| - 1])
    ensures Strip(front + s + back) == s
  {
    var all := front + s + back;
    if front != "" {
      assert all[1..] == front[1..] + s + back;
      assert White(all[0]) by { assert all[0] == front[0]; }
      StripTrims(front[1..], s, back);
    } else if s == "" {
      assert all == back;
      StripWhite(back);
    } else if back != "" {
      assert all[..|all| - 1] == front + s + back[..|back| - 1];
      assert all[0] == s[0] && all[|all| - 1] == back[|back| - 1];
      StripTrims(front, s, back[..|back| - 1]);
    } else {
      assert all == s;
    }
  }

  lemma {:induction false} StripWhite(s: string)
    requires AllWhite(s)
    ensures Strip(s) == ""
  {
    if s != "" {
      StripWhite(s[1..]);
    }
  }

  // ---------------------------------------------------------------- reading a body

  predicate CrLfFree(s: string) {
    |s| >= 2 ==> !(s[0] == '\r' && s[1] == '\n') && CrLfFree(s[1..])
  }

  predicate EndsIn(s: string, c: char) {
    s != "" && s[|s| - 1] == c
  }

  lemma {:induction false} UnixShrinks(s: string)
    ensures |Unix(s)| <= |s| && (|Unix(s)| == |s| <==> CrLfFree(s)) && (CrLfFree(s) ==> Unix(s) == s)
  {
    if |s| >= 2 {
      UnixShrinks(s[1..]);
      UnixShrinks(s[2..]);
    }
  }

  /** What stands before a newline of its own is not disturbed by what follows. */
  lemma {:induction false} UnixConcat(a: string, b: string)
    requires CrLfFree(a) && !EndsIn(a, '\r')
    ensures Unix(a + b) == a + Unix(b)
  {
    if a != "" {
      assert (a + b)[1..] == a[1..] + b;
      if |a| == 1 {
        assert a[1..] == "";
      }
      UnixConcat(a[1..], b);
      assert a == [a[0]] + a[1..];
    } else {
      assert a + b == b;
    }
  }

  lemma {:induction false} CrLfFreeConcat(a: string, b: string)
    requires CrLfFree(a) && CrLfFree(b) && !EndsIn(a, '\r')
    ensures CrLfFree(a + b)
  {
    if a != "" {
      assert (a + b)[1..] == a[1..] + b;
      CrLfFreeConcat(a[1..], b);
    } else {
      assert a + b == b;
    }
  }

  lemma {:induction false} OneLineIsCrLfFree(s: string)
    requires OneLine(s)
    ensures CrLfFree(s)
  {
    if |s| >= 2 {
      OneLineIsCrLfFree(s[1..]);
    }
  }

  lemma {:induction false} TrailingConcat(a: string, b: string)
    ensures WithoutTrailing(a + b) == if WithoutTrailing(b) == "" then WithoutTrailing(a) else a + WithoutTrailing(b)
  {
    if b == "" {
      assert a + b == a;
    } else {
      assert (a + b)[..|a + b| - 1] == a + b[..|b| - 1];
      TrailingConcat(a, b[..|b| - 1]);
    }
  }

  lemma {:induction false} TrailingShrinks(s: string)
    ensures WithoutTrailing(s) <= s && !EndsIn(WithoutTrailing(s), '\n')
  {
    if EndsIn(s, '\n') {
      TrailingShrinks(s[..|s| - 1]);
    }
  }

  /** The last newline of a text outlives the line-ending change. */
  lemma {:induction false} UnixKeepsTheEnd(s: string)
    ensures EndsIn(Unix(s + "\n"), '\n')
  {
    if s != "" {
      assert (s + "\n")[1..] == s[1..] + "\n";
      UnixKeepsTheEnd(s[1..]);
      if |s| >= 2 {
        assert (s + "\n")[2..] == s[2..] + "\n";
        UnixKeepsTheEnd(s[2..]);
      }
    }
  }

  /** A body that comes back as it was from a release that ends its notes with a newline. */
  predicate Settled(body: string) {
    CrLfFree(body) && !EndsIn(body, '\r') && !EndsIn(body, '\n')
  }

  lemma SettledIff(body: string)
    ensures Settled(body) <==> Read(body + "\n") == body
  {
    if Settled(body) {
      UnixConcat(body, "\n");
      TrailingConcat(body, "\n");
      assert WithoutTrailing("\n") == WithoutTrailing("");
    }
    if Read(body + "\n") == body {
      ReadsBackSettled(body);
    }
  }

  lemma ReadsBackSettled(body: string)
    requires Read(body + "\n") == body
    ensures Settled(body)
  {
    var whole := body + "\n";
    UnixShrinks(whole);
    UnixKeepsTheEnd(body);
    TrailingShrinks(Unix(whole));
    assert |Unix(whole)| == |whole|;
    CrLfFreePrefix(body);
  }

  lemma {:induction false} CrLfFreePrefix(s: string)
    requires CrLfFree(s + "\n")
    ensures CrLfFree(s) && !EndsIn(s, '\r')
  {
    if s != "" {
      assert (s + "\n")[1..] == s[1..] + "\n";
      CrLfFreePrefix(s[1..]);
    }
  }

  // ---------------------------------------------------------------- repeated splicing

  /** A bullet on one line, as the section's list recognises it. */
  predicate Plain(bullet: string) {
    "- " <= bullet && OneLine(bullet) && !EndsIn(bullet, '\r')
  }

  predicate AllPlain(bullets: seq<string>) {
    forall b :: b in bullets ==> Plain(b)
  }

  function SpliceAll(body: string, bullets: seq<string>): string {
    if bullets == [] then body
    else Spliced(SpliceAll(body, bullets[..|bullets| - 1]), bullets[|bullets| - 1])
  }

  /** The body below the section after it has been read `times` times. */
  function Carried(body: string, times: nat): string {
    if times == 0 then body
    else if times == 1 then Read(body)
    else Read(Carried(body, times - 1) + "\n")
  }

  function Section(bullets: seq<string>, rest: string): seq<string> {
    Above([HEADING, ""] + bullets, LinesOf(rest))
  }

  function Notes(bullets: seq<string>, rest: string): string {
    Join(Section(bullets, rest)) + "\n"
  }

  lemma BulletIsNotBlank(line: string)
    requires Bullet(line)
    ensures !Blank(line)
  {
    StripKeeps(line);
  }

  lemma {:induction false} StripKeeps(s: string)
    requires s != "" && !White(s[0])
    ensures Strip(s) != ""
  {
    if White(s[|s| - 1]) {
      StripKeeps(s[..|s| - 1]);
    }
  }

  lemma HeadingStands()
    ensures Strip(HEADING) == HEADING && OneLine(HEADING) && !EndsIn(HEADING, '\r')
  {
    assert HEADING[|HEADING| - 1] == 's' && HEADING[0] == '#';
  }

  /** The section's list ends after its bullets, whatever the body below. */
  lemma SectionListEnd(bullets: seq<string>, rest: string)
    requires AllPlain(bullets) && bullets != []
    ensures var lines := Section(bullets, rest); Headed(lines) && ListEnd(lines) == 2 + |bullets|
  {
    var lines := Section(bullets, rest);
    HeadingStands();
    assert lines[0] == HEADING && lines[1] == "" && lines[2] == bullets[0];
    assert bullets[0] in bullets;
    BulletIsNotBlank(bullets[0]);
    assert PastBlanks(lines, 0) == 0;
    assert PastBlanks(lines, 2) == 2;
    assert PastBlanks(lines, 1) == 2;
    BulletsRun(lines, bullets, 2);
  }

  lemma {:induction false} BulletsRun(lines: seq<string>, bullets: seq<string>, i: nat)
    requires AllPlain(bullets)
    requires 2 <= i <= 2 + |bullets| <= |lines| && lines[2..2 + |bullets|] == bullets
    requires 2 + |bullets| < |lines| ==> lines[2 + |bullets|] == ""
    ensures PastBullets(lines, i) == 2 + |bullets|
    decreases 2 + |bullets| - i
  {
    if i < 2 + |bullets| {
      assert lines[i] == lines[2..2 + |bullets|][i - 2] && bullets[i - 2] in bullets;
      BulletsRun(lines, bullets, i + 1);
    }
  }

  predicate Clean(line: string) {
    OneLine(line) && !EndsIn(line, '\r')
  }

  predicate AllClean(lines: seq<string>) {
    forall l :: l in lines ==> Clean(l)
  }

  /** Reading changes nothing in clean lines, as long as the last is not empty. */
  lemma {:induction false} CleanLinesSettle(lines: seq<string>)
    requires AllClean(lines) && lines != [] && lines[|lines| - 1] != ""
    ensures Settled(Join(lines)) && Join(lines) != "" && Split(Join(lines)) == lines
  {
    var first := lines[0];
    assert first in lines;
    SplitJoin(lines);
    if |lines| == 1 {
      OneLineIsCrLfFree(first);
      assert first[|first| - 1] in first;
    } else {
      CleanLinesSettle(lines[1..]);
      LineAboveSettled(first, Join(lines[1..]));
    }
  }

  lemma LineAboveSettled(line: string, rest: string)
    requires Clean(line) && Settled(rest) && rest != ""
    ensures Settled(line + "\n" + rest)
  {
    OneLineIsCrLfFree(line);
    CrLfFreeConcat(line, "\n");
    CrLfFreeConcat(line + "\n", rest);
  }

  /** Reading notes whose top is settled reads the part below on its own. */
  lemma ReadBelow(top: string, rest: string)
    requires Settled(top)
    ensures var below := Read(rest + "\n");
            Read(top + "\n\n" + (rest + "\n")) == if below == "" then top else top + "\n\n" + below
  {
    var gap := top + "\n\n";
    CrLfFreeConcat(top, "\n\n");
    UnixConcat(gap, rest + "\n");
    TrailingConcat(gap, Unix(rest + "\n"));
    TrailingConcat(top, "\n\n");
    assert WithoutTrailing("\n\n") == WithoutTrailing("\n") == WithoutTrailing("") == "";
    if top != "" {
      assert WithoutTrailing(top) == top;
    }
  }

  lemma JoinBelow(top: seq<string>, rest: string)
    requires top != []
    ensures Join(top + ([""] + Split(rest))) + "\n" == Join(top) + "\n\n" + (rest + "\n")
  {
    JoinSplit(rest);
    JoinConcat([""], Split(rest));
    JoinConcat(top, [""] + Split(rest));
    TwoNewlines(Join(top), rest);
  }

  lemma TwoNewlines(top: string, rest: string)
    ensures top + "\n" + ("" + "\n" + rest) + "\n" == top + "\n\n" + (rest + "\n")
  {
  }

  lemma SplitBelow(top: string, rest: string)
    ensures Split(top + "\n\n" + rest) == Split(top) + ([""] + Split(rest))
  {
    SplitConcat("", rest);
    SplitConcat(top, "" + "\n" + rest);
    assert top + "\n" + ("" + "\n" + rest) == top + "\n\n" + rest;
  }

  /** What a splice reads when the notes already carry such a top. */
  lemma TopReadBack(top: seq<string>, rest: string)
    requires AllClean(top) && top != [] && top[|top| - 1] != ""
    ensures LinesOf(Read(Join(Above(top, LinesOf(rest))) + "\n")) == Above(top, LinesOf(Read(rest + "\n")))
  {
    CleanLinesSettle(top);
    if rest == "" {
      SettledIff(Join(top));
      SettledIff("");
      assert "" + "\n" == rest + "\n";
    } else {
      JoinBelow(top, rest);
      ReadBelow(Join(top), rest);
      SplitBelow(Join(top), Read(rest + "\n"));
    }
  }

  lemma SectionReadBack(bullets: seq<string>, rest: string)
    requires AllPlain(bullets) && bullets != []
    ensures LinesOf(Read(Join(Section(bullets, rest)) + "\n")) == Section(bullets, Read(rest + "\n"))
  {
    HeadingStands();
    assert AllClean([HEADING, ""] + bullets);
    assert bullets[|bullets| - 1] in bullets;
    TopReadBack([HEADING, ""] + bullets, rest);
  }

  /** Splicing any bullets, one after another, into any body that does not open
      with the section: the heading, a blank line, the bullets in order, and
      under a blank line the body, changed by nothing but its being read. */
  lemma {:induction false} RepeatedSplicing(body: string, bullets: seq<string>)
    requires AllPlain(bullets) && bullets != []
    requires !Headed(LinesOf(Read(body)))
    ensures SpliceAll(body, bullets) == Notes(bullets, Carried(body, |bullets|))
  {
    var n := |bullets|;
    var init, last := bullets[..n - 1], bullets[n - 1];
    assert bullets == init + [last];
    if n == 1 {
      FirstOfAll(body, last);
    } else {
      RepeatedSplicing(body, init);
      OneMore(body, init, last, Carried(body, n - 1));
    }
  }

  lemma FirstOfAll(body: string, bullet: string)
    requires !Headed(LinesOf(Read(body))) && AllPlain([] + [bullet])
    ensures SpliceAll(body, [] + [bullet]) == Notes([] + [bullet], Read(body))
  {
    assert [] + [bullet] == [bullet] && bullet in [bullet];
    SpliceOnBody(body, bullet);
  }

  lemma OneMore(body: string, bullets: seq<string>, bullet: string, rest: string)
    requires AllPlain(bullets + [bullet]) && bullets != []
    requires SpliceAll(body, bullets) == Notes(bullets, rest)
    ensures SpliceAll(body, bullets + [bullet]) == Notes(bullets + [bullet], Read(rest + "\n"))
  {
    assert bullet in bullets + [bullet];
    assert (bullets + [bullet])[..|bullets|] == bullets;
    SpliceOnSection(bullets, bullet, rest);
  }

  lemma SpliceOnSection(bullets: seq<string>, bullet: string, rest: string)
    requires AllPlain(bullets) && bullets != [] && Plain(bullet)
    ensures Spliced(Notes(bullets, rest), bullet) == Notes(bullets + [bullet], Read(rest + "\n"))
  {
    SectionReadBack(bullets, rest);
    NextSplice(bullets, bullet, Read(rest + "\n"));
    assert bullet[|bullet| - 1] in bullet;
    assert WithoutTrailing(bullet) == bullet;
  }

  lemma SpliceOnBody(body: string, bullet: string)
    requires !Headed(LinesOf(Read(body))) && Plain(bullet)
    ensures Spliced(body, bullet) == Notes([bullet], Read(body))
  {
    FirstSplice(LinesOf(Read(body)), bullet);
    assert bullet[|bullet| - 1] in bullet;
    assert WithoutTrailing(bullet) == bullet;
  }

  lemma FirstSplice(lines: seq<string>, bullet: string)
    requires !Headed(lines)
    ensures SplicedLines(lines, bullet) == Above([HEADING, ""] + [bullet], lines)
  {
    assert [HEADING, "", bullet] == [HEADING, ""] + [bullet];
  }

  lemma NextSplice(bullets: seq<string>, bullet: string, below: string)
    requires AllPlain(bullets) && bullets != []
    ensures SplicedLines(Section(bullets, below), bullet) == Section(bullets + [bullet], below)
  {
    SectionListEnd(bullets, below);
    var top, lines := [HEADING, ""] + bullets, Section(bullets, below);
    assert lines[..2 + |bullets|] == top;
    assert [HEADING, ""] + (bullets + [bullet]) == top + [bullet];
    if below != "" {
      assert lines[2 + |bullets|..] == [""] + Split(below);
    } else {
      assert lines[2 + |bullets|..] == [];
    }
  }

  /** The body below the section is untouched however many bullets go in,
      exactly when it has no "\r\n" and does not end in "\n" or "\r". One bullet
      asks less of it: a last "\r" is only lost when the notes are read again. */
  lemma {:induction false} BodyUntouchedIff(body: string, times: nat)
    requires times >= 2
    ensures Carried(body, times) == body <==> Settled(body)
  {
    SettledIff(body);
    ReadShrinks(body);
    CarriedShrinks(body, times - 1);
    var before := Carried(body, times - 1);
    ReadEndsClean(before);
    assert |before| == |body| ==> before == body;
    if Settled(body) {
      SettledCarries(body, times);
    }
  }

  lemma ReadShrinks(body: string)
    ensures |Read(body)| <= |body| && (|Read(body)| == |body| ==> Read(body) == body)
  {
    UnixShrinks(body);
    TrailingShrinks(Unix(body));
  }

  lemma ReadEndsClean(body: string)
    ensures |Read(body + "\n")| <= |body| && (|Read(body + "\n")| == |body| ==> Read(body + "\n") == body)
  {
    UnixShrinks(body + "\n");
    UnixKeepsTheEnd(body);
    TrailingShrinks(Unix(body + "\n"));
  }

  lemma {:induction false} CarriedShrinks(body: string, times: nat)
    ensures |Carried(body, times)| <= |body|
    ensures |Carried(body, times)| == |body| ==> Carried(body, times) == body
  {
    if times == 1 {
      ReadShrinks(body);
    } else if times > 1 {
      CarriedShrinks(body, times - 1);
      ReadEndsClean(Carried(body, times - 1));
    }
  }

  lemma {:induction false} SettledCarries(body: string, times: nat)
    requires Settled(body)
    ensures Carried(body, times) == body
  {
    SettledIff(body);
    if times == 1 {
      UnixShrinks(body);
    } else if times > 1 {
      SettledCarries(body, times - 1);
    }
  }

  // ---------------------------------------------------------------- an existing section

  /** With a section in place a splice adds exactly one line to the notes, after
      the section's last bullet, and keeps every other line in order. */
  lemma SpliceInsertsOneLine(body: string, bullet: string) returns (head: nat, first: nat, end: nat)
    requires OneLine(bullet) && Headed(LinesOf(Read(body)))
    ensures var lines := LinesOf(Read(body));
            && head < first <= end <= |lines|
            && (forall i :: 0 <= i < head ==> Blank(lines[i]))
            && Strip(lines[head]) == HEADING
            && (forall i :: head < i < first ==> Blank(lines[i]))
            && (forall i :: first <= i < end ==> "- " <= lines[i])
            && (end < |lines| ==> !("- " <= lines[end]))
            && Split(Spliced(body, bullet)) == lines[..end] + [bullet] + lines[end..] + [""]
  {
    var lines := LinesOf(Read(body));
    head := PastBlanks(lines, 0);
    first := PastBlanks(lines, head + 1);
    end := ListEnd(lines);
    var now := lines[..end] + [bullet] + lines[end..];
    LinesAreLines(Read(body));
    SplitJoin(now);
    SplitConcat(Join(now), "");
    assert Join(now) + "\n" + "" == Join(now) + "\n";
    if bullet != "" {
      assert bullet[|bullet| - 1] in bullet;
    }
    assert WithoutTrailing(bullet) == bullet;
  }
}
