/** The release-note script run again on notes it has written: any body, with or
    without the section, and any bullet. */
module PatchRerun {
  import opened Lines
  import opened PatchNote

  // ---------------------------------------------------------------- what is not white stays

  /** How many characters are not white. */
  function Ink(s: string): nat {
    if s == "" then 0 else (if White(s[0]) then 0 else 1) + Ink(s[1..])
  }

  function InkOf(lines: seq<string>): nat {
    if lines == [] then 0 else Ink(lines[0]) + InkOf(lines[1..])
  }

  lemma {:induction false} InkConcat(a: string, b: string)
    ensures Ink(a + b) == Ink(a) + Ink(b)
  {
    if a == "" {
      assert a + b == b;
    } else {
      assert (a + b)[1..] == a[1..] + b;
      InkConcat(a[1..], b);
    }
  }

  lemma {:induction false} InkOfConcat(a: seq<string>, b: seq<string>)
    ensures InkOf(a + b) == InkOf(a) + InkOf(b)
  {
    if a == [] {
      assert a + b == b;
    } else {
      assert (a + b)[1..] == a[1..] + b;
      InkOfConcat(a[1..], b);
    }
  }

  lemma {:induction false} InkJoin(lines: seq<string>)
    ensures Ink(Join(lines)) == InkOf(lines)
  {
    if |lines| == 1 {
      assert lines[1..] == [];
    } else if |lines| > 1 {
      InkJoin(lines[1..]);
      InkConcat(lines[0] + "\n", Join(lines[1..]));
      InkConcat(lines[0], "\n");
      assert Ink("\n") == 0 + Ink("\n"[1..]) == 0;
    }
  }

  lemma {:induction false} InkUnix(s: string)
    ensures Ink(Unix(s)) == Ink(s)
  {
    if |s| >= 2 {
      if s[0] == '\r' && s[1] == '\n' {
        InkUnix(s[2..]);
        assert s[1..][1..] == s[2..] && Unix(s)[1..] == Unix(s[2..]);
      } else {
        InkUnix(s[1..]);
        assert Unix(s)[1..] == Unix(s[1..]);
      }
    }
  }

  lemma {:induction false} InkTrailing(s: string)
    ensures Ink(WithoutTrailing(s)) == Ink(s)
  {
    if EndsIn(s, '\n') {
      var init := s[..|s| - 1];
      InkTrailing(init);
      InkConcat(init, "\n");
      assert s == init + "\n" && Ink("\n") == 0 + Ink("\n"[1..]) == 0;
    }
  }

  // ---------------------------------------------------------------- where a bullet goes

  /** The lines above a new bullet, and those below it. */
  function Top(lines: seq<string>): seq<string> {
    if Headed(lines) then lines[..ListEnd(lines)] else [HEADING, ""]
  }

  function Bottom(lines: seq<string>): seq<string> {
    if Headed(lines) then lines[ListEnd(lines)..] else if lines == [] then [] else [""] + lines
  }

  lemma SplicedAround(lines: seq<string>, bullet: string)
    ensures SplicedLines(lines, bullet) == Top(lines) + [bullet] + Bottom(lines)
  {
    if !Headed(lines) {
      assert [HEADING, "", bullet] == [HEADING, ""] + [bullet];
    }
  }

  /** Whatever the text, a splice adds the bullet's characters to it. */
  lemma SpliceAddsInk(text: string, bullet: string)
    ensures Ink(Spliced(text, bullet))
         == Ink(text) + Ink(bullet) + (if Headed(LinesOf(Read(text))) then 0 else Ink(HEADING))
  {
    var lines, line := LinesOf(Read(text)), WithoutTrailing(bullet);
    InkUnix(text);
    InkTrailing(Unix(text));
    InkTrailing(bullet);
    SplicedAround(lines, line);
    JoinSplit(Read(text));
    InkJoin(lines);
    TopAndBottomInk(lines);
    InkOfConcat(Top(lines) + [line], Bottom(lines));
    InkOfConcat(Top(lines), [line]);
    assert InkOf([line]) == Ink(line) + InkOf([line][1..]);
    InkJoin(SplicedLines(lines, line));
    InkConcat(Join(SplicedLines(lines, line)), "\n");
    assert Ink("\n") == 0 + Ink("\n"[1..]) == 0;
  }

  lemma TopAndBottomInk(lines: seq<string>)
    ensures InkOf(Top(lines)) + InkOf(Bottom(lines)) == InkOf(lines) + (if Headed(lines) then 0 else Ink(HEADING))
  {
    if Headed(lines) {
      InkSlices(lines, ListEnd(lines));
    } else {
      InkOfHead(HEADING);
      InkBelowGap(lines);
    }
  }

  lemma InkSlices(lines: seq<string>, k: nat)
    requires k <= |lines|
    ensures InkOf(lines[..k]) + InkOf(lines[k..]) == InkOf(lines)
  {
    InkOfConcat(lines[..k], lines[k..]);
    assert lines[..k] + lines[k..] == lines;
  }

  lemma InkBelowGap(lines: seq<string>)
    ensures InkOf([""] + lines) == InkOf(lines)
  {
    assert ([""] + lines)[1..] == lines;
  }

  lemma InkOfHead(head: string)
    ensures InkOf([head, ""]) == Ink(head)
  {
    assert [head, ""][1..] == [""] && [""][1..] == [];
  }

  /** The script is described as safe to repeat. No notes whatever come out of it
      as they went in, so a second run always changes what the first one wrote. */
  lemma NotIdempotent(text: string, bullet: string)
    requires Ink(bullet) > 0
    ensures Spliced(text, bullet) != text
    ensures Spliced(Spliced(text, bullet), bullet) != Spliced(text, bullet)
  {
    SpliceAddsInk(text, bullet);
    SpliceAddsInk(Spliced(text, bullet), bullet);
  }

  // ---------------------------------------------------------------- reading, line by line

  function Chomp(line: string): string {
    if EndsIn(line, '\r') then line[..|line| - 1] else line
  }

  function Chomped(lines: seq<string>): seq<string> {
    if lines == [] then [] else [Chomp(lines[0])] + Chomped(lines[1..])
  }

  function WithoutEmptyTail(lines: seq<string>): seq<string> {
    if lines != [] && lines[|lines| - 1] == "" then WithoutEmptyTail(lines[..|lines| - 1]) else lines
  }

  lemma {:induction false} ChompedAt(lines: seq<string>)
    ensures |Chomped(lines)| == |lines| && forall i :: 0 <= i < |lines| ==> Chomped(lines)[i] == Chomp(lines[i])
  {
    if lines != [] {
      ChompedAt(lines[1..]);
    }
  }

  lemma {:induction false} ChompedConcat(a: seq<string>, b: seq<string>)
    ensures Chomped(a + b) == Chomped(a) + Chomped(b)
  {
    ChompedAt(a);
    ChompedAt(b);
    ChompedAt(a + b);
  }

  lemma ChompWhole(s: string)
    requires OneLine(s)
    ensures OneLine(Chomp(s)) && Strip(Chomp(s)) == Strip(s) && (Bullet(Chomp(s)) <==> Bullet(s))
  {
    if EndsIn(s, '\r') {
      StripLast(s);
    }
  }

  lemma {:induction false} StripLast(s: string)
    requires s != "" && White(s[|s| - 1])
    ensures Strip(s[..|s| - 1]) == Strip(s)
  {
    if White(s[0]) && |s| > 1 {
      StripLast(s[1..]);
      assert s[1..][..|s| - 2] == s[..|s| - 1][1..];
    }
  }

  lemma UnixStep(c: char, rest: string)
    requires !(c == '\r' && rest != "" && rest[0] == '\n')
    ensures Unix([c] + rest) == [c] + Unix(rest)
  {
    assert ([c] + rest)[1..] == rest;
  }

  lemma {:induction false} UnixPlain(a: string, b: string)
    requires OneLine(a) && !(EndsIn(a, '\r') && b != "" && b[0] == '\n')
    ensures Unix(a + b) == a + Unix(b)
  {
    if a == "" {
      assert a + b == b;
    } else {
      var c, rest := a[0], a[1..];
      assert rest != "" ==> rest[0] in a && (rest + b)[0] == rest[0];
      UnixPlain(rest, b);
      UnixStep(c, rest + b);
      Regroup([c], rest, b);
      Regroup([c], rest, Unix(b));
      assert a == [c] + rest;
    }
  }

  lemma UnixNewline(rest: string)
    ensures Unix("\n" + rest) == "\n" + Unix(rest) && Unix("\r\n" + rest) == "\n" + Unix(rest)
  {
    assert ("\n" + rest)[1..] == rest && ("\r\n" + rest)[2..] == rest;
  }

  /** A line's "\r\n" loses its "\r". */
  lemma UnixLine(line: string, rest: string)
    requires OneLine(line)
    ensures Unix(line + "\n" + rest) == Chomp(line) + "\n" + Unix(rest)
  {
    var kept := Chomp(line);
    UnixNewline(rest);
    Regroup(kept, "\n", Unix(rest));
    if EndsIn(line, '\r') {
      UnixPlain(kept, "\r\n" + rest);
      Regroup(kept, "\r\n", rest);
      assert line + "\n" == kept + "\r\n";
    } else {
      UnixPlain(kept, "\n" + rest);
      Regroup(kept, "\n", rest);
    }
  }

  lemma Regroup(a: string, b: string, c: string)
    ensures (a + b) + c == a + (b + c)
  {
  }

  lemma {:induction false} UnixLines(lines: seq<string>)
    requires lines != [] && forall l :: l in lines ==> OneLine(l)
    ensures Unix(Join(lines) + "\n") == Join(Chomped(lines)) + "\n"
  {
    var first, rest := lines[0], lines[1..];
    assert first in lines;
    ChompedAt(lines);
    if rest == [] {
      assert lines == [first];
      UnixLine(first, "");
      assert first + "\n" + "" == first + "\n" && Chomp(first) + "\n" + "" == Chomp(first) + "\n";
    } else {
      UnixLines(rest);
      UnixLine(first, Join(rest) + "\n");
      ChompedAt(rest);
      assert Chomped(lines)[1..] == Chomped(rest);
      Regroup(first + "\n", Join(rest), "\n");
      Regroup(Chomp(first) + "\n", Join(Chomped(rest)), "\n");
    }
  }

  lemma {:induction false} TrimLines(lines: seq<string>)
    requires forall l :: l in lines ==> OneLine(l)
    requires lines != []
    ensures WithoutTrailing(Join(lines) + "\n") == Join(WithoutEmptyTail(lines))
  {
    var text, init, last := Join(lines), lines[..|lines| - 1], lines[|lines| - 1];
    assert last in lines && lines == init + [last];
    assert (text + "\n")[..|text|] == text;
    if last != "" {
      if init != [] {
        JoinConcat(init, [last]);
      } else {
        assert lines == [last];
      }
      assert text[|text| - 1] == last[|last| - 1] && last[|last| - 1] in last;
    } else if init == [] {
      assert lines == [""];
    } else {
      JoinConcat(init, [""]);
      assert text == Join(init) + "\n";
      TrimLines(init);
    }
  }

  lemma {:induction false} EmptyTailMembers(lines: seq<string>)
    ensures WithoutEmptyTail(lines) <= lines
    ensures WithoutEmptyTail(lines) != [] ==> WithoutEmptyTail(lines)[|WithoutEmptyTail(lines)| - 1] != ""
  {
    if lines != [] && lines[|lines| - 1] == "" {
      EmptyTailMembers(lines[..|lines| - 1]);
    }
  }

  /** What a splice reads of notes that a splice wrote. */
  lemma ReadLines(lines: seq<string>)
    requires lines != [] && forall l :: l in lines ==> OneLine(l)
    requires WithoutEmptyTail(Chomped(lines)) != []
    ensures LinesOf(Read(Join(lines) + "\n")) == WithoutEmptyTail(Chomped(lines))
  {
    var kept := WithoutEmptyTail(Chomped(lines));
    ChompedLines(lines);
    UnixLines(lines);
    TrimLines(Chomped(lines));
    EmptyTailMembers(Chomped(lines));
    assert forall l :: l in kept ==> l in Chomped(lines);
    SplitJoin(kept);
    assert Split("") == [""];
  }

  lemma ChompedLines(lines: seq<string>)
    requires forall l :: l in lines ==> OneLine(l)
    ensures Chomped(lines) != [] <==> lines != []
    ensures forall l :: l in Chomped(lines) ==> OneLine(l)
  {
    ChompedAt(lines);
    forall i | 0 <= i < |lines| ensures OneLine(Chomped(lines)[i]) {
      assert lines[i] in lines;
      ChompWhole(lines[i]);
    }
  }

  lemma {:induction false} TailBelow(top: seq<string>, line: string, below: seq<string>)
    requires line != ""
    ensures WithoutEmptyTail(top + [line] + below) == top + [line] + WithoutEmptyTail(below)
  {
    var all := top + [line] + below;
    if below == [] {
      assert all == top + [line];
    } else if below[|below| - 1] == "" {
      TailBelow(top, line, below[..|below| - 1]);
      assert all[..|all| - 1] == top + [line] + below[..|below| - 1];
    }
  }

  // ---------------------------------------------------------------- the second bullet

  /** The section is made of these pieces, so this is where its list ends. */
  lemma ListEndIs(lines: seq<string>, head: nat, first: nat, end: nat)
    requires head < first <= end <= |lines|
    requires forall i :: 0 <= i < head ==> Blank(lines[i])
    requires Strip(lines[head]) == HEADING
    requires forall i :: head < i < first ==> Blank(lines[i])
    requires first < |lines| ==> !Blank(lines[first])
    requires forall i :: first <= i < end ==> Bullet(lines[i])
    requires end < |lines| ==> !Bullet(lines[end])
    ensures Headed(lines) && ListEnd(lines) == end
  {
    PastBlanksIs(lines, 0, head);
    PastBlanksIs(lines, head + 1, first);
    PastBulletsIs(lines, first, end);
  }

  lemma {:induction false} PastBlanksIs(lines: seq<string>, i: nat, end: nat)
    requires i <= end <= |lines| && (forall k :: i <= k < end ==> Blank(lines[k]))
    requires end < |lines| ==> !Blank(lines[end])
    ensures PastBlanks(lines, i) == end
    decreases end - i
  {
    if i < end {
      PastBlanksIs(lines, i + 1, end);
    }
  }

  lemma {:induction false} PastBulletsIs(lines: seq<string>, i: nat, end: nat)
    requires i <= end <= |lines| && (forall k :: i <= k < end ==> Bullet(lines[k]))
    requires end < |lines| ==> !Bullet(lines[end])
    ensures PastBullets(lines, i) == end
    decreases end - i
  {
    if i < end {
      PastBulletsIs(lines, i + 1, end);
    }
  }

  /** The pieces of the section above a new bullet. */
  lemma TopShape(lines: seq<string>) returns (head: nat, first: nat)
    ensures var top, bottom := Top(lines), Bottom(lines);
            && head < first <= |top|
            && (forall i :: 0 <= i < head ==> Blank(top[i]))
            && Strip(top[head]) == HEADING
            && (forall i :: head < i < first ==> Blank(top[i]))
            && (first < |top| ==> !Blank(top[first]))
            && (forall i :: first <= i < |top| ==> Bullet(top[i]))
            && (bottom != [] ==> !Bullet(bottom[0]))
  {
    if Headed(lines) {
      head := PastBlanks(lines, 0);
      first := PastBlanks(lines, head + 1);
    } else {
      head, first := 0, 2;
      HeadingStands();
    }
  }

  lemma ChompedLike(lines: seq<string>)
    requires forall l :: l in lines ==> OneLine(l)
    ensures |Chomped(lines)| == |lines|
    ensures forall i :: 0 <= i < |lines| ==>
              Strip(Chomped(lines)[i]) == Strip(lines[i]) && (Bullet(Chomped(lines)[i]) <==> Bullet(lines[i]))
  {
    ChompedAt(lines);
    forall i | 0 <= i < |lines|
      ensures Strip(Chomped(lines)[i]) == Strip(lines[i]) && (Bullet(Chomped(lines)[i]) <==> Bullet(lines[i]))
    {
      assert lines[i] in lines;
      ChompWhole(lines[i]);
    }
  }

  /** After a first bullet was spliced in and the notes were read again, the list
      ends behind that bullet if it starts at the margin, and before it if not. */
  lemma ListEndAfterFirst(lines: seq<string>, bullet: string, below: seq<string>)
    requires forall l :: l in lines ==> OneLine(l)
    requires OneLine(bullet) && !Blank(bullet)
    requires below <= Chomped(Bottom(lines))
    ensures var again := Chomped(Top(lines)) + [Chomp(bullet)] + below;
            Headed(again) && ListEnd(again) == |Top(lines)| + (if Bullet(bullet) then 1 else 0)
  {
    var top, bottom := Top(lines), Bottom(lines);
    var head, first := TopShape(lines);
    PiecesAreLines(lines);
    ChompWhole(bullet);
    ChompedLike(top);
    ChompedLike(bottom);
    assert below != [] ==> below[0] == Chomped(bottom)[0];
    InsertedListEnd(Chomped(top), head, first, Chomp(bullet), below);
  }

  lemma InsertedListEnd(top: seq<string>, head: nat, first: nat, line: string, below: seq<string>)
    requires head < first <= |top|
    requires forall i :: 0 <= i < head ==> Blank(top[i])
    requires Strip(top[head]) == HEADING
    requires forall i :: head < i < first ==> Blank(top[i])
    requires first < |top| ==> !Blank(top[first])
    requires forall i :: first <= i < |top| ==> Bullet(top[i])
    requires !Blank(line) && (below != [] ==> !Bullet(below[0]))
    ensures var lines := top + [line] + below;
            Headed(lines) && ListEnd(lines) == |top| + (if Bullet(line) then 1 else 0)
  {
    var lines := top + [line] + below;
    assert forall i :: 0 <= i < |top| ==> lines[i] == top[i];
    assert lines[|top|] == line && (below != [] ==> lines[|top| + 1] == below[0]);
    ListEndIs(lines, head, first, |top| + (if Bullet(line) then 1 else 0));
  }

  /** The two orders the bullets can end up in. */
  function Ordered(top: seq<string>, first: string, second: string, bottom: seq<string>): string {
    Join(top + [first, second] + bottom) + "\n"
  }

  /** Into any body: a second bullet goes below the first exactly when the first
      starts at the margin. One with white space before its dash, which the
      script lets in, is pushed down by the next. */
  lemma SecondGoesBelowIff(body: string, first: string, second: string)
    requires OneLine(first) && OneLine(second) && !Blank(first) && Chomp(first) != second
    ensures var lines := LinesOf(Read(body));
            var top, bottom := Chomped(Top(lines)), WithoutEmptyTail(Chomped(Bottom(lines)));
            var text := Spliced(Spliced(body, first), second);
            && (text == Ordered(top, Chomp(first), second, bottom) <==> "- " <= first)
            && (text == Ordered(top, second, Chomp(first), bottom) <==> !("- " <= first))
  {
    var lines := LinesOf(Read(body));
    var top, bottom := Chomped(Top(lines)), WithoutEmptyTail(Chomped(Bottom(lines)));
    LinesAreLines(Read(body));
    PiecesAreLines(lines);
    var again := top + [Chomp(first)] + bottom;
    FirstReadBack(body, first);
    EmptyTailMembers(Chomped(Bottom(lines)));
    ListEndAfterFirst(lines, first, bottom);
    ChompedAt(Top(lines));
    OneLineStays(second);
    SecondPlaced(top, Chomp(first), second, bottom);
    ChompWhole(first);
    OrdersDiffer(top, Chomp(first), second, bottom);
  }

  lemma OneLineStays(line: string)
    requires OneLine(line)
    ensures WithoutTrailing(line) == line
  {
    if line != "" {
      assert line[|line| - 1] in line;
    }
  }

  lemma PiecesAreLines(lines: seq<string>)
    requires forall l :: l in lines ==> OneLine(l)
    ensures forall l :: l in Top(lines) ==> OneLine(l)
    ensures forall l :: l in Bottom(lines) ==> OneLine(l)
    ensures forall l :: l in Chomped(Top(lines)) ==> OneLine(l)
    ensures forall l :: l in WithoutEmptyTail(Chomped(Bottom(lines))) ==> OneLine(l)
  {
    HeadingStands();
    ChompedLines(Top(lines));
    ChompedLines(Bottom(lines));
    EmptyTailMembers(Chomped(Bottom(lines)));
  }

  lemma FirstReadBack(body: string, first: string)
    requires OneLine(first) && !Blank(first)
    ensures var lines := LinesOf(Read(body));
            LinesOf(Read(Spliced(body, first)))
            == Chomped(Top(lines)) + [Chomp(first)] + WithoutEmptyTail(Chomped(Bottom(lines)))
  {
    var lines := LinesOf(Read(body));
    var written := Top(lines) + [first] + Bottom(lines);
    LinesAreLines(Read(body));
    PiecesAreLines(lines);
    SplicedAround(lines, first);
    OneLineStays(first);
    ChompWhole(first);
    ChompedConcat(Top(lines) + [first], Bottom(lines));
    ChompedConcat(Top(lines), [first]);
    assert [first][1..] == [] && Chomped([first]) == [Chomp(first)];
    TailBelow(Chomped(Top(lines)), Chomp(first), Chomped(Bottom(lines)));
    ReadLines(written);
  }

  lemma SecondPlaced(top: seq<string>, first: string, second: string, bottom: seq<string>)
    requires var again := top + [first] + bottom; Headed(again) && |top| <= ListEnd(again) <= |top| + 1
    ensures var again := top + [first] + bottom;
            SplicedLines(again, second)
            == if ListEnd(again) == |top| then top + [second, first] + bottom else top + [first, second] + bottom
  {
  }

  lemma OrdersDiffer(top: seq<string>, first: string, second: string, bottom: seq<string>)
    requires forall l :: l in top ==> OneLine(l)
    requires forall l :: l in bottom ==> OneLine(l)
    requires OneLine(first) && OneLine(second) && first != second
    ensures Ordered(top, first, second, bottom) != Ordered(top, second, first, bottom)
  {
    var a, b := top + [first, second] + bottom, top + [second, first] + bottom;
    SplitJoin(a);
    SplitJoin(b);
    assert a[|top|] == first && b[|top|] == second;
    assert (Join(a) + "\n")[..|Join(a)|] == Join(a) && (Join(b) + "\n")[..|Join(b)|] == Join(b);
  }
}
