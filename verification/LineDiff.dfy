/** The line diff drawn beside an edit: what the two files share at either end,
    and the middles that differ. */
module LineDiff {
  import opened Lines

  // ---------------------------------------------------------------- the two counts

  method CommonPrefix(before: seq<string>, after: seq<string>) returns (count: nat)
    ensures count <= |before| && count <= |after| && before[..count] == after[..count]
    ensures count < |before| && count < |after| ==> before[count] != after[count]
  {
    count := 0;
    while count < |before| && count < |after| && before[count] == after[count]
      invariant count <= |before| && count <= |after| && before[..count] == after[..count]
    {
      count := count + 1;
    }
  }

  method CommonSuffix(before: seq<string>, after: seq<string>, prefix: nat) returns (count: nat)
    requires prefix <= |before| && prefix <= |after|
    ensures count <= |before| - prefix && count <= |after| - prefix
    ensures before[|before| - count..] == after[|after| - count..]
    ensures count < |before| - prefix && count < |after| - prefix ==>
              before[|before| - 1 - count] != after[|after| - 1 - count]
  {
    count := 0;
    while count < |before| - prefix && count < |after| - prefix
          && before[|before| - 1 - count] == after[|after| - 1 - count]
      invariant count <= |before| - prefix && count <= |after| - prefix
      invariant before[|before| - count..] == after[|after| - count..]
    {
      count := count + 1;
    }
  }

  // ---------------------------------------------------------------- the diff

  /** A reading of two files as a shared head, two middles and a shared tail. */
  datatype Diff = Diff(head: seq<string>, removed: seq<string>, added: seq<string>, tail: seq<string>)

  ghost predicate Rebuilds(d: Diff, before: seq<string>, after: seq<string>) {
    before == d.head + d.removed + d.tail && after == d.head + d.added + d.tail
  }

  function Shorter(before: seq<string>, after: seq<string>): nat {
    if |before| <= |after| then |before| else |after|
  }

  function Front(lines: seq<string>, count: nat): seq<string>
    requires count <= |lines|
  {
    lines[..count]
  }

  function Back(lines: seq<string>, count: nat): seq<string>
    requires count <= |lines|
  {
    lines[|lines| - count..]
  }

  /** No longer head is shared. */
  ghost predicate LongestHead(d: Diff, before: seq<string>, after: seq<string>) {
    forall k :: |d.head| < k <= Shorter(before, after) ==> Front(before, k) != Front(after, k)
  }

  /** No longer tail is shared that leaves the head alone. */
  ghost predicate LongestTail(d: Diff, before: seq<string>, after: seq<string>) {
    forall k :: |d.tail| < k <= Shorter(before, after) - |d.head| ==> Back(before, k) != Back(after, k)
  }

  method Compare(before: seq<string>, after: seq<string>) returns (d: Diff)
    ensures Rebuilds(d, before, after) && LongestHead(d, before, after) && LongestTail(d, before, after)
  {
    var shared := CommonPrefix(before, after);
    var tailLength := CommonSuffix(before, after, shared);
    d := Diff(before[..shared], before[shared..|before| - tailLength],
              after[shared..|after| - tailLength], after[|after| - tailLength..]);
    Reassembles(before, shared, |before| - tailLength);
    Reassembles(after, shared, |after| - tailLength);
    forall k | shared < k <= Shorter(before, after) ensures Front(before, k) != Front(after, k) {
      FrontsDiffer(before, after, shared, k);
    }
    forall k | tailLength < k <= Shorter(before, after) - shared ensures Back(before, k) != Back(after, k) {
      BacksDiffer(before, after, tailLength, k);
    }
  }

  lemma Reassembles(lines: seq<string>, i: nat, j: nat)
    requires i <= j <= |lines|
    ensures lines == lines[..i] + lines[i..j] + lines[j..]
  {
  }

  lemma FrontsDiffer(before: seq<string>, after: seq<string>, n: nat, k: nat)
    requires n < k <= Shorter(before, after) && before[n] != after[n]
    ensures Front(before, k) != Front(after, k)
  {
    assert Front(before, k)[n] == before[n] && Front(after, k)[n] == after[n];
  }

  lemma BacksDiffer(before: seq<string>, after: seq<string>, n: nat, k: nat)
    requires n < k <= Shorter(before, after) && before[|before| - 1 - n] != after[|after| - 1 - n]
    ensures Back(before, k) != Back(after, k)
  {
    assert Back(before, k)[k - 1 - n] == before[|before| - 1 - n] && Back(after, k)[k - 1 - n] == after[|after| - 1 - n];
  }

  function LastLines(lines: seq<string>, count: nat): (last: seq<string>)
    ensures |last| == if |lines| < count then |lines| else count
    ensures lines[|lines| - |last|..] == last
  {
    if |lines| <= count then lines else lines[|lines| - count..]
  }

  function FirstLines(lines: seq<string>, count: nat): (first: seq<string>)
    ensures |first| == if |lines| < count then |lines| else count
    ensures first <= lines
  {
    if |lines| <= count then lines else lines[..count]
  }

  /** What `renderDiff` draws: the middles, and at most three lines of context
      above and below. Nothing is marked exactly when the texts are the same. */
  method RenderDiff(oldText: string, newText: string) returns (drawn: Diff)
    ensures exists d: Diff ::
              && Rebuilds(d, Split(oldText), Split(newText))
              && LongestHead(d, Split(oldText), Split(newText))
              && LongestTail(d, Split(oldText), Split(newText))
              && drawn == Diff(LastLines(d.head, 3), d.removed, d.added, FirstLines(d.tail, 3))
    ensures drawn.removed == [] && drawn.added == [] <==> oldText == newText
  {
    var d := Compare(Split(oldText), Split(newText));
    drawn := Diff(LastLines(d.head, 3), d.removed, d.added, FirstLines(d.tail, 3));
    MiddlesEmptyIff(d, Split(oldText), Split(newText));
    JoinSplit(oldText);
    JoinSplit(newText);
  }

  // ---------------------------------------------------------------- what the diff promises

  /** Middles that are both there differ in their first line and in their last. */
  lemma MiddlesDifferAtBothEnds(d: Diff, before: seq<string>, after: seq<string>)
    requires Rebuilds(d, before, after) && LongestHead(d, before, after) && LongestTail(d, before, after)
    requires d.removed != [] && d.added != []
    ensures d.removed[0] != d.added[0] && d.removed[|d.removed| - 1] != d.added[|d.added| - 1]
  {
    var h, t := |d.head| + 1, |d.tail| + 1;
    FrontOf(d.head, d.removed, d.tail);
    FrontOf(d.head, d.added, d.tail);
    assert Front(before, h) != Front(after, h);
    BackOf(d.head, d.removed, d.tail);
    BackOf(d.head, d.added, d.tail);
    assert Back(before, t) != Back(after, t);
  }

  /** Both middles are empty exactly when the files are the same. */
  lemma MiddlesEmptyIff(d: Diff, before: seq<string>, after: seq<string>)
    requires Rebuilds(d, before, after) && LongestHead(d, before, after) && LongestTail(d, before, after)
    ensures d.removed == [] && d.added == [] <==> before == after
  {
    if d.removed != [] && d.added != [] {
      MiddlesDifferAtBothEnds(d, before, after);
      assert before[|d.head|] == d.removed[0];
      assert after[|d.head|] == d.added[0];
    }
  }

  /** No other way of reading the files as one changed stretch between shared ends
      removes fewer lines or adds fewer. */
  lemma NoSmallerChange(d: Diff, other: Diff, before: seq<string>, after: seq<string>)
    requires Rebuilds(d, before, after) && LongestHead(d, before, after) && LongestTail(d, before, after)
    requires Rebuilds(other, before, after)
    ensures |d.removed| <= |other.removed| && |d.added| <= |other.added|
  {
    var h := |other.head|;
    assert Front(before, h) == other.head && Front(after, h) == other.head;
    var t := |d.tail| + 1;
    if |other.tail| >= t {
      BackWithin(other.head + other.removed, other.tail, t);
      BackWithin(other.head + other.added, other.tail, t);
      assert Back(before, t) == Back(after, t);
    }
  }

  lemma FrontOf(head: seq<string>, middle: seq<string>, tail: seq<string>)
    requires middle != []
    ensures Front(head + middle + tail, |head| + 1) == head + [middle[0]]
  {
  }

  lemma BackOf(head: seq<string>, middle: seq<string>, tail: seq<string>)
    requires middle != []
    ensures Back(head + middle + tail, |tail| + 1) == [middle[|middle| - 1]] + tail
  {
  }

  lemma BackWithin(head: seq<string>, tail: seq<string>, k: nat)
    requires k <= |tail|
    ensures Back(head + tail, k) == Back(tail, k)
  {
  }
}
