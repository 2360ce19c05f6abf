/** The session list, filtered and handed over a page at a time. A cursor is the
    id of the last session on the page before. */
module Listing {
  import opened Common

  const PAGE_SIZE := 50

  /** A directory as its components; paths compare component by component. */
  datatype Path = Path(absolute: bool, components: seq<string>)

  datatype Stored = Stored(id: string, workingDir: Option<Path>, title: Option<string>, updatedAt: nat)

  /** One stored session as the client sees it. */
  datatype Info = Info(id: string, cwd: Path, title: Option<string>, updatedAt: nat)

  datatype Page = Page(sessions: seq<Info>, nextCursor: Option<string>)

  predicate Listable(s: Stored, cwd: Option<Path>) {
    match (s.workingDir, cwd)
    case (None, _) => false
    case (Some(dir), Some(wanted)) => dir == wanted
    case (Some(dir), None) => dir.absolute
  }

  function Filtered(stored: seq<Stored>, cwd: Option<Path>): seq<Stored> {
    if stored == [] then []
    else (if Listable(stored[0], cwd) then [stored[0]] else []) + Filtered(stored[1..], cwd)
  }

  function Describe(s: Stored): Info {
    Info(s.id, if s.workingDir.Some? then s.workingDir.value else Path(false, []), s.title, s.updatedAt)
  }

  function Infos(stored: seq<Stored>): (r: seq<Info>)
    ensures |r| == |stored|
  {
    seq(|stored|, i requires 0 <= i < |stored| => Describe(stored[i]))
  }

  /** The first place an id stands, or the length of the list. */
  function Position(stored: seq<Stored>, id: string): (at: nat)
    ensures at <= |stored|
    ensures at < |stored| ==> stored[at].id == id
    ensures forall i :: 0 <= i < at ==> stored[i].id != id
  {
    if stored == [] || stored[0].id == id then 0 else 1 + Position(stored[1..], id)
  }

  function GetPage(stored: seq<Stored>, cwd: Option<Path>, cursor: Option<string>): Result<Page, string> {
    var listable := Filtered(stored, cwd);
    if cursor.None? then Ok(PageFrom(listable, 0))
    else
      var at := Position(listable, cursor.value);
      if at == |listable| then Err("no session " + cursor.value + " in this listing")
      else Ok(PageFrom(listable, at + 1))
  }

  function PageFrom(listable: seq<Stored>, start: nat): Page
    requires start <= |listable|
  {
    var end := Min(start + PAGE_SIZE, |listable|);
    Page(Infos(listable[start..end]), if end < |listable| then Some(listable[end - 1].id) else None)
  }

  // ---------------------------------------------------------------- what a page is

  ghost predicate DistinctIds(stored: seq<Stored>) {
    forall i, j :: 0 <= i < j < |stored| ==> stored[i].id != stored[j].id
  }

  /** What is still to come after a cursor: the listable sessions behind it. */
  function Rest(stored: seq<Stored>, cwd: Option<Path>, cursor: Option<string>): seq<Stored> {
    if cursor.None? then Filtered(stored, cwd) else Behind(Filtered(stored, cwd), cursor.value)
  }

  function Behind(listable: seq<Stored>, id: string): seq<Stored> {
    var at := Position(listable, id);
    if at < |listable| then listable[at + 1..] else []
  }

  /** What is listed: the sessions with a directory, the wanted one if one is
      named and otherwise any that is absolute, each described by its own
      fields; in the order they are stored. */
  lemma ListedIff(stored: seq<Stored>, cwd: Option<Path>, s: Stored)
    ensures s in Filtered(stored, cwd) <==>
            && s in stored && s.workingDir.Some?
            && (if cwd.Some? then s.workingDir.value == cwd.value else s.workingDir.value.absolute)
    ensures forall i :: 0 <= i < |Filtered(stored, cwd)| ==>
              var listed := Filtered(stored, cwd)[i];
              && listed.workingDir.Some?
              && Infos(Filtered(stored, cwd))[i] == Info(listed.id, listed.workingDir.value, listed.title, listed.updatedAt)
  {
    FilteredMembers(stored, cwd);
    forall i | 0 <= i < |Filtered(stored, cwd)|
      ensures Filtered(stored, cwd)[i].workingDir.Some?
    {
      assert Filtered(stored, cwd)[i] in Filtered(stored, cwd);
    }
  }

  /** A cursor is refused if and only if it names no session of the listing. */
  lemma RefusedIffUnknown(stored: seq<Stored>, cwd: Option<Path>, cursor: Option<string>)
    ensures GetPage(stored, cwd, cursor).Err? <==>
            cursor.Some? && forall s :: s in Filtered(stored, cwd) ==> s.id != cursor.value
    ensures GetPage(stored, cwd, cursor).Err? ==>
              GetPage(stored, cwd, cursor).error == "no session " + cursor.value + " in this listing"
  {
    if cursor.Some? {
      var listable := Filtered(stored, cwd);
      var at := Position(listable, cursor.value);
      if at < |listable| {
        assert listable[at] in listable;
      }
    }
  }

  lemma {:induction false} FilteredMembers(stored: seq<Stored>, cwd: Option<Path>)
    ensures forall s :: s in Filtered(stored, cwd) <==> s in stored && Listable(s, cwd)
  {
    if stored != [] {
      FilteredMembers(stored[1..], cwd);
      assert stored == [stored[0]] + stored[1..];
    }
  }

  lemma {:induction false} FilteredDistinct(stored: seq<Stored>, cwd: Option<Path>)
    requires DistinctIds(stored)
    ensures DistinctIds(Filtered(stored, cwd))
  {
    if stored != [] {
      var rest := stored[1..];
      assert forall i :: 0 <= i < |rest| ==> rest[i] == stored[i + 1];
      FilteredDistinct(rest, cwd);
      FilteredMembers(rest, cwd);
      assert forall s :: s in rest ==> s.id != stored[0].id;
      assert forall i :: 0 <= i < |Filtered(rest, cwd)| ==> Filtered(rest, cwd)[i] in rest;
    }
  }

  lemma {:induction false} FilteredJoin(a: seq<Stored>, b: seq<Stored>, cwd: Option<Path>)
    ensures Filtered(a + b, cwd) == Filtered(a, cwd) + Filtered(b, cwd)
  {
    if a == [] {
      assert a + b == b;
    } else {
      var head := if Listable(a[0], cwd) then [a[0]] else [];
      FilteredJoin(a[1..], b, cwd);
      assert (a + b)[0] == a[0] && (a + b)[1..] == a[1..] + b;
      assert Filtered(a + b, cwd) == head + Filtered(a[1..] + b, cwd);
      assert head + (Filtered(a[1..], cwd) + Filtered(b, cwd)) == (head + Filtered(a[1..], cwd)) + Filtered(b, cwd);
    }
  }

  lemma PositionOf(listable: seq<Stored>, at: nat)
    requires DistinctIds(listable) && at < |listable|
    ensures Position(listable, listable[at].id) == at
  {
  }

  /** `page` is the first fifty of `rest`, and its cursor leads to what it left. */
  ghost predicate HeadOf(page: Page, rest: seq<Stored>, listable: seq<Stored>) {
    var n := Min(PAGE_SIZE, |rest|);
    && page.sessions == Infos(rest[..n])
    && (page.nextCursor.Some? <==> n < |rest|)
    && (page.nextCursor.Some? ==>
          && page.nextCursor.value == rest[n - 1].id
          && Position(listable, page.nextCursor.value) < |listable|
          && Behind(listable, page.nextCursor.value) == rest[n..])
  }

  lemma PageFromIsHead(listable: seq<Stored>, start: nat)
    requires DistinctIds(listable) && start <= |listable|
    ensures HeadOf(PageFrom(listable, start), listable[start..], listable)
  {
    var end := Min(start + PAGE_SIZE, |listable|);
    assert listable[start..end] == listable[start..][..end - start];
    if end < |listable| {
      PositionOf(listable, end - 1);
      assert listable[end..] == listable[start..][end - start..];
    }
  }

  /** A page is the first fifty of what is still to come, and its cursor leads
      to the rest of it. */
  lemma PageIsHeadOfRest(stored: seq<Stored>, cwd: Option<Path>, cursor: Option<string>)
    requires DistinctIds(stored) && GetPage(stored, cwd, cursor).Ok?
    ensures HeadOf(GetPage(stored, cwd, cursor).value, Rest(stored, cwd, cursor), Filtered(stored, cwd))
  {
    FilteredDistinct(stored, cwd);
    var start := PageStart(stored, cwd, cursor);
    PageFromIsHead(Filtered(stored, cwd), start);
  }

  lemma PageStart(stored: seq<Stored>, cwd: Option<Path>, cursor: Option<string>) returns (start: nat)
    requires GetPage(stored, cwd, cursor).Ok?
    ensures start <= |Filtered(stored, cwd)|
    ensures GetPage(stored, cwd, cursor) == Ok(PageFrom(Filtered(stored, cwd), start))
    ensures Rest(stored, cwd, cursor) == Filtered(stored, cwd)[start..]
  {
    start := if cursor.None? then 0 else Position(Filtered(stored, cwd), cursor.value) + 1;
  }

  // ---------------------------------------------------------------- following the cursors

  /** What stands behind an id does not depend on what stands in front of it. */
  lemma BehindIsLocal(front: seq<Stored>, back: seq<Stored>, id: string)
    requires DistinctIds(front + back) && Position(back, id) < |back|
    ensures Behind(front + back, id) == Behind(back, id)
    ensures Position(front + back, id) < |front + back|
  {
    var all, at := front + back, Position(back, id);
    assert all[|front| + at] == back[at];
    PositionOf(all, |front| + at);
    assert all[|front| + at + 1..] == back[at + 1..];
  }

  /** New sessions at the front leave what is still to come after a cursor alone. */
  lemma FrontInsertKeepsRest(added: seq<Stored>, stored: seq<Stored>, cwd: Option<Path>, cursor: string)
    requires DistinctIds(added + stored)
    requires GetPage(stored, cwd, Some(cursor)).Ok?
    ensures Rest(added + stored, cwd, Some(cursor)) == Rest(stored, cwd, Some(cursor))
    ensures GetPage(added + stored, cwd, Some(cursor)).Ok?
  {
    FilteredJoin(added, stored, cwd);
    FilteredDistinct(added + stored, cwd);
    BehindIsLocal(Filtered(added, cwd), Filtered(stored, cwd), cursor);
  }

  /** The listing keeps distinct ids through all the batches of new sessions. */
  ghost predicate DistinctThroughout(stored: seq<Stored>, news: seq<seq<Stored>>)
    decreases |news|
  {
    DistinctIds(stored) && (news == [] || DistinctThroughout(news[0] + stored, news[1..]))
  }

  /** Following cursors until there is none. Before each next call, the next
      batch of brand-new sessions has been saved. */
  ghost function Walk(stored: seq<Stored>, news: seq<seq<Stored>>, cwd: Option<Path>, cursor: Option<string>): seq<Info>
    requires DistinctThroughout(stored, news) && GetPage(stored, cwd, cursor).Ok?
    decreases |Rest(stored, cwd, cursor)|
  {
    var page := GetPage(stored, cwd, cursor).value;
    PageIsHeadOfRest(stored, cwd, cursor);
    if page.nextCursor.None? then page.sessions
    else if news == [] then page.sessions + Walk(stored, news, cwd, page.nextCursor)
    else
      assert DistinctThroughout(news[0] + stored, news[1..]);
      FrontInsertKeepsRest(news[0], stored, cwd, page.nextCursor.value);
      page.sessions + Walk(news[0] + stored, news[1..], cwd, page.nextCursor)
  }

  lemma {:induction false} WalkIsRest(stored: seq<Stored>, news: seq<seq<Stored>>, cwd: Option<Path>, cursor: Option<string>)
    requires DistinctThroughout(stored, news) && GetPage(stored, cwd, cursor).Ok?
    ensures Walk(stored, news, cwd, cursor) == Infos(Rest(stored, cwd, cursor))
    decreases |Rest(stored, cwd, cursor)|
  {
    var page, rest := GetPage(stored, cwd, cursor).value, Rest(stored, cwd, cursor);
    PageIsHeadOfRest(stored, cwd, cursor);
    if page.nextCursor.None? {
      assert rest[..|rest|] == rest;
    } else {
      InfosSplit(rest, Min(PAGE_SIZE, |rest|));
      if news == [] {
        WalkIsRest(stored, news, cwd, page.nextCursor);
      } else {
        assert DistinctThroughout(news[0] + stored, news[1..]);
        FrontInsertKeepsRest(news[0], stored, cwd, page.nextCursor.value);
        WalkIsRest(news[0] + stored, news[1..], cwd, page.nextCursor);
      }
    }
  }

  lemma InfosSplit(stored: seq<Stored>, n: nat)
    requires n <= |stored|
    ensures Infos(stored) == Infos(stored[..n]) + Infos(stored[n..])
  {
  }

  /** Whatever brand-new sessions appear at the front on the way, the pages put
      together are exactly the listing the traversal began with: no repeats, no
      skips, nothing new. */
  lemma TraversalIsComplete(stored: seq<Stored>, news: seq<seq<Stored>>, cwd: Option<Path>)
    requires DistinctThroughout(stored, news)
    ensures Walk(stored, news, cwd, None) == Infos(Filtered(stored, cwd))
  {
    WalkIsRest(stored, news, cwd, None);
  }

  // ---------------------------------------------------------------- a session saved again

  function WithoutId(stored: seq<Stored>, id: string): seq<Stored> {
    if stored == [] then [] else (if stored[0].id == id then [] else [stored[0]]) + WithoutId(stored[1..], id)
  }

  /** A save puts its session at the front, whether or not it was in the list. */
  function SaveInto(stored: seq<Stored>, saved: Stored): seq<Stored> {
    [saved] + WithoutId(stored, saved.id)
  }

  lemma {:induction false} WithoutMembers(stored: seq<Stored>, id: string)
    ensures forall s :: s in WithoutId(stored, id) <==> s in stored && s.id != id
    ensures |WithoutId(stored, id)| <= |stored|
    ensures WithoutId(stored, id) == stored <==> forall s :: s in stored ==> s.id != id
  {
    if stored != [] {
      WithoutMembers(stored[1..], id);
      assert stored == [stored[0]] + stored[1..];
    }
  }

  lemma DistinctTail(stored: seq<Stored>)
    requires DistinctIds(stored) && stored != []
    ensures DistinctIds(stored[1..]) && forall s :: s in stored[1..] ==> s.id != stored[0].id
  {
    assert forall i :: 0 <= i < |stored[1..]| ==> stored[1..][i] == stored[i + 1];
  }

  lemma {:induction false} WithoutDistinct(stored: seq<Stored>, id: string)
    requires DistinctIds(stored)
    ensures DistinctIds(WithoutId(stored, id))
  {
    if stored != [] {
      DistinctTail(stored);
      WithoutDistinct(stored[1..], id);
      WithoutMembers(stored[1..], id);
      PutInFront(stored[0], WithoutId(stored[1..], id));
    }
  }

  lemma PutInFront(first: Stored, rest: seq<Stored>)
    requires DistinctIds(rest) && forall s :: s in rest ==> s.id != first.id
    ensures DistinctIds([first] + rest) && [] + rest == rest
  {
  }

  lemma {:induction false} WithoutSize(stored: seq<Stored>, id: string)
    requires DistinctIds(stored)
    ensures |WithoutId(stored, id)| >= |stored| - 1
  {
    if stored != [] {
      DistinctTail(stored);
      WithoutSize(stored[1..], id);
      WithoutMembers(stored[1..], id);
    }
  }

  lemma SaveKeepsDistinct(stored: seq<Stored>, saved: Stored)
    requires DistinctIds(stored)
    ensures DistinctIds(SaveInto(stored, saved))
  {
    WithoutDistinct(stored, saved.id);
    WithoutMembers(stored, saved.id);
    var rest := WithoutId(stored, saved.id);
    assert forall i :: 0 <= i < |rest| ==> rest[i] in rest;
  }

  lemma {:induction false} FilteredWithout(stored: seq<Stored>, cwd: Option<Path>, id: string)
    ensures Filtered(WithoutId(stored, id), cwd) == WithoutId(Filtered(stored, cwd), id)
  {
    if stored != [] {
      var first, rest := stored[0], stored[1..];
      FilteredWithout(rest, cwd, id);
      if first.id == id {
        assert [] + WithoutId(rest, id) == WithoutId(rest, id);
      } else {
        assert WithoutId(stored, id)[1..] == WithoutId(rest, id);
      }
      if Listable(first, cwd) {
        assert Filtered(stored, cwd)[1..] == Filtered(rest, cwd);
      } else {
        assert [] + Filtered(rest, cwd) == Filtered(rest, cwd);
      }
    }
  }

  lemma FilteredSave(stored: seq<Stored>, cwd: Option<Path>, saved: Stored)
    ensures Filtered(SaveInto(stored, saved), cwd)
         == (if Listable(saved, cwd) then [saved] else []) + WithoutId(Filtered(stored, cwd), saved.id)
  {
    FilteredWithout(stored, cwd, saved.id);
    assert SaveInto(stored, saved)[1..] == WithoutId(stored, saved.id);
  }

  lemma BehindFirst(first: Stored, rest: seq<Stored>, id: string)
    ensures Behind([first] + rest, id) == if first.id == id then rest else Behind(rest, id)
    ensures Position([first] + rest, id) == if first.id == id then 0 else 1 + Position(rest, id)
  {
    assert ([first] + rest)[1..] == rest;
    if first.id != id && Position(rest, id) < |rest| {
      assert ([first] + rest)[Position(rest, id) + 2..] == rest[Position(rest, id) + 1..];
    }
  }

  /** Taking another session out leaves a cursor where it was. */
  lemma {:induction false} BehindWithout(listable: seq<Stored>, cursor: string, id: string)
    requires cursor != id && DistinctIds(listable)
    ensures Behind(WithoutId(listable, id), cursor) == WithoutId(Behind(listable, cursor), id)
    ensures Position(listable, cursor) < |listable| <==> Position(WithoutId(listable, id), cursor) < |WithoutId(listable, id)|
  {
    if listable != [] {
      var first, rest := listable[0], listable[1..];
      assert listable == [first] + rest;
      assert forall i :: 0 <= i < |rest| ==> rest[i] == listable[i + 1];
      BehindFirst(first, rest, cursor);
      BehindWithout(rest, cursor, id);
      if first.id == id {
        assert [] + WithoutId(rest, id) == WithoutId(rest, id);
      } else {
        BehindFirst(first, WithoutId(rest, id), cursor);
      }
    }
  }

  /** What one save does to what is still to come after a cursor. Another session
      drops out of it, and is not shown, if it was in it. When the cursor's own
      session is saved, everything else of the listing is to come, the pages
      already shown included; and if it left the listing the cursor is refused. */
  lemma SaveMovesRest(stored: seq<Stored>, cwd: Option<Path>, cursor: string, saved: Stored)
    requires DistinctIds(stored) && GetPage(stored, cwd, Some(cursor)).Ok?
    ensures var after := SaveInto(stored, saved);
            && DistinctIds(after)
            && (GetPage(after, cwd, Some(cursor)).Err? <==> saved.id == cursor && !Listable(saved, cwd))
            && (saved.id != cursor ==> Rest(after, cwd, Some(cursor)) == WithoutId(Rest(stored, cwd, Some(cursor)), saved.id))
            && (saved.id == cursor && Listable(saved, cwd) ==>
                  Rest(after, cwd, Some(cursor)) == WithoutId(Filtered(stored, cwd), cursor))
  {
    SaveKeepsDistinct(stored, saved);
    FilteredSave(stored, cwd, saved);
    FilteredDistinct(stored, cwd);
    if saved.id == cursor {
      CursorInFront(Filtered(stored, cwd), saved, cwd);
    } else {
      OtherInFront(Filtered(stored, cwd), saved, cwd, cursor);
    }
  }

  lemma OtherInFront(listable: seq<Stored>, saved: Stored, cwd: Option<Path>, cursor: string)
    requires DistinctIds(listable) && saved.id != cursor && Position(listable, cursor) < |listable|
    ensures var after := (if Listable(saved, cwd) then [saved] else []) + WithoutId(listable, saved.id);
            && Position(after, cursor) < |after|
            && Behind(after, cursor) == WithoutId(Behind(listable, cursor), saved.id)
  {
    var others := WithoutId(listable, saved.id);
    BehindWithout(listable, cursor, saved.id);
    BehindFirst(saved, others, cursor);
    assert [] + others == others;
  }

  lemma CursorInFront(listable: seq<Stored>, saved: Stored, cwd: Option<Path>)
    ensures var others := WithoutId(listable, saved.id);
            var after := (if Listable(saved, cwd) then [saved] else []) + others;
            && (Position(after, saved.id) < |after| <==> Listable(saved, cwd))
            && (Listable(saved, cwd) ==> Behind(after, saved.id) == others)
  {
    var others := WithoutId(listable, saved.id);
    if Listable(saved, cwd) {
      BehindFirst(saved, others, saved.id);
    } else {
      assert [] + others == others;
      WithoutMembers(listable, saved.id);
      forall i | 0 <= i < |others| ensures others[i].id != saved.id {
        assert others[i] in others;
      }
    }
  }

  /** So a save leaves what is still to come as it was exactly when it is of a
      session that is neither still to come nor the cursor's own, or of the
      cursor's own when that still is in the listing and stood first in it. */
  lemma SaveKeepsRestIff(stored: seq<Stored>, cwd: Option<Path>, cursor: string, saved: Stored)
    requires DistinctIds(stored) && GetPage(stored, cwd, Some(cursor)).Ok?
    ensures var after := SaveInto(stored, saved);
            GetPage(after, cwd, Some(cursor)).Ok? && Rest(after, cwd, Some(cursor)) == Rest(stored, cwd, Some(cursor))
            <==> if saved.id == cursor then Listable(saved, cwd) && Filtered(stored, cwd)[0].id == cursor
                 else forall s :: s in Rest(stored, cwd, Some(cursor)) ==> s.id != saved.id
  {
    SaveMovesRest(stored, cwd, cursor, saved);
    WithoutMembers(Rest(stored, cwd, Some(cursor)), saved.id);
    if saved.id == cursor {
      var listable := Filtered(stored, cwd);
      FilteredDistinct(stored, cwd);
      WithoutSize(listable, cursor);
      if listable[0].id == cursor {
        FirstTakenOut(listable);
      }
    }
  }

  lemma FirstTakenOut(listable: seq<Stored>)
    requires DistinctIds(listable) && listable != []
    ensures WithoutId(listable, listable[0].id) == listable[1..] == Behind(listable, listable[0].id)
  {
    var rest := listable[1..];
    assert forall i :: 0 <= i < |rest| ==> rest[i] == listable[i + 1];
    WithoutMembers(rest, listable[0].id);
    assert [] + rest == rest;
  }

  /** Following cursors while the list goes through these versions, one per call. */
  ghost function Visit(versions: seq<seq<Stored>>, cwd: Option<Path>, cursor: Option<string>): seq<Info> {
    if versions == [] then []
    else
      match GetPage(versions[0], cwd, cursor)
      case Err(_) => []
      case Ok(page) =>
        page.sessions + (if page.nextCursor.None? then [] else Visit(versions[1..], cwd, page.nextCursor))
  }

  /** It happens on every listing of more than a page: the last session of the
      first page is saved again, and the next page starts over. */
  lemma CursorSavedAgainStartsOver(stored: seq<Stored>, cwd: Option<Path>, saved: Stored)
    requires DistinctIds(stored) && |Filtered(stored, cwd)| > PAGE_SIZE
    requires saved.id == Filtered(stored, cwd)[PAGE_SIZE - 1].id && Listable(saved, cwd)
    ensures var seen := Visit([stored, SaveInto(stored, saved)], cwd, None);
            |seen| > PAGE_SIZE && seen[0] == seen[PAGE_SIZE] == Describe(Filtered(stored, cwd)[0])
  {
    var listable, after := Filtered(stored, cwd), SaveInto(stored, saved);
    PageIsHeadOfRest(stored, cwd, None);
    SaveMovesRest(stored, cwd, saved.id, saved);
    PageIsHeadOfRest(after, cwd, Some(saved.id));
    FilteredDistinct(stored, cwd);
    WithoutSize(listable, saved.id);
    assert WithoutId(listable, saved.id)[0] == listable[0];
    TwoPages(stored, after, cwd, saved.id);
  }

  lemma TwoPages(before: seq<Stored>, after: seq<Stored>, cwd: Option<Path>, cursor: string)
    requires GetPage(before, cwd, None).Ok? && GetPage(before, cwd, None).value.nextCursor == Some(cursor)
    requires GetPage(after, cwd, Some(cursor)).Ok?
    ensures Visit([before, after], cwd, None)
         == GetPage(before, cwd, None).value.sessions + GetPage(after, cwd, Some(cursor)).value.sessions
  {
    var second := GetPage(after, cwd, Some(cursor)).value;
    assert [after][1..] == [] && Visit([], cwd, second.nextCursor) == [];
    assert second.sessions + [] == second.sessions;
    assert Visit([after], cwd, Some(cursor)) == second.sessions;
    assert [before, after][1..] == [after];
  }
}
