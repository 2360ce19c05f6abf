/** The versioned settings backup. A write reads the stored version in one
    atomic section and writes under a version check in another; any number of
    writers, and clears, may come in between.

    Sealing is left out: a stored blob is the settings it was sealed from. */
module Backup {
  import opened Common

  type UserId = string

  datatype Settings = Object(text: string) | NotAnObject

  datatype Row = Row(settings: Settings, version: nat)

  datatype PutResult = Stored(version: nat) | Conflict(currentVersion: nat) | Failed | Refused

  // ---------------------------------------------------------------- the sections of a put

  function VersionOf(row: Option<Row>): nat {
    if row.Some? then row.value.version else 0
  }

  /** The conditional write. From version 0 it is an insert, which an existing
      row makes fail; otherwise an update that only the read version matches. */
  datatype Written = Changed(row: Row) | NoRow | ConstraintFailed

  function WriteSection(row: Option<Row>, settings: Settings, current: nat): Written {
    if current == 0 then
      if row.Some? then ConstraintFailed else Changed(Row(settings, 1))
    else
      if row.Some? && row.value.version == current then Changed(Row(settings, current + 1)) else NoRow
  }

  class Store {
    var rows: map<UserId, Row>

    constructor ()
      ensures rows == map[] && Valid()
    {
      rows := map[];
    }

    /** Versions start at 1. */
    ghost predicate Valid()
      reads this
    {
      forall user :: user in rows ==> rows[user].version > 0
    }

    function RowOf(user: UserId): Option<Row>
      reads this
    {
      if user in rows then Some(rows[user]) else None
    }

    method CurrentVersion(user: UserId) returns (version: nat)
      ensures version == VersionOf(RowOf(user))
      ensures version == if user in rows then rows[user].version else 0
    {
      version := if user in rows then rows[user].version else 0;
    }

    method Get(user: UserId) returns (backup: Option<Row>)
      ensures user in rows ==> backup == Some(rows[user])
      ensures user !in rows ==> backup == None
    {
      backup := if user in rows then Some(rows[user]) else None;
    }

    method ConditionalWrite(user: UserId, settings: Settings, current: nat) returns (written: Written)
      modifies this
      ensures written == WriteSection(old(RowOf(user)), settings, current)
      ensures rows == if written.Changed? then old(rows)[user := written.row] else old(rows)
      ensures old(Valid()) ==> Valid()
    {
      if current == 0 {
        if user in rows {
          return ConstraintFailed;
        }
        written := Changed(Row(settings, 1));
        rows := rows[user := Row(settings, 1)];
      } else {
        if user !in rows || rows[user].version != current {
          return NoRow;
        }
        written := Changed(Row(settings, current + 1));
        rows := rows[user := Row(settings, current + 1)];
      }
    }

    /** A put with nothing in between. */
    method Put(user: UserId, settings: Settings, expected: int) returns (result: PutResult)
      requires Valid()
      modifies this
      ensures Valid()
      ensures result.Refused? <==> settings.NotAnObject?
      ensures result.Conflict? <==> settings.Object? && expected != old(VersionOf(RowOf(user)))
      ensures result.Conflict? ==> result.currentVersion == old(VersionOf(RowOf(user)))
      ensures result.Stored? ==> result.version == expected + 1 && rows == old(rows)[user := Row(settings, result.version)]
      ensures !result.Stored? ==> rows == old(rows)
      ensures !result.Failed?
    {
      if settings.NotAnObject? {
        return Refused;
      }
      var current := CurrentVersion(user);
      if current != expected {
        return Conflict(current);
      }
      var written := ConditionalWrite(user, settings, current);
      match written {
        case Changed(row) => return Stored(row.version);
        case ConstraintFailed => return Failed;
        case NoRow =>
          var now := CurrentVersion(user);
          return Conflict(now);
      }
    }

    method Clear(user: UserId) returns (removed: bool)
      modifies this
      ensures removed == (user in old(rows)) && rows == old(rows) - {user}
      ensures old(Valid()) ==> Valid()
    {
      removed := user in rows;
      rows := rows - {user};
    }
  }

  // ---------------------------------------------------------------- racing writers, one user

  datatype Phase = Started | HasRead(current: nat) | Missed | Done(result: PutResult)

  /** A writer remembers, besides its request, what the store held when it
      began: the number of clears so far, and which success had made the row. */
  datatype Writer = Writer(settings: Settings, expected: int, phase: Phase, seenClears: nat, seenVersion: nat, seenBy: int)

  /** One successful put: how many clears came before it, which version it made,
      from which settings, and which success had made the row it replaced
      (-1 when there was none). */
  datatype Success = Success(clears: nat, writer: nat, version: nat, settings: Settings, replaced: int)

  datatype World = World(row: Option<Row>, clears: nat, writers: map<nat, Writer>, successes: seq<Success>)

  const INIT := World(None, 0, map[], [])

  datatype Step =
    | Begin(id: nat, settings: Settings, expected: int)
    | ReadVersion(id: nat)
    | Write(id: nat)
    | Report(id: nat)
    | Clear

  /** Which success made the row that is stored now. */
  function MadeBy(w: World): int {
    if w.row.Some? then |w.successes| - 1 else -1
  }

  function DoBegin(w: World, s: Step): World
    requires s.Begin?
  {
    if s.id in w.writers then w
    else
      var phase := if s.settings.NotAnObject? then Done(Refused) else Started;
      w.(writers := w.writers[s.id := Writer(s.settings, s.expected, phase, w.clears, VersionOf(w.row), MadeBy(w))])
  }

  function DoRead(w: World, id: nat): World
    requires id in w.writers
  {
    var wr := w.writers[id];
    if !wr.phase.Started? then w
    else
      var current := VersionOf(w.row);
      w.(writers := w.writers[id := wr.(phase := if current != wr.expected then Done(Conflict(current)) else HasRead(current))])
  }

  function DoWrite(w: World, id: nat): World
    requires id in w.writers
  {
    var wr := w.writers[id];
    if !wr.phase.HasRead? then w
    else
      match WriteSection(w.row, wr.settings, wr.phase.current)
      case Changed(row) =>
        w.(row := Some(row),
           writers := w.writers[id := wr.(phase := Done(Stored(row.version)))],
           successes := w.successes + [Success(w.clears, id, row.version, wr.settings, MadeBy(w))])
      case ConstraintFailed => w.(writers := w.writers[id := wr.(phase := Done(Failed))])
      case NoRow => w.(writers := w.writers[id := wr.(phase := Missed)])
  }

  function Apply(w: World, s: Step): World {
    match s
    case Begin(_, _, _) => DoBegin(w, s)
    case ReadVersion(id) => if id in w.writers then DoRead(w, id) else w
    case Write(id) => if id in w.writers then DoWrite(w, id) else w
    case Report(id) =>
      if id in w.writers && w.writers[id].phase.Missed?
      then w.(writers := w.writers[id := w.writers[id].(phase := Done(Conflict(VersionOf(w.row))))])
      else w
    case Clear => w.(row := None, clears := w.clears + 1)
  }

  function Exec(steps: seq<Step>): World {
    if steps == [] then INIT else Apply(Exec(steps[..|steps| - 1]), steps[|steps| - 1])
  }

  /** The success just before success `i` between the same two clears. */
  ghost predicate Follows(successes: seq<Success>, i: nat)
    requires i < |successes|
  {
    if i > 0 && successes[i - 1].clears == successes[i].clears
    then successes[i].version == successes[i - 1].version + 1 && successes[i].replaced == i - 1
    else successes[i].version == 1 && successes[i].replaced == -1
  }

  ghost predicate Chained(w: World) {
    && (forall i :: 0 <= i < |w.successes| ==> Follows(w.successes, i))
    && (forall i, j :: 0 <= i < j < |w.successes| ==> w.successes[i].clears <= w.successes[j].clears)
    && (forall i :: 0 <= i < |w.successes| ==> w.successes[i].clears <= w.clears)
    && (w.row.Some? <==> w.successes != [] && w.successes[|w.successes| - 1].clears == w.clears)
    && (w.row.Some? ==> var last := w.successes[|w.successes| - 1]; w.row.value == Row(last.settings, last.version))
  }

  lemma WriteChains(w: World, id: nat)
    requires Chained(w) && id in w.writers
    ensures Chained(DoWrite(w, id))
  {
    var w' := DoWrite(w, id);
    if w'.successes != w.successes {
      assert forall i :: 0 <= i < |w.successes| ==> Follows(w'.successes, i) by {
        forall i | 0 <= i < |w.successes|
          ensures Follows(w'.successes, i)
        {
          assert Follows(w.successes, i);
        }
      }
      assert Follows(w'.successes, |w.successes|);
    }
  }

  lemma {:induction false} RunsChain(steps: seq<Step>)
    ensures Chained(Exec(steps))
  {
    if steps != [] {
      var w, s := Exec(steps[..|steps| - 1]), steps[|steps| - 1];
      RunsChain(steps[..|steps| - 1]);
      if s.Write? && s.id in w.writers {
        WriteChains(w, s.id);
      }
    }
  }

  lemma {:induction false} ChainVersions(w: World, i: nat, j: nat)
    requires Chained(w) && i < j < |w.successes| && w.successes[i].clears == w.successes[j].clears
    ensures w.successes[j].version == w.successes[i].version + (j - i)
    decreases j
  {
    assert Follows(w.successes, j);
    if i < j - 1 {
      ChainVersions(w, i, j - 1);
    }
  }

  /** In every run: between two clears the successes make versions 1, 2, 3, ... in
      order, so no version is replaced twice; and what is stored is what the
      latest success since the last clear wrote. */
  lemma WritesFormAChain(steps: seq<Step>)
    ensures var w := Exec(steps);
            && (forall i :: 0 <= i < |w.successes| ==> Follows(w.successes, i))
            && (forall i, j :: 0 <= i < j < |w.successes| && w.successes[i].clears == w.successes[j].clears ==>
                  w.successes[j].version == w.successes[i].version + (j - i))
            && w.row == (if w.successes != [] && w.successes[|w.successes| - 1].clears == w.clears
                         then Some(Row(w.successes[|w.successes| - 1].settings, w.successes[|w.successes| - 1].version))
                         else None)
  {
    RunsChain(steps);
    var w := Exec(steps);
    forall i, j | 0 <= i < j < |w.successes| && w.successes[i].clears == w.successes[j].clears
      ensures w.successes[j].version == w.successes[i].version + (j - i)
    {
      ChainVersions(w, i, j);
    }
  }

  /** Each success is one writer's, made the version after the one it expected,
      and stored that writer's own settings; and it is that writer's only one. */
  ghost predicate Credited(w: World) {
    && (forall i :: 0 <= i < |w.successes| ==>
          var s := w.successes[i];
          s.writer in w.writers && w.writers[s.writer].phase == Done(Stored(s.version))
          && s.version == w.writers[s.writer].expected + 1 && s.settings == w.writers[s.writer].settings)
    && (forall i, j :: 0 <= i < j < |w.successes| ==> w.successes[i].writer != w.successes[j].writer)
    && (forall id :: id in w.writers && w.writers[id].phase.Done? && w.writers[id].phase.result.Stored? ==>
          exists i :: 0 <= i < |w.successes| && w.successes[i].writer == id)
  }

  /** A writer past its read goes on with the version it expected. */
  ghost predicate ReadsAsExpected(w: World) {
    forall id :: id in w.writers && w.writers[id].phase.HasRead? ==> w.writers[id].phase.current == w.writers[id].expected
  }

  lemma CreditStep(w: World, s: Step)
    requires Credited(w) && ReadsAsExpected(w)
    ensures Credited(Apply(w, s)) && ReadsAsExpected(Apply(w, s))
  {
    if Apply(w, s).successes == w.successes {
      StatusKeeps(w, s);
    } else {
      NewSuccess(w, s.id);
    }
  }

  lemma StatusKeeps(w: World, s: Step)
    requires Credited(w) && ReadsAsExpected(w) && Apply(w, s).successes == w.successes
    ensures Credited(Apply(w, s)) && ReadsAsExpected(Apply(w, s))
  {
    var w' := Apply(w, s);
    forall id | id in w'.writers && w'.writers[id].phase.Done? && w'.writers[id].phase.result.Stored?
      ensures exists i :: 0 <= i < |w'.successes| && w'.successes[i].writer == id
    {
      assert id in w.writers && w.writers[id] == w'.writers[id];
    }
  }

  lemma NewSuccess(w: World, id: nat)
    requires Credited(w) && ReadsAsExpected(w) && id in w.writers && DoWrite(w, id).successes != w.successes
    ensures Credited(DoWrite(w, id)) && ReadsAsExpected(DoWrite(w, id))
  {
    var w', last := DoWrite(w, id), |w.successes|;
    assert w'.successes[last].writer == id;
    forall i | 0 <= i < last
      ensures w'.successes[i] == w.successes[i] && w.successes[i].writer != id
    {
    }
    forall other | other in w'.writers && w'.writers[other].phase.Done? && w'.writers[other].phase.result.Stored?
      ensures exists i :: 0 <= i < |w'.successes| && w'.successes[i].writer == other
    {
      if other != id {
        var i :| 0 <= i < last && w.successes[i].writer == other;
        assert w'.successes[i].writer == other;
      }
    }
  }

  lemma {:induction false} EverySuccessIsCredited(steps: seq<Step>)
    ensures Credited(Exec(steps)) && ReadsAsExpected(Exec(steps))
  {
    if steps != [] {
      EverySuccessIsCredited(steps[..|steps| - 1]);
      CreditStep(Exec(steps[..|steps| - 1]), steps[|steps| - 1]);
    }
  }

  /** Every successful writer has exactly one success, under the version after the
      one it expected and with its own settings; and of the writers that expect
      the same version, at most one succeeds between two clears. */
  lemma OneWinnerPerVersion(steps: seq<Step>, i: nat, j: nat)
    requires i < |Exec(steps).successes| && j < |Exec(steps).successes|
    ensures var w := Exec(steps);
            var a, b := w.successes[i], w.successes[j];
            && a.writer in w.writers && b.writer in w.writers
            && a.settings == w.writers[a.writer].settings && a.version == w.writers[a.writer].expected + 1
            && (a.writer == b.writer ==> i == j)
            && (a.clears == b.clears && w.writers[a.writer].expected == w.writers[b.writer].expected ==> i == j)
  {
    EverySuccessIsCredited(steps);
    WritesFormAChain(steps);
  }

  /** Only a success and a clear change the row. A put fails outright, rather
      than reporting the conflict, exactly when it is a first upload that lost
      the race after its version read. */
  lemma OnlySuccessWrites(steps: seq<Step>, s: Step)
    ensures var w, w' := Exec(steps), Apply(Exec(steps), s);
            && (w'.row != w.row ==> s.Clear? || |w'.successes| == |w.successes| + 1)
            && (s.Clear? ==> w'.row == None && w'.clears == w.clears + 1)
            && (s.Report? && s.id in w.writers && w.writers[s.id].phase.Missed? ==>
                  && w'.row == w.row
                  && w'.writers[s.id].phase == Done(Conflict(if w.row.Some? then w.row.value.version else 0)))
            && (s.Write? && s.id in w.writers && w.writers[s.id].phase.HasRead? ==>
                  && (w'.writers[s.id].phase == Done(Failed) <==> w.writers[s.id].expected == 0 && w.row.Some?)
                  && (w'.writers[s.id].phase == Missed <==>
                        w.writers[s.id].expected != 0 && VersionOf(w.row) != w.writers[s.id].expected))
  {
    EverySuccessIsCredited(steps);
  }

  lemma Snoc(steps: seq<Step>, s: Step)
    ensures Exec(steps + [s]) == Apply(Exec(steps), s)
  {
    assert (steps + [s])[..|steps|] == steps;
  }

  /** From any moment of any run, a put nobody interferes with is refused if it is
      no object, told the stored version if it expected another, and otherwise
      stores its settings at the next version. */
  lemma LonePut(steps: seq<Step>, id: nat, settings: Settings, expected: int)
    requires id !in Exec(steps).writers
    ensures var w := Exec(steps);
            var w' := Exec(steps + [Begin(id, settings, expected)] + [ReadVersion(id)] + [Write(id)] + [Report(id)]);
            var version := if w.row.Some? then w.row.value.version else 0;
            && id in w'.writers
            && (settings.NotAnObject? ==> w'.writers[id].phase == Done(Refused) && w'.row == w.row)
            && (settings.Object? && expected != version ==>
                  w'.writers[id].phase == Done(Conflict(version)) && w'.row == w.row)
            && (settings.Object? && expected == version ==>
                  && w'.writers[id].phase == Done(Stored(version + 1))
                  && w'.row == Some(Row(settings, version + 1)))
  {
    RunsChain(steps);
    VersionsPositive(Exec(steps));
    var begun := steps + [Begin(id, settings, expected)];
    Snoc(steps, Begin(id, settings, expected));
    Snoc(begun, ReadVersion(id));
    Snoc(begun + [ReadVersion(id)], Write(id));
    Snoc(begun + [ReadVersion(id)] + [Write(id)], Report(id));
  }

  /** The race that fails outright: both writers read version 0 before either writes. */
  lemma FirstUploadRace(mine: string, theirs: string)
    ensures var w := Exec([] + [Begin(0, Object(mine), 0)] + [ReadVersion(0)] + [Begin(1, Object(theirs), 0)]
                          + [ReadVersion(1)] + [Write(1)] + [Write(0)]);
            && 0 in w.writers && w.writers[0].phase == Done(Failed)
            && w.row == Some(Row(Object(theirs), 1))
  {
    var s1 := [] + [Begin(0, Object(mine), 0)];
    Snoc([], Begin(0, Object(mine), 0));
    Snoc(s1, ReadVersion(0));
    Snoc(s1 + [ReadVersion(0)], Begin(1, Object(theirs), 0));
    var s3 := s1 + [ReadVersion(0)] + [Begin(1, Object(theirs), 0)];
    Snoc(s3, ReadVersion(1));
    Snoc(s3 + [ReadVersion(1)], Write(1));
    Snoc(s3 + [ReadVersion(1)] + [Write(1)], Write(0));
  }

  // ---------------------------------------------------------------- what a clear undoes

  /** Where a writer stands with respect to the row it saw when it began. */
  ghost predicate Remembers(w: World, wr: Writer) {
    && wr.seenClears <= w.clears
    && wr.seenBy < |w.successes|
    && (wr.seenVersion > 0 <==> wr.seenBy >= 0)
    && (wr.seenBy >= 0 ==> w.successes[wr.seenBy].clears == wr.seenClears && w.successes[wr.seenBy].version == wr.seenVersion)
  }

  lemma {:induction false} WritersRemember(steps: seq<Step>, id: nat)
    requires id in Exec(steps).writers
    ensures Remembers(Exec(steps), Exec(steps).writers[id])
  {
    var w, s := Exec(steps[..|steps| - 1]), steps[|steps| - 1];
    RunsChain(steps[..|steps| - 1]);
    VersionsPositive(w);
    if id in w.writers {
      WritersRemember(steps[..|steps| - 1], id);
    }
  }

  lemma {:induction false} VersionPositive(w: World, i: nat)
    requires Chained(w) && i < |w.successes|
    ensures w.successes[i].version > 0
  {
    assert Follows(w.successes, i);
    if i > 0 {
      VersionPositive(w, i - 1);
    }
  }

  lemma VersionsPositive(w: World)
    requires Chained(w)
    ensures w.row.Some? ==> w.row.value.version > 0
  {
    if w.row.Some? {
      VersionPositive(w, |w.successes| - 1);
    }
  }

  /** A put that expects the version its client had just been shown, and
      succeeds, replaces the very row the client saw if and only if no clear
      came in between. After a clear, versions start over, and a put can replace
      a row its client never had. */
  lemma SuccessReplacesWhatWasSeen(steps: seq<Step>, id: nat)
    requires var w := Exec(steps);
             && id in w.writers && w.writers[id].phase.HasRead?
             && w.writers[id].expected == w.writers[id].seenVersion > 0
    requires |Apply(Exec(steps), Write(id)).successes| > |Exec(steps).successes|
    ensures var w, w' := Exec(steps), Apply(Exec(steps), Write(id));
            w'.successes[|w.successes|].replaced == w.writers[id].seenBy <==> w.clears == w.writers[id].seenClears
  {
    var w := Exec(steps);
    RunsChain(steps);
    WritersRemember(steps, id);
    EverySuccessIsCredited(steps);
    var seen, last := w.writers[id].seenBy, |w.successes| - 1;
    if w.clears == w.writers[id].seenClears && seen < last {
      ChainVersions(w, seen, last);
    }
  }

  const UPLOAD_THEN_SEE := [] + [Begin(0, Object("old"), 0)] + [ReadVersion(0)] + [Write(0)] + [Begin(1, Object("mine"), 1)]

  lemma UploadThenSee()
    ensures var w := Exec(UPLOAD_THEN_SEE);
            && w.row == Some(Row(Object("old"), 1)) && w.clears == 0
            && w.successes == [Success(0, 0, 1, Object("old"), -1)]
            && w.writers.Keys == {0, 1} && w.writers[1] == Writer(Object("mine"), 1, Started, 0, 1, 0)
  {
    var s2 := [] + [Begin(0, Object("old"), 0)] + [ReadVersion(0)];
    Snoc([], Begin(0, Object("old"), 0));
    Snoc([] + [Begin(0, Object("old"), 0)], ReadVersion(0));
    Snoc(s2, Write(0));
    Snoc(s2 + [Write(0)], Begin(1, Object("mine"), 1));
  }

  /** The case that shows it: after a clear and another first upload, a writer
      that had only seen the row before the clear replaces the new one. */
  lemma StaleWriteAfterClear()
    ensures var w := Exec(UPLOAD_THEN_SEE + [Clear] + [Begin(2, Object("new"), 0)] + [ReadVersion(2)] + [Write(2)]
                          + [ReadVersion(1)] + [Write(1)]);
            && w.row == Some(Row(Object("mine"), 2))
            && |w.successes| == 3 && w.successes[1].settings == Object("new") && w.successes[2].replaced == 1
            && 1 in w.writers && w.writers[1].seenBy == 0
  {
    UploadThenSee();
    var s2 := UPLOAD_THEN_SEE + [Clear] + [Begin(2, Object("new"), 0)];
    Snoc(UPLOAD_THEN_SEE, Clear);
    Snoc(UPLOAD_THEN_SEE + [Clear], Begin(2, Object("new"), 0));
    Snoc(s2, ReadVersion(2));
    Snoc(s2 + [ReadVersion(2)], Write(2));
    Snoc(s2 + [ReadVersion(2)] + [Write(2)], ReadVersion(1));
    Snoc(s2 + [ReadVersion(2)] + [Write(2)] + [ReadVersion(1)], Write(1));
  }
}
