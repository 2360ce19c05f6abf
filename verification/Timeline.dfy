/** The page's timeline panel: an ordered list of row elements and an index from
    row id to element, kept in step by hand. An element is identified by the
    serial it was built under, as DOM nodes are compared by identity. */
module Timeline {
  import opened Common

  const ROW_LIMIT := 200

  datatype Row = Row(id: string, body: string)

  datatype Node = Node(serial: nat, row: Row)

  /** What arrives: a row, something without a usable id, or a conversation swap. */
  datatype Event = RowEvent(row: Row) | Unusable | Reset

  // ---------------------------------------------------------------- the simple model

  function IndexOf(rows: seq<Row>, id: string): (i: nat)
    ensures i <= |rows|
    ensures i < |rows| ==> rows[i].id == id
    ensures forall j :: 0 <= j < i ==> rows[j].id != id
  {
    if rows == [] || rows[0].id == id then 0 else 1 + IndexOf(rows[1..], id)
  }

  function Upsert(rows: seq<Row>, row: Row): seq<Row> {
    var i := IndexOf(rows, row.id);
    if i < |rows| then rows[i := row] else rows + [row]
  }

  function DropOldest(rows: seq<Row>, limit: nat): seq<Row> {
    if |rows| > limit then rows[|rows| - limit..] else rows
  }

  function Shown(events: seq<Event>): seq<Row> {
    if events == [] then []
    else
      var earlier := Shown(events[..|events| - 1]);
      match events[|events| - 1]
      case RowEvent(row) => DropOldest(Upsert(earlier, row), ROW_LIMIT)
      case Unusable => earlier
      case Reset => []
  }

  /** The newest row that arrived under `id` since the last swap. */
  function Latest(events: seq<Event>, id: string): Option<Row> {
    if events == [] then None
    else
      match events[|events| - 1]
      case RowEvent(row) => if row.id == id then Some(row) else Latest(events[..|events| - 1], id)
      case Unusable => Latest(events[..|events| - 1], id)
      case Reset => None
  }

  ghost predicate DistinctIds(rows: seq<Row>) {
    forall i, j :: 0 <= i < j < |rows| ==> rows[i].id != rows[j].id
  }

  /** After any events: ids are distinct, at most 200 rows remain, and each row
      shown is the newest that arrived under its id. */
  lemma {:induction false} ShownIsLatest(events: seq<Event>)
    ensures var rows := Shown(events);
            && DistinctIds(rows)
            && |rows| <= ROW_LIMIT
            && (forall i :: 0 <= i < |rows| ==> Latest(events, rows[i].id) == Some(rows[i]))
  {
    if events != [] {
      var init := events[..|events| - 1];
      ShownIsLatest(init);
      if events[|events| - 1].RowEvent? {
        UpsertKeeps(Shown(init), events[|events| - 1].row);
      }
    }
  }

  /** An update keeps its row's position; a new row goes to the end; nothing else moves. */
  lemma UpsertKeeps(rows: seq<Row>, row: Row)
    requires DistinctIds(rows)
    ensures var after := Upsert(rows, row);
            && DistinctIds(after)
            && |rows| <= |after| <= |rows| + 1
            && (|after| == |rows| <==> exists i :: 0 <= i < |rows| && rows[i].id == row.id)
            && (forall i :: 0 <= i < |rows| ==> after[i] == if rows[i].id == row.id then row else rows[i])
            && (|after| > |rows| ==> after[|rows|] == row)
  {
    var i := IndexOf(rows, row.id);
    if i < |rows| {
      assert rows[i].id == row.id;
    }
  }

  /** What one event does to the rows shown: an update stays in place; a new row
      goes to the end, and from two hundred on pushes out the first. */
  lemma NextRows(events: seq<Event>, event: Event)
    ensures var rows, after := Shown(events), Shown(events + [event]);
            && (event.Reset? ==> after == [])
            && (event.Unusable? ==> after == rows)
            && (forall i :: 0 <= i < |rows| && event.RowEvent? && rows[i].id == event.row.id ==>
                  after == rows[i := event.row])
            && (event.RowEvent? && (forall i :: 0 <= i < |rows| ==> rows[i].id != event.row.id) ==>
                  after == (if |rows| < 200 then rows else rows[1..]) + [event.row])
  {
    assert (events + [event])[..|events|] == events;
    ShownIsLatest(events);
    if event.RowEvent? {
      UpsertKeeps(Shown(events), event.row);
    }
  }

  // ---------------------------------------------------------------- the panel

  function Rows(nodes: seq<Node>): (rows: seq<Row>)
    ensures |rows| == |nodes|
  {
    seq(|nodes|, i requires 0 <= i < |nodes| => nodes[i].row)
  }

  /** The index and the list are in bijection. */
  ghost predicate Agree(nodes: seq<Node>, index: map<string, Node>) {
    && (forall i :: 0 <= i < |nodes| ==> nodes[i].row.id in index && index[nodes[i].row.id] == nodes[i])
    && (forall id :: id in index ==> index[id] in nodes && index[id].row.id == id)
    && DistinctIds(Rows(nodes))
  }

  lemma PlaceAgrees(nodes: seq<Node>, index: map<string, Node>, node: Node, at: nat)
    requires Agree(nodes, index) && at == IndexOf(Rows(nodes), node.row.id)
    ensures var after := if at < |nodes| then nodes[at := node] else nodes + [node];
            && Agree(after, index[node.row.id := node])
            && Rows(after) == Upsert(Rows(nodes), node.row)
  {
    var after, index' := if at < |nodes| then nodes[at := node] else nodes + [node], index[node.row.id := node];
    assert Rows(after) == Upsert(Rows(nodes), node.row);
    UpsertKeeps(Rows(nodes), node.row);
    forall i | 0 <= i < |after|
      ensures after[i].row.id in index' && index'[after[i].row.id] == after[i]
    {
      if i != at {
        OtherRow(nodes, node.row.id, at, i);
      }
    }
    forall id | id in index'
      ensures index'[id] in after && index'[id].row.id == id
    {
      if id != node.row.id {
        var i :| 0 <= i < |nodes| && nodes[i] == index[id];
        assert i != at ==> after[i] == nodes[i];
        assert Rows(nodes)[i].id == id;
      } else {
        assert after[at] == node;
      }
    }
  }

  lemma OtherRow(nodes: seq<Node>, id: string, at: nat, i: nat)
    requires DistinctIds(Rows(nodes)) && at == IndexOf(Rows(nodes), id) && i < |nodes| && i != at
    ensures nodes[i].row.id != id
  {
    assert Rows(nodes)[i] == nodes[i].row;
  }

  /** Looking a row up in the index finds the place a search by id would. */
  lemma IndexedPosition(nodes: seq<Node>, index: map<string, Node>, id: string, at: nat)
    requires Agree(nodes, index) && at <= |nodes|
    requires id in index ==> at < |nodes| && nodes[at] == index[id]
    requires id !in index ==> at == |nodes|
    ensures at == IndexOf(Rows(nodes), id)
  {
    var i := IndexOf(Rows(nodes), id);
    if i < |nodes| {
      assert Rows(nodes)[i] == nodes[i].row;
    }
    if at < |nodes| {
      assert Rows(nodes)[at] == nodes[at].row;
    }
  }

  lemma EvictAgrees(nodes: seq<Node>, index: map<string, Node>)
    requires Agree(nodes, index) && nodes != []
    ensures Agree(nodes[1..], index - (set id | id in index && index[id] == nodes[0]))
    ensures Rows(nodes[1..]) == Rows(nodes)[1..]
  {
    var tracked := set id | id in index && index[id] == nodes[0];
    assert tracked == {nodes[0].row.id};
    var rest := nodes[1..];
    assert Rows(rest) == Rows(nodes)[1..];
    assert forall i :: 0 <= i < |nodes| ==> Rows(nodes)[i] == nodes[i].row;
    forall i | 0 <= i < |rest|
      ensures rest[i].row.id in index - tracked && (index - tracked)[rest[i].row.id] == rest[i]
    {
      assert rest[i] == nodes[i + 1] && Rows(nodes)[0].id != Rows(nodes)[i + 1].id;
    }
  }

  class Panel {
    var rows: seq<Node>
    var index: map<string, Node>
    var nextSerial: nat

    constructor ()
      ensures Valid() && Contents() == []
    {
      rows, index, nextSerial := [], map[], 0;
    }

    ghost predicate Valid()
      reads this
    {
      Agree(rows, index) && |rows| <= ROW_LIMIT
    }

    ghost function Contents(): seq<Row>
      reads this
    {
      Rows(rows)
    }

    method Clear()
      modifies this
      ensures Valid() && Contents() == []
    {
      index := map[];
      rows := [];
    }

    /** Where an element stands in the list, if it is still connected. */
    method Position(node: Node) returns (at: nat)
      ensures at <= |rows|
      ensures at < |rows| ==> rows[at] == node
      ensures at == |rows| ==> node !in rows
    {
      at := 0;
      while at < |rows| && rows[at] != node
        invariant at <= |rows|
        invariant node !in rows[..at]
      {
        at := at + 1;
      }
    }

    /** Replace the row's element in place, or append it. */
    method Place(row: Row)
      requires Agree(rows, index)
      modifies this
      ensures Agree(rows, index) && Contents() == Upsert(old(Contents()), row)
    {
      var node := Node(nextSerial, row);
      nextSerial := nextSerial + 1;
      var at := |rows|;
      if row.id in index {
        at := Position(index[row.id]);
      }
      IndexedPosition(rows, index, row.id, at);
      PlaceAgrees(rows, index, node, at);
      rows := if at < |rows| then rows[at := node] else rows + [node];
      index := index[row.id := node];
    }

    /** Drop the oldest element and the index entry that tracks it. */
    method EvictOldest()
      requires Agree(rows, index) && |rows| > 0
      modifies this
      ensures Agree(rows, index) && Contents() == old(Contents())[1..]
    {
      EvictAgrees(rows, index);
      var oldest := rows[0];
      index := index - (set id | id in index && index[id] == oldest);
      rows := rows[1..];
    }

    method ApplyEvent(event: Event)
      requires Valid()
      modifies this
      ensures Valid()
      ensures Contents() == match event
                            case RowEvent(row) => DropOldest(Upsert(old(Contents()), row), ROW_LIMIT)
                            case Unusable => old(Contents())
                            case Reset => []
    {
      match event {
        case Unusable =>
        case Reset => Clear();
        case RowEvent(row) =>
          Place(row);
          ghost var placed := Contents();
          while |rows| > ROW_LIMIT
            invariant Agree(rows, index) && |rows| <= |placed| && (|placed| >= ROW_LIMIT ==> |rows| >= ROW_LIMIT)
            invariant |placed| < ROW_LIMIT ==> |rows| == |placed|
            invariant Contents() == placed[|placed| - |rows|..]
          {
            EvictOldest();
          }
      }
    }
  }

  /** A whole run of the panel: it shows what the simple model shows. */
  method Replay(events: seq<Event>) returns (panel: Panel)
    ensures fresh(panel) && panel.Valid() && panel.Contents() == Shown(events)
  {
    panel := new Panel();
    for i := 0 to |events|
      invariant fresh(panel) && panel.Valid() && panel.Contents() == Shown(events[..i])
    {
      assert events[..i + 1][..i] == events[..i];
      panel.ApplyEvent(events[i]);
    }
    assert events[..|events|] == events;
  }
}
