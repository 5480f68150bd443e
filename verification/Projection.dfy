/** The data-sink's projection: the event log, the todo rows and the per-group offsets, changed together by
    InsertEvent. */
module Projection {
  import opened Options

  type uint64 = n: nat | n < 0x1_0000_0000_0000_0000

  /** The event types the sink's switch names; any other text takes the default branch. */
  datatype EventType = Created | Updated | Deleted | Other(name: string)

  datatype Event = Event(
    eventID: string, commandID: string, todoID: string, groupID: string,
    actorUserID: string, actorName: string, eventType: EventType, title: string,
    occurredAt: int, shardID: int)

  predicate Supported(e: Event) { !e.eventType.Other? }

  datatype Row = Row(
    groupID: string, title: string,
    createdBy: string, createdByName: string, updatedBy: string, updatedByName: string,
    createdAt: int, updatedAt: int, deletedAt: Option<int>)

  datatype Tables = Tables(todos: map<string, Row>, log: map<string, Event>, offsets: map<string, int>)

  const EMPTY := Tables(map[], map[], map[])

  // ---------- the SQL effects ----------

  function NewRow(e: Event): Row {
    Row(e.groupID, e.title, e.actorUserID, e.actorName, e.actorUserID, e.actorName, e.occurredAt, e.occurredAt, None)
  }

  function Retitled(row: Row, e: Event): Row {
    row.(title := e.title, updatedBy := e.actorUserID, updatedByName := e.actorName, updatedAt := e.occurredAt)
  }

  function Removed(row: Row, e: Event): Row {
    row.(updatedBy := e.actorUserID, updatedByName := e.actorName, updatedAt := e.occurredAt,
         deletedAt := Some(e.occurredAt))
  }

  /** One event's effect on its todo's row: first create wins, update and delete only while not deleted. */
  function RowStep(row: Option<Row>, e: Event): Option<Row> {
    match e.eventType
    case Created => if row.Some? then row else Some(NewRow(e))
    case Updated => if row.Some? && row.value.deletedAt.None? then Some(Retitled(row.value, e)) else row
    case Deleted => if row.Some? && row.value.deletedAt.None? then Some(Removed(row.value, e)) else row
    case Other(_) => row
  }

  function PutRow(todos: map<string, Row>, e: Event): map<string, Row> {
    var row := RowStep(Lookup(todos, e.todoID), e);
    if row.Some? then todos[e.todoID := row.value] else todos
  }

  function LogEvent(log: map<string, Event>, e: Event): map<string, Event> {
    if e.eventID in log then log else log[e.eventID := e]
  }

  /** The Go conversion int64(eventSeq). */
  function ToInt64(n: uint64): (r: int)
    ensures -0x8000_0000_0000_0000 <= r < 0x8000_0000_0000_0000
    ensures r == n || r == n - 0x1_0000_0000_0000_0000
  {
    if n < 0x8000_0000_0000_0000 then n else n - 0x1_0000_0000_0000_0000
  }

  function RaiseOffset(offsets: map<string, int>, groupID: string, seqNo: uint64): map<string, int> {
    var n := ToInt64(seqNo);
    offsets[groupID := if groupID in offsets && offsets[groupID] > n then offsets[groupID] else n]
  }

  datatype InsertError = UnsupportedEventType | DatabaseError

  /** One InsertEvent transaction when the database itself does not fail. */
  function Insert(t: Tables, e: Event, seqNo: uint64): Result<Tables, InsertError> {
    if Supported(e)
    then Ok(Tables(PutRow(t.todos, e), LogEvent(t.log, e), RaiseOffset(t.offsets, e.groupID, seqNo)))
    else Err(UnsupportedEventType)
  }

  /** The tables as the repositories see them: the data-sink's writes, and the query package's reads. A transaction
      works on copies until it commits. */
  class EventRepository {
    var todos: map<string, Row>
    var log: map<string, Event>
    var offsets: map<string, int>

    function State(): Tables
      reads this
    {
      Tables(todos, log, offsets)
    }

    constructor ()
      ensures State() == EMPTY
    {
      todos, log, offsets := map[], map[], map[];
    }

    /** `failure` says that the database refused some statement or the commit: nothing is then stored. */
    method InsertEvent(e: Event, seqNo: uint64, failure: bool) returns (r: Result<(), InsertError>)
      modifies this
      ensures r.Ok? <==> Supported(e) && !failure
      ensures r.Ok? ==> Insert(old(State()), e, seqNo) == Ok(State())
      ensures r.Err? ==> State() == old(State())
      ensures r.Err? && !failure ==> r.error == UnsupportedEventType
      ensures e.eventType.Other? ==> r.Err?
      ensures !e.eventType.Other? && !failure ==> r.Ok?
      ensures r.Ok? ==> e.eventID in log && (e.eventID !in old(log) ==> log[e.eventID] == e)
      ensures r.Ok? ==> forall id :: id in old(log) ==> id in log && log[id] == old(log)[id]
      ensures r.Ok? ==> e.groupID in offsets && offsets[e.groupID] >= ToInt64(seqNo)
      ensures r.Ok? ==> forall id :: id != e.todoID ==> Lookup(todos, id) == Lookup(old(todos), id)
    {
      var txLog := if e.eventID in log then log else log[e.eventID := e];
      var txTodos := todos;
      match e.eventType {
        case Created =>
          if e.todoID !in txTodos {
            txTodos := txTodos[e.todoID := NewRow(e)];
          }
        case Updated =>
          if e.todoID in txTodos && txTodos[e.todoID].deletedAt.None? {
            txTodos := txTodos[e.todoID := Retitled(txTodos[e.todoID], e)];
          }
        case Deleted =>
          if e.todoID in txTodos && txTodos[e.todoID].deletedAt.None? {
            txTodos := txTodos[e.todoID := Removed(txTodos[e.todoID], e)];
          }
        case Other(_) =>
          return Err(UnsupportedEventType);
      }
      var last := ToInt64(seqNo);
      if e.groupID in offsets && offsets[e.groupID] > last {
        last := offsets[e.groupID];
      }
      if failure {
        return Err(DatabaseError);
      }
      assert PutRow(todos, e) == txTodos;
      log, todos, offsets := txLog, txTodos, offsets[e.groupID := last];
      return Ok(());
    }

    /** GetTodoByID: missing and deleted rows alike are not found. */
    method GetTodoByID(todoID: string) returns (r: Option<Row>)
      ensures r == Visible(todos, todoID)
    {
      if todoID !in todos {
        return None;
      }
      if todos[todoID].deletedAt.Some? {
        return None;
      }
      return Some(todos[todoID]);
    }

    /** ListGroupTodos: the query's rows, newest first, appended one by one. */
    method ListGroupTodos(groupID: string, limit: int) returns (ids: seq<string>)
      ensures IsListing(todos, groupID, ListLimit(limit), ids)
      ensures forall id :: id in ids ==> id in todos && todos[id].groupID == groupID && todos[id].deletedAt.None?
      ensures forall i, j :: 0 <= i < j < |ids| ==>
                NoOlder(todos, ids[i], ids[j]) && todos[ids[i]].createdAt >= todos[ids[j]].createdAt
      ensures |ids| <= if 1 <= limit <= 200 then limit else 50
      ensures forall id :: id in todos && todos[id].groupID == groupID && todos[id].deletedAt.None? && id !in ids ==>
                |ids| == if 1 <= limit <= 200 then limit else 50
    {
      var most := ListLimit(limit);
      var left := set id | id in todos && Listable(todos, groupID, id);
      ids := [];
      while left != {} && |ids| < most
        invariant |ids| <= most
        invariant forall id :: id in ids || id in left <==> Listable(todos, groupID, id)
        invariant forall i, j :: 0 <= i < j < |ids| ==> ids[i] != ids[j] && NoOlder(todos, ids[i], ids[j])
        invariant forall i, id | 0 <= i < |ids| && id in left :: ids[i] != id && NoOlder(todos, ids[i], id)
        decreases left
      {
        var newest := NewestOf(todos, left);
        ids := ids + [newest];
        left := left - {newest};
      }
    }
  }

  /** Row `a` exists and was made no earlier than row `b`. */
  predicate NoOlder(todos: map<string, Row>, a: string, b: string) {
    a in todos && b in todos && todos[a].createdAt >= todos[b].createdAt
  }

  /** The ORDER BY clause's choice among the rows left. */
  method NewestOf(todos: map<string, Row>, ids: set<string>) returns (newest: string)
    requires ids != {} && forall id :: id in ids ==> id in todos
    ensures newest in ids && forall id :: id in ids ==> NoOlder(todos, newest, id)
  {
    newest :| newest in ids;
    var left := ids - {newest};
    while left != {}
      invariant newest in ids && left <= ids
      invariant forall id :: id in ids ==> id in left || NoOlder(todos, newest, id)
      decreases left
    {
      var id :| id in left;
      if todos[id].createdAt > todos[newest].createdAt {
        newest := id;
      }
      left := left - {id};
    }
  }

  function ListLimit(limit: int): nat {
    if limit <= 0 || limit > 200 then 50 else limit
  }

  predicate Listable(todos: map<string, Row>, groupID: string, id: string) {
    Visible(todos, id).Some? && todos[id].groupID == groupID
  }

  /** The rows of the group that are not deleted, each once, newest first; one is missing only when `limit` rows are
      listed, none of them older. */
  ghost predicate IsListing(todos: map<string, Row>, groupID: string, limit: nat, ids: seq<string>) {
    && |ids| <= limit
    && (forall id :: id in ids ==> Listable(todos, groupID, id))
    && (forall i, j :: 0 <= i < j < |ids| ==> ids[i] != ids[j] && NoOlder(todos, ids[i], ids[j]))
    && (forall id :: Listable(todos, groupID, id) && id !in ids ==>
          |ids| == limit && forall i :: 0 <= i < |ids| ==> NoOlder(todos, ids[i], id))
  }

  function Visible(todos: map<string, Row>, todoID: string): Option<Row> {
    if todoID in todos && todos[todoID].deletedAt.None? then Some(todos[todoID]) else None
  }

  /** GetGroupProjectionOffset: a group without an offset row is at 0. */
  function OffsetOf(t: Tables, groupID: string): int {
    if groupID in t.offsets then t.offsets[groupID] else 0
  }

  // ---------- sequences of deliveries ----------

  /** A message handed to the data-sink: the event and its stream sequence. */
  datatype Delivery = Delivery(event: Event, seqNo: uint64)

  /** An unsupported event is rolled back and discarded; a failed one is redelivered later and is not listed. */
  function Deliver(t: Tables, d: Delivery): Tables {
    match Insert(t, d.event, d.seqNo)
    case Ok(t') => t'
    case Err(_) => t
  }

  /** A type the sink does not know changes nothing; the three it knows are committed. */
  lemma UnsupportedChangesNothing(t: Tables, d: Delivery)
    ensures d.event.eventType.Other? ==> Deliver(t, d) == t && Insert(t, d.event, d.seqNo) == Err(UnsupportedEventType)
    ensures !d.event.eventType.Other? ==> Insert(t, d.event, d.seqNo) == Ok(Deliver(t, d))
  {
  }

  function DeliverAll(t: Tables, ds: seq<Delivery>): Tables {
    if ds == [] then t else Deliver(DeliverAll(t, ds[..|ds| - 1]), ds[|ds| - 1])
  }

  lemma {:induction false} DeliverConcat(t: Tables, a: seq<Delivery>, b: seq<Delivery>)
    ensures DeliverAll(t, a + b) == DeliverAll(DeliverAll(t, a), b)
  {
    if b == [] {
      assert a + b == a;
    } else {
      assert (a + b)[..|a + b| - 1] == a + b[..|b| - 1];
      DeliverConcat(t, a, b[..|b| - 1]);
    }
  }

  /** The supported deliveries of one todo, in order. */
  function OfTodo(ds: seq<Delivery>, todoID: string): (r: seq<Delivery>)
    ensures forall d :: d in r <==> d in ds && d.event.todoID == todoID && Supported(d.event)
  {
    if ds == [] then []
    else
      var d := ds[|ds| - 1];
      OfTodo(ds[..|ds| - 1], todoID) + if d.event.todoID == todoID && Supported(d.event) then [d] else []
  }

  lemma {:induction false} OfTodoConcat(a: seq<Delivery>, b: seq<Delivery>, todoID: string)
    ensures OfTodo(a + b, todoID) == OfTodo(a, todoID) + OfTodo(b, todoID)
  {
    if b == [] {
      assert a + b == a;
    } else {
      assert (a + b)[..|a + b| - 1] == a + b[..|b| - 1];
      OfTodoConcat(a, b[..|b| - 1], todoID);
    }
  }

  function RowAfter(row: Option<Row>, ds: seq<Delivery>): Option<Row> {
    if ds == [] then row else RowStep(RowAfter(row, ds[..|ds| - 1]), ds[|ds| - 1].event)
  }

  lemma {:induction false} RowAfterConcat(row: Option<Row>, a: seq<Delivery>, b: seq<Delivery>)
    ensures RowAfter(row, a + b) == RowAfter(RowAfter(row, a), b)
  {
    if b == [] {
      assert a + b == a;
    } else {
      assert (a + b)[..|a + b| - 1] == a + b[..|b| - 1];
      RowAfterConcat(row, a, b[..|b| - 1]);
    }
  }

  lemma DeliverChangesOwnRow(t: Tables, d: Delivery, todoID: string)
    ensures Lookup(Deliver(t, d).todos, todoID) ==
            if d.event.todoID == todoID && Supported(d.event) then RowStep(Lookup(t.todos, todoID), d.event)
            else Lookup(t.todos, todoID)
  {
  }

  /** A todo's row depends only on that todo's own deliveries. */
  lemma {:induction false} RowDependsOnOwnEvents(t: Tables, ds: seq<Delivery>, todoID: string)
    ensures Lookup(DeliverAll(t, ds).todos, todoID) == RowAfter(Lookup(t.todos, todoID), OfTodo(ds, todoID))
  {
    if ds != [] {
      var before, d := ds[..|ds| - 1], ds[|ds| - 1];
      RowDependsOnOwnEvents(t, before, todoID);
      DeliverChangesOwnRow(DeliverAll(t, before), d, todoID);
      var own := OfTodo(before, todoID);
      if d.event.todoID == todoID && Supported(d.event) {
        assert OfTodo(ds, todoID) == own + [d];
        assert (own + [d])[..|own|] == own;
      } else {
        assert OfTodo(ds, todoID) == own;
      }
    }
  }

  ghost predicate Committed(ds: seq<Delivery>, d: Delivery) {
    d in ds && Supported(d.event)
  }

  /** The log keeps every old entry, gains exactly the committed event ids, and each new entry is a committed event. */
  lemma {:induction false} LogAfter(t: Tables, ds: seq<Delivery>, id: string)
    ensures var log := DeliverAll(t, ds).log;
            && (id in log <==> id in t.log || exists d :: Committed(ds, d) && d.event.eventID == id)
            && (id in t.log ==> log[id] == t.log[id])
            && (id in log && id !in t.log ==>
                  exists d :: Committed(ds, d) && d.event == log[id] && d.event.eventID == id)
  {
    if ds != [] {
      var before, last := ds[..|ds| - 1], ds[|ds| - 1];
      assert ds == before + [last];
      LogAfter(t, before, id);
      assert forall d :: Committed(ds, d) <==> Committed(before, d) || (d == last && Supported(d.event));
    }
  }

  /** `v` is the largest of the group's old offset and its committed sequences. */
  ghost predicate IsMaximum(t: Tables, ds: seq<Delivery>, groupID: string, v: int) {
    && (groupID in t.offsets ==> t.offsets[groupID] <= v)
    && (forall d :: Committed(ds, d) && d.event.groupID == groupID ==> ToInt64(d.seqNo) <= v)
    && ((groupID in t.offsets && t.offsets[groupID] == v)
        || exists d :: Committed(ds, d) && d.event.groupID == groupID && ToInt64(d.seqNo) == v)
  }

  /** A group's offset is the maximum of its committed sequences (and of where it started): so it never falls. */
  lemma {:induction false} OffsetIsMaximum(t: Tables, ds: seq<Delivery>, groupID: string)
    ensures var offsets := DeliverAll(t, ds).offsets;
            && (groupID in offsets <==>
                  groupID in t.offsets || exists d :: Committed(ds, d) && d.event.groupID == groupID)
            && (groupID in offsets ==> IsMaximum(t, ds, groupID, offsets[groupID]))
  {
    if ds != [] {
      var before, last := ds[..|ds| - 1], ds[|ds| - 1];
      assert ds == before + [last];
      OffsetIsMaximum(t, before, groupID);
      assert forall d :: Committed(ds, d) <==> Committed(before, d) || (d == last && Supported(d.event));
    }
  }
}
