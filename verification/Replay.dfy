/** What at-least-once delivery can and cannot change: order across todos, redelivery, closed form of a row, offsets. */
module Replay {
  import opened Options
  import opened Projection

  // ---------- order across todos does not matter ----------

  /** Deliveries with one event id carry one event. */
  ghost predicate ConsistentIDs(ds: seq<Delivery>) {
    forall c, d :: c in ds && d in ds && c.event.eventID == d.event.eventID ==> c.event == d.event
  }

  ghost predicate SameOrderPerTodo(a: seq<Delivery>, b: seq<Delivery>) {
    forall todoID :: OfTodo(a, todoID) == OfTodo(b, todoID)
  }

  lemma SameCommitted(a: seq<Delivery>, b: seq<Delivery>, d: Delivery)
    requires SameOrderPerTodo(a, b)
    ensures Committed(a, d) <==> Committed(b, d)
  {
    var id := d.event.todoID;
    assert d in OfTodo(a, id) <==> Committed(a, d);
    assert d in OfTodo(b, id) <==> Committed(b, d);
  }

  /** Two delivery sequences with the same deliveries in the same order per todo end in the same tables,
      however the todos are interleaved. */
  lemma OrderAcrossTodosIsFree(t: Tables, a: seq<Delivery>, b: seq<Delivery>)
    requires SameOrderPerTodo(a, b) && ConsistentIDs(a)
    ensures DeliverAll(t, a) == DeliverAll(t, b)
  {
    var ta, tb := DeliverAll(t, a), DeliverAll(t, b);
    forall d ensures Committed(a, d) <==> Committed(b, d) {
      SameCommitted(a, b, d);
    }
    forall id ensures Lookup(ta.todos, id) == Lookup(tb.todos, id) {
      RowDependsOnOwnEvents(t, a, id);
      RowDependsOnOwnEvents(t, b, id);
      assert OfTodo(a, id) == OfTodo(b, id);
    }
    SameMap(ta.todos, tb.todos);
    forall id ensures Lookup(ta.log, id) == Lookup(tb.log, id) {
      SameLogEntry(t, a, b, id);
    }
    SameMap(ta.log, tb.log);
    forall g ensures Lookup(ta.offsets, g) == Lookup(tb.offsets, g) {
      SameOffset(t, a, b, g);
    }
    SameMap(ta.offsets, tb.offsets);
  }

  lemma SameMap<V>(m: map<string, V>, n: map<string, V>)
    requires forall key :: Lookup(m, key) == Lookup(n, key)
    ensures m == n
  {
    forall key ensures key in m <==> key in n {
      assert Lookup(m, key) == Lookup(n, key);
    }
    forall key | key in m ensures m[key] == n[key] {
      assert Lookup(m, key) == Lookup(n, key);
    }
  }

  lemma SameLogEntry(t: Tables, a: seq<Delivery>, b: seq<Delivery>, id: string)
    requires forall d :: Committed(a, d) <==> Committed(b, d)
    requires ConsistentIDs(a)
    ensures Lookup(DeliverAll(t, a).log, id) == Lookup(DeliverAll(t, b).log, id)
  {
    LogAfter(t, a, id);
    LogAfter(t, b, id);
    var la, lb := DeliverAll(t, a).log, DeliverAll(t, b).log;
    if id in la && id !in t.log {
      var c :| Committed(a, c) && c.event == la[id] && c.event.eventID == id;
      assert Committed(b, c);
      var d :| Committed(b, d) && d.event == lb[id] && d.event.eventID == id;
      assert Committed(a, d);
    }
  }

  lemma SameOffset(t: Tables, a: seq<Delivery>, b: seq<Delivery>, g: string)
    requires forall d :: Committed(a, d) <==> Committed(b, d)
    ensures Lookup(DeliverAll(t, a).offsets, g) == Lookup(DeliverAll(t, b).offsets, g)
  {
    OffsetIsMaximum(t, a, g);
    OffsetIsMaximum(t, b, g);
  }

  // ---------- the closed form of a row ----------

  /** The first index from `from` on whose event has this kind, or |ds|. */
  function First(ds: seq<Delivery>, kind: EventType, from: nat): (i: nat)
    requires from <= |ds|
    ensures from <= i <= |ds|
    ensures i < |ds| ==> ds[i].event.eventType == kind
    ensures forall j :: from <= j < i ==> ds[j].event.eventType != kind
    decreases |ds| - from
  {
    if from == |ds| || ds[from].event.eventType == kind then from else First(ds, kind, from + 1)
  }

  /** The last update, if any. */
  function LastUpdate(ds: seq<Delivery>): (r: Option<Event>)
    ensures r.None? ==> forall j :: 0 <= j < |ds| ==> !ds[j].event.eventType.Updated?
    ensures r.Some? ==> exists i :: 0 <= i < |ds| && ds[i].event == r.value && r.value.eventType.Updated?
                          && forall j :: i < j < |ds| ==> !ds[j].event.eventType.Updated?
  {
    if ds == [] then None
    else if ds[|ds| - 1].event.eventType.Updated? then Some(ds[|ds| - 1].event)
    else LastUpdate(ds[..|ds| - 1])
  }

  function Stamped(row: Row, u: Option<Event>): Row {
    if u.Some? then Retitled(row, u.value) else row
  }

  /** The row after any deliveries: made by the first create, titled by the last update before the first later delete,
      deleted by that delete. */
  function ClosedForm(ds: seq<Delivery>): Option<Row> {
    var k := First(ds, Created, 0);
    if k == |ds| then None
    else
      var d := First(ds, Deleted, k + 1);
      var row := Stamped(NewRow(ds[k].event), LastUpdate(ds[k + 1..d]));
      Some(if d < |ds| then Removed(row, ds[d].event) else row)
  }

  ghost predicate NoDelete(ds: seq<Delivery>) {
    forall i :: 0 <= i < |ds| ==> !ds[i].event.eventType.Deleted?
  }

  lemma {:induction false} NothingBeforeCreate(ds: seq<Delivery>)
    requires forall i :: 0 <= i < |ds| ==> !ds[i].event.eventType.Created?
    ensures RowAfter(None, ds) == None
  {
    if ds != [] {
      NothingBeforeCreate(ds[..|ds| - 1]);
    }
  }

  lemma {:induction false} LiveRow(row: Row, ds: seq<Delivery>)
    requires row.deletedAt.None? && NoDelete(ds)
    ensures RowAfter(Some(row), ds) == Some(Stamped(row, LastUpdate(ds)))
  {
    if ds != [] {
      LiveRow(row, ds[..|ds| - 1]);
    }
  }

  /** After deletion the row is frozen. */
  lemma {:induction false} DeletedRowIsFrozen(row: Row, ds: seq<Delivery>)
    requires row.deletedAt.Some?
    ensures RowAfter(Some(row), ds) == Some(row)
  {
    if ds != [] {
      DeletedRowIsFrozen(row, ds[..|ds| - 1]);
    }
  }

  lemma OneDelivery(row: Option<Row>, d: Delivery)
    ensures RowAfter(row, [d]) == RowStep(row, d.event)
  {
    assert [d][..0] == [];
  }

  lemma FromDelete(row: Row, ds: seq<Delivery>)
    requires row.deletedAt.None? && ds != [] && ds[0].event.eventType.Deleted?
    ensures RowAfter(Some(row), ds) == Some(Removed(row, ds[0].event))
  {
    assert ds == [ds[0]] + ds[1..];
    RowAfterConcat(Some(row), [ds[0]], ds[1..]);
    OneDelivery(Some(row), ds[0]);
    DeletedRowIsFrozen(Removed(row, ds[0].event), ds[1..]);
  }

  /** A create, updates, then perhaps a delete and whatever follows it. */
  lemma Lifetime(create: Delivery, updates: seq<Delivery>, rest: seq<Delivery>)
    requires create.event.eventType.Created? && NoDelete(updates)
    requires rest != [] ==> rest[0].event.eventType.Deleted?
    ensures var row := Stamped(NewRow(create.event), LastUpdate(updates));
            RowAfter(None, [create] + updates + rest) == Some(if rest == [] then row else Removed(row, rest[0].event))
  {
    RowAfterConcat(None, [create] + updates, rest);
    RowAfterConcat(None, [create], updates);
    OneDelivery(None, create);
    LiveRow(NewRow(create.event), updates);
    if rest != [] {
      FromDelete(Stamped(NewRow(create.event), LastUpdate(updates)), rest);
    }
  }

  lemma CutAt<T>(s: seq<T>, k: nat, d: nat)
    requires k < d <= |s|
    ensures s == s[..k] + ([s[k]] + s[k + 1..d] + s[d..])
  {
  }

  /** No delete lies between the create and the first delete after it. */
  lemma UpdatesHoldNoDelete(ds: seq<Delivery>, k: nat)
    requires k < |ds|
    ensures NoDelete(ds[k + 1..First(ds, Deleted, k + 1)])
  {
  }

  lemma FromCreate(ds: seq<Delivery>, k: nat)
    requires k < |ds| && ds[k].event.eventType.Created?
    ensures var d := First(ds, Deleted, k + 1);
            RowAfter(None, [ds[k]] + ds[k + 1..d] + ds[d..])
            == Some(var row := Stamped(NewRow(ds[k].event), LastUpdate(ds[k + 1..d]));
                    if d < |ds| then Removed(row, ds[d].event) else row)
  {
    var d := First(ds, Deleted, k + 1);
    UpdatesHoldNoDelete(ds, k);
    Lifetime(ds[k], ds[k + 1..d], ds[d..]);
  }

  lemma RowClosedForm(ds: seq<Delivery>)
    ensures RowAfter(None, ds) == ClosedForm(ds)
  {
    var k := First(ds, Created, 0);
    NothingBeforeCreate(ds[..k]);
    if k == |ds| {
      assert ds[..k] == ds;
    } else {
      var d := First(ds, Deleted, k + 1);
      FromCreate(ds, k);
      CutAt(ds, k, d);
      RowAfterConcat(None, ds[..k], [ds[k]] + ds[k + 1..d] + ds[d..]);
    }
  }

  /** The row of any todo after any deliveries, interleaved with any others. */
  lemma TodoRowClosedForm(ds: seq<Delivery>, todoID: string)
    ensures Lookup(DeliverAll(EMPTY, ds).todos, todoID) == ClosedForm(OfTodo(ds, todoID))
  {
    RowDependsOnOwnEvents(EMPTY, ds, todoID);
    RowClosedForm(OfTodo(ds, todoID));
  }

  /** What each column says about the create, the last update before the first later delete, and that delete: who made
      the row, what it is titled, who last touched it, and when. */
  predicate RowTells(row: Row, create: Event, update: Option<Event>, delete: Option<Event>) {
    var last := if delete.Some? then delete.value else if update.Some? then update.value else create;
    && row.groupID == create.groupID
    && row.createdBy == create.actorUserID
    && row.createdByName == create.actorName
    && row.createdAt == create.occurredAt
    && row.title == (if update.Some? then update.value.title else create.title)
    && row.updatedBy == last.actorUserID
    && row.updatedByName == last.actorName
    && row.updatedAt == last.occurredAt
    && row.deletedAt == (if delete.Some? then Some(delete.value.occurredAt) else None)
  }

  lemma ColumnsTell(create: Event, update: Option<Event>, delete: Option<Event>)
    ensures var row := Stamped(NewRow(create), update);
            RowTells(if delete.Some? then Removed(row, delete.value) else row, create, update, delete)
  {
  }

  function EventAt(own: seq<Delivery>, i: nat): Option<Event> {
    if i < |own| then Some(own[i].event) else None
  }

  lemma ClosedFormFields(own: seq<Delivery>)
    ensures var k := First(own, Created, 0);
            if k == |own| then ClosedForm(own).None?
            else
              var d := First(own, Deleted, k + 1);
              && ClosedForm(own).Some?
              && RowTells(ClosedForm(own).value, own[k].event, LastUpdate(own[k + 1..d]), EventAt(own, d))
  {
    var k := First(own, Created, 0);
    if k < |own| {
      var d := First(own, Deleted, k + 1);
      ColumnsTell(own[k].event, LastUpdate(own[k + 1..d]), EventAt(own, d));
    }
  }

  /** The same, column by column: `k` is where the todo's first create is, `d` where the first delete after it is, and a
      row exists exactly when there is such a create. */
  lemma TodoRowFields(ds: seq<Delivery>, todoID: string)
    ensures var own, row := OfTodo(ds, todoID), Lookup(DeliverAll(EMPTY, ds).todos, todoID);
            var k := First(own, Created, 0);
            if k == |own| then row.None? && forall i :: 0 <= i < |own| ==> !own[i].event.eventType.Created?
            else
              var d := First(own, Deleted, k + 1);
              row.Some? && RowTells(row.value, own[k].event, LastUpdate(own[k + 1..d]), EventAt(own, d))
  {
    TodoRowClosedForm(ds, todoID);
    ClosedFormFields(OfTodo(ds, todoID));
  }

  /** Once a row is deleted no later delivery changes it, shows it or lists it again. */
  lemma DeletedStaysInvisible(t: Tables, ds: seq<Delivery>, todoID: string)
    requires todoID in t.todos && t.todos[todoID].deletedAt.Some?
    ensures var todos := DeliverAll(t, ds).todos;
            && todoID in todos && todos[todoID] == t.todos[todoID] && Visible(todos, todoID).None?
            && forall g, limit, ids :: IsListing(todos, g, limit, ids) ==> todoID !in ids
  {
    RowDependsOnOwnEvents(t, ds, todoID);
    DeletedRowIsFrozen(t.todos[todoID], OfTodo(ds, todoID));
  }

  /** The deliveries make a row of this group that no delivery has deleted. */
  predicate LiveIn(ds: seq<Delivery>, groupID: string, id: string) {
    var row := ClosedForm(OfTodo(ds, id));
    row.Some? && row.value.deletedAt.None? && row.value.groupID == groupID
  }

  /** What a listing shows after any deliveries, todo by todo. */
  lemma ListingShowsLiveTodos(ds: seq<Delivery>, groupID: string, id: string)
    ensures Listable(DeliverAll(EMPTY, ds).todos, groupID, id) <==> LiveIn(ds, groupID, id)
  {
    TodoRowClosedForm(ds, id);
  }

  /** What a lookup by id finds after any deliveries: the closed form of the todo's own deliveries, unless deleted. */
  lemma LookupFindsLiveTodo(ds: seq<Delivery>, id: string)
    ensures var row := ClosedForm(OfTodo(ds, id));
            Visible(DeliverAll(EMPTY, ds).todos, id)
            == if row.Some? && row.value.deletedAt.None? then row else None
  {
    TodoRowClosedForm(ds, id);
  }

  // ---------- redelivery ----------

  /** Each todo's first supported delivery is its create. */
  ghost predicate CreateFirst(ds: seq<Delivery>) {
    forall todoID :: OfTodo(ds, todoID) != [] ==> OfTodo(ds, todoID)[0].event.eventType.Created?
  }

  lemma {:induction false} LastUpdateOfSuffix(ds: seq<Delivery>, k: nat)
    requires k <= |ds|
    ensures LastUpdate(ds[k..]).Some? ==> LastUpdate(ds[k..]) == LastUpdate(ds)
  {
    if k < |ds| {
      assert ds[k..][..|ds| - k - 1] == ds[..|ds| - 1][k..];
      LastUpdateOfSuffix(ds[..|ds| - 1], k);
    }
  }

  lemma {:induction false} SkipCreate(ds: seq<Delivery>)
    requires ds != [] && !ds[0].event.eventType.Updated?
    ensures LastUpdate(ds[1..]) == LastUpdate(ds)
  {
    if |ds| > 1 {
      assert ds[1..][..|ds| - 2] == ds[..|ds| - 1][1..];
      SkipCreate(ds[..|ds| - 1]);
    }
  }

  /** While no delete has been delivered the row carries the last update's stamp. */
  lemma LiveClosedForm(ds: seq<Delivery>)
    requires ds != [] && ds[0].event.eventType.Created?
    ensures ClosedForm(ds).Some?
    ensures NoDelete(ds) <==> ClosedForm(ds).value.deletedAt.None?
    ensures NoDelete(ds) ==> ClosedForm(ds).value == Stamped(NewRow(ds[0].event), LastUpdate(ds))
  {
    assert First(ds, Created, 0) == 0;
    if First(ds, Deleted, 1) == |ds| {
      assert ds[1..|ds|] == ds[1..];
      SkipCreate(ds);
    }
  }

  /** The row already carries what this update would write. */
  predicate SameStamp(row: Row, u: Event) {
    row.title == u.title && row.updatedBy == u.actorUserID && row.updatedByName == u.actorName
    && row.updatedAt == u.occurredAt
  }

  /** Deliveries again leave a live row when no delete is among them and the last update among them, if there is one,
      is stamped on the row already. Any other row is left by all of them. */
  ghost predicate LeavesRow(row: Option<Row>, again: seq<Delivery>) {
    row.Some? && row.value.deletedAt.None? ==>
      NoDelete(again) && (LastUpdate(again).Some? ==> SameStamp(row.value, LastUpdate(again).value))
  }

  lemma {:induction false} DeleteIsFinal(row: Row, again: seq<Delivery>)
    requires !NoDelete(again)
    ensures RowAfter(Some(row), again).Some? && RowAfter(Some(row), again).value.deletedAt.Some?
  {
    var n := |again| - 1;
    if NoDelete(again[..n]) {
      assert again[n].event.eventType.Deleted?;
      RowStaysSome(row, again[..n]);
    } else {
      DeleteIsFinal(row, again[..n]);
    }
  }

  lemma {:induction false} RowStaysSome(row: Row, again: seq<Delivery>)
    ensures RowAfter(Some(row), again).Some?
  {
    if again != [] {
      RowStaysSome(row, again[..|again| - 1]);
    }
  }

  lemma RowAgain(row: Option<Row>, again: seq<Delivery>)
    requires row.None? ==> forall i :: 0 <= i < |again| ==> !again[i].event.eventType.Created?
    ensures RowAfter(row, again) == row <==> LeavesRow(row, again)
  {
    if row.None? {
      NothingBeforeCreate(again);
    } else if row.value.deletedAt.Some? {
      DeletedRowIsFrozen(row.value, again);
    } else if NoDelete(again) {
      LiveRow(row.value, again);
    } else {
      DeleteIsFinal(row.value, again);
    }
  }

  lemma NoRowNoCreate(ds: seq<Delivery>, again: seq<Delivery>, id: string)
    requires forall d :: d in again ==> d in ds
    requires ClosedForm(OfTodo(ds, id)).None?
    ensures forall i :: 0 <= i < |OfTodo(again, id)| ==> !OfTodo(again, id)[i].event.eventType.Created?
  {
    forall i | 0 <= i < |OfTodo(again, id)| ensures !OfTodo(again, id)[i].event.eventType.Created? {
      assert OfTodo(again, id)[i] in OfTodo(ds, id);
    }
  }

  lemma RowsAgain(ds: seq<Delivery>, again: seq<Delivery>, id: string)
    requires forall d :: d in again ==> d in ds
    ensures Lookup(DeliverAll(DeliverAll(EMPTY, ds), again).todos, id) == Lookup(DeliverAll(EMPTY, ds).todos, id)
            <==> LeavesRow(ClosedForm(OfTodo(ds, id)), OfTodo(again, id))
  {
    TodoRowClosedForm(ds, id);
    RowDependsOnOwnEvents(DeliverAll(EMPTY, ds), again, id);
    var row := ClosedForm(OfTodo(ds, id));
    if row.None? {
      NoRowNoCreate(ds, again, id);
    }
    RowAgain(row, OfTodo(again, id));
  }

  lemma LogAgain(ds: seq<Delivery>, again: seq<Delivery>, id: string)
    requires forall d :: d in again ==> d in ds
    ensures Lookup(DeliverAll(DeliverAll(EMPTY, ds), again).log, id) == Lookup(DeliverAll(EMPTY, ds).log, id)
  {
    LogAfter(EMPTY, ds, id);
    LogAfter(DeliverAll(EMPTY, ds), again, id);
    assert forall d :: Committed(again, d) ==> Committed(ds, d);
  }

  lemma OffsetAgain(ds: seq<Delivery>, again: seq<Delivery>, g: string)
    requires forall d :: d in again ==> d in ds
    ensures Lookup(DeliverAll(DeliverAll(EMPTY, ds), again).offsets, g) == Lookup(DeliverAll(EMPTY, ds).offsets, g)
  {
    OffsetIsMaximum(EMPTY, ds, g);
    OffsetIsMaximum(DeliverAll(EMPTY, ds), again, g);
    assert forall d :: Committed(again, d) ==> Committed(ds, d);
  }

  ghost predicate Harmless(ds: seq<Delivery>, again: seq<Delivery>) {
    forall id :: LeavesRow(ClosedForm(OfTodo(ds, id)), OfTodo(again, id))
  }

  /** Redelivering any of what was delivered, in any order and number, leaves todos, log and offsets unchanged if and
      only if for each live row no delete is redelivered, and the last update redelivered is stamped on the row
      already. */
  lemma RedeliveryIsHarmlessExactly(ds: seq<Delivery>, again: seq<Delivery>)
    requires forall d :: d in again ==> d in ds
    ensures DeliverAll(EMPTY, ds + again) == DeliverAll(EMPTY, ds) <==> Harmless(ds, again)
  {
    var t := DeliverAll(EMPTY, ds);
    var t' := DeliverAll(t, again);
    DeliverConcat(EMPTY, ds, again);
    forall id
      ensures Lookup(t'.todos, id) == Lookup(t.todos, id) <==> LeavesRow(ClosedForm(OfTodo(ds, id)), OfTodo(again, id))
    {
      RowsAgain(ds, again, id);
    }
    forall id ensures Lookup(t'.log, id) == Lookup(t.log, id) {
      LogAgain(ds, again, id);
    }
    SameMap(t'.log, t.log);
    forall g ensures Lookup(t'.offsets, g) == Lookup(t.offsets, g) {
      OffsetAgain(ds, again, g);
    }
    SameMap(t'.offsets, t.offsets);
    if Harmless(ds, again) {
      forall id ensures Lookup(t'.todos, id) == Lookup(t.todos, id) {
        assert LeavesRow(ClosedForm(OfTodo(ds, id)), OfTodo(again, id));
      }
      SameMap(t'.todos, t.todos);
    }
  }

  /** One todo's part of a suffix is a suffix of its part. */
  lemma OwnSuffix(ds: seq<Delivery>, k: nat, id: string) returns (skipped: nat)
    requires k <= |ds|
    ensures skipped <= |OfTodo(ds, id)| && OfTodo(ds[k..], id) == OfTodo(ds, id)[skipped..]
  {
    assert ds == ds[..k] + ds[k..];
    OfTodoConcat(ds[..k], ds[k..], id);
    skipped := |OfTodo(ds[..k], id)|;
  }

  lemma SuffixLeavesRow(own: seq<Delivery>, skipped: nat)
    requires skipped <= |own|
    requires own != [] ==> own[0].event.eventType.Created?
    ensures LeavesRow(ClosedForm(own), own[skipped..])
  {
    if own != [] {
      LiveClosedForm(own);
      LastUpdateOfSuffix(own, skipped);
    }
  }

  /** Redelivering any suffix of what was delivered, the whole included, leaves todos, log and offsets unchanged. */
  lemma RedeliveryIsIdempotent(ds: seq<Delivery>, k: nat)
    requires CreateFirst(ds) && k <= |ds|
    ensures DeliverAll(EMPTY, ds + ds[k..]) == DeliverAll(EMPTY, ds)
  {
    forall id ensures LeavesRow(ClosedForm(OfTodo(ds, id)), OfTodo(ds[k..], id)) {
      var skipped := OwnSuffix(ds, k, id);
      SuffixLeavesRow(OfTodo(ds, id), skipped);
    }
    RedeliveryIsHarmlessExactly(ds, ds[k..]);
  }

  /** Of one todo's deliveries, its create first: the row is live, and the update stamped on it is not this event's. */
  ghost predicate Outdated(own: seq<Delivery>, e: Event) {
    && e.eventType.Updated? && NoDelete(own)
    && !(LastUpdate(own).Some? && SameUpdate(LastUpdate(own).value, e))
  }

  predicate SameUpdate(u: Event, v: Event) {
    u.title == v.title && u.actorUserID == v.actorUserID && u.actorName == v.actorName && u.occurredAt == v.occurredAt
  }

  lemma OneOfTodo(d: Delivery, id: string)
    ensures OfTodo([d], id) == if d.event.todoID == id && Supported(d.event) then [d] else []
  {
    assert [d][..0] == [];
    assert OfTodo([d], id) == OfTodo([d][..0], id) + (if d.event.todoID == id && Supported(d.event) then [d] else []);
  }

  lemma OneLeavesRow(own: seq<Delivery>, d: Delivery)
    requires own != [] && own[0].event.eventType.Created? && d in own
    ensures LeavesRow(ClosedForm(own), [d]) <==> !Outdated(own, d.event)
  {
    LiveClosedForm(own);
    assert [d][..0] == [];
    assert LastUpdate([d]) == if d.event.eventType.Updated? then Some(d.event) else LastUpdate([d][..0]);
    assert NoDelete([d]) <==> !d.event.eventType.Deleted? by {
      assert [d][0] == d;
    }
  }

  lemma NoneOfOther(row: Option<Row>, d: Delivery, id: string)
    ensures id != d.event.todoID ==> LeavesRow(row, OfTodo([d], id))
  {
    OneOfTodo(d, id);
  }

  /** With each todo's create first, redelivering one event changes something if and only if it is an update of a todo
      not deleted, and what it would write is not what the todo's last update wrote. */
  lemma OneRedeliveryIsHarmlessExactly(ds: seq<Delivery>, d: Delivery)
    requires CreateFirst(ds) && d in ds && Supported(d.event)
    ensures DeliverAll(EMPTY, ds + [d]) == DeliverAll(EMPTY, ds) <==> !Outdated(OfTodo(ds, d.event.todoID), d.event)
  {
    assert d in OfTodo(ds, d.event.todoID);
    OneLeavesRow(OfTodo(ds, d.event.todoID), d);
    HarmlessOne(ds, d);
    RedeliveryIsHarmlessExactly(ds, [d]);
  }

  lemma HarmlessOne(ds: seq<Delivery>, d: Delivery)
    requires Supported(d.event)
    ensures Harmless(ds, [d]) <==> LeavesRow(ClosedForm(OfTodo(ds, d.event.todoID)), [d])
  {
    forall id ensures id != d.event.todoID ==> LeavesRow(ClosedForm(OfTodo(ds, id)), OfTodo([d], id)) {
      NoneOfOther(ClosedForm(OfTodo(ds, id)), d, id);
    }
    OneOfTodo(d, d.event.todoID);
  }

  lemma DeliverThree(c: Delivery, u: Delivery, v: Delivery)
    ensures DeliverAll(EMPTY, [c, u, v]) == Deliver(Deliver(Deliver(EMPTY, c), u), v)
  {
    assert [c, u, v][..2] == [c, u] && [c, u][..1] == [c] && [c][..0] == [];
    assert DeliverAll(EMPTY, [c]) == Deliver(EMPTY, c);
    assert DeliverAll(EMPTY, [c, u]) == Deliver(Deliver(EMPTY, c), u);
  }

  /** The order matters within one todo: an update redelivered alone after a newer one brings the old title back. */
  lemma StaleUpdateOverwrites() returns (ds: seq<Delivery>, stale: Delivery)
    ensures stale in ds
    ensures Lookup(DeliverAll(EMPTY, ds).todos, "t").Some? && DeliverAll(EMPTY, ds).todos["t"].title == "new"
    ensures Lookup(DeliverAll(EMPTY, ds + [stale]).todos, "t").Some?
    ensures DeliverAll(EMPTY, ds + [stale]).todos["t"].title == "old"
  {
    var e := Event("e1", "c1", "t", "g", "u", "n", Created, "first", 0, 0);
    var create := Delivery(e, 1);
    stale := Delivery(e.(eventID := "e2", eventType := Updated, title := "old"), 2);
    var newer := Delivery(e.(eventID := "e3", eventType := Updated, title := "new"), 3);
    ds := [create, stale, newer];
    assert e.eventType.Created? && stale.event.eventType.Updated? && newer.event.eventType.Updated?;
    DeliverThree(create, stale, newer);
    assert (ds + [stale])[..3] == ds;
    assert DeliverAll(EMPTY, ds + [stale]) == Deliver(DeliverAll(EMPTY, ds), stale);
  }
}
