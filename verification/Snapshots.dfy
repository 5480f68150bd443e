/** Why a snapshot read after waiting for a group's offset shows every event it was scheduled for. */
module Snapshots {
  import opened Options
  import opened Projection
  import opened Polling
  import Replay
  import Text

  /** The event stream: message number i + 1 is stream[i]. Every delivery hands over a message of the stream. */
  ghost predicate FromStream(stream: seq<Event>, ds: seq<Delivery>) {
    forall d :: d in ds ==> 1 <= d.seqNo <= |stream| && stream[d.seqNo - 1] == d.event
  }

  /** Message number n is a supported event of the group. */
  predicate Concerns(stream: seq<Event>, groupID: string, n: nat) {
    1 <= n <= |stream| && stream[n - 1].groupID == groupID && Supported(stream[n - 1])
  }

  ghost predicate CommittedBefore(ds: seq<Delivery>, j: nat, n: nat)
    requires j <= |ds|
  {
    exists i :: 0 <= i < j && ds[i].seqNo == n
  }

  /** A group's supported events commit in stream order. */
  ghost predicate InStreamOrder(stream: seq<Event>, ds: seq<Delivery>, groupID: string) {
    forall j, n: nat ::
      0 <= j < |ds| && Concerns(stream, groupID, ds[j].seqNo) && Concerns(stream, groupID, n) && n < ds[j].seqNo ==>
      CommittedBefore(ds, j, n)
  }

  /** Seeing offset >= target means every supported event of the group up to target is committed. */
  lemma OffsetCovers(stream: seq<Event>, ds: seq<Delivery>, groupID: string, target: nat, n: nat)
    requires |stream| < 0x8000_0000_0000_0000
    requires FromStream(stream, ds) && InStreamOrder(stream, ds, groupID)
    requires OffsetOf(DeliverAll(EMPTY, ds), groupID) >= target
    requires Concerns(stream, groupID, n) && n <= target
    ensures CommittedBefore(ds, |ds|, n)
  {
    OffsetIsMaximum(EMPTY, ds, groupID);
    var d :| Committed(ds, d) && d.event.groupID == groupID
             && ToInt64(d.seqNo) == DeliverAll(EMPTY, ds).offsets[groupID];
    var j :| 0 <= j < |ds| && ds[j] == d;
    assert Concerns(stream, groupID, d.seqNo);
    if n < d.seqNo {
      assert CommittedBefore(ds, j, n);
    }
  }

  /** The offset never falls, and it is the largest committed sequence of the group. */
  lemma OffsetNeverFalls(stream: seq<Event>, ds: seq<Delivery>, more: seq<Delivery>, groupID: string)
    requires |stream| < 0x8000_0000_0000_0000 && FromStream(stream, ds + more)
    ensures OffsetOf(DeliverAll(EMPTY, ds), groupID) <= OffsetOf(DeliverAll(EMPTY, ds + more), groupID)
    ensures var offset := OffsetOf(DeliverAll(EMPTY, ds), groupID);
            && (forall d :: d in ds && Concerns(stream, groupID, d.seqNo) ==> d.seqNo <= offset)
            && (offset != 0 ==> exists d :: d in ds && Concerns(stream, groupID, d.seqNo) && d.seqNo == offset)
  {
    OffsetIsMaximum(EMPTY, ds, groupID);
    DeliverConcat(EMPTY, ds, more);
    OffsetIsMaximum(DeliverAll(EMPTY, ds), more, groupID);
    assert forall d :: d in ds ==> d in ds + more;
    forall d | d in ds && Concerns(stream, groupID, d.seqNo)
      ensures d.seqNo <= OffsetOf(DeliverAll(EMPTY, ds), groupID)
    {
      assert Committed(ds, d);
    }
    if OffsetOf(DeliverAll(EMPTY, ds), groupID) != 0 {
      var d :| Committed(ds, d) && d.event.groupID == groupID
               && ToInt64(d.seqNo) == DeliverAll(EMPTY, ds).offsets[groupID];
      assert Concerns(stream, groupID, d.seqNo);
    }
  }

  function OffsetAt(ds: seq<Delivery>, k: nat, groupID: string): Option<int> {
    if k <= |ds| then Some(OffsetOf(DeliverAll(EMPTY, ds[..k]), groupID)) else None
  }

  /** runSnapshotRefresh after its region: wait for the offset, then list the group's rows. `at(i)` is how much of `ds`
      is committed at poll i; `sink` holds the tables with `readAt` of it committed, when the rows are read. If the wait
      ended because the offset was reached, and the group's events commit in stream order, the tables read hold every
      supported event of the group up to the target.
      Every todo listed is live by the deliveries committed, and a live one is missing only when 50 newer are listed. */
  method RefreshSnapshot(groupID: string, target: nat, ghost stream: seq<Event>, ds: seq<Delivery>,
                         start: int, clock: nat -> int, at: nat -> nat, cancelled: nat -> bool,
                         ghost readAt: nat, sink: EventRepository)
    returns (outcome: Outcome, polls: nat, ids: seq<string>)
    requires start <= clock(0)
    requires forall i: nat {:trigger DelayAt(40 * MS, 320 * MS, i)} ::
               clock(i + 1) >= clock(i) + DelayAt(40 * MS, 320 * MS, i)
    requires readAt <= |ds| && forall i: nat :: at(i) <= readAt
    requires sink.State() == DeliverAll(EMPTY, ds[..readAt])
    requires |stream| < 0x8000_0000_0000_0000 && FromStream(stream, ds)
    ensures InStreamOrder(stream, ds, groupID) && outcome.Reached? ==>
              forall n: nat :: Concerns(stream, groupID, n) && n <= target ==> CommittedBefore(ds, readAt, n)
    ensures IsListing(sink.todos, groupID, 50, ids)
    ensures forall id :: id in ids ==> Replay.LiveIn(ds[..readAt], groupID, id)
    ensures forall id :: Replay.LiveIn(ds[..readAt], groupID, id) && id !in ids ==> |ids| == 50
    ensures polls <= OffsetPolls(2500 * MS)
  {
    var offset := (i: nat) => OffsetAt(ds, at(i), groupID);
    outcome, polls := WaitForProjectionOffset(target, 2500 * MS, start, clock, offset, cancelled);
    ids := sink.ListGroupTodos(groupID, 50);
    forall id ensures Listable(sink.todos, groupID, id) <==> Replay.LiveIn(ds[..readAt], groupID, id) {
      Replay.ListingShowsLiveTodos(ds[..readAt], groupID, id);
    }
    if InStreamOrder(stream, ds, groupID) && outcome.Reached? && target > 0 {
      ReadCovers(stream, ds, at(polls - 1), readAt, groupID, target);
    }
  }

  /** An offset seen before the read covers the read. */
  lemma ReadCovers(stream: seq<Event>, ds: seq<Delivery>, seenAt: nat, readAt: nat, groupID: string, target: nat)
    requires seenAt <= readAt <= |ds| && |stream| < 0x8000_0000_0000_0000
    requires FromStream(stream, ds) && InStreamOrder(stream, ds, groupID)
    requires OffsetOf(DeliverAll(EMPTY, ds[..seenAt]), groupID) >= target
    ensures forall n: nat :: Concerns(stream, groupID, n) && n <= target ==> CommittedBefore(ds, readAt, n)
  {
    PrefixInOrder(stream, ds, seenAt, groupID);
    forall n: nat | Concerns(stream, groupID, n) && n <= target ensures CommittedBefore(ds, readAt, n) {
      OffsetCovers(stream, ds[..seenAt], groupID, target, n);
      var i :| 0 <= i < seenAt && ds[..seenAt][i].seqNo == n;
      assert ds[i].seqNo == n;
    }
  }

  lemma PrefixInOrder(stream: seq<Event>, ds: seq<Delivery>, k: nat, groupID: string)
    requires k <= |ds| && FromStream(stream, ds) && InStreamOrder(stream, ds, groupID)
    ensures FromStream(stream, ds[..k]) && InStreamOrder(stream, ds[..k], groupID)
  {
    forall j, n: nat | 0 <= j < k && Concerns(stream, groupID, ds[j].seqNo) && Concerns(stream, groupID, n)
      && n < ds[j].seqNo
      ensures CommittedBefore(ds[..k], j, n)
    {
      assert CommittedBefore(ds, j, n);
      var i :| 0 <= i < j && ds[i].seqNo == n;
      assert ds[..k][i].seqNo == n;
    }
  }

  /** After k commits, every supported event of the group up to the offset is committed. */
  ghost predicate CoversAt(stream: seq<Event>, ds: seq<Delivery>, groupID: string, k: nat)
    requires k <= |ds|
  {
    forall n: nat :: Concerns(stream, groupID, n) && n <= OffsetOf(DeliverAll(EMPTY, ds[..k]), groupID) ==>
      CommittedBefore(ds, k, n)
  }

  lemma InOrderCovers(stream: seq<Event>, ds: seq<Delivery>, groupID: string, k: nat)
    requires |stream| < 0x8000_0000_0000_0000 && FromStream(stream, ds) && InStreamOrder(stream, ds, groupID)
            && k <= |ds|
    ensures CoversAt(stream, ds, groupID, k)
  {
    forall n: nat | Concerns(stream, groupID, n) && n <= OffsetOf(DeliverAll(EMPTY, ds[..k]), groupID)
      ensures CommittedBefore(ds, k, n)
    {
      ReadCovers(stream, ds, k, k, groupID, n);
    }
  }

  /** A commit that overtakes an event of its group makes the offset pass that event. */
  lemma CoveredIsInOrder(stream: seq<Event>, ds: seq<Delivery>, groupID: string, j: nat, n: nat)
    requires |stream| < 0x8000_0000_0000_0000 && FromStream(stream, ds) && j < |ds|
    requires CoversAt(stream, ds, groupID, j + 1)
    requires Concerns(stream, groupID, ds[j].seqNo) && Concerns(stream, groupID, n) && n < ds[j].seqNo
    ensures CommittedBefore(ds, j, n)
  {
    OffsetIsMaximum(EMPTY, ds[..j + 1], groupID);
    assert ds[..j + 1][j] == ds[j];
    assert Committed(ds[..j + 1], ds[j]);
    assert CommittedBefore(ds, j + 1, n);
    var i :| 0 <= i < j + 1 && ds[i].seqNo == n;
    assert i < j;
  }

  /** The offset never passes an event of its group that is not committed if and only if the group's events commit in
      stream order. */
  lemma CoversExactlyInStreamOrder(stream: seq<Event>, ds: seq<Delivery>, groupID: string)
    requires |stream| < 0x8000_0000_0000_0000 && FromStream(stream, ds)
    ensures InStreamOrder(stream, ds, groupID) <==> forall k: nat :: k <= |ds| ==> CoversAt(stream, ds, groupID, k)
  {
    if InStreamOrder(stream, ds, groupID) {
      forall k: nat | k <= |ds| ensures CoversAt(stream, ds, groupID, k) {
        InOrderCovers(stream, ds, groupID, k);
      }
    }
    if forall k: nat :: k <= |ds| ==> CoversAt(stream, ds, groupID, k) {
      forall j, n: nat | 0 <= j < |ds| && Concerns(stream, groupID, ds[j].seqNo) && Concerns(stream, groupID, n)
        && n < ds[j].seqNo
        ensures CommittedBefore(ds, j, n)
      {
        CoveredIsInOrder(stream, ds, groupID, j, n);
      }
    }
  }

  /** Without stream order the offset can run ahead: message 2 commits while message 1 waits for redelivery. */
  lemma OffsetRunsAhead() returns (stream: seq<Event>, ds: seq<Delivery>)
    ensures FromStream(stream, ds) && Concerns(stream, "g", 1)
    ensures OffsetOf(DeliverAll(EMPTY, ds), "g") == 2 && !CommittedBefore(ds, |ds|, 1)
  {
    var e := Event("e1", "c1", "t1", "g", "u", "n", Created, "a", 0, 0);
    stream := [e, e.(eventID := "e2", commandID := "c2", todoID := "t2")];
    ds := [Delivery(stream[1], 2)];
    assert DeliverAll(EMPTY, ds) == Deliver(DeliverAll(EMPTY, ds[..0]), ds[0]);
  }

  // ---------- waiting for a command ----------

  /** The log holds an event of this command and group: what WaitForCommandApplied's query looks for. */
  predicate InLog(log: map<string, Event>, commandID: string, groupID: string) {
    exists id :: id in log && log[id].commandID == commandID && log[id].groupID == groupID
  }

  /** What the query answers when k deliveries are committed; `failed` stands for a database error. */
  function AnswerAt(ds: seq<Delivery>, k: nat, commandID: string, groupID: string, failed: bool): Answer {
    if failed || k > |ds| then OtherError
    else if InLog(DeliverAll(EMPTY, ds[..k]).log, commandID, groupID) then Found
    else NoRows
  }

  /** Found, no rows, or a database error: each exactly when it should be. */
  lemma AnswerExactly(ds: seq<Delivery>, k: nat, commandID: string, groupID: string, failed: bool)
    ensures var answer := AnswerAt(ds, k, commandID, groupID, failed);
            && (answer.OtherError? <==> failed || k > |ds|)
            && (answer.Found? <==> !failed && k <= |ds| && InLog(DeliverAll(EMPTY, ds[..k]).log, commandID, groupID))
            && (answer.NoRows? <==> !failed && k <= |ds| && !InLog(DeliverAll(EMPTY, ds[..k]).log, commandID, groupID))
  {
  }

  ghost predicate CommitsCommand(ds: seq<Delivery>, d: Delivery, commandID: string, groupID: string) {
    Committed(ds, d) && d.event.commandID == commandID && d.event.groupID == groupID
  }

  /** The query finds an event of a command exactly when one is committed. */
  lemma InLogExactlyWhenCommitted(ds: seq<Delivery>, commandID: string, groupID: string)
    requires Replay.ConsistentIDs(ds)
    ensures InLog(DeliverAll(EMPTY, ds).log, commandID, groupID)
            <==> exists d :: CommitsCommand(ds, d, commandID, groupID)
  {
    var log := DeliverAll(EMPTY, ds).log;
    if InLog(log, commandID, groupID) {
      var d := FoundIsCommitted(ds, commandID, groupID);
    }
    if d :| CommitsCommand(ds, d, commandID, groupID) {
      LogAfter(EMPTY, ds, d.event.eventID);
      assert log[d.event.eventID] == d.event;
    }
  }

  lemma FoundIsCommitted(ds: seq<Delivery>, commandID: string, groupID: string) returns (d: Delivery)
    requires InLog(DeliverAll(EMPTY, ds).log, commandID, groupID)
    ensures CommitsCommand(ds, d, commandID, groupID)
  {
    var log := DeliverAll(EMPTY, ds).log;
    var id :| id in log && log[id].commandID == commandID && log[id].groupID == groupID;
    LogAfter(EMPTY, ds, id);
    d :| Committed(ds, d) && d.event == log[id] && d.event.eventID == id;
  }

  /** The row shows that the event has been applied: it exists, it is deleted if the event deletes, and after an update
      it is deleted or carries the stamp of the todo's last update. */
  ghost predicate Reflects(row: Option<Row>, own: seq<Delivery>, e: Event) {
    && row.Some?
    && (e.eventType.Deleted? ==> row.value.deletedAt.Some?)
    && (e.eventType.Updated? ==>
          row.value.deletedAt.Some?
            || (Replay.LastUpdate(own).Some? && Replay.SameStamp(row.value, Replay.LastUpdate(own).value)))
  }

  lemma CommittedIsReflected(ds: seq<Delivery>, d: Delivery)
    requires Replay.CreateFirst(ds) && Committed(ds, d)
    ensures Reflects(Lookup(DeliverAll(EMPTY, ds).todos, d.event.todoID), OfTodo(ds, d.event.todoID), d.event)
  {
    var own := OfTodo(ds, d.event.todoID);
    assert d in own;
    Replay.TodoRowClosedForm(ds, d.event.todoID);
    Replay.LiveClosedForm(own);
  }

  /** The command a waiter saw applied: an event of it is committed, and its todo's row reflects it. */
  ghost predicate AppliedIn(ds: seq<Delivery>, commandID: string, groupID: string) {
    exists d :: CommitsCommand(ds, d, commandID, groupID)
      && (Replay.CreateFirst(ds) ==>
            Reflects(Lookup(DeliverAll(EMPTY, ds).todos, d.event.todoID), OfTodo(ds, d.event.todoID), d.event))
  }

  lemma FoundIsApplied(ds: seq<Delivery>, commandID: string, groupID: string)
    requires InLog(DeliverAll(EMPTY, ds).log, commandID, groupID)
    ensures AppliedIn(ds, commandID, groupID)
  {
    var d := FoundIsCommitted(ds, commandID, groupID);
    if Replay.CreateFirst(ds) {
      CommittedIsReflected(ds, d);
    }
  }

  /** The wait's loop over the tables: `at(i)` is how much of `ds` is committed at poll i. When it ends because the
      command was found, the command's event is committed and its todo's row reflects it. */
  method PollUntilApplied(command: string, group: string, allowed: nat, ds: seq<Delivery>, start: int,
                          clock: nat -> int, at: nat -> nat, failed: nat -> bool, cancelled: nat -> bool)
    returns (outcome: Outcome, polls: nat)
    requires start <= clock(0)
    requires forall i: nat {:trigger DelayAt(20 * MS, 250 * MS, i)} ::
               clock(i + 1) >= clock(i) + DelayAt(20 * MS, 250 * MS, i)
    ensures outcome.Reached? ==>
              polls > 0 && at(polls - 1) <= |ds| && AppliedIn(ds[..at(polls - 1)], command, group)
    ensures outcome.TimedOut? ==> clock(polls) >= start + allowed
    ensures polls <= CommandPolls(allowed)
  {
    var answer := (i: nat) => AnswerAt(ds, at(i), command, group, failed(i));
    outcome, polls := PollForCommand(allowed, start, clock, answer, cancelled);
    if outcome.Reached? {
      FoundIsApplied(ds[..at(polls - 1)], command, group);
    }
  }

  /** handleCreateCommand's wait: blank ids need no poll, others are trimmed. */
  method WaitUntilApplied(commandID: string, groupID: string, timeout: int, ds: seq<Delivery>, start: int,
                          clock: nat -> int, at: nat -> nat, failed: nat -> bool, cancelled: nat -> bool)
    returns (outcome: Outcome, polls: nat)
    requires start <= clock(0)
    requires forall i: nat {:trigger DelayAt(20 * MS, 250 * MS, i)} ::
               clock(i + 1) >= clock(i) + DelayAt(20 * MS, 250 * MS, i)
    ensures if Blank(commandID, groupID) then outcome.Reached? && polls == 0
            else outcome.Reached? ==>
              && polls > 0 && at(polls - 1) <= |ds|
              && AppliedIn(ds[..at(polls - 1)], Text.Trim(commandID), Text.Trim(groupID))
    ensures polls <= CommandPolls(CommandTimeout(timeout))
  {
    if Blank(commandID, groupID) {
      return Reached, 0;
    }
    outcome, polls := PollUntilApplied(Text.Trim(commandID), Text.Trim(groupID), CommandTimeout(timeout), ds, start,
                                       clock, at, failed, cancelled);
  }
}
