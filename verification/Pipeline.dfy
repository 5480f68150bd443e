/** Command API, domain engine and data-sink as one transition system: two logs, redelivery on both, roles that
    change. */
module Pipeline {
  import opened Options
  import opened Text
  import opened Projection
  import Membership
  import Replay
  import Snapshots
  import Commands
  import Subjects

  type Members = map<Membership.Key, Membership.Role>

  /** A request: the raw ids the handler looks rows up with, and the texts Accept makes of it. */
  datatype Ask = Ask(
    rawActor: string, rawGroup: string, rawTodo: string,
    actor: string, actorName: string, groupID: string, todoID: string, kind: EventType, title: string)

  /** An accepted command; `checkedAt` is the state of the membership table its role was read from. */
  datatype Command = Command(
    commandID: string, todoID: string, groupID: string, actor: string, actorName: string,
    kind: EventType, title: string, checkedAt: nat)

  /** Where a request is: its role has been read, or its todo has been checked too. */
  datatype Pc = RoleRead(ask: Ask, role: Membership.Role, checkedAt: nat) | Cleared(ask: Ask, checkedAt: nat)

  datatype State = State(
    members: Members,
    history: seq<Members>,       // the membership table, change by change; the last one is current
    requests: map<nat, Pc>,
    commands: seq<Command>,      // the COMMANDS stream
    events: seq<Event>,          // the EVENTS stream: message i + 1 is events[i]
    sources: seq<nat>,           // which command each event came from
    tables: Tables,
    applied: seq<Delivery>)      // what the data-sink has committed

  datatype Step =
    | SetMembers(members: Members)
    | ReadRole(request: nat, ask: Ask)
    | CheckTodo(request: nat)
    | PublishCommand(request: nat, newID: string)
    | HandleCommand(command: nat, eventID: string, now: int, shard: int)
    | CommitEvent(event: nat)

  const INITIAL := State(map[], [map[]], map[], [], [], [], EMPTY, [])

  const STREAM_LIMIT := 0x7FFF_FFFF_FFFF_FFFF

  /** Ids that NewID makes: not blank, no white space around them. */
  predicate CleanID(id: string) {
    id != "" && Trimmed(id)
  }

  predicate CanModerate(role: Membership.Role) {
    role.Owner? || role.Admin?
  }

  /** Accept trims both ids and puts a default in place of a blank actor. */
  predicate Reads(ask: Ask) {
    && ask.groupID == Trim(ask.rawGroup) != ""
    && ask.todoID == Trim(ask.rawTodo)
    && ask.actor == (if Trim(ask.rawActor) == "" then "user-1" else ask.rawActor)
    && !ask.kind.Other?
  }

  /** handleCreateCommand's check of an update or delete against the row it reads. */
  predicate TodoCheckPasses(t: Tables, ask: Ask, role: Membership.Role) {
    var row := Visible(t.todos, ask.rawTodo);
    && row.Some?
    && row.value.groupID == ask.groupID
    && (CanModerate(role) || row.value.createdBy == ask.rawActor)
  }

  predicate Enabled(st: State, step: Step) {
    match step
    case SetMembers(m) => forall k :: k in m ==> CleanID(k.groupID) && CleanID(k.userID)
    case ReadRole(r, ask) =>
      r !in st.requests && Membership.Key(ask.rawGroup, ask.rawActor) in st.members
    case CheckTodo(r) =>
      r in st.requests && st.requests[r].RoleRead?
      && (st.requests[r].ask.kind.Created? || TodoCheckPasses(st.tables, st.requests[r].ask, st.requests[r].role))
    case PublishCommand(r, newID) =>
      r in st.requests && st.requests[r].Cleared? && CleanID(newID)
      && (st.requests[r].ask.kind.Created? || st.requests[r].ask.todoID != "")
    case HandleCommand(i, eventID, _, _) =>
      i < |st.commands| && |st.events| < STREAM_LIMIT && forall e :: e in st.events ==> e.eventID != eventID
    case CommitEvent(j) => j < |st.events| && j < STREAM_LIMIT
  }

  /** A request's texts are the ones Accept makes of its raw ones. */
  predicate WellRead(step: Step) {
    step.ReadRole? ==> Reads(step.ask)
  }

  /** What Accept publishes; a create without a todo id makes a new todo. */
  function Accepted(ask: Ask, newID: string, checkedAt: nat): Command {
    Command(newID, if ask.todoID == "" then newID else ask.todoID, ask.groupID, ask.actor, ask.actorName,
            ask.kind, ask.title, checkedAt)
  }

  function Handled(c: Command, eventID: string, now: int, shard: int): Event {
    Event(eventID, c.commandID, c.todoID, c.groupID, c.actor, c.actorName, c.kind, c.title, now, shard)
  }

  function Apply(st: State, step: Step): State
    requires Enabled(st, step)
  {
    match step
    case SetMembers(m) => st.(members := m, history := st.history + [m])
    case ReadRole(r, ask) =>
      st.(requests := st.requests[r := RoleRead(ask, st.members[Membership.Key(ask.rawGroup, ask.rawActor)],
                                                if st.history == [] then 0 else |st.history| - 1)])
    case CheckTodo(r) =>
      st.(requests := st.requests[r := Cleared(st.requests[r].ask, st.requests[r].checkedAt)])
    case PublishCommand(r, newID) =>
      st.(requests := st.requests - {r},
          commands := st.commands + [Accepted(st.requests[r].ask, newID, st.requests[r].checkedAt)])
    case HandleCommand(i, eventID, now, shard) =>
      st.(events := st.events + [Handled(st.commands[i], eventID, now, shard)], sources := st.sources + [i])
    case CommitEvent(j) =>
      var d := Delivery(st.events[j], j + 1);
      st.(tables := Deliver(st.tables, d), applied := st.applied + [d])
  }

  ghost predicate Next(st: State, st': State) {
    exists step :: Enabled(st, step) && WellRead(step) && st' == Apply(st, step)
  }

  ghost predicate NextAt(states: seq<State>, i: nat)
    requires 0 < i < |states|
  {
    Next(states[i - 1], states[i])
  }

  ghost predicate Run(states: seq<State>) {
    && states != []
    && states[0] == INITIAL
    && forall i :: 0 < i < |states| ==> NextAt(states, i)
  }

  // ---------- what every run keeps ----------

  /** The role the table at `at` shows. */
  function RoleAt(st: State, groupID: string, user: string, at: nat): Option<Membership.Role> {
    if at < |st.history| && Membership.Key(groupID, user) in st.history[at]
    then Some(st.history[at][Membership.Key(groupID, user)]) else None
  }

  /** The actor was a member then; for an update or delete the todo's row exists, is the group's, and the actor was then
      an owner or admin, or is the row's creator. */
  ghost predicate Authorised(st: State, todoID: string, groupID: string, actor: string, kind: EventType, at: nat) {
    && RoleAt(st, groupID, actor, at).Some?
    && (!kind.Created? ==>
          && todoID in st.tables.todos
          && st.tables.todos[todoID].groupID == groupID
          && (CanModerate(RoleAt(st, groupID, actor, at).value) || st.tables.todos[todoID].createdBy == actor))
  }

  ghost predicate MemberLaw(st: State) {
    && st.history != [] && st.history[|st.history| - 1] == st.members
    && forall k :: k in st.members ==> CleanID(k.groupID) && CleanID(k.userID)
  }

  /** Raw ids that found a membership are what Accept reads; so is a raw todo id that can find a row. */
  predicate AskOK(ask: Ask) {
    && ask.groupID == ask.rawGroup && ask.actor == ask.rawActor
    && Trimmed(ask.todoID) && (Trimmed(ask.rawTodo) ==> ask.todoID == ask.rawTodo)
    && !ask.kind.Other?
  }

  /** A request past its role check: what that check, and later the todo check, found. */
  ghost predicate RequestOK(st: State, pc: Pc) {
    && AskOK(pc.ask)
    && (pc.RoleRead? ==> RoleAt(st, pc.ask.groupID, pc.ask.actor, pc.checkedAt) == Some(pc.role))
    && (pc.Cleared? ==> Authorised(st, pc.ask.todoID, pc.ask.groupID, pc.ask.actor, pc.ask.kind, pc.checkedAt))
  }

  ghost predicate CommandOK(st: State, c: Command) {
    CleanID(c.todoID) && !c.kind.Other? && Authorised(st, c.todoID, c.groupID, c.actor, c.kind, c.checkedAt)
  }

  /** The rows' ids are trimmed, and each row came from a create in the event stream. */
  ghost predicate RowOK(st: State, todoID: string) {
    && todoID in st.tables.todos
    && CleanID(todoID)
    && exists j: nat :: CreatesRow(st, j, todoID)
  }

  ghost predicate CreatesRow(st: State, j: nat, todoID: string) {
    && j < |st.events| && st.events[j].eventType.Created? && st.events[j].todoID == todoID
    && todoID in st.tables.todos
    && st.events[j].groupID == st.tables.todos[todoID].groupID
    && st.events[j].actorUserID == st.tables.todos[todoID].createdBy
  }

  predicate FromCommand(e: Event, c: Command) {
    && e.commandID == c.commandID && e.todoID == c.todoID && e.groupID == c.groupID && e.actorUserID == c.actor
    && e.eventType == c.kind && e.title == c.title
  }

  ghost predicate HasEarlierCreate(events: seq<Event>, j: nat)
    requires j < |events|
  {
    exists i :: 0 <= i <= j && events[i].todoID == events[j].todoID && events[i].eventType.Created?
  }

  ghost predicate StreamLaw(st: State) {
    && |st.sources| == |st.events| <= STREAM_LIMIT
    && (forall j :: 0 <= j < |st.events| ==>
          st.sources[j] < |st.commands| && FromCommand(st.events[j], st.commands[st.sources[j]]))
    && (forall i, j | 0 <= i < |st.events| && 0 <= j < |st.events| ::
          st.events[i].eventID == st.events[j].eventID ==> i == j)
    && (forall j :: 0 <= j < |st.events| ==> HasEarlierCreate(st.events, j))
  }

  /** The tables are what the commits so far make, all of them from the stream, each todo's create first. */
  ghost predicate SinkHolds(t: Tables, events: seq<Event>, applied: seq<Delivery>) {
    && t == DeliverAll(EMPTY, applied)
    && Snapshots.FromStream(events, applied)
    && Replay.CreateFirst(applied)
  }

  ghost predicate SinkLaw(st: State) {
    SinkHolds(st.tables, st.events, st.applied)
  }

  ghost predicate Law(st: State) {
    && MemberLaw(st)
    && (forall r :: r in st.requests ==> RequestOK(st, st.requests[r]))
    && (forall i :: 0 <= i < |st.commands| ==> CommandOK(st, st.commands[i]))
    && (forall id :: id in st.tables.todos ==> RowOK(st, id))
    && StreamLaw(st)
    && SinkLaw(st)
  }

  // ---------- one step keeps the laws ----------

  /** A commit keeps every row's group and creator; roles read from an old table stay what they were. */
  lemma RowIdentityKept(t: Tables, d: Delivery, id: string)
    requires id in t.todos
    ensures var todos := Deliver(t, d).todos;
            id in todos && todos[id].groupID == t.todos[id].groupID && todos[id].createdBy == t.todos[id].createdBy
  {
  }

  lemma AuthorisedKept(st: State, step: Step, todoID: string, groupID: string, actor: string, kind: EventType, at: nat)
    requires Enabled(st, step) && Authorised(st, todoID, groupID, actor, kind, at)
    ensures Authorised(Apply(st, step), todoID, groupID, actor, kind, at)
  {
    var st' := Apply(st, step);
    assert RoleAt(st', groupID, actor, at) == RoleAt(st, groupID, actor, at);
    if step.CommitEvent? && !kind.Created? {
      RowIdentityKept(st.tables, Delivery(st.events[step.event], step.event + 1), todoID);
    }
  }

  lemma MemberLawKept(st: State, step: Step)
    requires MemberLaw(st) && Enabled(st, step)
    ensures MemberLaw(Apply(st, step))
  {
  }

  /** A stored request stays in order while others move. */
  lemma RequestStays(st: State, step: Step, pc: Pc)
    requires Enabled(st, step) && RequestOK(st, pc)
    ensures RequestOK(Apply(st, step), pc)
  {
    if pc.Cleared? {
      AuthorisedKept(st, step, pc.ask.todoID, pc.ask.groupID, pc.ask.actor, pc.ask.kind, pc.checkedAt);
    } else {
      assert RoleAt(Apply(st, step), pc.ask.groupID, pc.ask.actor, pc.checkedAt)
          == RoleAt(st, pc.ask.groupID, pc.ask.actor, pc.checkedAt);
    }
  }

  /** The handler looks the row up with the raw id; a row's id is trimmed, so the raw id is what Accept will use. */
  lemma CheckAuthorises(st: State, pc: Pc)
    requires pc.RoleRead? && RequestOK(st, pc)
    requires forall id :: id in st.tables.todos ==> Trimmed(id)
    requires pc.ask.kind.Created? || TodoCheckPasses(st.tables, pc.ask, pc.role)
    ensures RequestOK(st, Cleared(pc.ask, pc.checkedAt))
  {
  }

  lemma CleanIDsAreRead(ask: Ask)
    requires Reads(ask) && CleanID(ask.rawGroup) && CleanID(ask.rawActor)
    ensures AskOK(ask)
  {
  }

  /** A membership's ids are trimmed and not blank, so Accept reads the very ids that found it. */
  lemma FoundIDsAreRead(st: State, r: nat, ask: Ask)
    requires MemberLaw(st) && Enabled(st, ReadRole(r, ask)) && Reads(ask)
    ensures AskOK(ask)
  {
    var k := Membership.Key(ask.rawGroup, ask.rawActor);
    assert CleanID(k.groupID) && CleanID(k.userID);
    CleanIDsAreRead(ask);
  }

  lemma RoleReadIsOK(st: State, ask: Ask)
    requires MemberLaw(st) && AskOK(ask) && Membership.Key(ask.rawGroup, ask.rawActor) in st.members
    ensures RequestOK(st, RoleRead(ask, st.members[Membership.Key(ask.rawGroup, ask.rawActor)], |st.history| - 1))
  {
  }

  lemma RequestAfterCheck(st: State, r: nat)
    requires Enabled(st, CheckTodo(r)) && RequestOK(st, st.requests[r])
    requires forall id :: id in st.tables.todos ==> Trimmed(id)
    ensures RequestOK(Apply(st, CheckTodo(r)), Apply(st, CheckTodo(r)).requests[r])
  {
    CheckAuthorises(st, st.requests[r]);
    RequestStays(st, CheckTodo(r), Cleared(st.requests[r].ask, st.requests[r].checkedAt));
  }

  lemma RequestAfterRead(st: State, r: nat, ask: Ask)
    requires MemberLaw(st) && Enabled(st, ReadRole(r, ask)) && AskOK(ask)
    ensures RequestOK(Apply(st, ReadRole(r, ask)), Apply(st, ReadRole(r, ask)).requests[r])
  {
    RoleReadIsOK(st, ask);
    RequestStays(st, ReadRole(r, ask), Apply(st, ReadRole(r, ask)).requests[r]);
  }

  lemma OtherRequestsAlike(st: State, step: Step, r: nat)
    requires Enabled(st, step) && r in Apply(st, step).requests
    requires step != CheckTodo(r) && !(step.ReadRole? && step.request == r)
    ensures r in st.requests && Apply(st, step).requests[r] == st.requests[r]
  {
  }

  lemma RequestKept(st: State, step: Step, r: nat)
    requires MemberLaw(st) && Enabled(st, step) && r in Apply(st, step).requests
    requires step.ReadRole? ==> AskOK(step.ask)
    requires r in st.requests ==> RequestOK(st, st.requests[r])
    requires forall id :: id in st.tables.todos ==> Trimmed(id)
    ensures RequestOK(Apply(st, step), Apply(st, step).requests[r])
  {
    if step == CheckTodo(r) {
      RequestAfterCheck(st, r);
    } else if step.ReadRole? && step.request == r {
      RequestAfterRead(st, r, step.ask);
    } else {
      OtherRequestsAlike(st, step, r);
      RequestStays(st, step, st.requests[r]);
    }
  }

  /** What Accept publishes for a cleared request names the todo, group and actor that were checked. */
  lemma AcceptedIsOK(st: State, ask: Ask, at: nat, newID: string)
    requires RequestOK(st, Cleared(ask, at)) && CleanID(newID)
    requires ask.kind.Created? || ask.todoID != ""
    ensures CommandOK(st, Accepted(ask, newID, at))
  {
  }

  lemma CommandStays(st: State, step: Step, c: Command)
    requires Enabled(st, step) && CommandOK(st, c)
    ensures CommandOK(Apply(st, step), c)
  {
    AuthorisedKept(st, step, c.todoID, c.groupID, c.actor, c.kind, c.checkedAt);
  }

  lemma CommandKept(st: State, step: Step, i: nat)
    requires Enabled(st, step) && i < |Apply(st, step).commands|
    requires i < |st.commands| ==> CommandOK(st, st.commands[i])
    requires step.PublishCommand? ==> RequestOK(st, st.requests[step.request])
    ensures CommandOK(Apply(st, step), Apply(st, step).commands[i])
  {
    if i < |st.commands| {
      CommandStays(st, step, st.commands[i]);
    } else {
      var pc := st.requests[step.request];
      AcceptedIsOK(st, pc.ask, pc.checkedAt, step.newID);
      CommandStays(st, step, Accepted(pc.ask, step.newID, pc.checkedAt));
    }
  }

  lemma CreatorStays(st: State, step: Step, j: nat, id: string)
    requires Enabled(st, step) && CreatesRow(st, j, id)
    ensures CreatesRow(Apply(st, step), j, id)
  {
    if step.CommitEvent? {
      RowIdentityKept(st.tables, Delivery(st.events[step.event], step.event + 1), id);
    }
  }

  lemma OldRowKept(st: State, step: Step, id: string)
    requires Enabled(st, step) && RowOK(st, id)
    ensures RowOK(Apply(st, step), id)
  {
    var j: nat :| CreatesRow(st, j, id);
    CreatorStays(st, step, j, id);
  }

  /** A row that a commit makes comes from the event committed. */
  lemma NewRowOK(st: State, j: nat, id: string)
    requires Enabled(st, CommitEvent(j)) && CleanID(st.events[j].todoID)
    requires id !in st.tables.todos && id in Apply(st, CommitEvent(j)).tables.todos
    ensures RowOK(Apply(st, CommitEvent(j)), id)
  {
    assert CreatesRow(Apply(st, CommitEvent(j)), j, id);
  }

  lemma RowKept(st: State, step: Step, id: string)
    requires Enabled(st, step) && id in Apply(st, step).tables.todos
    requires id in st.tables.todos ==> RowOK(st, id)
    requires step.CommitEvent? ==> CleanID(st.events[step.event].todoID)
    ensures RowOK(Apply(st, step), id)
  {
    if id in st.tables.todos {
      OldRowKept(st, step, id);
    } else {
      NewRowOK(st, step.event, id);
    }
  }

  /** An update or delete is only ever handled after its todo's create was published. */
  lemma HandledHasCreate(st: State, c: Command, e: Event)
    requires CommandOK(st, c) && FromCommand(e, c)
    requires c.todoID in st.tables.todos ==> RowOK(st, c.todoID)
    ensures HasEarlierCreate(st.events + [e], |st.events|)
  {
    var events' := st.events + [e];
    if c.kind.Created? {
      assert events'[|st.events|].eventType.Created?;
    } else {
      var i: nat :| CreatesRow(st, i, c.todoID);
      assert events'[i] == st.events[i];
    }
  }

  lemma EarlierCreateStays(events: seq<Event>, e: Event, j: nat)
    requires j < |events| && HasEarlierCreate(events, j)
    ensures HasEarlierCreate(events + [e], j)
  {
    var i :| 0 <= i <= j && events[i].todoID == events[j].todoID && events[i].eventType.Created?;
    assert (events + [e])[i] == events[i];
  }

  lemma HandleKeepsStreamLaw(st: State, step: Step)
    requires StreamLaw(st) && Enabled(st, step) && step.HandleCommand?
    requires CommandOK(st, st.commands[step.command])
    requires forall id :: id in st.tables.todos ==> RowOK(st, id)
    ensures StreamLaw(Apply(st, step))
  {
    var c := st.commands[step.command];
    var e := Handled(c, step.eventID, step.now, step.shard);
    HandledHasCreate(st, c, e);
    forall j | 0 <= j < |st.events| ensures HasEarlierCreate(st.events + [e], j) {
      EarlierCreateStays(st.events, e, j);
    }
  }

  lemma StreamLawKept(st: State, step: Step)
    requires Law(st) && Enabled(st, step)
    ensures StreamLaw(Apply(st, step))
  {
    if step.HandleCommand? {
      HandleKeepsStreamLaw(st, step);
    }
  }

  /** Nothing has been committed for a todo without a row, so what comes next for it is its create. */
  lemma FirstCommittedIsCreate(applied: seq<Delivery>, d: Delivery, id: string)
    requires Replay.CreateFirst(applied) && Supported(d.event)
    requires d.event.eventType.Created? || d.event.todoID in DeliverAll(EMPTY, applied).todos
    requires OfTodo(applied + [d], id) != []
    ensures OfTodo(applied + [d], id)[0].event.eventType.Created?
  {
    OfTodoConcat(applied, [d], id);
    assert [d][..0] == [];
    if OfTodo(applied, id) == [] {
      RowDependsOnOwnEvents(EMPTY, applied, id);
      assert Lookup(DeliverAll(EMPTY, applied).todos, id) == None;
      assert OfTodo([d], id) == OfTodo([], id) + [d];
    } else {
      assert OfTodo(applied + [d], id)[0] == OfTodo(applied, id)[0];
    }
  }

  lemma CommitKeepsCreateFirst(applied: seq<Delivery>, d: Delivery)
    requires Replay.CreateFirst(applied) && Supported(d.event)
    requires d.event.eventType.Created? || d.event.todoID in DeliverAll(EMPTY, applied).todos
    ensures Replay.CreateFirst(applied + [d])
  {
    forall id | OfTodo(applied + [d], id) != [] ensures OfTodo(applied + [d], id)[0].event.eventType.Created? {
      FirstCommittedIsCreate(applied, d, id);
    }
  }

  lemma StreamGrows(events: seq<Event>, e: Event, applied: seq<Delivery>)
    requires Snapshots.FromStream(events, applied)
    ensures Snapshots.FromStream(events + [e], applied)
  {
  }

  lemma CommitKeepsTables(applied: seq<Delivery>, d: Delivery)
    ensures DeliverAll(EMPTY, applied + [d]) == Deliver(DeliverAll(EMPTY, applied), d)
  {
    assert (applied + [d])[..|applied|] == applied;
  }

  lemma CommitIsFromStream(events: seq<Event>, applied: seq<Delivery>, j: nat)
    requires Snapshots.FromStream(events, applied) && j < |events| && j < STREAM_LIMIT && Supported(events[j])
    ensures Snapshots.FromStream(events, applied + [Delivery(events[j], j + 1)])
  {
  }

  lemma CommitHolds(t: Tables, events: seq<Event>, applied: seq<Delivery>, j: nat)
    requires SinkHolds(t, events, applied) && j < |events| && j < STREAM_LIMIT && Supported(events[j])
    requires events[j].eventType.Created? || events[j].todoID in t.todos
    ensures var d := Delivery(events[j], j + 1); SinkHolds(Deliver(t, d), events, applied + [d])
  {
    var d := Delivery(events[j], j + 1);
    CommitKeepsTables(applied, d);
    CommitIsFromStream(events, applied, j);
    CommitKeepsCreateFirst(applied, d);
  }

  lemma CommitKeepsSinkLaw(st: State, j: nat)
    requires SinkLaw(st) && j < |st.events| && j < STREAM_LIMIT && Supported(st.events[j])
    requires st.events[j].eventType.Created? || st.events[j].todoID in st.tables.todos
    ensures SinkLaw(Apply(st, CommitEvent(j)))
  {
    CommitHolds(st.tables, st.events, st.applied, j);
  }

  lemma SinkLawKept(st: State, step: Step)
    requires SinkLaw(st) && StreamLaw(st) && Enabled(st, step)
    requires step.CommitEvent? ==> CommandOK(st, st.commands[st.sources[step.event]])
    ensures SinkLaw(Apply(st, step))
  {
    if step.CommitEvent? {
      CommitKeepsSinkLaw(st, step.event);
    } else if step.HandleCommand? {
      StreamGrows(st.events, Handled(st.commands[step.command], step.eventID, step.now, step.shard), st.applied);
    }
  }

  lemma {:induction false} RunKeepsLaw(states: seq<State>, i: nat)
    requires Run(states) && i < |states|
    ensures Law(states[i])
  {
    if i > 0 {
      RunKeepsLaw(states, i - 1);
      assert NextAt(states, i);
      NextKeepsLaw(states[i - 1], states[i]);
    } else {
      StartsLawful();
    }
  }

  lemma NextKeepsLaw(st: State, st': State)
    requires Law(st) && Next(st, st')
    ensures Law(st')
  {
    var step :| Enabled(st, step) && WellRead(step) && st' == Apply(st, step);
    if step.ReadRole? {
      FoundIDsAreRead(st, step.request, step.ask);
    }
    StepKeepsLaw(st, step);
  }

  lemma StartsLawful()
    ensures Law(INITIAL)
  {
  }

  lemma StepKeepsLaw(st: State, step: Step)
    requires Law(st) && Enabled(st, step) && (step.ReadRole? ==> AskOK(step.ask))
    ensures Law(Apply(st, step))
  {
    MemberLawKept(st, step);
    StreamLawKept(st, step);
    SinkLawKept(st, step);
    assert forall id :: id in st.tables.todos ==> RowOK(st, id);
    forall r | r in Apply(st, step).requests ensures RequestOK(Apply(st, step), Apply(st, step).requests[r]) {
      RequestKept(st, step, r);
    }
    forall i | 0 <= i < |Apply(st, step).commands| ensures CommandOK(Apply(st, step), Apply(st, step).commands[i]) {
      CommandKept(st, step, i);
    }
    assert step.CommitEvent? ==> CommandOK(st, st.commands[st.sources[step.event]]);
    forall id | id in Apply(st, step).tables.todos ensures RowOK(Apply(st, step), id) {
      RowKept(st, step, id);
    }
  }

  // ---------- what every run shows ----------

  lemma HistoryStep(st: State, step: Step)
    requires Enabled(st, step)
    ensures var st' := Apply(st, step);
            st'.history == st.history || st'.history == st.history + [st'.members]
  {
  }

  /** A past membership table was the current one in some earlier state. */
  lemma {:induction false} HistoryWasCurrent(states: seq<State>, i: nat, at: nat) returns (k: nat)
    requires Run(states) && i < |states| && at < |states[i].history|
    ensures k <= i && states[k].members == states[i].history[at]
  {
    if i == 0 {
      k := 0;
    } else {
      assert NextAt(states, i);
      var step :| Enabled(states[i - 1], step) && states[i] == Apply(states[i - 1], step);
      HistoryStep(states[i - 1], step);
      if at < |states[i - 1].history| {
        k := HistoryWasCurrent(states, i - 1, at);
      } else {
        k := i;
      }
    }
  }

  /** Every row comes from an accepted create command of that todo, group and creator, sent by somebody who was then a
      member of the group. */
  lemma RowsComeFromAcceptedCreates(states: seq<State>, i: nat, id: string) returns (n: nat, k: nat)
    requires Run(states) && i < |states| && id in states[i].tables.todos
    ensures n < |states[i].commands| && k <= i
    ensures var c, row := states[i].commands[n], states[i].tables.todos[id];
            && c.kind.Created? && c.todoID == id && c.groupID == row.groupID && c.actor == row.createdBy
            && Membership.Key(c.groupID, c.actor) in states[k].members
  {
    RunKeepsLaw(states, i);
    var st := states[i];
    assert RowOK(st, id);
    var j: nat :| CreatesRow(st, j, id);
    n := st.sources[j];
    assert CommandOK(st, st.commands[n]);
    k := HistoryWasCurrent(states, i, st.commands[n].checkedAt);
  }

  /** The first event published for any todo is its create. */
  lemma FirstPublishedIsCreate(states: seq<State>, i: nat, j: nat)
    requires Run(states) && i < |states| && j < |states[i].events|
    requires forall h :: 0 <= h < j ==> states[i].events[h].todoID != states[i].events[j].todoID
    ensures states[i].events[j].eventType.Created?
  {
    RunKeepsLaw(states, i);
    assert HasEarlierCreate(states[i].events, j);
  }

  /** Every published update or delete carries its todo's own group, and its actor was, in some earlier state, owner or
      admin of that group, or is the row's creator. */
  lemma ChangesAreAuthorised(states: seq<State>, i: nat, j: nat) returns (k: nat)
    requires Run(states) && i < |states| && j < |states[i].events| && !states[i].events[j].eventType.Created?
    ensures var e, todos := states[i].events[j], states[i].tables.todos;
            && e.todoID in todos && e.groupID == todos[e.todoID].groupID
            && k <= i && Membership.Key(e.groupID, e.actorUserID) in states[k].members
            && (states[k].members[Membership.Key(e.groupID, e.actorUserID)] in {Membership.Owner, Membership.Admin}
                || todos[e.todoID].createdBy == e.actorUserID)
  {
    RunKeepsLaw(states, i);
    var st := states[i];
    var c := st.commands[st.sources[j]];
    assert FromCommand(st.events[j], c);
    assert CommandOK(st, c);
    k := HistoryWasCurrent(states, i, c.checkedAt);
  }

  /** In every run, delivering again any suffix of what the sink has committed changes nothing. */
  lemma RedeliveryChangesNothing(states: seq<State>, i: nat, k: nat)
    requires Run(states) && i < |states| && k <= |states[i].applied|
    ensures DeliverAll(states[i].tables, states[i].applied[k..]) == states[i].tables
  {
    RunKeepsLaw(states, i);
    var applied := states[i].applied;
    Replay.RedeliveryIsIdempotent(applied, k);
    DeliverConcat(EMPTY, applied, applied[k..]);
  }

  /** In every run, committing again any deliveries the sink has committed, in any order, changes nothing exactly when
      for each live row no delete is among them, and the last update among them is stamped on the row already. */
  lemma AnyRedelivery(states: seq<State>, i: nat, again: seq<Delivery>)
    requires Run(states) && i < |states| && forall d :: d in again ==> d in states[i].applied
    ensures DeliverAll(states[i].tables, again) == states[i].tables <==> Replay.Harmless(states[i].applied, again)
  {
    RunKeepsLaw(states, i);
    Replay.RedeliveryIsHarmlessExactly(states[i].applied, again);
    DeliverConcat(EMPTY, states[i].applied, again);
  }

  /** In every run: an event of a command is found in the log only when that command was published, its event is
      committed, and the todo's row reflects it. */
  lemma FoundCommandIsReflected(states: seq<State>, i: nat, commandID: string, groupID: string)
      returns (n: nat, d: Delivery)
    requires Run(states) && i < |states| && Snapshots.InLog(states[i].tables.log, commandID, groupID)
    ensures d in states[i].applied && n < |states[i].commands|
    ensures var st := states[i];
            && st.commands[n].commandID == commandID && st.commands[n].groupID == groupID
            && FromCommand(d.event, st.commands[n])
            && Snapshots.Reflects(Lookup(st.tables.todos, st.commands[n].todoID),
                                  OfTodo(st.applied, st.commands[n].todoID), d.event)
  {
    RunKeepsLaw(states, i);
    var st := states[i];
    d := Snapshots.FoundIsCommitted(st.applied, commandID, groupID);
    Snapshots.CommittedIsReflected(st.applied, d);
    assert st.events[d.seqNo - 1] == d.event;
    n := st.sources[d.seqNo - 1];
  }

  lemma EventIDsIdentify(st: State)
    requires StreamLaw(st) && Snapshots.FromStream(st.events, st.applied)
    ensures forall c, d | c in st.applied && d in st.applied ::
              c.event.eventID == d.event.eventID ==> c.event == d.event
  {
    forall c, d | c in st.applied && d in st.applied && c.event.eventID == d.event.eventID ensures c.event == d.event {
      assert st.events[c.seqNo - 1] == c.event && st.events[d.seqNo - 1] == d.event;
    }
  }

  /** In every run, the sink could have interleaved the todos in any other way and would hold the same tables. */
  lemma InterleavingIsFree(states: seq<State>, i: nat, other: seq<Delivery>)
    requires Run(states) && i < |states| && Replay.SameOrderPerTodo(states[i].applied, other)
    ensures DeliverAll(EMPTY, other) == states[i].tables
  {
    RunKeepsLaw(states, i);
    EventIDsIdentify(states[i]);
    Replay.OrderAcrossTodosIsFree(EMPTY, states[i].applied, other);
  }

  /** The command and event of this system are the ones Accept publishes and the engine's Handle makes of it. */
  lemma MatchesAcceptAndHandle(crc: string -> nat, actor: Commands.Actor, req: Commands.Request, newID: string,
                               c: Commands.Command, eventID: string, now: int, checkedAt: nat)
      returns (kind: EventType)
    requires Commands.RefusalOf(req).None? && Commands.AcceptedAs(actor, req, newID, c)
    ensures var ask := Ask(actor.userID, req.groupID, req.todoID,
                           c.actorUserID, c.actorName, Trim(req.groupID), Trim(req.todoID), kind, Trim(req.title));
            Reads(ask) &&
            Commands.Handle(crc, Subjects.GetSubject(crc, "group", c.groupID), c, eventID, now)
            == Some(Handled(Accepted(ask, newID, checkedAt), eventID, now, Subjects.GetShardID(crc, Trim(req.groupID))))
    ensures !kind.Other? && (kind.Created? || Trim(req.todoID) != "")
  {
    kind := Commands.AcceptedBecomesEvent(crc, actor, req, newID, c, eventID, now);
  }

  // ---------- a request goes all the way ----------

  /** An update or delete passes exactly on an undeleted row of the group, from an owner or admin of it or from the
      row's creator. */
  lemma TodoCheckExactly(t: Tables, ask: Ask, role: Membership.Role)
    ensures TodoCheckPasses(t, ask, role) <==>
              && ask.rawTodo in t.todos && t.todos[ask.rawTodo].deletedAt.None?
              && t.todos[ask.rawTodo].groupID == ask.groupID
              && (role in {Membership.Owner, Membership.Admin} || t.todos[ask.rawTodo].createdBy == ask.rawActor)
  {
  }

  /** Steps that follow one another from a state. */
  ghost predicate Path(states: seq<State>) {
    states != [] && forall i :: 0 < i < |states| ==> NextAt(states, i)
  }

  /** A member's request may be read at any time, with the role the membership has now. */
  lemma RoleIsRead(st: State, r: nat, ask: Ask)
    requires MemberLaw(st) && r !in st.requests && Membership.Key(ask.rawGroup, ask.rawActor) in st.members
    ensures Enabled(st, ReadRole(r, ask))
    ensures var st' := Apply(st, ReadRole(r, ask));
            var pc := RoleRead(ask, st.members[Membership.Key(ask.rawGroup, ask.rawActor)], |st.history| - 1);
            st' == st.(requests := st.requests[r := pc])
  {
  }

  /** The event a request leads to. */
  function EventOf(ask: Ask, newID: string, eventID: string, now: int, shard: int): Event {
    Event(eventID, newID, if ask.todoID == "" then newID else ask.todoID, ask.groupID, ask.actor, ask.actorName,
          ask.kind, ask.title, now, shard)
  }

  lemma AcceptedIsHandled(st: State, r: nat, ask: Ask, at: nat, newID: string, eventID: string, now: int, shard: int)
      returns (states: seq<State>)
    requires r in st.requests && st.requests[r] == Cleared(ask, at) && CleanID(newID)
    requires ask.kind.Created? || ask.todoID != ""
    requires |st.events| < STREAM_LIMIT && forall e :: e in st.events ==> e.eventID != eventID
    ensures Path(states) && states[0] == st
    ensures var end, e := states[|states| - 1], EventOf(ask, newID, eventID, now, shard);
            && end.tables == Deliver(st.tables, Delivery(e, |st.events| + 1))
            && end.events == st.events + [e]
            && end.members == st.members && end.requests == st.requests - {r}
  {
    var published := Apply(st, PublishCommand(r, newID));
    var handled := Apply(published, HandleCommand(|st.commands|, eventID, now, shard));
    var committed := Apply(handled, CommitEvent(|st.events|));
    states := [st, published, handled, committed];
    assert WellRead(PublishCommand(r, newID)) && WellRead(HandleCommand(|st.commands|, eventID, now, shard))
      && WellRead(CommitEvent(|st.events|));
  }

  lemma PathContinues(before: seq<State>, after: seq<State>) returns (states: seq<State>)
    requires Path(before) && Path(after) && before[|before| - 1] == after[0]
    ensures Path(states) && states[0] == before[0] && states[|states| - 1] == after[|after| - 1]
  {
    states := before + after[1..];
    forall i | 0 < i < |states| ensures NextAt(states, i) {
      if i < |before| {
        assert NextAt(before, i);
      } else {
        assert NextAt(after, i - |before| + 1);
        assert states[i] == after[i - |before| + 1];
        assert states[i - 1] == after[i - |before|];
      }
    }
  }

  lemma TakenIsNext(st: State, st': State, step: Step)
    requires Enabled(st, step) && WellRead(step) && st' == Apply(st, step)
    ensures Next(st, st')
  {
  }

  lemma ReadsIsWellRead(r: nat, ask: Ask)
    requires Reads(ask)
    ensures WellRead(ReadRole(r, ask))
  {
  }

  lemma ReadIsAStep(st: State, r: nat, ask: Ask)
    requires Enabled(st, ReadRole(r, ask)) && WellRead(ReadRole(r, ask))
    ensures Next(st, Apply(st, ReadRole(r, ask)))
  {
    TakenIsNext(st, Apply(st, ReadRole(r, ask)), ReadRole(r, ask));
  }

  lemma CheckIsAStep(st: State, r: nat)
    requires Enabled(st, CheckTodo(r))
    ensures Next(st, Apply(st, CheckTodo(r)))
  {
    assert WellRead(CheckTodo(r));
  }

  /** What a request must fulfil for its todo check. */
  predicate MayGoOn(st: State, ask: Ask)
    requires Membership.Key(ask.rawGroup, ask.rawActor) in st.members
  {
    ask.kind.Created? || TodoCheckPasses(st.tables, ask, st.members[Membership.Key(ask.rawGroup, ask.rawActor)])
  }

  lemma CheckClears(read: State, r: nat, ask: Ask, role: Membership.Role, at: nat)
    requires r in read.requests && read.requests[r] == RoleRead(ask, role, at)
    requires ask.kind.Created? || TodoCheckPasses(read.tables, ask, role)
    ensures Enabled(read, CheckTodo(r)) && Next(read, Apply(read, CheckTodo(r)))
    ensures Apply(read, CheckTodo(r)) == read.(requests := read.requests[r := Cleared(ask, at)])
  {
    CheckIsAStep(read, r);
  }

  lemma RequestIsCleared(st: State, r: nat, ask: Ask) returns (states: seq<State>)
    requires MemberLaw(st) && Enabled(st, ReadRole(r, ask)) && Next(st, Apply(st, ReadRole(r, ask))) && MayGoOn(st, ask)
    ensures Path(states) && states[0] == st
    ensures states[|states| - 1] == st.(requests := st.requests[r := Cleared(ask, |st.history| - 1)])
  {
    RoleIsRead(st, r, ask);
    var role, at := st.members[Membership.Key(ask.rawGroup, ask.rawActor)], |st.history| - 1;
    var read := Apply(st, ReadRole(r, ask));
    CheckClears(read, r, ask, role, at);
    var cleared := Apply(read, CheckTodo(r));
    states := TwoSteps(st, read, cleared);
    assert st.requests[r := RoleRead(ask, role, at)][r := Cleared(ask, at)] == st.requests[r := Cleared(ask, at)];
  }

  lemma TwoSteps(a: State, b: State, c: State) returns (states: seq<State>)
    requires Next(a, b) && Next(b, c)
    ensures Path(states) && states[0] == a && states[|states| - 1] == c
  {
    states := [a, b, c];
    assert NextAt(states, 1) && NextAt(states, 2);
  }

  /** From any state a member's request that passes its checks can go through all the services: its event is the next of
      the stream and is committed to the tables, with the request's own todo, group, actor, kind and title. */
  lemma RequestGoesThrough(st: State, r: nat, ask: Ask, newID: string, eventID: string, now: int, shard: int)
      returns (states: seq<State>)
    requires MemberLaw(st) && Enabled(st, ReadRole(r, ask)) && Next(st, Apply(st, ReadRole(r, ask))) && MayGoOn(st, ask)
    requires CleanID(newID) && (ask.kind.Created? || ask.todoID != "")
    requires |st.events| < STREAM_LIMIT && forall e :: e in st.events ==> e.eventID != eventID
    ensures Path(states) && states[0] == st
    ensures var end, e := states[|states| - 1], EventOf(ask, newID, eventID, now, shard);
            && end.tables == Deliver(st.tables, Delivery(e, |st.events| + 1))
            && end.events == st.events + [e] && end.members == st.members
  {
    var first := RequestIsCleared(st, r, ask);
    var cleared := first[|first| - 1];
    var second := AcceptedIsHandled(cleared, r, ask, |st.history| - 1, newID, eventID, now, shard);
    states := PathContinues(first, second);
  }

  /** What the request changes is there to be changed: a new id for a create, and for an update or delete an undeleted
      row of the group, which an owner or admin of the group or the row's creator may change. */
  predicate MayTakeEffect(st: State, ask: Ask, newID: string)
    requires Membership.Key(ask.rawGroup, ask.rawActor) in st.members
  {
    if ask.kind.Created? then (if ask.todoID == "" then newID else ask.todoID) !in st.tables.todos
    else
      && ask.rawTodo == ask.todoID != ""
      && ask.todoID in st.tables.todos && st.tables.todos[ask.todoID].deletedAt.None?
      && st.tables.todos[ask.todoID].groupID == ask.groupID
      && (st.members[Membership.Key(ask.rawGroup, ask.rawActor)] in {Membership.Owner, Membership.Admin}
          || st.tables.todos[ask.todoID].createdBy == ask.rawActor)
  }

  /** What the tables then show of the request, and that nothing else has changed. */
  predicate TookEffect(before: map<string, Row>, todos: map<string, Row>, e: Event) {
    && e.todoID in todos
    && (e.eventType.Created? ==>
          && todos[e.todoID].groupID == e.groupID && todos[e.todoID].title == e.title
          && todos[e.todoID].createdBy == e.actorUserID && todos[e.todoID].createdByName == e.actorName
          && todos[e.todoID].deletedAt.None?)
    && (e.eventType.Updated? ==>
          todos[e.todoID].title == e.title && todos[e.todoID].updatedBy == e.actorUserID
          && todos[e.todoID].deletedAt.None?)
    && (e.eventType.Deleted? ==> todos[e.todoID].deletedAt == Some(e.occurredAt))
    && todos.Keys == before.Keys + {e.todoID}
    && (forall other :: other in before && other != e.todoID ==> todos[other] == before[other])
  }

  lemma ReadRequestsTakeEffect(st: State, r: nat, ask: Ask, newID: string, eventID: string, now: int, shard: int)
      returns (states: seq<State>)
    requires MemberLaw(st) && Enabled(st, ReadRole(r, ask)) && Next(st, Apply(st, ReadRole(r, ask)))
    requires MayTakeEffect(st, ask, newID) && CleanID(newID) && !ask.kind.Other?
    requires |st.events| < STREAM_LIMIT && forall e :: e in st.events ==> e.eventID != eventID
    ensures Path(states) && states[0] == st
    ensures TookEffect(st.tables.todos, states[|states| - 1].tables.todos, EventOf(ask, newID, eventID, now, shard))
  {
    if !ask.kind.Created? {
      TodoCheckExactly(st.tables, ask, st.members[Membership.Key(ask.rawGroup, ask.rawActor)]);
    }
    states := RequestGoesThrough(st, r, ask, newID, eventID, now, shard);
    EventTakesEffect(st.tables, EventOf(ask, newID, eventID, now, shard), |st.events| + 1);
  }

  /** So from any state any member's create makes its row, an update by an owner, admin or the creator retitles its row,
      and a delete by one of them marks it deleted. */
  lemma RequestsTakeEffect(st: State, r: nat, ask: Ask, newID: string, eventID: string, now: int, shard: int)
      returns (states: seq<State>)
    requires MemberLaw(st) && r !in st.requests && Reads(ask) && CleanID(newID)
    requires Membership.Key(ask.rawGroup, ask.rawActor) in st.members && MayTakeEffect(st, ask, newID)
    requires |st.events| < STREAM_LIMIT && forall e :: e in st.events ==> e.eventID != eventID
    ensures Path(states) && states[0] == st
    ensures TookEffect(st.tables.todos, states[|states| - 1].tables.todos, EventOf(ask, newID, eventID, now, shard))
  {
    RoleIsRead(st, r, ask);
    ReadsIsWellRead(r, ask);
    ReadIsAStep(st, r, ask);
    states := ReadRequestsTakeEffect(st, r, ask, newID, eventID, now, shard);
  }

  lemma EventTakesEffect(t: Tables, e: Event, seqNo: uint64)
    requires Supported(e)
    requires if e.eventType.Created? then e.todoID !in t.todos
             else e.todoID in t.todos && t.todos[e.todoID].deletedAt.None?
    ensures TookEffect(t.todos, Deliver(t, Delivery(e, seqNo)).todos, e)
  {
  }

  /** Memberships may change at any time, to any table of clean ids; requests, streams and tables stay. */
  lemma MembersMayChange(st: State, members: Members)
    ensures Enabled(st, SetMembers(members)) <==> forall k :: k in members ==> CleanID(k.groupID) && CleanID(k.userID)
    ensures Enabled(st, SetMembers(members)) ==>
              Apply(st, SetMembers(members)) == st.(members := members, history := st.history + [members])
  {
  }

  /** Redelivered messages are always taken: a command may be handled and an event committed any number of times. */
  lemma RedeliveryIsTaken(st: State, i: nat, eventID: string, now: int, shard: int, j: nat)
    ensures i < |st.commands| && |st.events| < STREAM_LIMIT && (forall e :: e in st.events ==> e.eventID != eventID) ==>
              Enabled(st, HandleCommand(i, eventID, now, shard))
    ensures j < |st.events| && j < STREAM_LIMIT ==> Enabled(st, CommitEvent(j))
  {
  }
}
