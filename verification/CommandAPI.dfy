/** The command endpoint: the checks handleCreateCommand makes before it hands a request to Accept. */
module CommandAPI {
  import opened Options
  import opened Text
  import opened Projection
  import Membership
  import Commands
  import Pipeline

  datatype HandlerError =
    | InvalidGroupID | ForbiddenGroup | TodoNotFound | WrongGroup | InsufficientPermissions
    | Refused(error: Commands.AcceptError)

  /** EnsureMemberRole: a group id that trims to nothing is refused; the membership is looked up with the raw ids. */
  function MemberRole(members: Pipeline.Members, actor: string, rawGroup: string, group: string)
    : Result<Membership.Role, HandlerError>
  {
    if group == "" then Err(InvalidGroupID)
    else if Membership.Key(rawGroup, actor) !in members then Err(ForbiddenGroup)
    else Ok(members[Membership.Key(rawGroup, actor)])
  }

  /** The checks of an update or delete, on the row its raw todo id finds. */
  function TodoVerdict(row: Option<Row>, groupID: string, actor: string, role: Membership.Role): Option<HandlerError> {
    if row.None? then Some(TodoNotFound)
    else if row.value.groupID != groupID then Some(WrongGroup)
    else if !Pipeline.CanModerate(role) && row.value.createdBy != actor then Some(InsufficientPermissions)
    else None
  }

  predicate ChangesTodo(kind: Option<EventType>) {
    kind == Some(Updated) || kind == Some(Deleted)
  }

  function VerdictOn(members: Pipeline.Members, todos: map<string, Row>, actor: string, rawGroup: string, group: string,
                     rawTodo: string, changes: bool): Option<HandlerError>
  {
    match MemberRole(members, actor, rawGroup, group)
    case Err(e) => Some(e)
    case Ok(role) => if changes then TodoVerdict(Visible(todos, rawTodo), group, actor, role) else None
  }

  /** The first check before Accept that a request fails. */
  function Verdict(members: Pipeline.Members, todos: map<string, Row>, actor: string, req: Commands.Request)
    : Option<HandlerError>
  {
    VerdictOn(members, todos, actor, req.groupID, Trim(req.groupID), req.todoID,
              ChangesTodo(Commands.KindOf(Commands.NormalizeAction(req.action))))
  }

  /** handleCreateCommand up to its answer. */
  method HandleCreateCommand(members: Pipeline.Members, repo: EventRepository, crc: string -> nat,
                             actor: Commands.Actor, req: Commands.Request, newID: string, now: int, publishFails: bool)
    returns (r: Result<Commands.Command, HandlerError>, subject: Option<string>)
    ensures var verdict := Verdict(members, repo.todos, actor.userID, req);
            && (verdict.Some? ==> r == Err(verdict.value))
            && (verdict.None? && Commands.RefusalOf(req).Some? ==> r == Err(Refused(Commands.RefusalOf(req).value)))
            && (r.Ok? ==>
                  verdict.None? && Commands.RefusalOf(req).None? && Commands.AcceptedAs(actor, req, newID, r.value))
    ensures r.Err? ==> subject == None
  {
    var checked := CheckRequest(members, repo, actor.userID, req);
    if checked.Some? {
      return Err(checked.value), None;
    }
    var accepted;
    accepted, subject := Commands.Accept(crc, actor, req, newID, now, publishFails);
    if accepted.Err? {
      return Err(Refused(accepted.error)), None;
    }
    r := Ok(accepted.value);
  }

  method CheckRequest(members: Pipeline.Members, repo: EventRepository, actor: string, req: Commands.Request)
    returns (refusal: Option<HandlerError>)
    ensures refusal == Verdict(members, repo.todos, actor, req)
  {
    var role := MemberRole(members, actor, req.groupID, Trim(req.groupID));
    if role.Err? {
      return Some(role.error);
    }
    if !ChangesTodo(Commands.KindOf(Commands.NormalizeAction(req.action))) {
      return None;
    }
    var row := repo.GetTodoByID(req.todoID);
    if row.None? {
      return Some(TodoNotFound);
    }
    if row.value.groupID != Trim(req.groupID) {
      return Some(WrongGroup);
    }
    if !Pipeline.CanModerate(role.value) && row.value.createdBy != actor {
      return Some(InsufficientPermissions);
    }
    return None;
  }

  /** What the endpoint answers before Accept, check by check, from the tables. */
  lemma VerdictExactly(members: Pipeline.Members, todos: map<string, Row>, actor: string, rawGroup: string,
                       group: string, rawTodo: string, changes: bool)
    ensures var verdict := VerdictOn(members, todos, actor, rawGroup, group, rawTodo, changes);
            var k := Membership.Key(rawGroup, actor);
            if group == "" then verdict == Some(InvalidGroupID)
            else if k !in members then verdict == Some(ForbiddenGroup)
            else if !changes then verdict == None
            else if rawTodo !in todos || todos[rawTodo].deletedAt.Some? then verdict == Some(TodoNotFound)
            else if todos[rawTodo].groupID != group then verdict == Some(WrongGroup)
            else if members[k].Member? && todos[rawTodo].createdBy != actor
            then verdict == Some(InsufficientPermissions)
            else verdict == None
  {
  }

  /** Which requests have their todo checked: those whose action reads as an update or a delete. */
  lemma ChangesExactly(req: Commands.Request)
    ensures ChangesTodo(Commands.KindOf(Commands.NormalizeAction(req.action)))
            <==> Trim(Lower(req.action)) in {"update-todo", "delete-todo"}
  {
    Commands.EngineReadsNormalisedAction(req.action);
    ChangesText(Trim(Lower(req.action)));
  }

  lemma ChangesText(action: string)
    ensures ChangesTodo(Commands.KindOf(if action == "" then "create-todo" else action))
            <==> action in {"update-todo", "delete-todo"}
  {
    Commands.NamesDiffer();
  }

  lemma VerdictIsTodoCheck(t: Tables, ask: Pipeline.Ask, role: Membership.Role)
    ensures TodoVerdict(Visible(t.todos, ask.rawTodo), ask.groupID, ask.rawActor, role).None?
            <==> Pipeline.TodoCheckPasses(t, ask, role)
  {
  }

  function AskOf(actor: Commands.Actor, req: Commands.Request, c: Commands.Command, kind: EventType): Pipeline.Ask {
    Pipeline.Ask(actor.userID, req.groupID, req.todoID, c.actorUserID, c.actorName, c.groupID, Trim(req.todoID), kind,
                 c.title)
  }

  /** Accept's command as the transition system records it. */
  function Published(c: Commands.Command, kind: EventType, checkedAt: nat): Pipeline.Command {
    Pipeline.Command(c.commandID, c.todoID, c.groupID, c.actorUserID, c.actorName, kind, c.title, checkedAt)
  }

  lemma KnownKind(actor: Commands.Actor, req: Commands.Request, newID: string, c: Commands.Command)
      returns (kind: EventType)
    requires Commands.RefusalOf(req).None? && Commands.AcceptedAs(actor, req, newID, c)
    ensures Commands.MapEventType(c.action) == Some(kind) && !kind.Other?
    ensures Commands.KindOf(Commands.NormalizeAction(req.action)) == Some(kind)
    ensures c.groupID != ""
  {
    Commands.EngineReadsNormalisedAction(req.action);
    var known := Commands.UnrefusedActionIsKnown(req);
    kind := known.value;
  }

  lemma AskReads(actor: Commands.Actor, req: Commands.Request, newID: string, c: Commands.Command, kind: EventType)
    requires Commands.AcceptedAs(actor, req, newID, c) && !kind.Other? && c.groupID != ""
    ensures Pipeline.Reads(AskOf(actor, req, c, kind))
  {
  }

  lemma AskIsPublished(actor: Commands.Actor, req: Commands.Request, newID: string, c: Commands.Command,
                       kind: EventType, checkedAt: nat)
    requires Commands.AcceptedAs(actor, req, newID, c)
    ensures Pipeline.Accepted(AskOf(actor, req, c, kind), newID, checkedAt) == Published(c, kind, checkedAt)
  {
  }

  lemma PassedChecks(members: Pipeline.Members, t: Tables, ask: Pipeline.Ask, req: Commands.Request, actor: string)
    requires Verdict(members, t.todos, actor, req).None?
    requires Commands.KindOf(Commands.NormalizeAction(req.action)) == Some(ask.kind)
    requires !ask.kind.Other? && ask.rawActor == actor && ask.rawGroup == req.groupID && ask.rawTodo == req.todoID
    requires ask.groupID == Trim(req.groupID)
    ensures Membership.Key(ask.rawGroup, ask.rawActor) in members
    ensures ask.kind.Created?
            || Pipeline.TodoCheckPasses(t, ask, members[Membership.Key(ask.rawGroup, ask.rawActor)])
  {
    if !ask.kind.Created? {
      VerdictIsTodoCheck(t, ask, members[Membership.Key(ask.rawGroup, ask.rawActor)]);
    }
  }

  /** A request that passes the handler's checks and Accept's goes through the transition system's own steps: its
      membership is read, its todo check passes, and what is published there is what Accept publishes. */
  lemma HandledRequestsTakeTheSteps(members: Pipeline.Members, t: Tables, actor: Commands.Actor, req: Commands.Request,
                                    newID: string, c: Commands.Command, checkedAt: nat) returns (ask: Pipeline.Ask)
    requires Verdict(members, t.todos, actor.userID, req).None? && Commands.RefusalOf(req).None?
    requires Commands.AcceptedAs(actor, req, newID, c)
    ensures Pipeline.Reads(ask)
    ensures Membership.Key(ask.rawGroup, ask.rawActor) in members
    ensures ask.kind.Created?
            || Pipeline.TodoCheckPasses(t, ask, members[Membership.Key(ask.rawGroup, ask.rawActor)])
    ensures Pipeline.Accepted(ask, newID, checkedAt) == Published(c, ask.kind, checkedAt)
    ensures Commands.MapEventType(c.action) == Some(ask.kind)
  {
    var kind := KnownKind(actor, req, newID, c);
    ask := AskOf(actor, req, c, kind);
    AskReads(actor, req, newID, c, kind);
    AskIsPublished(actor, req, newID, c, kind, checkedAt);
    PassedChecks(members, t, ask, req, actor.userID);
  }
}
