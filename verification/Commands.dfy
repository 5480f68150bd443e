/** From an API request to a command, and from a command to an event: Accept and the domain engine's Handle. */
module Commands {
  import opened Options
  import opened Text
  import opened Projection
  import Subjects

  datatype Actor = Actor(userID: string, username: string)

  datatype Request = Request(action: string, todoID: string, title: string, groupID: string)

  datatype Command = Command(
    commandID: string, todoID: string, actorUserID: string, actorName: string,
    groupID: string, action: string, title: string, createdAt: int)

  datatype AcceptError = TitleRequired | GroupRequired | TodoIDRequired | UnsupportedAction | PublishFailed

  const CREATE_TODO := "create-todo"
  const UPDATE_TODO := "update-todo"
  const DELETE_TODO := "delete-todo"

  function NormalizeAction(action: string): string {
    var normalized := Trim(Lower(action));
    if normalized == "" then CREATE_TODO else normalized
  }

  function KindOf(normalized: string): Option<EventType> {
    if normalized == CREATE_TODO then Some(Created)
    else if normalized == UPDATE_TODO then Some(Updated)
    else if normalized == DELETE_TODO then Some(Deleted)
    else None
  }

  /** mapEventType: None for an action the engine does not know. */
  function MapEventType(action: string): Option<EventType> {
    KindOf(Trim(Lower(action)))
  }

  /** Which texts the engine reads as which event. */
  lemma ActionsRead(action: string)
    ensures MapEventType(action) == Some(Created) <==> Trim(Lower(action)) == "create-todo"
    ensures MapEventType(action) == Some(Updated) <==> Trim(Lower(action)) == "update-todo"
    ensures MapEventType(action) == Some(Deleted) <==> Trim(Lower(action)) == "delete-todo"
    ensures MapEventType(action).None? <==>
              Trim(Lower(action)) !in {"create-todo", "update-todo", "delete-todo"}
  {
    NamesDiffer();
  }

  lemma NamesDiffer()
    ensures "create-todo" != "update-todo" && "update-todo" != "delete-todo" && "delete-todo" != "create-todo"
  {
    assert "create-todo"[0] == 'c' && "update-todo"[0] == 'u' && "delete-todo"[0] == 'd';
  }

  /** Each action's rule: a create needs a title, an update a todo id and a title, a delete a todo id. */
  function Refusal(kind: Option<EventType>, todoID: string, title: string): Option<AcceptError> {
    match kind
    case Some(Created) => if title == "" then Some(TitleRequired) else None
    case Some(Updated) =>
      if todoID == "" then Some(TodoIDRequired) else if title == "" then Some(TitleRequired) else None
    case Some(Deleted) => if todoID == "" then Some(TodoIDRequired) else None
    case _ => Some(UnsupportedAction)
  }

  lemma CreateIsNormal()
    ensures Trim(Lower(CREATE_TODO)) == CREATE_TODO
  {
    NormalIsFixed(CREATE_TODO);
  }

  /** The engine reads the action Accept normalised exactly as Accept did. */
  lemma EngineReadsNormalisedAction(action: string)
    ensures MapEventType(NormalizeAction(action)) == KindOf(NormalizeAction(action))
  {
    NormaliseIdempotent(action);
    CreateIsNormal();
  }

  /** The command an accepted request is published as. */
  ghost predicate AcceptedAs(actor: Actor, req: Request, newID: string, c: Command) {
    && c.commandID == newID
    && c.todoID == (if Trim(req.todoID) == "" then newID else Trim(req.todoID))
    && c.groupID == Trim(req.groupID)
    && c.title == Trim(req.title)
    && c.action == NormalizeAction(req.action)
    && c.actorUserID == (if Trim(actor.userID) == "" then "user-1" else actor.userID)
    && c.actorName == (if Trim(actor.username) == "" then "unknown" else actor.username)
  }

  /** A blank actor is published as user-1 and a blank name as unknown; others as they are. A create without a todo id
      is of a new todo, named like the command. */
  lemma Defaults(actor: Actor, req: Request, newID: string, c: Command)
    requires AcceptedAs(actor, req, newID, c)
    ensures Trim(actor.userID) == "" ==> c.actorUserID == "user-1"
    ensures Trim(actor.userID) != "" ==> c.actorUserID == actor.userID
    ensures Trim(actor.username) == "" ==> c.actorName == "unknown"
    ensures Trim(actor.username) != "" ==> c.actorName == actor.username
    ensures Trim(req.todoID) == "" ==> c.todoID == newID == c.commandID
  {
  }

  /** The first rule a request breaks. */
  function RefusalOf(req: Request): Option<AcceptError> {
    if Trim(req.groupID) == "" then Some(GroupRequired)
    else Refusal(KindOf(NormalizeAction(req.action)), Trim(req.todoID), Trim(req.title))
  }

  /** Exactly which requests are refused and why, from the trimmed texts; a blank action means a create. */
  ghost predicate Refuses(action: string, groupID: string, todoID: string, title: string, error: Option<AcceptError>) {
    && (groupID == "" ==> error == Some(GroupRequired))
    && (groupID != "" && (action == "" || action == "create-todo") ==>
          error == if title == "" then Some(TitleRequired) else None)
    && (groupID != "" && action == "update-todo" ==>
          error == if todoID == "" then Some(TodoIDRequired) else if title == "" then Some(TitleRequired) else None)
    && (groupID != "" && action == "delete-todo" ==> error == if todoID == "" then Some(TodoIDRequired) else None)
    && (groupID != "" && action !in {"", "create-todo", "update-todo", "delete-todo"} ==>
          error == Some(UnsupportedAction))
  }

  lemma KindRefuses(action: string, todoID: string, title: string)
    ensures var normalized := if action == "" then CREATE_TODO else action;
            forall groupID :: groupID != "" ==>
              Refuses(action, groupID, todoID, title, Refusal(KindOf(normalized), todoID, title))
  {
    NamesDiffer();
  }

  lemma RefusedExactly(req: Request)
    ensures Refuses(Trim(Lower(req.action)), Trim(req.groupID), Trim(req.todoID), Trim(req.title), RefusalOf(req))
  {
    KindRefuses(Trim(Lower(req.action)), Trim(req.todoID), Trim(req.title));
  }

  /** The normalised action is the lower-cased, trimmed text, and a blank one is a create. */
  lemma BlankMeansCreate(action: string)
    ensures NormalizeAction(action) == if Trim(Lower(action)) == "" then "create-todo" else Trim(Lower(action))
  {
  }

  /** `newID` is what NewID returns and `publishFails` whether the publish call does; `subject` is where a command
      went. */
  method Accept(crc: string -> nat, actor: Actor, req: Request, newID: string, now: int, publishFails: bool)
    returns (r: Result<Command, AcceptError>, subject: Option<string>)
    ensures RefusalOf(req).Some? ==> r == Err(RefusalOf(req).value)
    ensures RefusalOf(req).None? && publishFails ==> r == Err(PublishFailed)
    ensures RefusalOf(req).None? && !publishFails ==>
              r.Ok? && AcceptedAs(actor, req, newID, r.value) && r.value.createdAt == now
    ensures exists refusal ::
              && Refuses(Trim(Lower(req.action)), Trim(req.groupID), Trim(req.todoID), Trim(req.title), refusal)
              && (refusal.Some? ==> r == Err(refusal.value))
              && (refusal.None? ==> r.Ok? || (publishFails && r == Err(PublishFailed)))
    ensures r.Ok? ==> subject == Some(Subjects.GetSubject(crc, "group", r.value.groupID))
    ensures r.Err? ==> subject == None
  {
    subject := None;
    RefusedExactly(req);
    var groupID := Trim(req.groupID);
    if groupID == "" {
      return Err(GroupRequired), None;
    }
    var action := NormalizeAction(req.action);
    var todoID := Trim(req.todoID);
    var title := Trim(req.title);
    var refusal := CheckAction(action, todoID, title);
    if refusal.Some? {
      return Err(refusal.value), None;
    }
    var actorID, actorName := actor.userID, actor.username;
    if Trim(actorID) == "" {
      actorID := "user-1";
    }
    if Trim(actorName) == "" {
      actorName := "unknown";
    }
    if todoID == "" {
      todoID := newID;
    }
    if publishFails {
      return Err(PublishFailed), None;
    }
    r := Ok(Command(newID, todoID, actorID, actorName, groupID, action, title, now));
    subject := Some(Subjects.GetSubject(crc, "group", groupID));
  }

  /** Accept's switch over the normalised action. */
  method CheckAction(action: string, todoID: string, title: string) returns (refusal: Option<AcceptError>)
    ensures refusal == Refusal(KindOf(action), todoID, title)
    ensures action != "" ==> forall groupID :: groupID != "" ==> Refuses(action, groupID, todoID, title, refusal)
  {
    NamesDiffer();
    if action == CREATE_TODO {
      return if title == "" then Some(TitleRequired) else None;
    } else if action == UPDATE_TODO {
      return if todoID == "" then Some(TodoIDRequired) else if title == "" then Some(TitleRequired) else None;
    } else if action == DELETE_TODO {
      return if todoID == "" then Some(TodoIDRequired) else None;
    }
    return Some(UnsupportedAction);
  }

  /** The domain engine's Handle up to its publish: None for an action it does not know. */
  function Handle(crc: string -> nat, subject: string, c: Command, eventID: string, now: int): Option<Event> {
    var kind :- MapEventType(c.action);
    Some(Event(eventID, c.commandID, c.todoID, c.groupID, c.actorUserID, c.actorName, kind, c.title, now,
               Subjects.ShardFromSubject(crc, c.groupID, subject)))
  }

  lemma UnrefusedKind(kind: Option<EventType>, todoID: string, title: string)
    requires Refusal(kind, todoID, title).None?
    ensures kind.Some? && !kind.value.Other?
    ensures !kind.value.Created? ==> todoID != ""
    ensures !kind.value.Deleted? ==> title != ""
  {
  }

  /** A request that breaks no rule names an action the engine knows, with the todo id and title it needs. */
  lemma UnrefusedActionIsKnown(req: Request) returns (kind: Option<EventType>)
    requires RefusalOf(req).None?
    ensures kind == MapEventType(NormalizeAction(req.action))
    ensures kind.Some? && !kind.value.Other?
    ensures !kind.value.Created? ==> Trim(req.todoID) != ""
    ensures !kind.value.Deleted? ==> Trim(req.title) != ""
  {
    EngineReadsNormalisedAction(req.action);
    kind := KindOf(NormalizeAction(req.action));
    UnrefusedKind(kind, Trim(req.todoID), Trim(req.title));
  }

  lemma KindOfRequest(req: Request, kind: EventType)
    requires MapEventType(NormalizeAction(req.action)) == Some(kind)
    ensures kind.Created? <==> Trim(Lower(req.action)) in {"", "create-todo"}
    ensures kind.Updated? <==> Trim(Lower(req.action)) == "update-todo"
    ensures kind.Deleted? <==> Trim(Lower(req.action)) == "delete-todo"
  {
    EngineReadsNormalisedAction(req.action);
    KindOfText(Trim(Lower(req.action)), kind);
  }

  lemma KindOfText(action: string, kind: EventType)
    requires KindOf(if action == "" then CREATE_TODO else action) == Some(kind)
    ensures kind.Created? <==> action in {"", "create-todo"}
    ensures kind.Updated? <==> action == "update-todo"
    ensures kind.Deleted? <==> action == "delete-todo"
  {
    NamesDiffer();
  }

  lemma HandledEvent(crc: string -> nat, c: Command, eventID: string, now: int)
    requires MapEventType(c.action).Some?
    ensures var e := Handle(crc, Subjects.GetSubject(crc, "group", c.groupID), c, eventID, now);
            e == Some(Event(eventID, c.commandID, c.todoID, c.groupID, c.actorUserID, c.actorName,
                            MapEventType(c.action).value, c.title, now, Subjects.GetShardID(crc, c.groupID)))
  {
    Subjects.ShardRoundTrip(crc, "group", c.groupID, c.groupID);
  }

  lemma AcceptedBecomesEvent(crc: string -> nat, actor: Actor, req: Request, newID: string, c: Command,
                             eventID: string, now: int) returns (kind: EventType)
    requires RefusalOf(req).None? && AcceptedAs(actor, req, newID, c)
    ensures Handle(crc, Subjects.GetSubject(crc, "group", c.groupID), c, eventID, now)
            == Some(Event(eventID, newID, c.todoID, Trim(req.groupID), c.actorUserID, c.actorName, kind,
                          Trim(req.title), now, Subjects.GetShardID(crc, Trim(req.groupID))))
    ensures MapEventType(NormalizeAction(req.action)) == Some(kind) && !kind.Other?
    ensures !kind.Created? ==> c.todoID == Trim(req.todoID) && c.todoID != ""
    ensures !kind.Deleted? ==> Trim(req.title) != ""
  {
    var known := UnrefusedActionIsKnown(req);
    HandledEvent(crc, c, eventID, now);
    kind := known.value;
  }

  /** No accepted command is discarded by the engine: it becomes the event its action names, of the request's todo,
      group and actor, on the group's own shard; an update or delete names the todo the request named. */
  lemma AcceptedCommandsAreHandled(crc: string -> nat, actor: Actor, req: Request, newID: string, c: Command,
                                   eventID: string, now: int) returns (kind: EventType)
    requires RefusalOf(req).None? && AcceptedAs(actor, req, newID, c)
    ensures Handle(crc, Subjects.GetSubject(crc, "group", c.groupID), c, eventID, now)
            == Some(Event(eventID, newID, c.todoID, Trim(req.groupID), c.actorUserID, c.actorName, kind,
                          Trim(req.title), now, Subjects.GetShardID(crc, Trim(req.groupID))))
    ensures !kind.Other?
    ensures kind.Created? <==> Trim(Lower(req.action)) in {"", "create-todo"}
    ensures kind.Updated? <==> Trim(Lower(req.action)) == "update-todo"
    ensures kind.Deleted? <==> Trim(Lower(req.action)) == "delete-todo"
    ensures !kind.Created? ==> c.todoID == Trim(req.todoID) && c.todoID != ""
    ensures !kind.Deleted? ==> Trim(req.title) != ""
  {
    kind := AcceptedBecomesEvent(crc, actor, req, newID, c, eventID, now);
    KindOfRequest(req, kind);
  }
}
