/** Groups and roles: the table effects, the service's checks, and every interleaving of the two. */
module Membership {
  import opened Options
  import opened Text

  datatype Role = Owner | Admin | Member

  datatype Key = Key(groupID: string, userID: string)

  /** users maps user names to ids; groups maps group ids to the user who created them. */
  datatype Tables = Tables(users: map<string, string>, groups: map<string, string>, members: map<Key, Role>)

  datatype Error =
    | InvalidGroupName | InvalidGroupID | InvalidUsername | InvalidRole | ForbiddenGroup | ForbiddenRole | NotFound
    | ForeignKeyViolation | UniqueViolation

  // ---------- repository ----------

  /** Both inserts of the CreateGroup transaction: the id must be new, and the creator a user. */
  function InsertGroup(t: Tables, groupID: string, creator: string): Result<Tables, Error> {
    if groupID in t.groups then Err(UniqueViolation)
    else if creator !in t.users.Values then Err(ForeignKeyViolation)
    else Ok(t.(groups := t.groups[groupID := creator], members := t.members[Key(groupID, creator) := Owner]))
  }

  /** The delete cascades to the group's memberships. */
  function RemoveGroup(t: Tables, groupID: string): Result<Tables, Error> {
    if groupID !in t.groups then Err(NotFound)
    else Ok(t.(groups := t.groups - {groupID},
               members := map k | k in t.members && k.groupID != groupID :: t.members[k]))
  }

  /** Inserts a membership or overwrites its role; the group must still exist. */
  function UpsertMember(t: Tables, groupID: string, username: string, role: Role): Result<Tables, Error> {
    if username !in t.users then Err(NotFound)
    else if groupID !in t.groups then Err(ForeignKeyViolation)
    else Ok(t.(members := t.members[Key(groupID, t.users[username]) := role]))
  }

  /** Changes the role of an existing membership only. */
  function SetRole(t: Tables, groupID: string, username: string, role: Role): Result<Tables, Error> {
    if username !in t.users || Key(groupID, t.users[username]) !in t.members then Err(NotFound)
    else Ok(t.(members := t.members[Key(groupID, t.users[username]) := role]))
  }

  function RoleOf(t: Tables, groupID: string, userID: string): Option<Role> {
    if Key(groupID, userID) in t.members then Some(t.members[Key(groupID, userID)]) else None
  }

  // ---------- the service's checks ----------

  /** What an add or update request asks for, once its texts have been read. */
  datatype Grant = Grant(groupID: string, username: string, role: Role)

  function ParseRole(text: string): Option<Role> {
    if text == "owner" then Some(Owner)
    else if text == "admin" then Some(Admin)
    else if text == "member" then Some(Member)
    else None
  }

  /** Reads a request's trimmed texts: blank group, blank name, no such role and the owner role are refused, in this
      order. */
  function ParseGrant(group: string, name: string, role: string): (r: Result<Grant, Error>)
    ensures r.Ok? ==>
              && r.value.groupID == group && r.value.username == name
              && (r.value.role.Admin? <==> role == "admin") && (r.value.role.Member? <==> role == "member")
    ensures r == Err(InvalidGroupID) <==> group == ""
    ensures r == Err(InvalidUsername) <==> group != "" && name == ""
    ensures r == Err(InvalidRole) <==> group != "" && name != "" && role !in {"admin", "member"}
    ensures r.Err? ==> r.error in {InvalidGroupID, InvalidUsername, InvalidRole}
  {
    assert "admin"[0] == 'a' && "member"[0] == 'm' && "owner"[0] == 'o';
    if group == "" then Err(InvalidGroupID)
    else if name == "" then Err(InvalidUsername)
    else match ParseRole(role)
      case Some(Admin) => Ok(Grant(group, name, Admin))
      case Some(Member) => Ok(Grant(group, name, Member))
      case _ => Err(InvalidRole)
  }

  /** An add without a role asks for the member role. */
  function RoleOrMember(role: string): (r: string)
    ensures r == if role == "" then "member" else role
  {
    if role == "" then "member" else role
  }

  function CheckDelete(t: Tables, actor: string, groupID: string): Result<(), Error> {
    match RoleOf(t, groupID, actor)
    case None => Err(ForbiddenGroup)
    case Some(role) => if role.Owner? then Ok(()) else Err(ForbiddenRole)
  }

  function CheckAdd(t: Tables, actor: string, g: Grant): Result<(), Error> {
    match RoleOf(t, g.groupID, actor)
    case None => Err(ForbiddenGroup)
    case Some(role) =>
      if role.Member? then Err(ForbiddenRole)
      else if !role.Owner? && g.role.Admin? then Err(ForbiddenRole)
      else Ok(())
  }

  function CheckUpdate(t: Tables, actor: string, g: Grant): Result<(), Error> {
    match RoleOf(t, g.groupID, actor)
    case None => Err(ForbiddenGroup)
    case Some(role) => if role.Owner? then Ok(()) else Err(ForbiddenRole)
  }

  /** A whole add, when nothing happens between its check and its write. */
  function AddGranted(t: Tables, actor: string, g: Grant): Result<Tables, Error> {
    match CheckAdd(t, actor, g)
    case Err(e) => Err(e)
    case Ok(_) => UpsertMember(t, g.groupID, g.username, g.role)
  }

  function AddRead(t: Tables, actor: string, group: string, name: string, role: string): Result<Tables, Error> {
    match ParseGrant(group, name, role)
    case Err(e) => Err(e)
    case Ok(g) => AddGranted(t, actor, g)
  }

  /** AddMemberByUsername with the case table `lower`. */
  function Add(t: Tables, lower: char -> char, actor: string, groupID: string, username: string, role: string)
    : Result<Tables, Error>
  {
    AddRead(t, actor, Trim(groupID), LowerBy(lower, Trim(username)), RoleOrMember(Trim(role)))
  }

  function UpdateGranted(t: Tables, actor: string, g: Grant): Result<Tables, Error> {
    match CheckUpdate(t, actor, g)
    case Err(e) => Err(e)
    case Ok(_) => SetRole(t, g.groupID, g.username, g.role)
  }

  function UpdateRead(t: Tables, actor: string, group: string, name: string, role: string): Result<Tables, Error> {
    match ParseGrant(group, name, role)
    case Err(e) => Err(e)
    case Ok(g) => UpdateGranted(t, actor, g)
  }

  /** UpdateMemberRoleByUsername with the case table `lower`. */
  function Update(t: Tables, lower: char -> char, actor: string, groupID: string, username: string, role: string)
    : Result<Tables, Error>
  {
    UpdateRead(t, actor, Trim(groupID), LowerBy(lower, Trim(username)), Trim(role))
  }

  function DeleteRead(t: Tables, actor: string, group: string): Result<Tables, Error> {
    match CheckDelete(t, actor, group)
    case Err(e) => Err(e)
    case Ok(_) => RemoveGroup(t, group)
  }

  function Delete(t: Tables, actor: string, groupID: string): Result<Tables, Error> {
    if Trim(groupID) == "" then Err(InvalidGroupID) else DeleteRead(t, actor, Trim(groupID))
  }

  // ---------- what the table operations and permissions amount to ----------

  /** A creation needs a new id and a known user; it makes that user the owner and changes nothing else. */
  lemma CreationExactly(t: Tables, groupID: string, creator: string)
    ensures InsertGroup(t, groupID, creator).Ok? <==> groupID !in t.groups && creator in t.users.Values
    ensures groupID in t.groups ==> InsertGroup(t, groupID, creator) == Err(UniqueViolation)
    ensures InsertGroup(t, groupID, creator).Ok? ==>
              var t' := InsertGroup(t, groupID, creator).value;
              && t'.users == t.users && t'.groups == t.groups[groupID := creator]
              && t'.members == t.members[Key(groupID, creator) := Owner]
  {
  }

  /** Only an owner deletes; the group and exactly its memberships go. */
  lemma DeletionExactly(t: Tables, actor: string, groupID: string)
    ensures var k, r := Key(groupID, actor), DeleteRead(t, actor, groupID);
            && (r == Err(ForbiddenGroup) <==> k !in t.members)
            && (r == Err(ForbiddenRole) <==> k in t.members && !t.members[k].Owner?)
            && (r == Err(NotFound) <==> k in t.members && t.members[k].Owner? && groupID !in t.groups)
            && (r.Ok? <==> k in t.members && t.members[k].Owner? && groupID in t.groups)
            && (r.Ok? ==>
                  && r.value.users == t.users
                  && r.value.groups.Keys == t.groups.Keys - {groupID}
                  && (forall g :: g in t.groups && g != groupID ==> r.value.groups[g] == t.groups[g])
                  && (forall j :: j in r.value.members <==> j in t.members && j.groupID != groupID)
                  && (forall j :: j in r.value.members ==> r.value.members[j] == t.members[j]))
  {
  }

  /** Who may add whom, which error each refusal gives, and what an add writes. */
  lemma AdditionExactly(t: Tables, actor: string, g: Grant)
    ensures var k, r := Key(g.groupID, actor), AddGranted(t, actor, g);
            var may := k in t.members && (t.members[k].Owner? || (t.members[k].Admin? && !g.role.Admin?));
            && (r == Err(ForbiddenGroup) <==> k !in t.members)
            && (r == Err(ForbiddenRole) <==> k in t.members && !may)
            && (r == Err(NotFound) <==> may && g.username !in t.users)
            && (r == Err(ForeignKeyViolation) <==> may && g.username in t.users && g.groupID !in t.groups)
            && (r.Ok? <==> may && g.username in t.users && g.groupID in t.groups)
            && (r.Ok? ==>
              r.value == Tables(t.users, t.groups, t.members[Key(g.groupID, t.users[g.username]) := g.role]))
  {
  }

  /** Only an owner changes a role, and only of somebody who is a member. */
  lemma ChangeExactly(t: Tables, actor: string, g: Grant)
    ensures var k, r := Key(g.groupID, actor), UpdateGranted(t, actor, g);
            var may := k in t.members && t.members[k].Owner?;
            var found := g.username in t.users && Key(g.groupID, t.users[g.username]) in t.members;
            && (r == Err(ForbiddenGroup) <==> k !in t.members)
            && (r == Err(ForbiddenRole) <==> k in t.members && !may)
            && (r == Err(NotFound) <==> may && !found)
            && (r.Ok? <==> may && found)
            && (r.Ok? ==>
              r.value == Tables(t.users, t.groups, t.members[Key(g.groupID, t.users[g.username]) := g.role]))
  {
  }

  /** The service over its tables, one call after another. */
  class Service {
    const lower: char -> char
    var users: map<string, string>
    var groups: map<string, string>
    var members: map<Key, Role>

    function State(): Tables
      reads this
    {
      Tables(users, groups, members)
    }

    constructor (lower: char -> char)
      ensures this.lower == lower && State() == Tables(map[], map[], map[])
    {
      this.lower := lower;
      users, groups, members := map[], map[], map[];
    }

    /** `newID` is what NewID returns. */
    method CreateGroup(actor: string, name: string, newID: string) returns (r: Result<string, Error>)
      modifies this
      ensures Trim(name) == "" ==> r == Err(InvalidGroupName) && State() == old(State())
      ensures Trim(name) != "" ==>
                match InsertGroup(old(State()), newID, actor)
                case Ok(t) => r == Ok(newID) && State() == t
                case Err(e) => r == Err(e) && State() == old(State())
      ensures r.Ok? ==> newID in groups && groups[newID] == actor && RoleOf(State(), newID, actor) == Some(Owner)
    {
      if Trim(name) == "" {
        return Err(InvalidGroupName);
      }
      if newID in groups {
        return Err(UniqueViolation);
      }
      if actor !in users.Values {
        return Err(ForeignKeyViolation);
      }
      groups := groups[newID := actor];
      members := members[Key(newID, actor) := Owner];
      return Ok(newID);
    }

    /** DeleteGroup once its text has been read. */
    method DeleteNamed(actor: string, group: string) returns (r: Result<(), Error>)
      modifies this
      ensures match DeleteRead(old(State()), actor, group)
              case Ok(t) => r.Ok? && State() == t
              case Err(e) => r == Err(e) && State() == old(State())
      ensures r != Err(InvalidGroupID)
      ensures r.Ok? ==> RoleOf(old(State()), group, actor) == Some(Owner) && group in old(groups) && group !in groups
    {
      var checked := CheckDelete(State(), actor, group);
      if checked.Err? {
        return Err(checked.error);
      }
      if group !in groups {
        return Err(NotFound);
      }
      groups := groups - {group};
      members := map k | k in members && k.groupID != group :: members[k];
      return Ok(());
    }

    method DeleteGroup(actor: string, groupID: string) returns (r: Result<(), Error>)
      modifies this
      ensures match Delete(old(State()), actor, groupID)
              case Ok(t) => r.Ok? && State() == t
              case Err(e) => r == Err(e) && State() == old(State())
      ensures r == Err(InvalidGroupID) <==> Trim(groupID) == ""
      ensures r.Ok? ==>
                && RoleOf(old(State()), Trim(groupID), actor) == Some(Owner)
                && Trim(groupID) in old(groups) && Trim(groupID) !in groups
    {
      var group := Trim(groupID);
      if group == "" {
        return Err(InvalidGroupID);
      }
      r := DeleteNamed(actor, group);
    }

    /** AddMemberByUsername once its texts have been read. */
    method AddMember(actor: string, g: Grant) returns (r: Result<(), Error>)
      modifies this
      ensures match AddGranted(old(State()), actor, g)
              case Ok(t) => r.Ok? && State() == t
              case Err(e) => r == Err(e) && State() == old(State())
      ensures r.Ok? ==> g.username in users && RoleOf(State(), g.groupID, users[g.username]) == Some(g.role)
      ensures r.Ok? ==> forall k :: k != Key(g.groupID, users[g.username]) ==>
                RoleOf(State(), k.groupID, k.userID) == RoleOf(old(State()), k.groupID, k.userID)
    {
      var checked := CheckAdd(State(), actor, g);
      if checked.Err? {
        return Err(checked.error);
      }
      if g.username !in users {
        return Err(NotFound);
      }
      if g.groupID !in groups {
        return Err(ForeignKeyViolation);
      }
      members := members[Key(g.groupID, users[g.username]) := g.role];
      return Ok(());
    }

    method AddMemberNamed(actor: string, group: string, name: string, role: string) returns (r: Result<(), Error>)
      modifies this
      ensures match AddRead(old(State()), actor, group, name, role)
              case Ok(t) => r.Ok? && State() == t
              case Err(e) => r == Err(e) && State() == old(State())
      ensures r == Err(InvalidGroupID) <==> group == ""
      ensures r == Err(InvalidUsername) <==> group != "" && name == ""
      ensures r == Err(InvalidRole) <==> group != "" && name != "" && role !in {"admin", "member"}
      ensures r.Ok? ==>
              name in users && RoleOf(State(), group, users[name]) == Some(if role == "admin" then Admin else Member)
    {
      var parsed := ParseGrant(group, name, role);
      if parsed.Err? {
        return Err(parsed.error);
      }
      r := AddMember(actor, parsed.value);
    }

    method AddMemberByUsername(actor: string, groupID: string, username: string, role: string)
      returns (r: Result<(), Error>)
      modifies this
      ensures match Add(old(State()), lower, actor, groupID, username, role)
              case Ok(t) => r.Ok? && State() == t
              case Err(e) => r == Err(e) && State() == old(State())
      ensures r == Err(InvalidGroupID) <==> Trim(groupID) == ""
      ensures r == Err(InvalidUsername) <==> Trim(groupID) != "" && LowerBy(lower, Trim(username)) == ""
      ensures r == Err(InvalidRole) <==>
                Trim(groupID) != "" && LowerBy(lower, Trim(username)) != "" && Trim(role) !in {"", "admin", "member"}
      ensures r.Ok? ==>
                var name := LowerBy(lower, Trim(username));
                name in users && RoleOf(State(), Trim(groupID), users[name])
                                 == Some(if Trim(role) == "admin" then Admin else Member)
    {
      r := AddMemberNamed(actor, Trim(groupID), LowerBy(lower, Trim(username)), RoleOrMember(Trim(role)));
    }

    /** UpdateMemberRoleByUsername once its texts have been read. */
    method UpdateMemberRole(actor: string, g: Grant) returns (r: Result<(), Error>)
      modifies this
      ensures match UpdateGranted(old(State()), actor, g)
              case Ok(t) => r.Ok? && State() == t
              case Err(e) => r == Err(e) && State() == old(State())
      ensures r.Ok? ==> g.username in users && RoleOf(State(), g.groupID, users[g.username]) == Some(g.role)
      ensures r.Ok? ==> forall k :: k != Key(g.groupID, users[g.username]) ==>
                RoleOf(State(), k.groupID, k.userID) == RoleOf(old(State()), k.groupID, k.userID)
    {
      var checked := CheckUpdate(State(), actor, g);
      if checked.Err? {
        return Err(checked.error);
      }
      if g.username !in users || Key(g.groupID, users[g.username]) !in members {
        return Err(NotFound);
      }
      members := members[Key(g.groupID, users[g.username]) := g.role];
      return Ok(());
    }

    method UpdateMemberRoleNamed(actor: string, group: string, name: string, role: string)
      returns (r: Result<(), Error>)
      modifies this
      ensures match UpdateRead(old(State()), actor, group, name, role)
              case Ok(t) => r.Ok? && State() == t
              case Err(e) => r == Err(e) && State() == old(State())
      ensures r == Err(InvalidGroupID) <==> group == ""
      ensures r == Err(InvalidUsername) <==> group != "" && name == ""
      ensures r == Err(InvalidRole) <==> group != "" && name != "" && role !in {"admin", "member"}
      ensures r.Ok? ==>
              name in users && RoleOf(State(), group, users[name]) == Some(if role == "admin" then Admin else Member)
    {
      var parsed := ParseGrant(group, name, role);
      if parsed.Err? {
        return Err(parsed.error);
      }
      r := UpdateMemberRole(actor, parsed.value);
    }

    method UpdateMemberRoleByUsername(actor: string, groupID: string, username: string, role: string)
      returns (r: Result<(), Error>)
      modifies this
      ensures match Update(old(State()), lower, actor, groupID, username, role)
              case Ok(t) => r.Ok? && State() == t
              case Err(e) => r == Err(e) && State() == old(State())
      ensures r == Err(InvalidGroupID) <==> Trim(groupID) == ""
      ensures r == Err(InvalidUsername) <==> Trim(groupID) != "" && LowerBy(lower, Trim(username)) == ""
      ensures r == Err(InvalidRole) <==>
                Trim(groupID) != "" && LowerBy(lower, Trim(username)) != "" && Trim(role) !in {"admin", "member"}
      ensures r.Ok? ==>
                var name := LowerBy(lower, Trim(username));
                name in users && RoleOf(State(), Trim(groupID), users[name])
                                 == Some(if Trim(role) == "admin" then Admin else Member)
    {
      r := UpdateMemberRoleNamed(actor, Trim(groupID), LowerBy(lower, Trim(username)), Trim(role));
    }
  }

  // ---------- runs: a check and its write are separate statements ----------

  datatype Pc =
    | Deleting(actor: string, groupID: string, checkedAt: nat)
    | Adding(actor: string, grant: Grant, checkedAt: nat)
    | Updating(actor: string, grant: Grant, checkedAt: nat)

  /** Who granted an entry, and in which past membership table the check found that actor. */
  datatype Grantor = Grantor(actor: string, checkedAt: nat)

  datatype State = State(
    tables: Tables,
    creators: map<string, string>,     // every group ever created
    calls: map<nat, Pc>,
    history: seq<map<Key, Role>>,      // the membership table after each step so far
    grantors: map<Key, Grantor>)

  datatype Step =
    | CreateUser(username: string, userID: string)
    | CreateGroup(actor: string, groupID: string)
    | BeginDelete(call: nat, actor: string, groupID: string) | FinishDelete(call: nat)
    | BeginAdd(call: nat, actor: string, grant: Grant) | FinishAdd(call: nat)
    | BeginUpdate(call: nat, actor: string, grant: Grant) | FinishUpdate(call: nat)

  const NO_TABLES := Tables(map[], map[], map[])
  const INITIAL := State(NO_TABLES, map[], map[], [map[]], map[])

  /** Ids are fresh; a call writes only after its check passed, and ParseGrant hands on no owner role. */
  predicate Enabled(st: State, step: Step) {
    match step
    case CreateUser(name, id) => name !in st.tables.users && id !in st.tables.users.Values
    case CreateGroup(_, id) => id !in st.creators
    case BeginDelete(c, actor, g) => c !in st.calls && CheckDelete(st.tables, actor, g).Ok?
    case FinishDelete(c) => c in st.calls && st.calls[c].Deleting?
    case BeginAdd(c, actor, g) => c !in st.calls && !g.role.Owner? && CheckAdd(st.tables, actor, g).Ok?
    case FinishAdd(c) => c in st.calls && st.calls[c].Adding?
    case BeginUpdate(c, actor, g) => c !in st.calls && !g.role.Owner? && CheckUpdate(st.tables, actor, g).Ok?
    case FinishUpdate(c) => c in st.calls && st.calls[c].Updating?
  }

  /** A write that the database refuses changes nothing. */
  function OrUnchanged(r: Result<Tables, Error>, t: Tables): Tables {
    match r
    case Ok(t') => t'
    case Err(_) => t
  }

  function WriteTables(st: State, step: Step): Tables
    requires Enabled(st, step)
  {
    var t := st.tables;
    match step
    case CreateUser(name, id) => t.(users := t.users[name := id])
    case CreateGroup(actor, id) => OrUnchanged(InsertGroup(t, id, actor), t)
    case FinishDelete(c) => OrUnchanged(RemoveGroup(t, st.calls[c].groupID), t)
    case FinishAdd(c) =>
      var g := st.calls[c].grant;
      OrUnchanged(UpsertMember(t, g.groupID, g.username, g.role), t)
    case FinishUpdate(c) =>
      var g := st.calls[c].grant;
      OrUnchanged(SetRole(t, g.groupID, g.username, g.role), t)
    case _ => t
  }

  function Calls(st: State, step: Step): map<nat, Pc>
    requires Enabled(st, step)
  {
    var now := if st.history == [] then 0 else |st.history| - 1;
    match step
    case BeginDelete(c, actor, g) => st.calls[c := Deleting(actor, g, now)]
    case BeginAdd(c, actor, g) => st.calls[c := Adding(actor, g, now)]
    case BeginUpdate(c, actor, g) => st.calls[c := Updating(actor, g, now)]
    case FinishDelete(c) => st.calls - {c}
    case FinishAdd(c) => st.calls - {c}
    case FinishUpdate(c) => st.calls - {c}
    case _ => st.calls
  }

  /** Bookkeeping: the actor behind the role a finished add or update wrote. */
  function Grantors(st: State, step: Step): map<Key, Grantor>
    requires Enabled(st, step)
  {
    match step
    case FinishAdd(c) =>
      var pc := st.calls[c];
      if pc.grant.username in st.tables.users
      then st.grantors[Key(pc.grant.groupID, st.tables.users[pc.grant.username]) := Grantor(pc.actor, pc.checkedAt)]
      else st.grantors
    case FinishUpdate(c) =>
      var pc := st.calls[c];
      if pc.grant.username in st.tables.users
      then st.grantors[Key(pc.grant.groupID, st.tables.users[pc.grant.username]) := Grantor(pc.actor, pc.checkedAt)]
      else st.grantors
    case _ => st.grantors
  }

  function Apply(st: State, step: Step): State
    requires Enabled(st, step)
  {
    var t := WriteTables(st, step);
    State(t,
          if step.CreateGroup? then st.creators[step.groupID := step.actor] else st.creators,
          Calls(st, step), st.history + [t.members], Grantors(st, step))
  }

  ghost predicate Next(st: State, st': State) {
    exists step :: Enabled(st, step) && st' == Apply(st, step)
  }

  ghost predicate NextAt(states: seq<State>, i: nat)
    requires 0 < i < |states|
  {
    Next(states[i - 1], states[i])
  }

  ghost predicate Run(states: seq<State>) {
    && states != []
    && states[0] == INITIAL
    && forall i :: 0 < i < |states| ==> NextAt(states, i)
  }

  // ---------- the laws ----------

  /** No membership refers to a missing group, and only a group's creator is ever its owner. */
  ghost predicate OwnerLaw(st: State) {
    && (forall g :: g in st.tables.groups ==> g in st.creators && st.tables.groups[g] == st.creators[g])
    && (forall k :: k in st.tables.members ==> k.groupID in st.tables.groups)
    && (forall k :: k in st.tables.members && st.tables.members[k].Owner? ==> st.tables.groups[k.groupID] == k.userID)
    && (forall c :: c in st.calls && !st.calls[c].Deleting? ==> !st.calls[c].grant.role.Owner?)
  }

  lemma OwnerLawKept(st: State, step: Step)
    requires OwnerLaw(st) && Enabled(st, step)
    ensures OwnerLaw(Apply(st, step))
  {
  }

  /** The past table `at` shows `actor` with a role that may do this in the group: the creator as owner, or, where
      admins may do it too, an owner or admin. */
  ghost predicate WasAllowed(st: State, groupID: string, actor: string, at: nat, ownerOnly: bool) {
    && at < |st.history|
    && Key(groupID, actor) in st.history[at]
    && !st.history[at][Key(groupID, actor)].Member?
    && (ownerOnly ==>
          && st.history[at][Key(groupID, actor)].Owner?
          && groupID in st.creators && st.creators[groupID] == actor)
  }

  /** The check behind a call that has yet to write. */
  ghost predicate CallAllowed(st: State, pc: Pc) {
    match pc
    case Deleting(actor, groupID, at) => WasAllowed(st, groupID, actor, at, true)
    case Adding(actor, g, at) => WasAllowed(st, g.groupID, actor, at, g.role.Admin?)
    case Updating(actor, g, at) => WasAllowed(st, g.groupID, actor, at, true)
  }

  ghost predicate EntryAllowed(st: State, k: Key, role: Role) {
    !role.Owner? ==>
      k in st.grantors && WasAllowed(st, k.groupID, st.grantors[k].actor, st.grantors[k].checkedAt, role.Admin?)
  }

  ghost predicate GrantLaw(st: State) {
    && st.history != [] && st.history[|st.history| - 1] == st.tables.members
    && (forall c :: c in st.calls ==> CallAllowed(st, st.calls[c]))
    && (forall k :: k in st.tables.members ==> EntryAllowed(st, k, st.tables.members[k]))
  }

  lemma WasAllowedStays(st: State, step: Step, groupID: string, actor: string, at: nat, ownerOnly: bool)
    requires Enabled(st, step) && WasAllowed(st, groupID, actor, at, ownerOnly)
    ensures WasAllowed(Apply(st, step), groupID, actor, at, ownerOnly)
  {
  }

  /** A call that stays keeps its check, and a call that begins has just passed it. */
  lemma CallAllowedKept(st: State, step: Step, c: nat)
    requires OwnerLaw(st) && GrantLaw(st) && Enabled(st, step) && c in Apply(st, step).calls
    ensures CallAllowed(Apply(st, step), Apply(st, step).calls[c])
  {
    var st', now := Apply(st, step), |st.history| - 1;
    assert st'.history[now] == st.tables.members;
    if c in st.calls {
      match st.calls[c]
      case Deleting(actor, g, at) => WasAllowedStays(st, step, g, actor, at, true);
      case Adding(actor, g, at) => WasAllowedStays(st, step, g.groupID, actor, at, g.role.Admin?);
      case Updating(actor, g, at) => WasAllowedStays(st, step, g.groupID, actor, at, true);
    }
  }

  /** A grant that is written passes its check on to the entry. */
  lemma GrantPassesOn(st: State, step: Step, actor: string, g: Grant, at: nat, ownerOnly: bool, k: Key)
    requires Enabled(st, step) && WasAllowed(st, g.groupID, actor, at, ownerOnly || g.role.Admin?)
    requires k.groupID == g.groupID && k in Apply(st, step).grantors
            && Apply(st, step).grantors[k] == Grantor(actor, at)
    ensures EntryAllowed(Apply(st, step), k, g.role)
  {
    WasAllowedStays(st, step, g.groupID, actor, at, ownerOnly || g.role.Admin?);
  }

  /** The step writes the entry at k. */
  predicate Grants(st: State, step: Step, k: Key)
    requires Enabled(st, step)
  {
    && (step.FinishAdd? || step.FinishUpdate?)
    && st.calls[step.call].grant.username in st.tables.users
    && k == Key(st.calls[step.call].grant.groupID, st.tables.users[st.calls[step.call].grant.username])
  }

  lemma GrantedEntryAllowed(st: State, step: Step, k: Key)
    requires GrantLaw(st) && Enabled(st, step) && Grants(st, step, k) && k in Apply(st, step).tables.members
    requires Apply(st, step).tables.members[k] == st.calls[step.call].grant.role
    ensures EntryAllowed(Apply(st, step), k, Apply(st, step).tables.members[k])
  {
    var pc := st.calls[step.call];
    assert CallAllowed(st, pc);
    GrantPassesOn(st, step, pc.actor, pc.grant, pc.checkedAt, pc.Updating?, k);
  }

  lemma OtherEntryAllowed(st: State, step: Step, k: Key)
    requires GrantLaw(st) && Enabled(st, step) && k in st.tables.members && !st.tables.members[k].Owner?
    requires Apply(st, step).grantors == st.grantors || (k in st.grantors && k in Apply(st, step).grantors
             && Apply(st, step).grantors[k] == st.grantors[k])
    ensures EntryAllowed(Apply(st, step), k, st.tables.members[k])
  {
    assert EntryAllowed(st, k, st.tables.members[k]);
    WasAllowedStays(st, step, k.groupID, st.grantors[k].actor, st.grantors[k].checkedAt, st.tables.members[k].Admin?);
  }

  /** What a step writes at k: a grant's own role, or nothing new but a new group's owner. */
  lemma EntryAfter(st: State, step: Step, k: Key)
    requires OwnerLaw(st) && Enabled(st, step) && k in Apply(st, step).tables.members
    ensures var role := Apply(st, step).tables.members[k];
            if Grants(st, step, k) then role == st.calls[step.call].grant.role
            else role.Owner? || (k in st.tables.members && st.tables.members[k] == role)
  {
  }

  lemma GrantorAfter(st: State, step: Step, k: Key)
    requires Enabled(st, step) && !Grants(st, step, k) && k in st.grantors
    ensures k in Apply(st, step).grantors && Apply(st, step).grantors[k] == st.grantors[k]
  {
  }

  lemma EntryAllowedKept(st: State, step: Step, k: Key)
    requires OwnerLaw(st) && GrantLaw(st) && Enabled(st, step) && k in Apply(st, step).tables.members
    ensures EntryAllowed(Apply(st, step), k, Apply(st, step).tables.members[k])
  {
    EntryAfter(st, step, k);
    if Grants(st, step, k) {
      GrantedEntryAllowed(st, step, k);
    } else if !Apply(st, step).tables.members[k].Owner? {
      assert EntryAllowed(st, k, st.tables.members[k]);
      GrantorAfter(st, step, k);
      OtherEntryAllowed(st, step, k);
    }
  }

  lemma {:induction false} RunKeepsLaws(states: seq<State>, i: nat)
    requires Run(states) && i < |states|
    ensures OwnerLaw(states[i]) && GrantLaw(states[i])
  {
    if i > 0 {
      RunKeepsLaws(states, i - 1);
      assert NextAt(states, i);
      NextKeepsLaws(states[i - 1], states[i]);
    }
  }

  lemma NextKeepsLaws(st: State, st': State)
    requires OwnerLaw(st) && GrantLaw(st) && Next(st, st')
    ensures OwnerLaw(st') && GrantLaw(st')
  {
    var step :| Enabled(st, step) && st' == Apply(st, step);
    OwnerLawKept(st, step);
    forall c | c in st'.calls ensures CallAllowed(st', st'.calls[c]) {
      CallAllowedKept(st, step, c);
    }
    forall k | k in st'.tables.members ensures EntryAllowed(st', k, st'.tables.members[k]) {
      EntryAllowedKept(st, step, k);
    }
  }

  /** In every run a group has at most one owner, the user who created it, and no membership outlives its group. */
  lemma AtMostOneOwnerTheCreator(states: seq<State>, i: nat)
    requires Run(states) && i < |states|
    ensures var t := states[i].tables;
            && (forall k :: k in t.members ==> k.groupID in t.groups)
            && (forall k :: k in t.members && t.members[k].Owner? ==> k.userID == t.groups[k.groupID])
            && (forall j, k | j in t.members && k in t.members && j.groupID == k.groupID ::
                  t.members[j].Owner? && t.members[k].Owner? ==> j == k)
  {
    RunKeepsLaws(states, i);
  }

  lemma {:induction false} HistoryIsTheRun(states: seq<State>, i: nat)
    requires Run(states) && i < |states|
    ensures |states[i].history| == i + 1
    ensures forall j :: 0 <= j <= i ==> states[i].history[j] == states[j].tables.members
  {
    if i > 0 {
      HistoryIsTheRun(states, i - 1);
      assert NextAt(states, i);
    }
  }

  /** Every entry but the owner's was granted by somebody who, in the state its check read, was owner or admin of the
      group; an admin entry by the owner, the group's creator. */
  lemma EntriesAreGrantedByManagers(states: seq<State>, i: nat, k: Key)
      returns (at: nat, actor: string)
    requires Run(states) && i < |states|
    requires k in states[i].tables.members && !states[i].tables.members[k].Owner?
    ensures k in states[i].grantors && states[i].grantors[k] == Grantor(actor, at) && at <= i
    ensures RoleOf(states[at].tables, k.groupID, actor) in {Some(Owner), Some(Admin)}
    ensures states[i].tables.members[k].Admin? ==>
              && RoleOf(states[at].tables, k.groupID, actor) == Some(Owner)
              && k.groupID in states[i].tables.groups && states[i].tables.groups[k.groupID] == actor
  {
    RunKeepsLaws(states, i);
    HistoryIsTheRun(states, i);
    assert EntryAllowed(states[i], k, states[i].tables.members[k]);
    at, actor := states[i].grantors[k].checkedAt, states[i].grantors[k].actor;
    assert states[i].history[at] == states[at].tables.members;
  }

  lemma OnlyDeleteRemovesGroups(st: State, step: Step, groupID: string)
    requires Enabled(st, step) && groupID in st.tables.groups && groupID !in Apply(st, step).tables.groups
    ensures step.FinishDelete? && st.calls[step.call].groupID == groupID
  {
  }

  /** A deletion was checked against a table where the group's creator owned it. */
  lemma DeletionWasAllowed(st: State, st': State, groupID: string) returns (at: nat)
    requires OwnerLaw(st) && GrantLaw(st) && Next(st, st')
    requires groupID in st.tables.groups && groupID !in st'.tables.groups
    ensures at < |st.history| && Key(groupID, st.tables.groups[groupID]) in st.history[at]
    ensures st.history[at][Key(groupID, st.tables.groups[groupID])].Owner?
  {
    var step :| Enabled(st, step) && st' == Apply(st, step);
    OnlyDeleteRemovesGroups(st, step, groupID);
    assert CallAllowed(st, st.calls[step.call]);
    at := st.calls[step.call].checkedAt;
  }

  lemma NoGroupNoMembers(st: State, groupID: string, user: string)
    requires OwnerLaw(st) && groupID !in st.tables.groups
    ensures RoleOf(st.tables, groupID, user) == None
  {
  }

  /** A group only ever goes away after its creator was found to own it; its memberships go in the same step. */
  lemma GroupsAreDeletedByTheirOwner(states: seq<State>, i: nat, groupID: string) returns (at: nat)
    requires Run(states) && 0 < i < |states|
    requires groupID in states[i - 1].tables.groups && groupID !in states[i].tables.groups
    ensures at < i && RoleOf(states[at].tables, groupID, states[i - 1].tables.groups[groupID]) == Some(Owner)
    ensures forall user :: RoleOf(states[i].tables, groupID, user) == None
  {
    RunKeepsLaws(states, i);
    forall user ensures RoleOf(states[i].tables, groupID, user) == None {
      NoGroupNoMembers(states[i], groupID, user);
    }
    at := RunDeletionWasAllowed(states, i, groupID);
  }

  lemma RunDeletionWasAllowed(states: seq<State>, i: nat, groupID: string) returns (at: nat)
    requires Run(states) && 0 < i < |states|
    requires groupID in states[i - 1].tables.groups && groupID !in states[i].tables.groups
    ensures at < i && RoleOf(states[at].tables, groupID, states[i - 1].tables.groups[groupID]) == Some(Owner)
  {
    RunKeepsLaws(states, i - 1);
    assert NextAt(states, i);
    at := DeletionWasAllowed(states[i - 1], states[i], groupID);
    HistoryIsTheRun(states, i - 1);
    assert states[i - 1].history[at] == states[at].tables.members;
  }

  predicate HasOwner(st: State, groupID: string) {
    groupID in st.creators && RoleOf(st.tables, groupID, st.creators[groupID]) == Some(Owner)
  }

  /** One step gives the owner role only to a group it creates. */
  lemma OwnerIsNotRegained(st: State, step: Step, groupID: string, user: string)
    requires OwnerLaw(st) && Enabled(st, step) && groupID in st.creators
    requires RoleOf(st.tables, groupID, user) != Some(Owner)
    ensures RoleOf(Apply(st, step).tables, groupID, user) != Some(Owner)
  {
  }

  lemma NextRegainsNoOwner(st: State, st': State, groupID: string, user: string)
    requires OwnerLaw(st) && Next(st, st') && groupID in st.creators
    requires RoleOf(st.tables, groupID, user) != Some(Owner)
    ensures groupID in st'.creators && RoleOf(st'.tables, groupID, user) != Some(Owner)
  {
    var step :| Enabled(st, step) && st' == Apply(st, step);
    OwnerIsNotRegained(st, step, groupID, user);
  }

  /** An owner role once lost never returns: neither to the creator nor to anybody else. */
  lemma {:induction false} LostOwnerNeverReturns(states: seq<State>, i: nat, j: nat, groupID: string, user: string)
    requires Run(states) && i <= j < |states|
    requires groupID in states[i].creators && !HasOwner(states[i], groupID)
    ensures groupID in states[j].creators && RoleOf(states[j].tables, groupID, user) != Some(Owner)
  {
    if i == j {
      RunKeepsLaws(states, j);
    } else {
      LostOwnerNeverReturns(states, i, j - 1, groupID, user);
      RunKeepsLaws(states, j - 1);
      assert NextAt(states, j);
      NextRegainsNoOwner(states[j - 1], states[j], groupID, user);
    }
  }

  // ---------- when a group loses its owner ----------

  /** While the group exists its creator owns it. */
  predicate OwnerHolds(st: State, groupID: string) {
    groupID in st.tables.groups ==> RoleOf(st.tables, groupID, st.tables.groups[groupID]) == Some(Owner)
  }

  /** A finished add or update writes the entry of an existing group's creator. */
  ghost predicate WritesCreator(st: State, st': State, groupID: string) {
    groupID in st.tables.groups
    && exists step :: Enabled(st, step) && st' == Apply(st, step)
                      && Grants(st, step, Key(groupID, st.tables.groups[groupID]))
  }

  ghost predicate WritesCreatorAt(states: seq<State>, i: nat, groupID: string)
    requires 0 < i < |states|
  {
    WritesCreator(states[i - 1], states[i], groupID)
  }

  lemma WrittenCreatorIsNoOwner(st: State, step: Step, groupID: string)
    requires OwnerLaw(st) && Enabled(st, step) && OwnerHolds(st, groupID) && groupID in st.tables.groups
    requires Grants(st, step, Key(groupID, st.tables.groups[groupID]))
    ensures !OwnerHolds(Apply(st, step), groupID)
  {
  }

  lemma UnwrittenCreatorIsOwner(st: State, step: Step, groupID: string)
    requires OwnerLaw(st) && Enabled(st, step) && OwnerHolds(st, groupID)
    requires groupID in st.tables.groups ==> !Grants(st, step, Key(groupID, st.tables.groups[groupID]))
    ensures OwnerHolds(Apply(st, step), groupID)
  {
  }

  lemma OwnerStep(st: State, st': State, groupID: string)
    requires OwnerLaw(st) && Next(st, st') && OwnerHolds(st, groupID)
    ensures OwnerHolds(st', groupID) <==> !WritesCreator(st, st', groupID)
  {
    if WritesCreator(st, st', groupID) {
      var step :| Enabled(st, step) && st' == Apply(st, step)
                  && Grants(st, step, Key(groupID, st.tables.groups[groupID]));
      WrittenCreatorIsNoOwner(st, step, groupID);
    } else {
      var step :| Enabled(st, step) && st' == Apply(st, step);
      UnwrittenCreatorIsOwner(st, step, groupID);
    }
  }

  lemma OwnerAt(states: seq<State>, n: nat, groupID: string)
    requires Run(states) && 0 < n < |states| && OwnerHolds(states[n - 1], groupID)
    ensures OwnerHolds(states[n], groupID) <==> !WritesCreatorAt(states, n, groupID)
  {
    RunKeepsLaws(states, n - 1);
    assert NextAt(states, n);
    OwnerStep(states[n - 1], states[n], groupID);
  }

  /** Up to state n the creator owns the group as long as it exists, exactly when up to there no finished add or update
      writes the creator's entry. */
  lemma {:induction false} OwnerHoldsExactly(states: seq<State>, n: nat, groupID: string)
    requires Run(states) && n < |states|
    ensures (forall i :: 0 <= i <= n ==> OwnerHolds(states[i], groupID)) <==>
            (forall i :: 0 < i <= n ==> !WritesCreatorAt(states, i, groupID))
  {
    if n > 0 {
      OwnerHoldsExactly(states, n - 1, groupID);
      if OwnerHolds(states[n - 1], groupID) {
        OwnerAt(states, n, groupID);
      }
    }
  }

  lemma Extend(states: seq<State>, step: Step) returns (longer: seq<State>)
    requires Run(states) && Enabled(states[|states| - 1], step)
    ensures Run(longer) && longer[|longer| - 1] == Apply(states[|states| - 1], step)
  {
    longer := states + [Apply(states[|states| - 1], step)];
    forall i | 0 < i < |longer| ensures NextAt(longer, i) {
      if i < |states| {
        assert NextAt(states, i);
      }
    }
  }

  lemma GroupWithAdmin() returns (states: seq<State>)
    ensures Run(states)
    ensures var st := states[|states| - 1];
            && st.tables == Tables(map["o" := "O", "a" := "A"], map["g" := "O"],
                                   map[Key("g", "O") := Owner, Key("g", "A") := Admin])
            && st.calls == map[]
  {
    states := [INITIAL];
    states := Extend(states, CreateUser("o", "O"));
    states := Extend(states, CreateUser("a", "A"));
    assert states[|states| - 1].tables == Tables(map["o" := "O", "a" := "A"], map[], map[]);
    assert states[|states| - 1].tables.users["o"] == "O";
    states := Extend(states, CreateGroup("O", "g"));
    assert states[|states| - 1].tables.members == map[Key("g", "O") := Owner];
    states := Extend(states, BeginAdd(0, "O", Grant("g", "a", Admin)));
    states := Extend(states, FinishAdd(0));
  }

  /** An admin may add the owner's user name as a member: the group then has no owner. */
  lemma AdminCanReplaceOwner() returns (states: seq<State>)
    ensures Run(states)
    ensures var st := states[|states| - 1];
            "g" in st.tables.groups && !OwnerHolds(st, "g")
            && st.tables.members == map[Key("g", "O") := Member, Key("g", "A") := Admin]
  {
    states := GroupWithAdmin();
    states := Extend(states, BeginAdd(1, "A", Grant("g", "o", Member)));
    states := Extend(states, FinishAdd(1));
  }

  // ---------- a call with nothing in between ----------

  /** An add whose check and write come one after the other is the service's own add. */
  lemma SerialAddIsTheService(st: State, c: nat, actor: string, g: Grant)
    requires c !in st.calls && !g.role.Owner?
    ensures Enabled(st, BeginAdd(c, actor, g)) <==> CheckAdd(st.tables, actor, g).Ok?
    ensures Enabled(st, BeginAdd(c, actor, g)) ==>
              var begun := Apply(st, BeginAdd(c, actor, g));
              && Enabled(begun, FinishAdd(c))
              && Apply(begun, FinishAdd(c)).tables == OrUnchanged(AddGranted(st.tables, actor, g), st.tables)
              && begun.tables == st.tables && Apply(begun, FinishAdd(c)).calls == st.calls
  {
  }

  lemma SerialUpdateIsTheService(st: State, c: nat, actor: string, g: Grant)
    requires c !in st.calls && !g.role.Owner?
    ensures Enabled(st, BeginUpdate(c, actor, g)) <==> CheckUpdate(st.tables, actor, g).Ok?
    ensures Enabled(st, BeginUpdate(c, actor, g)) ==>
              var begun := Apply(st, BeginUpdate(c, actor, g));
              && Enabled(begun, FinishUpdate(c))
              && Apply(begun, FinishUpdate(c)).tables == OrUnchanged(UpdateGranted(st.tables, actor, g), st.tables)
              && begun.tables == st.tables && Apply(begun, FinishUpdate(c)).calls == st.calls
  {
  }

  lemma SerialDeleteIsTheService(st: State, c: nat, actor: string, groupID: string)
    requires c !in st.calls
    ensures Enabled(st, BeginDelete(c, actor, groupID)) <==> CheckDelete(st.tables, actor, groupID).Ok?
    ensures Enabled(st, BeginDelete(c, actor, groupID)) ==>
              var begun := Apply(st, BeginDelete(c, actor, groupID));
              && Enabled(begun, FinishDelete(c))
              && Apply(begun, FinishDelete(c)).tables == OrUnchanged(DeleteRead(st.tables, actor, groupID), st.tables)
              && begun.tables == st.tables && Apply(begun, FinishDelete(c)).calls == st.calls
  {
  }
}
