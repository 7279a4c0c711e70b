/**
  The mutating handlers for roles, members and overrides: guards, one database write, one invalidation message.
  Apply is the value-level meaning of a handler call; class Handlers does the same work on a mutable database and
  message queue, and is proved equal to it.
*/
module ServerActions {
  import opened Common
  import opened ServerStore

  const INVALIDATION_VERSION := 1

  datatype Message = Message(version: int, user: Option<Id>, channel: Option<Id>, all: bool)

  function ForUser(u: Id): Message { Message(INVALIDATION_VERSION, Some(u), None, false) }
  function ForChannel(ch: Id): Message { Message(INVALIDATION_VERSION, None, Some(ch), false) }
  function ForAll(): Message { Message(INVALIDATION_VERSION, None, None, true) }

  datatype Action =
    | CreateRole(newRole: Id, name: string, permissions: Permission)
    | UpdateRole(role: Id, patch: RolePatch)
    | DeleteRole(role: Id)
    | AssignRole(target: Id, role: Id)
    | RemoveRole(target: Id, role: Id)
    | Kick(target: Id)
    | Ban(target: Id)
    | Leave
    | Timeout(target: Id, until: int, now: int)
    | ClearTimeout(target: Id)
    | SetOverride(channel: Id, principal: Principal, allow: Permission, deny: Permission)
    | DeleteOverride(channel: Id, principal: Principal)

  /** The guard of one handler, in the order the handler checks; None lets the call through to the write. */
  function Guard(c: Catalog, t: Tables, caller: Id, a: Action): Option<Error> {
    var rank := HighestPosition(t, caller);
    match a
    case CreateRole(_, _, permissions) =>
      if permissions <= c.all then None else Some(InvalidInput)
    case UpdateRole(role, patch) =>
      if patch.position.Some? && patch.position.value < 0 then Some(InvalidInput)
      else if patch.permissions.Some? && !(patch.permissions.value <= c.all) then Some(InvalidInput)
      else if role !in t.roles then Some(RoleNotFound)
      else if t.roles[role].position <= rank then Some(RoleHierarchy)
      else if patch.position.Some? && patch.position.value <= rank then Some(RoleHierarchy)
      else if t.roles[role].everyone && patch.name.Some? then Some(InvalidInput)
      else None
    case DeleteRole(role) =>
      if role !in t.roles then Some(RoleNotFound)
      else if t.roles[role].position <= rank then Some(RoleHierarchy)
      else None
    case AssignRole(target, role) =>
      if role !in t.roles then Some(RoleNotFound)
      else if t.roles[role].everyone then Some(EveryoneRole)
      else if t.roles[role].position <= rank then Some(RoleHierarchy)
      else if target !in t.members || t.members[target] == Pending then Some(MemberNotFound)
      else None
    case RemoveRole(_, role) =>
      if role !in t.roles then Some(RoleNotFound)
      else if t.roles[role].everyone then Some(EveryoneRole)
      else if t.roles[role].position <= rank then Some(RoleHierarchy)
      else None
    case Kick(target) => ModerationGuard(t, caller, target)
    case Ban(target) => ModerationGuard(t, caller, target)
    case Timeout(target, until, now) => if until <= now then Some(TimeoutInPast) else ModerationGuard(t, caller, target)
    case ClearTimeout(_) => None
    case Leave => if caller in t.owners then Some(TargetIsOwner) else None
    case SetOverride(_, _, allow, deny) =>
      if allow <= c.all && deny <= c.all then None else Some(InvalidInput)
    case DeleteOverride(_, _) => None
  }

  /** checkNotOwner, then checkHierarchy. */
  function ModerationGuard(t: Tables, caller: Id, target: Id): Option<Error> {
    if target in t.owners then Some(TargetIsOwner)
    else if HighestPosition(t, target) <= HighestPosition(t, caller) then Some(Outranked)
    else None
  }

  /** The database statement behind each action. */
  function Write(t: Tables, maxRoles: nat, caller: Id, a: Action): Result<Tables, Error> {
    match a
    case CreateRole(id, name, permissions) => InsertRole(t, id, name, permissions, maxRoles)
    case UpdateRole(role, patch) => UpdateRoleRow(t, role, patch)
    case DeleteRole(role) => DeleteRoleRow(t, role)
    case AssignRole(target, role) => InsertMemberRole(t, target, role)
    case RemoveRole(target, role) => DeleteMemberRole(t, target, role)
    case Kick(target) => DeleteMember(t, target)
    case Ban(target) => ServerStore.BanMember(t, target)
    case Leave => DeleteMember(t, caller)
    case Timeout(target, _, _) => SetStatus(t, target, TimedOut)
    case ClearTimeout(target) => SetStatus(t, target, Active)
    case SetOverride(channel, principal, allow, deny) =>
      Ok(UpsertOverride(t, ChannelTarget(channel), principal, Grant(allow, deny)))
    case DeleteOverride(channel, principal) => DeleteOverrideRow(t, ChannelTarget(channel), principal)
  }

  /** The invalidation each handler publishes after its write. */
  function Invalidation(caller: Id, a: Action): Message {
    match a
    case CreateRole(_, _, _) => ForAll()
    case UpdateRole(_, _) => ForAll()
    case DeleteRole(_) => ForAll()
    case AssignRole(target, _) => ForUser(target)
    case RemoveRole(target, _) => ForUser(target)
    case Kick(target) => ForUser(target)
    case Ban(target) => ForUser(target)
    case Leave => ForUser(caller)
    case Timeout(target, _, _) => ForUser(target)
    case ClearTimeout(target) => ForUser(target)
    case SetOverride(channel, _, _, _) => ForChannel(channel)
    case DeleteOverride(channel, _) => ForChannel(channel)
  }

  function Apply(c: Catalog, t: Tables, maxRoles: nat, caller: Id, a: Action): Result<Tables, Error> {
    var g := Guard(c, t, caller, a);
    if g.Some? then Err(g.value) else Write(t, maxRoles, caller, a)
  }

  lemma InsertRoleKeepsTables(c: Catalog, t: Tables, id: Id, name: string, permissions: Permission, maxRoles: nat)
    requires WellFormed(c, t) && permissions <= c.all && InsertRole(t, id, name, permissions, maxRoles).Ok?
    ensures WellFormed(c, InsertRole(t, id, name, permissions, maxRoles).value)
  {
    NextPositionIsFree(t);
  }

  lemma UpdateRoleKeepsTables(c: Catalog, t: Tables, id: Id, patch: RolePatch)
    requires WellFormed(c, t) && UpdateRoleRow(t, id, patch).Ok?
    requires patch.permissions.Some? ==> patch.permissions.value <= c.all
    ensures WellFormed(c, UpdateRoleRow(t, id, patch).value)
  {
    if patch != RolePatch(None, None, None) {
      var t' := UpdateRoleRow(t, id, patch).value;
      assert forall r :: r in t.roles && r != id ==> t'.roles[r] == t.roles[r];
      assert forall r :: r in t.roles && r != id ==> t.roles[r].position != t'.roles[id].position;
      assert forall r :: r in t.roles && r != id ==> t.roles[r].name != t'.roles[id].name;
    }
  }

  lemma DeleteRoleKeepsTables(c: Catalog, t: Tables, id: Id)
    requires WellFormed(c, t) && DeleteRoleRow(t, id).Ok?
    ensures WellFormed(c, DeleteRoleRow(t, id).value)
  {
    var t' := DeleteRoleRow(t, id).value;
    forall u, r | (u, r) in t'.memberRoles ensures r in t'.roles {
      assert (u, r) in t.memberRoles;
    }
  }

  /** Every handler call keeps the schema's constraints and the permission masks. */
  lemma ApplyKeepsTablesWellFormed(c: Catalog, t: Tables, maxRoles: nat, caller: Id, a: Action)
    requires WellFormed(c, t)
    requires Apply(c, t, maxRoles, caller, a).Ok?
    ensures WellFormed(c, Apply(c, t, maxRoles, caller, a).value)
  {
    match a
    case CreateRole(id, name, permissions) => InsertRoleKeepsTables(c, t, id, name, permissions, maxRoles);
    case UpdateRole(role, patch) => UpdateRoleKeepsTables(c, t, role, patch);
    case DeleteRole(role) => DeleteRoleKeepsTables(c, t, role);
    case _ =>
  }

  lemma NextPositionIsFree(t: Tables)
    ensures forall r :: r in t.roles ==> t.roles[r].position < NextPosition(t)
  {
    var negated := set r | r in t.roles :: -t.roles[r].position;
    forall r | r in t.roles ensures t.roles[r].position < NextPosition(t) {
      assert -t.roles[r].position in negated;
    }
  }
}
