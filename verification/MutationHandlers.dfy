/** The handlers as they run: guards read the database, one statement writes it, one message is published. */
module MutationHandlers {
  import opened Common
  import opened ServerStore
  import opened ServerActions
  import opened PermissionResolver
  import opened PermissionCoherence

  class Publisher {
    var queue: seq<Message>

    constructor ()
      ensures queue == []
    {
      queue := [];
    }

    method Publish(m: Message)
      modifies this
      ensures queue == old(queue) + [m]
    {
      queue := queue + [m];
    }
  }

  /** How a handler call ended, against the meaning of its action. */
  ghost predicate Did(c: Catalog, maxRoles: nat, caller: Id, a: Action, t: Tables, queue: seq<Message>,
                      error: Option<Error>, t': Tables, queue': seq<Message>)
  {
    match Apply(c, t, maxRoles, caller, a)
    case Ok(after) => error == None && t' == after && queue' == queue + [Invalidation(caller, a)]
    case Err(e) => error == Some(e) && t' == t && queue' == queue
  }

  /** A finished handler call is the Mutate step of the coherence runs. */
  lemma HandlerIsMutateStep(c: Catalog, maxRoles: nat, caller: Id, a: Action, s: System, error: Option<Error>, t': Tables, queue': seq<Message>)
    requires Did(c, maxRoles, caller, a, s.tables, s.queue, error, t', queue')
    requires Inv(c, s)
    ensures System(t', s.entries, queue') == Next(c, maxRoles, s, Mutate(caller, a))
    ensures Inv(c, System(t', s.entries, queue'))
  {
    NextKeepsInv(c, maxRoles, s, Mutate(caller, a));
  }

  class Handlers {
    const catalog: Catalog
    const maxRoles: nat
    const store: Database
    const publisher: Publisher

    constructor (catalog: Catalog, maxRoles: nat, store: Database, publisher: Publisher)
      ensures this.catalog == catalog && this.maxRoles == maxRoles
      ensures this.store == store && this.publisher == publisher
    {
      this.catalog, this.maxRoles, this.store, this.publisher := catalog, maxRoles, store, publisher;
    }

    ghost predicate Finished(caller: Id, a: Action, t: Tables, queue: seq<Message>, error: Option<Error>)
      reads store, publisher
    {
      Did(catalog, maxRoles, caller, a, t, queue, error, store.tables, publisher.queue)
    }

    /** The write, and on success the invalidation. */
    method Commit(result: Result<Tables, Error>, m: Message) returns (error: Option<Error>)
      modifies store, publisher
      ensures result.Ok? ==> error == None && store.tables == result.value && publisher.queue == old(publisher.queue) + [m]
      ensures result.Err? ==> error == Some(result.error) && store.tables == old(store.tables) && publisher.queue == old(publisher.queue)
    {
      match result
      case Err(e) => error := Some(e);
      case Ok(t) =>
        store.tables := t;
        publisher.Publish(m);
        error := None;
    }

    method CreateRole(caller: Id, id: Id, name: string, permissions: Permission) returns (error: Option<Error>)
      modifies store, publisher
      ensures Finished(caller, Action.CreateRole(id, name, permissions), old(store.tables), old(publisher.queue), error)
    {
      if !(permissions <= catalog.all) {
        return Some(InvalidInput);
      }
      error := Commit(InsertRole(store.tables, id, name, permissions, maxRoles), ForAll());
    }

    method UpdateRole(caller: Id, role: Id, patch: RolePatch) returns (error: Option<Error>)
      modifies store, publisher
      ensures Finished(caller, Action.UpdateRole(role, patch), old(store.tables), old(publisher.queue), error)
    {
      if patch.position.Some? && patch.position.value < 0 {
        return Some(InvalidInput);
      }
      if patch.permissions.Some? && !(patch.permissions.value <= catalog.all) {
        return Some(InvalidInput);
      }
      if role !in store.tables.roles {
        return Some(RoleNotFound);
      }
      var target := store.tables.roles[role];
      var callerPos := HighestPosition(store.tables, caller);
      if target.position <= callerPos {
        return Some(RoleHierarchy);
      }
      if patch.position.Some? && patch.position.value <= callerPos {
        return Some(RoleHierarchy);
      }
      if target.everyone && patch.name.Some? {
        return Some(InvalidInput);
      }
      error := Commit(UpdateRoleRow(store.tables, role, patch), ForAll());
    }

    method DeleteRole(caller: Id, role: Id) returns (error: Option<Error>)
      modifies store, publisher
      ensures Finished(caller, Action.DeleteRole(role), old(store.tables), old(publisher.queue), error)
    {
      if role !in store.tables.roles {
        return Some(RoleNotFound);
      }
      if store.tables.roles[role].position <= HighestPosition(store.tables, caller) {
        return Some(RoleHierarchy);
      }
      error := Commit(DeleteRoleRow(store.tables, role), ForAll());
    }

    method AssignRole(caller: Id, target: Id, role: Id) returns (error: Option<Error>)
      modifies store, publisher
      ensures Finished(caller, Action.AssignRole(target, role), old(store.tables), old(publisher.queue), error)
    {
      error := RoleGivingGuard(caller, role);
      if error.Some? {
        return;
      }
      if target !in store.tables.members || store.tables.members[target] == Pending {
        return Some(MemberNotFound);
      }
      error := Commit(InsertMemberRole(store.tables, target, role), ForUser(target));
    }

    method RemoveRole(caller: Id, target: Id, role: Id) returns (error: Option<Error>)
      modifies store, publisher
      ensures Finished(caller, Action.RemoveRole(target, role), old(store.tables), old(publisher.queue), error)
    {
      error := RoleGivingGuard(caller, role);
      if error.Some? {
        return;
      }
      error := Commit(DeleteMemberRole(store.tables, target, role), ForUser(target));
    }

    /** The checks AssignRole and RemoveRole share: the role exists, is not @everyone and is below the caller. */
    method RoleGivingGuard(caller: Id, role: Id) returns (error: Option<Error>)
      ensures error == if role !in store.tables.roles then Some(RoleNotFound)
                       else if store.tables.roles[role].everyone then Some(EveryoneRole)
                       else if store.tables.roles[role].position <= HighestPosition(store.tables, caller) then Some(RoleHierarchy)
                       else None
    {
      if role !in store.tables.roles {
        return Some(RoleNotFound);
      }
      if store.tables.roles[role].everyone {
        return Some(EveryoneRole);
      }
      if store.tables.roles[role].position <= HighestPosition(store.tables, caller) {
        return Some(RoleHierarchy);
      }
      return None;
    }

    method CheckModeration(caller: Id, target: Id) returns (error: Option<Error>)
      ensures error == ModerationGuard(store.tables, caller, target)
    {
      if target in store.tables.owners {
        return Some(TargetIsOwner);
      }
      var callerPos := HighestPosition(store.tables, caller);
      var targetPos := HighestPosition(store.tables, target);
      if targetPos <= callerPos {
        return Some(Outranked);
      }
      return None;
    }

    method KickMember(caller: Id, target: Id) returns (error: Option<Error>)
      modifies store, publisher
      ensures Finished(caller, Kick(target), old(store.tables), old(publisher.queue), error)
    {
      error := CheckModeration(caller, target);
      if error.None? {
        error := Commit(DeleteMember(store.tables, target), ForUser(target));
      }
    }

    method BanMember(caller: Id, target: Id) returns (error: Option<Error>)
      modifies store, publisher
      ensures Finished(caller, Ban(target), old(store.tables), old(publisher.queue), error)
    {
      error := CheckModeration(caller, target);
      if error.None? {
        error := Commit(ServerStore.BanMember(store.tables, target), ForUser(target));
      }
    }

    /** A time that is not ahead of the clock is refused before anything else is looked at. */
    method SetTimeout(caller: Id, target: Id, until: int, now: int) returns (error: Option<Error>)
      modifies store, publisher
      ensures Finished(caller, Timeout(target, until, now), old(store.tables), old(publisher.queue), error)
    {
      if until <= now {
        return Some(TimeoutInPast);
      }
      error := CheckModeration(caller, target);
      if error.None? {
        error := Commit(SetStatus(store.tables, target, TimedOut), ForUser(target));
      }
    }

    /** Ending a timeout is open to whoever may call the handler; neither owner nor rank is checked. */
    method ClearTimeout(caller: Id, target: Id) returns (error: Option<Error>)
      modifies store, publisher
      ensures Finished(caller, Action.ClearTimeout(target), old(store.tables), old(publisher.queue), error)
    {
      error := Commit(SetStatus(store.tables, target, Active), ForUser(target));
    }

    /** One transaction, undone as a whole when the @everyone row is already there; no invalidation follows. */
    method CreatePending(user: Id) returns (error: Option<Error>)
      modifies store
      ensures match ServerStore.CreatePending(old(store.tables), user)
              case Ok(t) => error == None && store.tables == t
              case Err(e) => error == Some(e) && store.tables == old(store.tables)
    {
      var before := store.tables;
      if user in before.members {
        return Some(AlreadyMember);
      }
      store.tables := before.(members := before.members[user := Pending]);
      var rows := set r | r in EveryoneRoles(before) :: (user, r);
      if rows * before.memberRoles != {} {
        ghost var row := Member(rows * before.memberRoles);
        assert row.1 in EveryoneRoles(before) && (user, row.1) in before.memberRoles;
        store.tables := before;
        return Some(InternalError);
      }
      forall r | r in EveryoneRoles(before) ensures (user, r) !in before.memberRoles {
        assert (user, r) in rows && (user, r) !in rows * before.memberRoles;
      }
      store.tables := store.tables.(memberRoles := before.memberRoles + rows);
      return None;
    }

    method LeaveServer(caller: Id) returns (error: Option<Error>)
      modifies store, publisher
      ensures Finished(caller, Leave, old(store.tables), old(publisher.queue), error)
    {
      if caller in store.tables.owners {
        return Some(TargetIsOwner);
      }
      error := Commit(DeleteMember(store.tables, caller), ForUser(caller));
    }

    method SetOverride(caller: Id, channel: Id, principal: Principal, allow: Permission, deny: Permission)
      returns (error: Option<Error>)
      modifies store, publisher
      ensures Finished(caller, Action.SetOverride(channel, principal, allow, deny), old(store.tables), old(publisher.queue), error)
    {
      if !(allow <= catalog.all) || !(deny <= catalog.all) {
        return Some(InvalidInput);
      }
      error := Commit(Ok(UpsertOverride(store.tables, ChannelTarget(channel), principal, Grant(allow, deny))), ForChannel(channel));
    }

    method DeleteOverride(caller: Id, channel: Id, principal: Principal) returns (error: Option<Error>)
      modifies store, publisher
      ensures Finished(caller, Action.DeleteOverride(channel, principal), old(store.tables), old(publisher.queue), error)
    {
      error := Commit(DeleteOverrideRow(store.tables, ChannelTarget(channel), principal), ForChannel(channel));
    }
  }
}
