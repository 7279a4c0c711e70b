/**
  Joining a second time. The row that gives a member @everyone outlives the membership, no handler ever removes it, and
  inserting it again fails.
*/
module Rejoin {
  import opened Common
  import opened ServerStore
  import opened ServerActions

  datatype Event = Handled(caller: Id, action: Action) | Join(user: Id)

  function After(c: Catalog, t: Tables, maxRoles: nat, e: Event): Tables {
    var r := match e
      case Handled(caller, a) => Apply(c, t, maxRoles, caller, a)
      case Join(u) => CreatePending(t, u);
    if r.Ok? then r.value else t
  }

  function Run(c: Catalog, t: Tables, maxRoles: nat, events: seq<Event>): Tables
    decreases |events|
  {
    if events == [] then t else Run(c, After(c, t, maxRoles, events[0]), maxRoles, events[1..])
  }

  /** The user has the row of an @everyone role. */
  ghost predicate Marked(t: Tables, u: Id, r: Id) {
    r in EveryoneRoles(t) && (u, r) in t.memberRoles
  }

  /** No new members, the same @everyone roles, and the same rows of theirs. */
  ghost predicate KeepsEveryone(t: Tables, t': Tables) {
    && t'.members.Keys <= t.members.Keys
    && EveryoneRoles(t') == EveryoneRoles(t)
    && (forall u, r :: r in EveryoneRoles(t) ==> ((u, r) in t'.memberRoles <==> (u, r) in t.memberRoles))
  }

  lemma UpdateKeepsEveryone(t: Tables, role: Id, patch: RolePatch)
    requires UpdateRoleRow(t, role, patch).Ok?
    ensures KeepsEveryone(t, UpdateRoleRow(t, role, patch).value)
  {
  }

  lemma InsertKeepsEveryone(t: Tables, id: Id, name: string, permissions: Permission, maxRoles: nat)
    requires InsertRole(t, id, name, permissions, maxRoles).Ok?
    ensures KeepsEveryone(t, InsertRole(t, id, name, permissions, maxRoles).value)
  {
  }

  lemma DeleteKeepsEveryone(t: Tables, role: Id)
    requires DeleteRoleRow(t, role).Ok?
    ensures KeepsEveryone(t, DeleteRoleRow(t, role).value)
  {
  }

  lemma HoldingKeepsEveryone(t: Tables, t': Tables, user: Id, role: Id)
    requires role !in EveryoneRoles(t) && t'.roles == t.roles && t'.members == t.members
    requires t'.memberRoles == t.memberRoles + {(user, role)} || t'.memberRoles == t.memberRoles - {(user, role)}
    ensures KeepsEveryone(t, t')
  {
  }

  lemma SameRolesKeepEveryone(t: Tables, t': Tables)
    requires t'.roles == t.roles && t'.memberRoles == t.memberRoles && t'.members.Keys <= t.members.Keys
    ensures KeepsEveryone(t, t')
  {
  }

  /** No handler call touches @everyone. */
  lemma CallKeepsEveryone(c: Catalog, t: Tables, maxRoles: nat, caller: Id, a: Action)
    requires Apply(c, t, maxRoles, caller, a).Ok?
    ensures KeepsEveryone(t, Apply(c, t, maxRoles, caller, a).value)
  {
    var t' := Apply(c, t, maxRoles, caller, a).value;
    match a
    case CreateRole(id, name, permissions) => InsertKeepsEveryone(t, id, name, permissions, maxRoles);
    case UpdateRole(role, patch) => UpdateKeepsEveryone(t, role, patch);
    case DeleteRole(role) => DeleteKeepsEveryone(t, role);
    case AssignRole(target, role) => HoldingKeepsEveryone(t, t', target, role);
    case RemoveRole(target, role) => HoldingKeepsEveryone(t, t', target, role);
    case _ => SameRolesKeepEveryone(t, t');
  }

  /** A join by another user changes nothing for this one. */
  lemma JoinOfAnother(t: Tables, v: Id, u: Id)
    requires CreatePending(t, v).Ok? && u != v
    ensures var t' := CreatePending(t, v).value;
            && EveryoneRoles(t') == EveryoneRoles(t)
            && (u in t'.members <==> u in t.members)
            && (forall r :: (u, r) in t'.memberRoles <==> (u, r) in t.memberRoles)
  {
  }

  lemma UnmarkedByNothing(c: Catalog, t: Tables, maxRoles: nat, e: Event, u: Id, r: Id)
    requires Marked(t, u, r)
    ensures Marked(After(c, t, maxRoles, e), u, r)
  {
    if e.Handled? && Apply(c, t, maxRoles, e.caller, e.action).Ok? {
      CallKeepsEveryone(c, t, maxRoles, e.caller, e.action);
    }
  }

  lemma {:induction false} MarkedForGood(c: Catalog, t: Tables, maxRoles: nat, events: seq<Event>, u: Id, r: Id)
    requires Marked(t, u, r)
    ensures Marked(Run(c, t, maxRoles, events), u, r)
    decreases |events|
  {
    if events != [] {
      UnmarkedByNothing(c, t, maxRoles, events[0], u, r);
      MarkedForGood(c, After(c, t, maxRoles, events[0]), maxRoles, events[1..], u, r);
    }
  }

  /**
    Whatever happens after a user joined a server that has an @everyone role (kicks, bans, leaving, role changes, other
    users joining, in any number and order), the user cannot join again: either still a member, or refused with an
    internal error.
  */
  lemma NobodyJoinsTwice(c: Catalog, t: Tables, maxRoles: nat, events: seq<Event>, u: Id)
    requires EveryoneRoles(t) != {} && CreatePending(t, u).Ok?
    ensures var t2 := Run(c, CreatePending(t, u).value, maxRoles, events);
            CreatePending(t2, u) == Err(if u in t2.members then AlreadyMember else InternalError)
  {
    var r := Member(EveryoneRoles(t));
    var t1 := CreatePending(t, u).value;
    assert Marked(t1, u, r);
    MarkedForGood(c, t1, maxRoles, events, u, r);
  }

  lemma WelcomeIsKept(t: Tables, t': Tables, u: Id)
    requires CreatePending(t, u).Ok? && KeepsEveryone(t, t')
    ensures CreatePending(t', u).Ok?
  {
  }

  /** What other users do, and what this user does other than joining, leaves the way in open. */
  lemma StaysWelcome(c: Catalog, t: Tables, maxRoles: nat, e: Event, u: Id)
    requires CreatePending(t, u).Ok? && e != Join(u)
    ensures CreatePending(After(c, t, maxRoles, e), u).Ok?
    ensures EveryoneRoles(After(c, t, maxRoles, e)) == EveryoneRoles(t)
  {
    match e
    case Handled(caller, a) =>
      if Apply(c, t, maxRoles, caller, a).Ok? {
        CallKeepsEveryone(c, t, maxRoles, caller, a);
        WelcomeIsKept(t, Apply(c, t, maxRoles, caller, a).value, u);
      }
    case Join(v) =>
      if CreatePending(t, v).Ok? {
        JoinOfAnother(t, v, u);
      }
  }

  /**
    Who can join a server that has an @everyone role: a user who could join at the start can join after any run of
    handler calls and joins if and only if that user has not joined in it.
  */
  lemma {:induction false} JoinsIffNeverJoined(c: Catalog, t: Tables, maxRoles: nat, events: seq<Event>, u: Id)
    requires CreatePending(t, u).Ok? && EveryoneRoles(t) != {}
    ensures CreatePending(Run(c, t, maxRoles, events), u).Ok? <==> Join(u) !in events
    decreases |events|
  {
    if events != [] {
      if events[0] == Join(u) {
        NobodyJoinsTwice(c, t, maxRoles, events[1..], u);
      } else {
        StaysWelcome(c, t, maxRoles, events[0], u);
        JoinsIffNeverJoined(c, After(c, t, maxRoles, events[0]), maxRoles, events[1..], u);
      }
    }
  }

  /** It does come to that: a member who leaves is out, and then refused. */
  lemma LeaverIsRefused(c: Catalog, t: Tables, maxRoles: nat, u: Id)
    requires EveryoneRoles(t) != {} && CreatePending(t, u).Ok? && u !in t.owners
    ensures var t2 := Run(c, CreatePending(t, u).value, maxRoles, [Handled(u, Leave)]);
            u !in t2.members && CreatePending(t2, u) == Err(InternalError)
  {
    var t1 := CreatePending(t, u).value;
    assert Run(c, t1, maxRoles, [Handled(u, Leave)]) == After(c, t1, maxRoles, Handled(u, Leave)) by {
      assert [Handled(u, Leave)][1..] == [];
    }
    NobodyJoinsTwice(c, t, maxRoles, [Handled(u, Leave)], u);
  }
}
