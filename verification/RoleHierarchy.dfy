/** What the rank guards guarantee over whole runs of handler calls. */
module RoleHierarchy {
  import opened Common
  import opened ServerStore
  import opened ServerActions

  /** Everything at rank k or better is the same in both tables: the roles, and who holds them. Roles that appeared
      there in between are held by nobody. */
  ghost predicate AgreeUpTo(t: Tables, t': Tables, k: int) {
    && (forall r :: r in t.roles && t.roles[r].position <= k ==> r in t'.roles && t'.roles[r] == t.roles[r])
    && (forall r :: r in t'.roles && t'.roles[r].position <= k ==>
          || (r in t.roles && t'.roles[r] == t.roles[r])
          || (forall u :: (u, r) !in t'.memberRoles))
    && (forall u, r :: r in t.roles && t.roles[r].position <= k ==>
          ((u, r) in t.memberRoles <==> (u, r) in t'.memberRoles))
  }

  /** HighestPosition is the best position held: no explicit role beats it, and one attains it unless there is none. */
  lemma RankIsBest(t: Tables, u: Id)
    ensures forall r :: r in ExplicitRoles(t, u) ==> HighestPosition(t, u) <= t.roles[r].position
    ensures HighestPosition(t, u) == MAX_INT
            || exists r :: r in ExplicitRoles(t, u) && t.roles[r].position == HighestPosition(t, u)
  {
    var ps := Positions(t, ExplicitRoles(t, u));
    forall r | r in ExplicitRoles(t, u) ensures HighestPosition(t, u) <= t.roles[r].position {
      assert t.roles[r].position in ps;
    }
  }

  /** Tables that agree up to k give the same rank to everyone at k or better and keep everyone else below k. */
  lemma AgreeingTablesRankAlike(c: Catalog, t: Tables, t': Tables, k: int, u: Id)
    requires AgreeUpTo(t, t', k)
    requires WellFormed(c, t) && WellFormed(c, t')
    ensures HighestPosition(t, u) <= k ==> HighestPosition(t', u) == HighestPosition(t, u)
    ensures HighestPosition(t, u) > k ==> HighestPosition(t', u) > k
  {
    RankIsBest(t, u);
    RankIsBest(t', u);
    var p, p' := HighestPosition(t, u), HighestPosition(t', u);
    if p <= k && p != MAX_INT {
      var r :| r in ExplicitRoles(t, u) && t.roles[r].position == p;
      assert r in ExplicitRoles(t', u);
    }
    if p' <= k && p' != MAX_INT {
      var r :| r in ExplicitRoles(t', u) && t'.roles[r].position == p';
      assert r in ExplicitRoles(t, u);
    }
  }

  lemma CreateAgrees(t: Tables, maxRoles: nat, id: Id, name: string, permissions: Permission, k: int)
    requires forall u, r :: (u, r) in t.memberRoles ==> r in t.roles
    requires InsertRole(t, id, name, permissions, maxRoles).Ok?
    ensures AgreeUpTo(t, InsertRole(t, id, name, permissions, maxRoles).value, k)
  {
  }

  lemma UpdateAgrees(t: Tables, role: Id, patch: RolePatch, k: int)
    requires role in t.roles && t.roles[role].position > k
    requires patch.position.Some? ==> patch.position.value > k
    requires UpdateRoleRow(t, role, patch).Ok?
    ensures AgreeUpTo(t, UpdateRoleRow(t, role, patch).value, k)
  {
  }

  lemma DeleteAgrees(t: Tables, role: Id, k: int)
    requires role in t.roles && t.roles[role].position > k
    requires DeleteRoleRow(t, role).Ok?
    ensures AgreeUpTo(t, DeleteRoleRow(t, role).value, k)
  {
  }

  lemma HoldingAgrees(t: Tables, t': Tables, u: Id, role: Id, k: int)
    requires role in t.roles && t.roles[role].position > k
    requires t'.roles == t.roles
    requires t'.memberRoles == t.memberRoles + {(u, role)} || t'.memberRoles == t.memberRoles - {(u, role)}
    ensures AgreeUpTo(t, t', k)
  {
  }

  lemma SameRolesAgree(t: Tables, t': Tables, k: int)
    requires t'.roles == t.roles && t'.memberRoles == t.memberRoles
    ensures AgreeUpTo(t, t', k)
  {
  }

  lemma AssignAgrees(c: Catalog, t: Tables, maxRoles: nat, caller: Id, target: Id, role: Id)
    requires Apply(c, t, maxRoles, caller, AssignRole(target, role)).Ok?
    ensures AgreeUpTo(t, Apply(c, t, maxRoles, caller, AssignRole(target, role)).value, HighestPosition(t, caller))
  {
    HoldingAgrees(t, Apply(c, t, maxRoles, caller, AssignRole(target, role)).value, target, role, HighestPosition(t, caller));
  }

  lemma RemoveAgrees(c: Catalog, t: Tables, maxRoles: nat, caller: Id, target: Id, role: Id)
    requires Apply(c, t, maxRoles, caller, RemoveRole(target, role)).Ok?
    ensures AgreeUpTo(t, Apply(c, t, maxRoles, caller, RemoveRole(target, role)).value, HighestPosition(t, caller))
  {
    HoldingAgrees(t, Apply(c, t, maxRoles, caller, RemoveRole(target, role)).value, target, role, HighestPosition(t, caller));
  }

  /** A handler call touches nothing at the caller's rank or better. */
  lemma CallAgreesUpToCaller(c: Catalog, t: Tables, maxRoles: nat, caller: Id, a: Action)
    requires WellFormed(c, t)
    requires Apply(c, t, maxRoles, caller, a).Ok?
    ensures AgreeUpTo(t, Apply(c, t, maxRoles, caller, a).value, HighestPosition(t, caller))
  {
    var k := HighestPosition(t, caller);
    match a
    case CreateRole(id, name, permissions) => CreateAgrees(t, maxRoles, id, name, permissions, k);
    case UpdateRole(role, patch) => UpdateAgrees(t, role, patch, k);
    case DeleteRole(role) => DeleteAgrees(t, role, k);
    case AssignRole(target, role) => AssignAgrees(c, t, maxRoles, caller, target, role);
    case RemoveRole(target, role) => RemoveAgrees(c, t, maxRoles, caller, target, role);
    case _ => SameRolesAgree(t, Apply(c, t, maxRoles, caller, a).value, k);
  }

  lemma RemovalIsAllowed(t: Tables, t': Tables, actors: set<Id>, b: int, target: Id)
    requires t'.members.Keys == t.members.Keys - {target}
    requires target !in t.owners && (target in actors || HighestPosition(t, target) > b)
    ensures KeepsUntouchables(t, t', actors, b)
  {
  }

  lemma OthersStay(c: Catalog, t: Tables, maxRoles: nat, caller: Id, a: Action)
    requires Apply(c, t, maxRoles, caller, a).Ok? && !a.Kick? && !a.Ban? && !a.Leave?
    ensures var t' := Apply(c, t, maxRoles, caller, a).value; t'.members.Keys == t.members.Keys && t'.owners == t.owners
  {
  }

  /** No owner and nobody at the caller's rank or better loses the membership, except by leaving. */
  lemma CallKeepsUntouchables(c: Catalog, t: Tables, maxRoles: nat, caller: Id, a: Action, actors: set<Id>, b: int)
    requires Apply(c, t, maxRoles, caller, a).Ok?
    requires caller in actors && b <= HighestPosition(t, caller)
    ensures KeepsUntouchables(t, Apply(c, t, maxRoles, caller, a).value, actors, b)
    ensures Apply(c, t, maxRoles, caller, a).value.owners == t.owners
  {
    var t' := Apply(c, t, maxRoles, caller, a).value;
    match a
    case Kick(target) => RemovalIsAllowed(t, t', actors, b, target);
    case Ban(target) => RemovalIsAllowed(t, t', actors, b, target);
    case Leave => RemovalIsAllowed(t, t', actors, b, caller);
    case _ => OthersStay(c, t, maxRoles, caller, a);
  }

  lemma AgreeingIsTransitive(t: Tables, t': Tables, t'': Tables, k: int)
    requires AgreeUpTo(t, t', k) && AgreeUpTo(t', t'', k)
    ensures AgreeUpTo(t, t'', k)
  {
  }

  lemma LowerAgreement(t: Tables, t': Tables, k: int, b: int)
    requires AgreeUpTo(t, t', k) && b <= k
    ensures AgreeUpTo(t, t', b)
  {
  }

  /** What one call, or a whole run, by users ranked at b or worse preserves. */
  ghost predicate Preserves(t: Tables, t': Tables, actors: set<Id>, b: int) {
    && AgreeUpTo(t, t', b)
    && (forall u :: HighestPosition(t, u) <= b ==> HighestPosition(t', u) == HighestPosition(t, u))
    && (forall u :: HighestPosition(t, u) > b ==> HighestPosition(t', u) > b)
    && t'.owners == t.owners
    && KeepsUntouchables(t, t', actors, b)
  }

  lemma CallPreserves(c: Catalog, t: Tables, maxRoles: nat, caller: Id, a: Action, actors: set<Id>, b: int)
    requires WellFormed(c, t)
    requires Apply(c, t, maxRoles, caller, a).Ok?
    requires caller in actors && b <= HighestPosition(t, caller)
    ensures WellFormed(c, Apply(c, t, maxRoles, caller, a).value)
    ensures Preserves(t, Apply(c, t, maxRoles, caller, a).value, actors, b)
  {
    var t' := Apply(c, t, maxRoles, caller, a).value;
    ApplyKeepsTablesWellFormed(c, t, maxRoles, caller, a);
    CallAgreesUpToCaller(c, t, maxRoles, caller, a);
    LowerAgreement(t, t', HighestPosition(t, caller), b);
    CallKeepsUntouchables(c, t, maxRoles, caller, a, actors, b);
    forall u
      ensures HighestPosition(t, u) <= b ==> HighestPosition(t', u) == HighestPosition(t, u)
      ensures HighestPosition(t, u) > b ==> HighestPosition(t', u) > b
    {
      AgreeingTablesRankAlike(c, t, t', b, u);
    }
  }

  lemma PreservesIsTransitive(t: Tables, t': Tables, t'': Tables, actors: set<Id>, b: int)
    requires Preserves(t, t', actors, b) && Preserves(t', t'', actors, b)
    ensures Preserves(t, t'', actors, b)
  {
    AgreeingIsTransitive(t, t', t'', b);
  }

  // ---- Runs ----

  datatype Call = Call(caller: Id, action: Action)

  /** One call after the other; a rejected call changes nothing. */
  function Run(c: Catalog, t: Tables, maxRoles: nat, calls: seq<Call>): Tables
    decreases |calls|
  {
    if calls == [] then t else
    var r := Apply(c, t, maxRoles, calls[0].caller, calls[0].action);
    Run(c, if r.Ok? then r.value else t, maxRoles, calls[1..])
  }

  /** A run makes its calls in turn: each successful one counts, a refused one is as if it had not been made. */
  lemma RunInTurn(c: Catalog, t: Tables, maxRoles: nat, call: Call, rest: seq<Call>)
    ensures Apply(c, t, maxRoles, call.caller, call.action).Ok? ==>
              Run(c, t, maxRoles, [call] + rest) == Run(c, Apply(c, t, maxRoles, call.caller, call.action).value, maxRoles, rest)
    ensures Apply(c, t, maxRoles, call.caller, call.action).Err? ==> Run(c, t, maxRoles, [call] + rest) == Run(c, t, maxRoles, rest)
    ensures Run(c, t, maxRoles, []) == t
  {
    assert ([call] + rest)[1..] == rest;
  }

  ghost predicate MadeBy(calls: seq<Call>, actors: set<Id>) {
    forall i :: 0 <= i < |calls| ==> calls[i].caller in actors
  }

  /** b is the best rank held among the users. */
  ghost predicate BestRank(t: Tables, users: set<Id>, b: int) {
    && (forall u :: u in users ==> b <= HighestPosition(t, u))
    && (exists u :: u in users && HighestPosition(t, u) == b)
  }

  /** Kick, ban and leave leave the members that the acting set does not outrank, and the owners, in place. */
  ghost predicate KeepsUntouchables(t: Tables, t': Tables, actors: set<Id>, b: int) {
    forall u :: u in t.members && (u in t.owners || (u !in actors && HighestPosition(t, u) <= b)) ==> u in t'.members
  }

  /**
    Whatever a set of users does, in any order and any number of calls, the best rank b inside the set stays b, every
    role at b or better stays as it is with the same holders, every user ranked at b or better keeps that rank and
    every other user stays strictly below b, and no owner and no outside member ranked at b or better is removed.
  */
  lemma {:induction false} ActorsNeverRise(c: Catalog, t: Tables, maxRoles: nat, calls: seq<Call>, actors: set<Id>, b: int)
    requires WellFormed(c, t)
    requires MadeBy(calls, actors)
    requires BestRank(t, actors, b)
    ensures WellFormed(c, Run(c, t, maxRoles, calls))
    ensures BestRank(Run(c, t, maxRoles, calls), actors, b)
    ensures Preserves(t, Run(c, t, maxRoles, calls), actors, b)
    decreases |calls|
  {
    if calls != [] {
      var caller, a := calls[0].caller, calls[0].action;
      var r := Apply(c, t, maxRoles, caller, a);
      var t1 := if r.Ok? then r.value else t;
      if r.Ok? {
        CallPreserves(c, t, maxRoles, caller, a, actors, b);
      }
      ActorsNeverRise(c, t1, maxRoles, calls[1..], actors, b);
      PreservesIsTransitive(t, t1, Run(c, t, maxRoles, calls), actors, b);
    }
  }
}
