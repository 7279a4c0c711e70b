/** What creating and assigning roles does to permissions: whose base permissions change, and by which bits. */
module RoleGrants {
  import opened Common
  import opened ServerStore
  import opened ServerActions
  import opened PermissionRules
  import opened HandlerRoundTrips

  /** The base permissions of a user who gets more bits: the union, or everything once it includes ManageServer. */
  function Raised(c: Catalog, base: BaseResult, p: Permission): Permission {
    if base.admin || Has(base.perm + p, c.manageServer) then c.all else base.perm + p
  }

  /** A new role is held by nobody; so creating it changes nobody's permissions. */
  lemma CreationGrantsNothing(c: Catalog, t: Tables, maxRoles: nat, caller: Id, id: Id, name: string, p: Permission, v: Id)
    requires WellFormed(c, t) && Apply(c, t, maxRoles, caller, CreateRole(id, name, p)).Ok?
    ensures Base(c, Apply(c, t, maxRoles, caller, CreateRole(id, name, p)).value, v) == Base(c, t, v)
  {
    var t1 := Apply(c, t, maxRoles, caller, CreateRole(id, name, p)).value;
    assert (v, id) !in t.memberRoles;
    assert HeldRoles(t1, v) == HeldRoles(t, v);
    SameUnion(t, t1, HeldRoles(t, v));
  }

  function Union(t: Tables, roles: set<Id>): Permission
    requires roles <= t.roles.Keys
  {
    set r, b | r in roles && b in t.roles[r].permissions :: b
  }

  lemma SameUnion(t: Tables, t1: Tables, roles: set<Id>)
    requires roles <= t.roles.Keys && roles <= t1.roles.Keys && forall r :: r in roles ==> t1.roles[r] == t.roles[r]
    ensures Union(t1, roles) == Union(t, roles)
  {
  }

  lemma BaseIsUnion(c: Catalog, t: Tables, u: Id)
    ensures Base(c, t, u) == if u in t.owners || Has(Union(t, HeldRoles(t, u)), c.manageServer) then BaseResult(c.all, {}, true)
                             else BaseResult(Union(t, HeldRoles(t, u)), HeldRoles(t, u), false)
  {
    assert Union(t, HeldRoles(t, u)) == set r, b | r in HeldRoles(t, u) && b in t.roles[r].permissions :: b;
  }

  lemma UnionWith(t: Tables, roles: set<Id>, role: Id)
    requires roles <= t.roles.Keys && role in t.roles
    ensures Union(t, roles + {role}) == Union(t, roles) + t.roles[role].permissions
  {
    forall b ensures b in Union(t, roles + {role}) <==> b in Union(t, roles) + t.roles[role].permissions {}
  }

  /** Assigning a role raises the target's base permissions by exactly the role's bits, and nobody else's change. */
  lemma AssignmentGrantsExactly(c: Catalog, t: Tables, maxRoles: nat, caller: Id, target: Id, role: Id)
    requires WellFormed(c, t) && Apply(c, t, maxRoles, caller, AssignRole(target, role)).Ok?
    ensures role in t.roles
    ensures var t1 := Apply(c, t, maxRoles, caller, AssignRole(target, role)).value;
            && Base(c, t1, target).perm == Raised(c, Base(c, t, target), t.roles[role].permissions)
            && (forall v :: v != target ==> Base(c, t1, v) == Base(c, t, v))
  {
    var t1 := Apply(c, t, maxRoles, caller, AssignRole(target, role)).value;
    assert HeldRoles(t1, target) == HeldRoles(t, target) + {role};
    SameUnion(t, t1, HeldRoles(t, target) + {role});
    UnionWith(t, HeldRoles(t, target), role);
    BaseIsUnion(c, t, target);
    BaseIsUnion(c, t1, target);
    forall v | v != target ensures Base(c, t1, v) == Base(c, t, v) {
      assert HeldRoles(t1, v) == HeldRoles(t, v);
    }
  }

  /**
    Rank never rises, but permissions are not ranked: whoever has created a role can take it if and only if they hold an
    explicit role and are a member past onboarding, and then their base permissions are raised by exactly its bits.
  */
  lemma CreatorMayTakeRole(c: Catalog, t: Tables, maxRoles: nat, caller: Id, id: Id, name: string, p: Permission)
    requires WellFormed(c, t) && Apply(c, t, maxRoles, caller, CreateRole(id, name, p)).Ok?
    ensures var t1 := Apply(c, t, maxRoles, caller, CreateRole(id, name, p)).value;
            var r := Apply(c, t1, maxRoles, caller, AssignRole(caller, id));
            && (r.Ok? <==> ExplicitRoles(t, caller) != {} && caller in t.members && t.members[caller] != Pending)
            && (r.Ok? ==> Base(c, r.value, caller).perm == Raised(c, Base(c, t, caller), p))
            && (r.Ok? ==> HighestPosition(r.value, caller) == HighestPosition(t, caller))
  {
    var t1 := Apply(c, t, maxRoles, caller, CreateRole(id, name, p)).value;
    var r := Apply(c, t1, maxRoles, caller, AssignRole(caller, id));
    ApplyKeepsTablesWellFormed(c, t, maxRoles, caller, CreateRole(id, name, p));
    OwnRankStays(c, t, maxRoles, caller, CreateRole(id, name, p));
    BelowRankedUsers(c, t, caller);
    assert (caller, id) !in t.memberRoles;
    CreationGrantsNothing(c, t, maxRoles, caller, id, name, p, caller);
    if r.Ok? {
      OwnRankStays(c, t1, maxRoles, caller, AssignRole(caller, id));
      AssignmentGrantsExactly(c, t1, maxRoles, caller, caller, id);
    }
  }
}
