/** Pairs of handler calls that undo each other. */
module HandlerRoundTrips {
  import opened Common
  import opened ServerStore
  import opened ServerActions
  import opened RoleHierarchy

  /** A successful call never changes the caller's own rank. */
  lemma OwnRankStays(c: Catalog, t: Tables, maxRoles: nat, caller: Id, a: Action)
    requires WellFormed(c, t) && Apply(c, t, maxRoles, caller, a).Ok?
    ensures HighestPosition(Apply(c, t, maxRoles, caller, a).value, caller) == HighestPosition(t, caller)
  {
    CallPreserves(c, t, maxRoles, caller, a, {caller}, HighestPosition(t, caller));
  }

  /** Whoever could assign a role can take it away again, and that restores the tables. */
  lemma AssignThenRemove(c: Catalog, t: Tables, maxRoles: nat, caller: Id, target: Id, role: Id)
    requires WellFormed(c, t) && Apply(c, t, maxRoles, caller, AssignRole(target, role)).Ok?
    ensures var t1 := Apply(c, t, maxRoles, caller, AssignRole(target, role)).value;
            Apply(c, t1, maxRoles, caller, RemoveRole(target, role)) == Ok(t)
  {
    OwnRankStays(c, t, maxRoles, caller, AssignRole(target, role));
    assert t.memberRoles + {(target, role)} - {(target, role)} == t.memberRoles;
  }

  /** Deleting the row just inserted restores the tables, if no override names it. */
  lemma InsertThenDeleteRow(c: Catalog, t: Tables, maxRoles: nat, id: Id, name: string, permissions: Permission)
    requires WellFormed(c, t) && InsertRole(t, id, name, permissions, maxRoles).Ok?
    requires forall k :: k in t.overrides ==> k.1 != RolePrincipal(id)
    ensures DeleteRoleRow(InsertRole(t, id, name, permissions, maxRoles).value, id) == Ok(t)
  {
    var t1 := InsertRole(t, id, name, permissions, maxRoles).value;
    assert t1.roles - {id} == t.roles;
    assert (set ur | ur in t1.memberRoles && ur.1 != id) == t.memberRoles by {
      forall ur | ur in t.memberRoles ensures ur.1 != id {
        assert (ur.0, ur.1) in t.memberRoles;
      }
    }
    assert (map k | k in t1.overrides && k.1 != RolePrincipal(id) :: t1.overrides[k]) == t.overrides;
  }

  /** A role at the bottom is below everyone with an explicit role and above nobody without one. */
  lemma BelowRankedUsers(c: Catalog, t: Tables, u: Id)
    requires WellFormed(c, t) && IsInteger(NextPosition(t))
    ensures NextPosition(t) > HighestPosition(t, u) <==> ExplicitRoles(t, u) != {}
  {
    NextPositionIsFree(t);
    RankIsBest(t, u);
    if ExplicitRoles(t, u) != {} {
      var r := Member(ExplicitRoles(t, u));
      assert HighestPosition(t, u) <= t.roles[r].position < NextPosition(t);
    }
  }

  /**
    A new role is below every other one; so its creator can delete it again, restoring the tables, if and only if the
    creator holds an explicit role.
  */
  lemma CreateThenDelete(c: Catalog, t: Tables, maxRoles: nat, caller: Id, id: Id, name: string, permissions: Permission)
    requires WellFormed(c, t) && Apply(c, t, maxRoles, caller, CreateRole(id, name, permissions)).Ok?
    requires forall k :: k in t.overrides ==> k.1 != RolePrincipal(id)
    ensures var t1 := Apply(c, t, maxRoles, caller, CreateRole(id, name, permissions)).value;
            Apply(c, t1, maxRoles, caller, DeleteRole(id))
            == if ExplicitRoles(t, caller) == {} then Err(Error.RoleHierarchy) else Ok(t)
  {
    OwnRankStays(c, t, maxRoles, caller, CreateRole(id, name, permissions));
    InsertThenDeleteRow(c, t, maxRoles, id, name, permissions);
    BelowRankedUsers(c, t, caller);
  }
}
