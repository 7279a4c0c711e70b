/**
  What each handler call achieves, in terms of the rows alone: exactly when it goes through, and exactly what is stored
  afterwards. Ranks are spelled out as roles the users hold.
*/
module HandlerEffects {
  import opened Common
  import opened ServerStore
  import opened ServerActions
  import opened RoleHierarchy
  import opened PermissionRules

  /** The user was given the role, and it is not @everyone. */
  ghost predicate Holds(t: Tables, u: Id, r: Id) {
    r in t.roles && (u, r) in t.memberRoles && !t.roles[r].everyone
  }

  /** The user holds a role in front of the position. */
  ghost predicate Above(t: Tables, u: Id, p: int) {
    exists r :: Holds(t, u, r) && t.roles[r].position < p
  }

  /** The user holds a role in front of every role of the other user. */
  ghost predicate Outranks(t: Tables, u: Id, v: Id) {
    exists r :: Holds(t, u, r) && forall q :: Holds(t, v, q) ==> t.roles[r].position < t.roles[q].position
  }

  lemma RankAbove(t: Tables, u: Id, p: int)
    requires p <= MAX_INT
    ensures HighestPosition(t, u) < p <==> Above(t, u, p)
  {
    RankIsBest(t, u);
    assert forall r :: r in ExplicitRoles(t, u) <==> Holds(t, u, r);
  }

  lemma RankOutranks(c: Catalog, t: Tables, u: Id, v: Id)
    requires WellFormed(c, t)
    ensures HighestPosition(t, u) < HighestPosition(t, v) <==> Outranks(t, u, v)
  {
    RankIsBest(t, u);
    RankIsBest(t, v);
    assert forall r :: r in ExplicitRoles(t, u) <==> Holds(t, u, r);
    assert forall r :: r in ExplicitRoles(t, v) <==> Holds(t, v, r);
    if HighestPosition(t, u) < HighestPosition(t, v) {
      var r :| Holds(t, u, r) && t.roles[r].position == HighestPosition(t, u);
      assert forall q :: Holds(t, v, q) ==> t.roles[r].position < t.roles[q].position;
    }
    if r :| Holds(t, u, r) && forall q :: Holds(t, v, q) ==> t.roles[r].position < t.roles[q].position {
      assert HighestPosition(t, u) <= t.roles[r].position < MAX_INT;
    }
  }

  // ---- Roles ----

  /** The position behind all others, or 0. */
  ghost predicate IsNextPosition(t: Tables, p: int) {
    && (forall r :: r in t.roles ==> t.roles[r].position < p)
    && (if t.roles == map[] then p == 0 else exists r :: r in t.roles && t.roles[r].position == p - 1)
  }

  lemma NextPositionIsExact(t: Tables)
    ensures IsNextPosition(t, NextPosition(t))
  {
    NextPositionIsFree(t);
    var negated := set r | r in t.roles :: -t.roles[r].position;
    if t.roles != map[] {
      var r := Member(t.roles.Keys);
      assert -t.roles[r].position in negated;
      assert Least(negated) in negated;
    }
  }

  /** A new role has the given name and bits, nobody, and the position behind all others. */
  lemma CreateIsExact(c: Catalog, t: Tables, maxRoles: nat, caller: Id, id: Id, name: string, permissions: Permission)
    requires WellFormed(c, t) && id !in t.roles
    ensures exists p :: IsNextPosition(t, p) &&
              var r := Apply(c, t, maxRoles, caller, CreateRole(id, name, permissions));
              && (r.Ok? <==> permissions <= c.all && |t.roles| < maxRoles && IsInteger(p)
                             && forall q :: q in t.roles ==> t.roles[q].name != name)
              && (r.Ok? ==> r.value == t.(roles := t.roles[id := Role(name, permissions, p, false)]))
  {
    NextPositionIsExact(t);
    assert IsNextPosition(t, NextPosition(t));
  }

  /** The role with the patch's fields where it has any. */
  ghost predicate Carries(r: Role, r': Role, patch: RolePatch) {
    && r'.everyone == r.everyone
    && (match patch.name case Some(n) => r'.name == n case None => r'.name == r.name)
    && (match patch.position case Some(p) => r'.position == p case None => r'.position == r.position)
    && (match patch.permissions case Some(p) => r'.permissions == p case None => r'.permissions == r.permissions)
  }

  /** What an update asks of the caller, the patch and the other roles. */
  ghost predicate MayUpdate(c: Catalog, t: Tables, caller: Id, role: Id, patch: RolePatch) {
    && role in t.roles && Above(t, caller, t.roles[role].position)
    && (patch.position.Some? ==> 0 <= patch.position.value && IsInteger(patch.position.value) && Above(t, caller, patch.position.value))
    && (patch.permissions.Some? ==> patch.permissions.value <= c.all)
    && (patch.name.Some? ==> !t.roles[role].everyone)
    && (forall q :: q in t.roles && q != role ==> patch.name != Some(t.roles[q].name) && patch.position != Some(t.roles[q].position))
  }

  lemma UpdateGoesThrough(c: Catalog, t: Tables, maxRoles: nat, caller: Id, role: Id, patch: RolePatch)
    requires WellFormed(c, t)
    ensures Apply(c, t, maxRoles, caller, UpdateRole(role, patch)).Ok? <==> MayUpdate(c, t, caller, role, patch)
  {
    if role in t.roles {
      RankAbove(t, caller, t.roles[role].position);
    }
    if patch.position.Some? && IsInteger(patch.position.value) {
      RankAbove(t, caller, patch.position.value);
    }
  }

  lemma UpdateStores(t: Tables, role: Id, patch: RolePatch)
    requires UpdateRoleRow(t, role, patch).Ok?
    ensures role in t.roles
    ensures var t' := UpdateRoleRow(t, role, patch).value;
            role in t'.roles && Carries(t.roles[role], t'.roles[role], patch) && t' == t.(roles := t.roles[role := t'.roles[role]])
  {
    assert t.roles[role := t.roles[role]] == t.roles;
  }

  lemma UpdateIsExact(c: Catalog, t: Tables, maxRoles: nat, caller: Id, role: Id, patch: RolePatch)
    requires WellFormed(c, t)
    ensures var r := Apply(c, t, maxRoles, caller, UpdateRole(role, patch));
            && (r.Ok? <==> MayUpdate(c, t, caller, role, patch))
            && (r.Ok? ==> role in t.roles && role in r.value.roles && Carries(t.roles[role], r.value.roles[role], patch)
                          && r.value == t.(roles := t.roles[role := r.value.roles[role]]))
  {
    UpdateGoesThrough(c, t, maxRoles, caller, role, patch);
    if UpdateRoleRow(t, role, patch).Ok? {
      UpdateStores(t, role, patch);
    }
  }

  /** A deleted role takes its assignments and its overrides along, and nothing else. */
  lemma DeleteIsExact(c: Catalog, t: Tables, maxRoles: nat, caller: Id, role: Id)
    requires WellFormed(c, t)
    ensures var r := Apply(c, t, maxRoles, caller, DeleteRole(role));
            && (r.Ok? <==> role in t.roles && !t.roles[role].everyone && Above(t, caller, t.roles[role].position))
            && (r.Ok? ==>
                  && r.value.roles == t.roles - {role}
                  && (forall u, q :: (u, q) in r.value.memberRoles <==> (u, q) in t.memberRoles && q != role)
                  && (forall k :: k in r.value.overrides <==> k in t.overrides && k.1 != RolePrincipal(role))
                  && (forall k :: k in r.value.overrides ==> r.value.overrides[k] == t.overrides[k])
                  && r.value == t.(roles := r.value.roles, memberRoles := r.value.memberRoles, overrides := r.value.overrides))
  {
    if role in t.roles {
      RankAbove(t, caller, t.roles[role].position);
    }
  }

  lemma AssignAndRemoveAreExact(c: Catalog, t: Tables, maxRoles: nat, caller: Id, target: Id, role: Id)
    requires WellFormed(c, t)
    ensures var r := Apply(c, t, maxRoles, caller, AssignRole(target, role));
            && (r.Ok? <==> role in t.roles && !t.roles[role].everyone && Above(t, caller, t.roles[role].position)
                           && target in t.members && t.members[target] != Pending && (target, role) !in t.memberRoles)
            && (r.Ok? ==> r.value == t.(memberRoles := t.memberRoles + {(target, role)}))
    ensures var r := Apply(c, t, maxRoles, caller, RemoveRole(target, role));
            && (r.Ok? <==> role in t.roles && !t.roles[role].everyone && Above(t, caller, t.roles[role].position)
                           && (target, role) in t.memberRoles)
            && (r.Ok? ==> r.value == t.(memberRoles := t.memberRoles - {(target, role)}))
  {
    if role in t.roles {
      RankAbove(t, caller, t.roles[role].position);
    }
  }

  // ---- Members ----

  /** Kick, ban and timeout reach exactly the users the caller outranks, owners excepted. */
  lemma ModerationIsExact(c: Catalog, t: Tables, maxRoles: nat, caller: Id, target: Id, until: int, now: int)
    requires WellFormed(c, t)
    ensures var r := Apply(c, t, maxRoles, caller, Kick(target));
            && (r.Ok? <==> target !in t.owners && Outranks(t, caller, target) && target in t.members)
            && (r.Ok? ==> r.value == t.(members := t.members - {target}))
    ensures var r := Apply(c, t, maxRoles, caller, Ban(target));
            && (r.Ok? <==> target !in t.owners && Outranks(t, caller, target) && target !in t.bans)
            && (r.Ok? ==> r.value == t.(bans := t.bans + {target}, members := t.members - {target}))
    ensures var r := Apply(c, t, maxRoles, caller, Timeout(target, until, now));
            && (r.Ok? <==> now < until && target !in t.owners && Outranks(t, caller, target) && target in t.members)
            && (r.Ok? ==> r.value == t.(members := t.members[target := TimedOut]))
  {
    RankOutranks(c, t, caller, target);
  }

  /** Ending a timeout asks for nothing but a membership; leaving is refused to owners alone; joining starts as pending. */
  lemma MembershipIsExact(c: Catalog, t: Tables, maxRoles: nat, caller: Id, target: Id)
    ensures var r := Apply(c, t, maxRoles, caller, ClearTimeout(target));
            (r.Ok? <==> target in t.members) && (r.Ok? ==> r.value == t.(members := t.members[target := Active]))
    ensures var r := Apply(c, t, maxRoles, caller, Leave);
            (r.Ok? <==> caller !in t.owners && caller in t.members) && (r.Ok? ==> r.value == t.(members := t.members - {caller}))
    ensures var r := CreatePending(t, target);
            && (r.Ok? <==> target !in t.members && forall q :: q in t.roles && t.roles[q].everyone ==> (target, q) !in t.memberRoles)
            && (r.Ok? ==>
                  && r.value == t.(members := t.members[target := Pending], memberRoles := r.value.memberRoles)
                  && forall u, q :: (u, q) in r.value.memberRoles <==>
                       (u, q) in t.memberRoles || (u == target && q in t.roles && t.roles[q].everyone))
  {
    assert forall q :: q in EveryoneRoles(t) <==> q in t.roles && t.roles[q].everyone;
  }

  // ---- Overrides ----

  lemma OverridesAreExact(c: Catalog, t: Tables, maxRoles: nat, caller: Id, channel: Id, p: Principal, allow: Permission, deny: Permission)
    ensures var r := Apply(c, t, maxRoles, caller, SetOverride(channel, p, allow, deny));
            && (r.Ok? <==> allow <= c.all && deny <= c.all)
            && (r.Ok? ==> r.value == t.(overrides := t.overrides[(ChannelTarget(channel), p) := Grant(allow, deny)]))
    ensures var r := Apply(c, t, maxRoles, caller, DeleteOverride(channel, p));
            && (r.Ok? <==> (ChannelTarget(channel), p) in t.overrides)
            && (r.Ok? ==> r.value == t.(overrides := t.overrides - {(ChannelTarget(channel), p)}))
  {
  }

  /** What the override says about a bit. */
  ghost predicate Decides(allow: Permission, deny: Permission, b: Bit, said: Verdict) {
    said == if b in deny then Denied else if b in allow then Allowed else Silent
  }

  lemma OwnLevelSays(t: Tables, u: Id, ch: Id, allow: Permission, deny: Permission, b: Bit)
    requires ch in t.channels && (ChannelTarget(ch), UserPrincipal(u)) in t.overrides
    requires t.overrides[(ChannelTarget(ch), UserPrincipal(u))] == Grant(allow, deny)
    ensures Decides(allow, deny, b, Levels(t, u, ch, b)[0])
    ensures FirstSaid(Levels(t, u, ch, b)) == if b in deny then Denied else if b in allow then Allowed else FirstSaid(Levels(t, u, ch, b)[1..])
  {
    assert UserPrincipal(u) in {UserPrincipal(u)};
    FirstSaidSkips(Levels(t, u, ch, b));
  }

  /**
    A user's own override takes effect at once: afterwards a denied bit is out, an allowed one that is not denied is in,
    and any other bit is decided by the levels below, for a user who is no admin.
  */
  lemma OwnOverrideTakesEffect(c: Catalog, t: Tables, maxRoles: nat, caller: Id, u: Id, ch: Id, allow: Permission, deny: Permission, b: Bit)
    requires Apply(c, t, maxRoles, caller, SetOverride(ch, UserPrincipal(u), allow, deny)).Ok? && ch in t.channels
    ensures var t' := Apply(c, t, maxRoles, caller, SetOverride(ch, UserPrincipal(u), allow, deny)).value;
            && (IsAdmin(c, t, u) <==> IsAdmin(c, t', u)) && ch in t'.channels
            && (!IsAdmin(c, t, u) ==>
                  && Compute(c, t', u, ch).Ok?
                  && (b in Compute(c, t', u, ch).value <==>
                        b !in deny && (b in allow ||
                                       var below := FirstSaid(Levels(t', u, ch, b)[1..]);
                                       below == Allowed || (below == Silent && HeldByRole(t, u, b)))))
  {
    var t' := Apply(c, t, maxRoles, caller, SetOverride(ch, UserPrincipal(u), allow, deny)).value;
    forall x ensures HeldByRole(t', u, x) <==> HeldByRole(t, u, x) {}
    OverridesAreExact(c, t, maxRoles, caller, ch, UserPrincipal(u), allow, deny);
    MostSpecificMentionWins(c, t', u, ch, b);
    OwnLevelSays(t', u, ch, allow, deny, b);
  }

  /** A user's own override changes nobody else's permissions. */
  lemma OwnOverrideTouchesNobodyElse(c: Catalog, t: Tables, maxRoles: nat, caller: Id, u: Id, ch: Id, allow: Permission, deny: Permission, v: Id, other: Id)
    requires Apply(c, t, maxRoles, caller, SetOverride(ch, UserPrincipal(u), allow, deny)).Ok? && u != v
    ensures Compute(c, Apply(c, t, maxRoles, caller, SetOverride(ch, UserPrincipal(u), allow, deny)).value, v, other) == Compute(c, t, v, other)
  {
    var t' := Apply(c, t, maxRoles, caller, SetOverride(ch, UserPrincipal(u), allow, deny)).value;
    assert HeldRoles(t', v) == HeldRoles(t, v);
    assert Base(c, t', v) == Base(c, t, v);
    var br := Base(c, t, v);
    if !br.admin && other in t.channels {
      match t.channels[other]
      case Some(k) =>
        SameForOthers(t, t', CategoryTarget(k), br.perm, br.roles, u, v);
        SameForOthers(t, t', ChannelTarget(other), Overridden(t, CategoryTarget(k), br.perm, br.roles, v), br.roles, u, v);
      case None =>
        SameForOthers(t, t', ChannelTarget(other), br.perm, br.roles, u, v);
    }
  }

  lemma SameForOthers(t: Tables, t': Tables, target: Target, base: Permission, roles: set<Id>, u: Id, v: Id)
    requires u != v
    requires forall k: (Target, Principal) :: k.1 != UserPrincipal(u) ==> (k in t.overrides <==> k in t'.overrides)
    requires forall k: (Target, Principal) :: k.1 != UserPrincipal(u) && k in t.overrides ==> t'.overrides[k] == t.overrides[k]
    ensures Overridden(t', target, base, roles, v) == Overridden(t, target, base, roles, v)
  {
    assert RoleAllow(t', target, roles) == RoleAllow(t, target, roles);
    assert RoleDeny(t', target, roles) == RoleDeny(t, target, roles);
  }
}
