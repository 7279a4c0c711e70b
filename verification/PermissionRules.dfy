/**
  The four-step permission algorithm (owner bypass, role union, category overrides, channel overrides) as functions
  of the tables, and an independent reading of it: every bit is decided by the most specific level that mentions it.
*/
module PermissionRules {
  import opened Common
  import opened ServerStore

  datatype ResolveError = ChannelNotFound

  datatype BaseResult = BaseResult(perm: Permission, roles: set<Id>, admin: bool)

  /** Roles whose permissions count for the user: the assigned ones and @everyone. */
  function HeldRoles(t: Tables, u: Id): set<Id> {
    set r | r in t.roles && ((u, r) in t.memberRoles || t.roles[r].everyone)
  }

  /** Steps 1 and 2. */
  function Base(c: Catalog, t: Tables, u: Id): BaseResult {
    if u in t.owners then BaseResult(c.all, {}, true) else
    var held := HeldRoles(t, u);
    var union := set r, b | r in held && b in t.roles[r].permissions :: b;
    if Has(union, c.manageServer) then BaseResult(c.all, {}, true)
    else BaseResult(union, held, false)
  }

  function RoleAllow(t: Tables, target: Target, roles: set<Id>): Permission {
    set r, b | r in roles && (target, RolePrincipal(r)) in t.overrides
             && b in t.overrides[(target, RolePrincipal(r))].allow :: b
  }

  function RoleDeny(t: Tables, target: Target, roles: set<Id>): Permission {
    set r, b | r in roles && (target, RolePrincipal(r)) in t.overrides
             && b in t.overrides[(target, RolePrincipal(r))].deny :: b
  }

  /** One level of overrides: the roles' grants together, then the user's own grant; deny is applied after allow. */
  function Overridden(t: Tables, target: Target, base: Permission, roles: set<Id>, u: Id): Permission {
    var afterRoles := base + RoleAllow(t, target, roles) - RoleDeny(t, target, roles);
    var own := (target, UserPrincipal(u));
    if own in t.overrides then afterRoles + t.overrides[own].allow - t.overrides[own].deny else afterRoles
  }

  /** Steps 3 and 4. */
  function ChannelPermissions(t: Tables, base: Permission, roles: set<Id>, u: Id, ch: Id)
    : Result<Permission, ResolveError>
  {
    if ch !in t.channels then Err(ChannelNotFound) else
    var afterCategory :=
      match t.channels[ch]
      case Some(category) => Overridden(t, CategoryTarget(category), base, roles, u)
      case None => base;
    Ok(Overridden(t, ChannelTarget(ch), afterCategory, roles, u))
  }

  function Compute(c: Catalog, t: Tables, u: Id, ch: Id): Result<Permission, ResolveError> {
    var br := Base(c, t, u);
    if br.admin then Ok(br.perm) else ChannelPermissions(t, br.perm, br.roles, u, ch)
  }

  // ---- Most specific mention wins ----

  datatype Verdict = Allowed | Denied | Silent

  /** What one principal group at one target says about a bit; deny beats allow. */
  ghost predicate Mentioned(t: Tables, target: Target, who: set<Principal>, b: Bit, deny: bool) {
    exists p :: p in who && (target, p) in t.overrides
             && b in (if deny then t.overrides[(target, p)].deny else t.overrides[(target, p)].allow)
  }

  ghost function Says(t: Tables, target: Target, who: set<Principal>, b: Bit): Verdict {
    if Mentioned(t, target, who, b, true) then Denied
    else if Mentioned(t, target, who, b, false) then Allowed
    else Silent
  }

  /** The four levels of a channel, most specific first; without a category there are two. */
  ghost function Levels(t: Tables, u: Id, ch: Id, b: Bit): seq<Verdict>
    requires ch in t.channels
  {
    var own := {UserPrincipal(u)};
    var group := set r | r in t.roles && (t.roles[r].everyone || (u, r) in t.memberRoles) :: RolePrincipal(r);
    [Says(t, ChannelTarget(ch), own, b), Says(t, ChannelTarget(ch), group, b)]
    + match t.channels[ch]
      case Some(k) => [Says(t, CategoryTarget(k), own, b), Says(t, CategoryTarget(k), group, b)]
      case None => []
  }

  /** The first level that is not silent, if any. */
  ghost function FirstSaid(levels: seq<Verdict>): Verdict {
    if levels == [] then Silent
    else if levels[0] != Silent then levels[0]
    else FirstSaid(levels[1..])
  }

  lemma FirstSaidSkips(levels: seq<Verdict>)
    requires levels != []
    ensures FirstSaid(levels) == if levels[0] != Silent then levels[0] else FirstSaid(levels[1..])
    ensures |levels| == 1 ==> FirstSaid(levels) == levels[0]
    ensures |levels| >= 2 ==> levels[1..][0] == levels[1] && levels[1..][1..] == levels[2..]
  {
    if |levels| == 1 {
      assert levels[1..] == [];
    }
  }

  /** Some @everyone role or some role assigned to the user has the bit. */
  ghost predicate HeldByRole(t: Tables, u: Id, b: Bit) {
    exists r :: r in t.roles && (t.roles[r].everyone || (u, r) in t.memberRoles) && b in t.roles[r].permissions
  }

  ghost predicate IsAdmin(c: Catalog, t: Tables, u: Id) {
    u in t.owners || forall b :: b in c.manageServer ==> HeldByRole(t, u, b)
  }

  /** One level: the user's own mention decides, then the roles' mention, then what came in. */
  lemma LevelDecides(t: Tables, target: Target, base: Permission, u: Id, b: Bit)
    ensures var own := Says(t, target, {UserPrincipal(u)}, b);
            var group := Says(t, target, (set r | r in t.roles && (t.roles[r].everyone || (u, r) in t.memberRoles) :: RolePrincipal(r)), b);
            b in Overridden(t, target, base, HeldRoles(t, u), u) <==>
              own == Allowed || (own == Silent && (group == Allowed || (group == Silent && b in base)))
  {
    var roles := HeldRoles(t, u);
    var group := set r | r in t.roles && (t.roles[r].everyone || (u, r) in t.memberRoles) :: RolePrincipal(r);
    assert forall r :: r in roles <==> r in t.roles && (t.roles[r].everyone || (u, r) in t.memberRoles);
    assert Mentioned(t, target, group, b, false) <==> b in RoleAllow(t, target, roles) by {
      if b in RoleAllow(t, target, roles) {
        var r :| r in roles && (target, RolePrincipal(r)) in t.overrides
              && b in t.overrides[(target, RolePrincipal(r))].allow;
        assert RolePrincipal(r) in group;
      }
    }
    assert Mentioned(t, target, group, b, true) <==> b in RoleDeny(t, target, roles) by {
      if b in RoleDeny(t, target, roles) {
        var r :| r in roles && (target, RolePrincipal(r)) in t.overrides
              && b in t.overrides[(target, RolePrincipal(r))].deny;
        assert RolePrincipal(r) in group;
      }
    }
    assert UserPrincipal(u) in {UserPrincipal(u)};
  }

  /** Owners and holders of ManageServer have the defined bits; anyone else what @everyone and the assigned roles give. */
  lemma BaseIsRoleUnion(c: Catalog, t: Tables, u: Id)
    ensures IsAdmin(c, t, u) ==> Base(c, t, u) == BaseResult(c.all, {}, true)
    ensures !IsAdmin(c, t, u) ==>
              var br := Base(c, t, u);
              !br.admin && br.roles == (set r | r in t.roles && (t.roles[r].everyone || (u, r) in t.memberRoles))
              && forall b: Bit :: b in br.perm <==> HeldByRole(t, u, b)
  {
    var held := HeldRoles(t, u);
    var union := set r, x | r in held && x in t.roles[r].permissions :: x;
    forall x: Bit ensures x in union <==> HeldByRole(t, u, x) {}
  }

  /**
    Effective permissions, bit by bit: an admin has exactly the defined bits; for anyone else the first of channel
    user, channel roles, category user and category roles that mentions the bit decides it, and the roles' own
    permissions decide a bit nobody mentions. The order in which overrides are read does not appear.
  */
  lemma MostSpecificMentionWins(c: Catalog, t: Tables, u: Id, ch: Id, b: Bit)
    ensures IsAdmin(c, t, u) ==> Compute(c, t, u, ch) == Ok(c.all)
    ensures !IsAdmin(c, t, u) && ch !in t.channels ==> Compute(c, t, u, ch) == Err(ChannelNotFound)
    ensures !IsAdmin(c, t, u) && ch in t.channels ==>
              && Compute(c, t, u, ch).Ok?
              && (b in Compute(c, t, u, ch).value <==>
                    var said := FirstSaid(Levels(t, u, ch, b));
                    said == Allowed || (said == Silent && HeldByRole(t, u, b)))
  {
    BaseIsRoleUnion(c, t, u);
    if !IsAdmin(c, t, u) && ch in t.channels {
      var held, union := HeldRoles(t, u), Base(c, t, u).perm;
      match t.channels[ch]
      case Some(k) =>
        LevelDecides(t, CategoryTarget(k), union, u, b);
        LevelDecides(t, ChannelTarget(ch), Overridden(t, CategoryTarget(k), union, held, u), u, b);
        var ls := Levels(t, u, ch, b);
        FirstSaidSkips(ls);
        FirstSaidSkips(ls[1..]);
        FirstSaidSkips(ls[2..]);
        FirstSaidSkips(ls[3..]);
      case None =>
        LevelDecides(t, ChannelTarget(ch), union, u, b);
        var ls := Levels(t, u, ch, b);
        FirstSaidSkips(ls);
        FirstSaidSkips(ls[1..]);
    }
  }

  /** Nobody ever gets a bit that is not defined. */
  lemma ComputeStaysInCatalog(c: Catalog, t: Tables, u: Id, ch: Id)
    requires WellFormed(c, t)
    requires Compute(c, t, u, ch).Ok?
    ensures Compute(c, t, u, ch).value <= c.all
  {
    assert Base(c, t, u).perm <= c.all;
  }
}
