/**
  The PostgreSQL tables behind roles, members, bans, channels and permission overrides, with the statements the
  repositories run on them. Every statement is one atomic step on a value of type Tables.
*/
module ServerStore {
  import opened Common

  /** Permission bitfields are 64 bits wide; a bitfield is the set of the bits that are on. */
  type Bit = b: nat | b < 64
  type Permission = set<Bit>

  /** The two protocol constants the resolver needs: every defined bit, and the bits of ManageServer. */
  datatype Catalog = Catalog(all: Permission, manageServer: Permission)

  predicate Has(p: Permission, q: Permission) { q <= p }

  datatype Principal = RolePrincipal(id: Id) | UserPrincipal(id: Id)
  datatype Target = ChannelTarget(id: Id) | CategoryTarget(id: Id)
  datatype Grant = Grant(allow: Permission, deny: Permission)
  datatype Role = Role(name: string, permissions: Permission, position: int, everyone: bool)
  datatype Status = Pending | Active | TimedOut

  datatype Tables = Tables(
    owners: set<Id>,
    roles: map<Id, Role>,
    memberRoles: set<(Id, Id)>,
    members: map<Id, Status>,
    bans: set<Id>,
    channels: map<Id, Option<Id>>,
    overrides: map<(Target, Principal), Grant>)

  datatype Error =
    | RoleNotFound | RoleExists | MaxRolesReached | EveryoneImmutable | RoleHierarchy
    | EveryoneRole | MemberNotFound | AlreadyMember | AlreadyBanned
    | TargetIsOwner | Outranked | TimeoutInPast | OverrideNotFound | InvalidInput | InternalError

  /** math.MaxInt of a 64-bit Go int: the rank of a user without explicit roles. */
  const MAX_INT: int := 0x7FFF_FFFF_FFFF_FFFF

  /** The position column is a 32-bit INTEGER. */
  predicate IsInteger(p: int) { -0x8000_0000 <= p < 0x8000_0000 }

  /** What the schema's constraints and the validators in front of every write keep true. */
  ghost predicate WellFormed(c: Catalog, t: Tables) {
    && NIL !in t.channels
    && c.manageServer <= c.all
    && (forall r :: r in t.roles ==> IsInteger(t.roles[r].position) && t.roles[r].permissions <= c.all)
    && (forall r, s :: r in t.roles && s in t.roles && t.roles[r].position == t.roles[s].position ==> r == s)
    && (forall r, s :: r in t.roles && s in t.roles && t.roles[r].name == t.roles[s].name ==> r == s)
    && (forall r, s :: r in t.roles && s in t.roles && t.roles[r].everyone && t.roles[s].everyone ==> r == s)
    && (forall k :: k in t.overrides ==> t.overrides[k].allow <= c.all && t.overrides[k].deny <= c.all)
    && (forall u, r :: (u, r) in t.memberRoles ==> r in t.roles)
  }

  // ---- Reads ----

  /** The roles the user was explicitly given, @everyone left out. */
  function ExplicitRoles(t: Tables, u: Id): set<Id> {
    set r | r in t.roles && (u, r) in t.memberRoles && !t.roles[r].everyone
  }

  function Positions(t: Tables, rs: set<Id>): set<int>
    requires rs <= t.roles.Keys
  {
    set r | r in rs :: t.roles[r].position
  }

  lemma {:induction false} LeastExists(s: set<int>)
    requires s != {}
    ensures exists m :: m in s && forall x :: x in s ==> m <= x
  {
    var e := Member(s);
    if s == {e} {
    } else {
      LeastExists(s - {e});
      var m :| m in s - {e} && forall x :: x in s - {e} ==> m <= x;
      var low := if m <= e then m else e;
      assert low in s;
      assert forall x :: x in s ==> x == e || x in s - {e};
    }
  }

  function Least(s: set<int>): (m: int)
    requires s != {}
    ensures m in s && forall x :: x in s ==> m <= x
  {
    LeastExists(s);
    var m :| m in s && forall x :: x in s ==> m <= x;
    m
  }

  /** HighestPosition: a lower number is a higher rank. */
  function HighestPosition(t: Tables, u: Id): int {
    var ps := Positions(t, ExplicitRoles(t, u));
    if ps == {} then MAX_INT else Least(ps)
  }

  // ---- Writes ----

  function NextPosition(t: Tables): int {
    var negated := set r | r in t.roles :: -t.roles[r].position;
    if negated == {} then 0 else 1 - Least(negated)
  }

  predicate NameTaken(t: Tables, name: string, except: set<Id>) {
    exists r :: r in t.roles && r !in except && t.roles[r].name == name
  }

  predicate PositionTaken(t: Tables, position: int, except: set<Id>) {
    exists r :: r in t.roles && r !in except && t.roles[r].position == position
  }

  function InsertRole(t: Tables, id: Id, name: string, permissions: Permission, maxRoles: nat): Result<Tables, Error> {
    if |t.roles| >= maxRoles then Err(MaxRolesReached)
    else if !IsInteger(NextPosition(t)) then Err(InternalError)
    else if id in t.roles || NameTaken(t, name, {}) then Err(RoleExists)
    else Ok(t.(roles := t.roles[id := Role(name, permissions, NextPosition(t), false)]))
  }

  datatype RolePatch = RolePatch(name: Option<string>, position: Option<int>, permissions: Option<Permission>)

  function Patched(r: Role, p: RolePatch): Role {
    r.(name := p.name.UnwrapOr(r.name),
       position := p.position.UnwrapOr(r.position),
       permissions := p.permissions.UnwrapOr(r.permissions))
  }

  function UpdateRoleRow(t: Tables, id: Id, p: RolePatch): Result<Tables, Error> {
    if id !in t.roles then Err(RoleNotFound)
    else if p == RolePatch(None, None, None) then Ok(t)
    else
      var r := Patched(t.roles[id], p);
      if !IsInteger(r.position) then Err(InternalError)
      else if NameTaken(t, r.name, {id}) || PositionTaken(t, r.position, {id}) then Err(RoleExists)
      else Ok(t.(roles := t.roles[id := r]))
  }

  /** Deleting a role also deletes its member_roles rows (foreign key) and its overrides (trigger). */
  function DeleteRoleRow(t: Tables, id: Id): Result<Tables, Error> {
    if id !in t.roles then Err(RoleNotFound)
    else if t.roles[id].everyone then Err(EveryoneImmutable)
    else Ok(t.(roles := t.roles - {id},
               memberRoles := (set ur | ur in t.memberRoles && ur.1 != id),
               overrides := (map k | k in t.overrides && k.1 != RolePrincipal(id) :: t.overrides[k])))
  }

  function InsertMemberRole(t: Tables, u: Id, r: Id): Result<Tables, Error> {
    if r !in t.roles then Err(InternalError)
    else if (u, r) in t.memberRoles then Err(AlreadyMember)
    else Ok(t.(memberRoles := t.memberRoles + {(u, r)}))
  }

  function DeleteMemberRole(t: Tables, u: Id, r: Id): Result<Tables, Error> {
    if (u, r) !in t.memberRoles then Err(MemberNotFound)
    else Ok(t.(memberRoles := t.memberRoles - {(u, r)}))
  }

  function EveryoneRoles(t: Tables): set<Id> {
    set r | r in t.roles && t.roles[r].everyone
  }

  /**
    One transaction: the pending membership and a member_roles row for @everyone. A row that is still there from an
    earlier membership violates the primary key, and the whole transaction fails.
  */
  function CreatePending(t: Tables, u: Id): Result<Tables, Error> {
    if u in t.members then Err(AlreadyMember)
    else if exists r :: r in EveryoneRoles(t) && (u, r) in t.memberRoles then Err(InternalError)
    else Ok(t.(members := t.members[u := Pending],
               memberRoles := t.memberRoles + set r | r in EveryoneRoles(t) :: (u, r)))
  }

  /** member_roles references users, not members, so its rows outlive the membership. */
  function DeleteMember(t: Tables, u: Id): Result<Tables, Error> {
    if u !in t.members then Err(MemberNotFound)
    else Ok(t.(members := t.members - {u}))
  }

  function BanMember(t: Tables, u: Id): Result<Tables, Error> {
    if u in t.bans then Err(AlreadyBanned)
    else Ok(t.(bans := t.bans + {u}, members := t.members - {u}))
  }

  function SetStatus(t: Tables, u: Id, s: Status): Result<Tables, Error> {
    if u !in t.members then Err(MemberNotFound)
    else Ok(t.(members := t.members[u := s]))
  }

  function UpsertOverride(t: Tables, target: Target, p: Principal, g: Grant): Tables {
    t.(overrides := t.overrides[(target, p) := g])
  }

  function DeleteOverrideRow(t: Tables, target: Target, p: Principal): Result<Tables, Error> {
    if (target, p) !in t.overrides then Err(OverrideNotFound)
    else Ok(t.(overrides := t.overrides - {(target, p)}))
  }
}
