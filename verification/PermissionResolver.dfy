/** The resolver: its meaning on (tables, cache entries), and class Resolver that reads rows and fills the cache. */
module PermissionResolver {
  import opened Common
  import opened ServerStore
  import opened PermissionRules
  import opened PermissionCache

  // ---- Meaning ----

  function Resolved(c: Catalog, t: Tables, e: Entries, u: Id, ch: Id): Result<Permission, ResolveError> {
    if (u, ch) in e then Ok(e[(u, ch)]) else Compute(c, t, u, ch)
  }

  function AfterResolve(c: Catalog, t: Tables, e: Entries, u: Id, ch: Id): Entries {
    if (u, ch) in e || Compute(c, t, u, ch).Err? then e else e[(u, ch) := Compute(c, t, u, ch).value]
  }

  function ServerResolved(c: Catalog, t: Tables, e: Entries, u: Id): Permission {
    if (u, NIL) in e then e[(u, NIL)] else Base(c, t, u).perm
  }

  function AfterServerResolve(c: Catalog, t: Tables, e: Entries, u: Id): Entries {
    if (u, NIL) in e then e else e[(u, NIL) := Base(c, t, u).perm]
  }

  /** The algorithm as a value, so that the bulk rules can be stated for any way of answering one key. */
  type Lookup = Key -> Result<Permission, ResolveError>

  function Computing(c: Catalog, t: Tables): Lookup {
    (k: Key) => Compute(c, t, k.0, k.1)
  }

  function Answer(f: Lookup, e: Entries, k: Key): Result<Permission, ResolveError> {
    if k in e then Ok(e[k]) else f(k)
  }

  /** Whether every element can be answered, and the answers. */
  predicate AllResolve(f: Lookup, e: Entries, keys: seq<Key>) {
    forall i :: 0 <= i < |keys| ==> Answer(f, e, keys[i]).Ok?
  }

  function Answers(f: Lookup, e: Entries, keys: seq<Key>, perm: Permission): seq<bool>
    requires AllResolve(f, e, keys)
  {
    seq(|keys|, i requires 0 <= i < |keys| => Has(Answer(f, e, keys[i]).value, perm))
  }

  /** The cache after a bulk filter: every element that was missing is now stored. */
  function Filled(f: Lookup, e: Entries, keys: seq<Key>): Entries
    requires AllResolve(f, e, keys)
  {
    map k | k in e.Keys + (set x | x in keys) :: if k in e then e[k] else ValueOf(f, e, keys, k)
  }

  function ValueOf(f: Lookup, e: Entries, keys: seq<Key>, k: Key): Permission
    requires AllResolve(f, e, keys) && k in keys
  {
    Answer(f, e, k).value
  }

  function ChannelKeys(u: Id, chs: seq<Id>): seq<Key> {
    seq(|chs|, i requires 0 <= i < |chs| => (u, chs[i]))
  }

  function UserKeys(us: seq<Id>, ch: Id): seq<Key> {
    seq(|us|, i requires 0 <= i < |us| => (us[i], ch))
  }

  /** FilterPermitted never consults the cache for an admin; otherwise it answers each channel from cache or tables. */
  function FilterChannels(c: Catalog, t: Tables, e: Entries, u: Id, chs: seq<Id>, perm: Permission)
    : Result<seq<bool>, ResolveError>
  {
    var keys := ChannelKeys(u, chs);
    if Base(c, t, u).admin then Ok(seq(|chs|, _ => true))
    else if AllResolve(Computing(c, t), e, keys) then Ok(Answers(Computing(c, t), e, keys, perm))
    else Err(ChannelNotFound)
  }

  function AfterFilterChannels(c: Catalog, t: Tables, e: Entries, u: Id, chs: seq<Id>): Entries {
    var keys := ChannelKeys(u, chs);
    if Base(c, t, u).admin || !AllResolve(Computing(c, t), e, keys) then e else Filled(Computing(c, t), e, keys)
  }

  function FilterUsers(c: Catalog, t: Tables, e: Entries, us: seq<Id>, ch: Id, perm: Permission)
    : Result<seq<bool>, ResolveError>
  {
    var keys := UserKeys(us, ch);
    if AllResolve(Computing(c, t), e, keys) then Ok(Answers(Computing(c, t), e, keys, perm)) else Err(ChannelNotFound)
  }

  function AfterFilterUsers(c: Catalog, t: Tables, e: Entries, us: seq<Id>, ch: Id): Entries {
    var keys := UserKeys(us, ch);
    if AllResolve(Computing(c, t), e, keys) then Filled(Computing(c, t), e, keys) else e
  }

  // ---- Rows ----

  datatype RoleRow = RoleRow(role: Id, permissions: Permission)
  datatype OverrideRow = OverrideRow(principal: Principal, allow: Permission, deny: Permission)

  /** The UNION of the assigned roles and @everyone: the rows in no particular order, each role once. */
  ghost predicate ListsRoles(t: Tables, u: Id, rows: seq<RoleRow>) {
    && (forall i :: 0 <= i < |rows| ==>
          && rows[i].role in t.roles && (t.roles[rows[i].role].everyone || (u, rows[i].role) in t.memberRoles)
          && rows[i].permissions == t.roles[rows[i].role].permissions)
    && (forall r :: r in t.roles && (t.roles[r].everyone || (u, r) in t.memberRoles) ==> exists i :: 0 <= i < |rows| && rows[i].role == r)
    && (forall i, j :: 0 <= i < j < |rows| ==> rows[i].role != rows[j].role)
  }

  /** The rows of one target in no particular order; the unique index allows one per principal. */
  ghost predicate ListsOverrides(t: Tables, target: Target, rows: seq<OverrideRow>) {
    && (forall i :: 0 <= i < |rows| ==>
          && (target, rows[i].principal) in t.overrides
          && t.overrides[(target, rows[i].principal)] == Grant(rows[i].allow, rows[i].deny))
    && (forall p :: (target, p) in t.overrides ==> exists i :: 0 <= i < |rows| && rows[i].principal == p)
    && (forall i, j :: 0 <= i < j < |rows| ==> rows[i].principal != rows[j].principal)
  }

  class Database {
    var tables: Tables

    constructor (t: Tables)
      ensures tables == t
    {
      tables := t;
    }

    method RolePermissions(u: Id) returns (rows: seq<RoleRow>)
      ensures ListsRoles(tables, u, rows)
    {
      rows := [];
      var held := (set r | r in tables.roles && (u, r) in tables.memberRoles) + (set r | r in tables.roles && tables.roles[r].everyone);
      var left := held;
      while left != {}
        invariant left <= held
        invariant forall i :: 0 <= i < |rows| ==>
                    rows[i].role in held && rows[i].role !in left && rows[i].permissions == tables.roles[rows[i].role].permissions
        invariant forall r :: r in held && r !in left ==> exists i :: 0 <= i < |rows| && rows[i].role == r
        invariant forall i, j :: 0 <= i < j < |rows| ==> rows[i].role != rows[j].role
        decreases left
      {
        var r :| r in left;
        ghost var before := rows;
        rows := rows + [RoleRow(r, tables.roles[r].permissions)];
        assert rows[|before|].role == r && forall i :: 0 <= i < |before| ==> rows[i] == before[i];
        left := left - {r};
      }
      assert forall r :: r in held <==> r in tables.roles && (tables.roles[r].everyone || (u, r) in tables.memberRoles);
    }

    method Overrides(target: Target) returns (rows: seq<OverrideRow>)
      ensures ListsOverrides(tables, target, rows)
    {
      rows := [];
      ghost var all := set k | k in tables.overrides && k.0 == target;
      var left := set k | k in tables.overrides && k.0 == target;
      while left != {}
        invariant left <= all
        invariant forall i :: 0 <= i < |rows| ==>
                    && (target, rows[i].principal) in all - left
                    && tables.overrides[(target, rows[i].principal)] == Grant(rows[i].allow, rows[i].deny)
        invariant forall p :: (target, p) in all - left ==> exists i :: 0 <= i < |rows| && rows[i].principal == p
        invariant forall i, j :: 0 <= i < j < |rows| ==> rows[i].principal != rows[j].principal
        decreases left
      {
        var k :| k in left;
        var g := tables.overrides[k];
        ghost var before := rows;
        rows := rows + [OverrideRow(k.1, g.allow, g.deny)];
        assert rows[|before|].principal == k.1 && forall i :: 0 <= i < |before| ==> rows[i] == before[i];
        left := left - {k};
      }
    }
  }

  // ---- Loops over rows ----

  ghost predicate GrantedByRows(rows: seq<OverrideRow>, roles: set<Id>, b: Bit, deny: bool) {
    exists i :: 0 <= i < |rows| && rows[i].principal.RolePrincipal? && rows[i].principal.id in roles
                && b in (if deny then rows[i].deny else rows[i].allow)
  }

  /** applyOverrides reads the rows once, in the order they come, and gives the order-free level rule. */
  method ApplyOverrides(ghost t: Tables, ghost target: Target, base: Permission, rows: seq<OverrideRow>, roles: set<Id>, u: Id)
    returns (perm: Permission)
    requires ListsOverrides(t, target, rows)
    ensures perm == Overridden(t, target, base, roles, u)
  {
    var roleAllow: Permission, roleDeny: Permission := {}, {};
    var own: Option<OverrideRow> := None;
    for i := 0 to |rows|
      invariant forall b: Bit :: b in roleAllow <==> GrantedByRows(rows[..i], roles, b, false)
      invariant forall b: Bit :: b in roleDeny <==> GrantedByRows(rows[..i], roles, b, true)
      invariant own.Some? ==> own.value.principal == UserPrincipal(u) && own.value in rows
      invariant own.None? ==> forall j :: 0 <= j < i ==> rows[j].principal != UserPrincipal(u)
    {
      var o := rows[i];
      assert rows[..i + 1] == rows[..i] + [o];
      forall b: Bit, deny: bool
        ensures GrantedByRows(rows[..i + 1], roles, b, deny) <==>
                  || GrantedByRows(rows[..i], roles, b, deny)
                  || (o.principal.RolePrincipal? && o.principal.id in roles && b in (if deny then o.deny else o.allow))
      {
        GrantedByOneMore(rows[..i], o, roles, b, deny);
      }
      if o.principal == UserPrincipal(u) {
        own := Some(o);
      } else if o.principal.RolePrincipal? && o.principal.id in roles {
        roleAllow := roleAllow + o.allow;
        roleDeny := roleDeny + o.deny;
      }
    }
    assert rows[..|rows|] == rows;
    RowsGiveLevelGrants(t, target, rows, roles);
    assert roleAllow == RoleAllow(t, target, roles) && roleDeny == RoleDeny(t, target, roles);
    perm := base + roleAllow - roleDeny;
    if own.Some? {
      perm := perm + own.value.allow - own.value.deny;
    }
  }

  lemma GrantedByOneMore(rows: seq<OverrideRow>, o: OverrideRow, roles: set<Id>, b: Bit, deny: bool)
    ensures GrantedByRows(rows + [o], roles, b, deny) <==>
              || GrantedByRows(rows, roles, b, deny)
              || (o.principal.RolePrincipal? && o.principal.id in roles && b in (if deny then o.deny else o.allow))
  {
    var more := rows + [o];
    assert more[|rows|] == o && forall i :: 0 <= i < |rows| ==> more[i] == rows[i];
  }

  lemma RowsGiveLevelGrants(t: Tables, target: Target, rows: seq<OverrideRow>, roles: set<Id>)
    requires ListsOverrides(t, target, rows)
    ensures forall b: Bit :: GrantedByRows(rows, roles, b, false) <==> b in RoleAllow(t, target, roles)
    ensures forall b: Bit :: GrantedByRows(rows, roles, b, true) <==> b in RoleDeny(t, target, roles)
  {
    forall b: Bit | b in RoleAllow(t, target, roles) ensures GrantedByRows(rows, roles, b, false) {
      var r :| r in roles && (target, RolePrincipal(r)) in t.overrides && b in t.overrides[(target, RolePrincipal(r))].allow;
      var i :| 0 <= i < |rows| && rows[i].principal == RolePrincipal(r);
    }
    forall b: Bit | b in RoleDeny(t, target, roles) ensures GrantedByRows(rows, roles, b, true) {
      var r :| r in roles && (target, RolePrincipal(r)) in t.overrides && b in t.overrides[(target, RolePrincipal(r))].deny;
      var i :| 0 <= i < |rows| && rows[i].principal == RolePrincipal(r);
    }
    forall b: Bit | GrantedByRows(rows, roles, b, false) ensures b in RoleAllow(t, target, roles) {
      var i :| 0 <= i < |rows| && rows[i].principal.RolePrincipal? && rows[i].principal.id in roles && b in rows[i].allow;
      assert rows[i].principal == RolePrincipal(rows[i].principal.id);
    }
    forall b: Bit | GrantedByRows(rows, roles, b, true) ensures b in RoleDeny(t, target, roles) {
      var i :| 0 <= i < |rows| && rows[i].principal.RolePrincipal? && rows[i].principal.id in roles && b in rows[i].deny;
      assert rows[i].principal == RolePrincipal(rows[i].principal.id);
    }
  }

  lemma ChannelKeysHold(u: Id, chs: seq<Id>)
    ensures |ChannelKeys(u, chs)| == |chs| && forall i :: 0 <= i < |chs| ==> ChannelKeys(u, chs)[i] == (u, chs[i])
    ensures forall k: Key :: k in ChannelKeys(u, chs) <==> k.0 == u && k.1 in chs
  {
    forall k: Key | k.0 == u && k.1 in chs ensures k in ChannelKeys(u, chs) {
      var i :| 0 <= i < |chs| && chs[i] == k.1;
      assert ChannelKeys(u, chs)[i] == k;
    }
  }

  lemma UserKeysHold(us: seq<Id>, ch: Id)
    ensures |UserKeys(us, ch)| == |us| && forall i :: 0 <= i < |us| ==> UserKeys(us, ch)[i] == (us[i], ch)
    ensures forall k: Key :: k in UserKeys(us, ch) <==> k.0 in us && k.1 == ch
  {
    forall k: Key | k.0 in us && k.1 == ch ensures k in UserKeys(us, ch) {
      var i :| 0 <= i < |us| && us[i] == k.0;
      assert UserKeys(us, ch)[i] == k;
    }
  }

  /** What a bulk loop collects, element by element, is the bulk answer; its misses are what the cache lacks. */
  lemma CollectedAnswers(f: Lookup, e: Entries, keys: seq<Key>, perm: Permission, result: seq<bool>)
    requires |result| == |keys|
    requires forall j :: 0 <= j < |keys| ==> Answer(f, e, keys[j]).Ok?
    requires forall j :: 0 <= j < |keys| ==> result[j] == Has(Answer(f, e, keys[j]).value, perm)
    ensures AllResolve(f, e, keys) && result == Answers(f, e, keys, perm)
  {
  }

  lemma MissesFill(f: Lookup, e: Entries, keys: seq<Key>, after: Entries)
    requires AllResolve(f, e, keys)
    requires forall k :: k in after <==> k in e || k in keys
    requires forall k :: k in after ==> Ok(after[k]) == Answer(f, e, k)
    ensures after == Filled(f, e, keys)
  {
  }

  /** State of the channel loop after some channels: their answers, and the misses to write back. */
  ghost predicate ChannelsDone(f: Lookup, e: Entries, u: Id, chs: seq<Id>, perm: Permission,
                               result: seq<bool>, misses: map<Id, Permission>)
  {
    && |result| == |chs|
    && (forall j :: 0 <= j < |chs| ==> Answer(f, e, (u, chs[j])).Ok?)
    && (forall j :: 0 <= j < |chs| ==> result[j] == Has(Answer(f, e, (u, chs[j])).value, perm))
    && (forall ch :: ch in misses <==> ch in chs && (u, ch) !in e)
    && (forall ch :: ch in misses ==> Answer(f, e, (u, ch)) == Ok(misses[ch]))
  }

  lemma OneMoreChannel(f: Lookup, e: Entries, u: Id, chs: seq<Id>, perm: Permission,
                       result: seq<bool>, misses: map<Id, Permission>, ch: Id)
    requires ChannelsDone(f, e, u, chs, perm, result, misses)
    requires Answer(f, e, (u, ch)).Ok?
    ensures var p := Answer(f, e, (u, ch)).value;
            ChannelsDone(f, e, u, chs + [ch], perm, result + [Has(p, perm)],
                         if (u, ch) in e then misses else misses[ch := p])
  {
  }

  lemma ChannelAnswers(f: Lookup, e: Entries, u: Id, chs: seq<Id>, perm: Permission,
                       result: seq<bool>, misses: map<Id, Permission>)
    requires ChannelsDone(f, e, u, chs, perm, result, misses)
    ensures AllResolve(f, e, ChannelKeys(u, chs))
    ensures result == Answers(f, e, ChannelKeys(u, chs), perm)
    ensures (if |misses| > 0 then WithChannels(e, u, misses) else e) == Filled(f, e, ChannelKeys(u, chs))
  {
    var keys := ChannelKeys(u, chs);
    ChannelKeysHold(u, chs);
    CollectedAnswers(f, e, keys, perm, result);
    assert |misses| == 0 ==> misses == map[];
    MissesFill(f, e, keys, if |misses| > 0 then WithChannels(e, u, misses) else e);
  }

  lemma UserAnswers(f: Lookup, e: Entries, us: seq<Id>, ch: Id, perm: Permission,
                    result: seq<bool>, misses: map<Id, Permission>)
    requires |result| == |us|
    requires forall j :: 0 <= j < |us| ==> Answer(f, e, (us[j], ch)).Ok?
    requires forall j :: 0 <= j < |us| ==> result[j] == Has(Answer(f, e, (us[j], ch)).value, perm)
    requires forall u :: u in misses <==> u in us && (u, ch) !in e
    requires forall u :: u in misses ==> Answer(f, e, (u, ch)) == Ok(misses[u])
    ensures AllResolve(f, e, UserKeys(us, ch))
    ensures result == Answers(f, e, UserKeys(us, ch), perm)
    ensures (if |misses| > 0 then WithUsers(e, ch, misses) else e) == Filled(f, e, UserKeys(us, ch))
  {
    var keys := UserKeys(us, ch);
    UserKeysHold(us, ch);
    CollectedAnswers(f, e, keys, perm, result);
    assert |misses| == 0 ==> misses == map[];
    MissesFill(f, e, keys, if |misses| > 0 then WithUsers(e, ch, misses) else e);
  }

  class Resolver {
    const catalog: Catalog
    const store: Database
    const cache: ValkeyCache

    constructor (catalog: Catalog, store: Database, cache: ValkeyCache)
      ensures this.catalog == catalog && this.store == store && this.cache == cache
    {
      this.catalog, this.store, this.cache := catalog, store, cache;
    }

    method BasePermissions(u: Id) returns (br: BaseResult)
      ensures br == Base(catalog, store.tables, u)
    {
      if u in store.tables.owners {
        return BaseResult(catalog.all, {}, true);
      }
      var rows := store.RolePermissions(u);
      var base: Permission, roles: set<Id> := {}, {};
      for i := 0 to |rows|
        invariant forall b: Bit :: b in base <==> exists j :: 0 <= j < i && b in rows[j].permissions
        invariant forall r :: r in roles <==> exists j :: 0 <= j < i && rows[j].role == r
      {
        base := base + rows[i].permissions;
        roles := roles + {rows[i].role};
      }
      assert roles == HeldRoles(store.tables, u);
      assert base == set r, b | r in HeldRoles(store.tables, u) && b in store.tables.roles[r].permissions :: b;
      if Has(base, catalog.manageServer) {
        return BaseResult(catalog.all, {}, true);
      }
      return BaseResult(base, roles, false);
    }

    method ChannelOverrides(base: Permission, roles: set<Id>, u: Id, ch: Id) returns (r: Result<Permission, ResolveError>)
      ensures r == ChannelPermissions(store.tables, base, roles, u, ch)
    {
      if ch !in store.tables.channels {
        return Err(ChannelNotFound);
      }
      var perm := base;
      var category := store.tables.channels[ch];
      if category.Some? {
        var categoryRows := store.Overrides(CategoryTarget(category.value));
        perm := ApplyOverrides(store.tables, CategoryTarget(category.value), perm, categoryRows, roles, u);
      }
      var channelRows := store.Overrides(ChannelTarget(ch));
      perm := ApplyOverrides(store.tables, ChannelTarget(ch), perm, channelRows, roles, u);
      return Ok(perm);
    }

    method ComputePermissions(u: Id, ch: Id) returns (r: Result<Permission, ResolveError>)
      ensures r == Compute(catalog, store.tables, u, ch)
    {
      var br := BasePermissions(u);
      if br.admin {
        return Ok(br.perm);
      }
      r := ChannelOverrides(br.perm, br.roles, u, ch);
    }

    method Resolve(u: Id, ch: Id) returns (r: Result<Permission, ResolveError>)
      modifies cache
      ensures r == Resolved(catalog, store.tables, old(cache.entries), u, ch)
      ensures cache.entries == AfterResolve(catalog, store.tables, old(cache.entries), u, ch)
    {
      var hit := cache.Get(u, ch);
      if hit.Some? {
        return Ok(hit.value);
      }
      r := ComputePermissions(u, ch);
      if r.Ok? {
        cache.Set(u, ch, r.value);
      }
    }

    method HasPermission(u: Id, ch: Id, perm: Permission) returns (r: Result<bool, ResolveError>)
      modifies cache
      ensures match Resolved(catalog, store.tables, old(cache.entries), u, ch)
              case Ok(p) => r.Ok? && (r.value <==> forall b :: b in perm ==> b in p)
              case Err(e) => r == Err(e)
      ensures cache.entries == AfterResolve(catalog, store.tables, old(cache.entries), u, ch)
    {
      var effective := Resolve(u, ch);
      match effective
      case Ok(p) => r := Ok(Has(p, perm));
      case Err(e) => r := Err(e);
    }

    method ResolveServer(u: Id) returns (perm: Permission)
      modifies cache
      ensures perm == ServerResolved(catalog, store.tables, old(cache.entries), u)
      ensures cache.entries == AfterServerResolve(catalog, store.tables, old(cache.entries), u)
    {
      var hit := cache.Get(u, NIL);
      if hit.Some? {
        return hit.value;
      }
      var br := BasePermissions(u);
      perm := br.perm;
      cache.Set(u, NIL, perm);
    }

    method FilterPermitted(u: Id, chs: seq<Id>, perm: Permission) returns (r: Result<seq<bool>, ResolveError>)
      modifies cache
      ensures r == FilterChannels(catalog, store.tables, old(cache.entries), u, chs, perm)
      ensures cache.entries == AfterFilterChannels(catalog, store.tables, old(cache.entries), u, chs)
    {
      var br := BasePermissions(u);
      if br.admin {
        return Ok(seq(|chs|, _ => true));
      }
      ghost var e, f := cache.entries, Computing(catalog, store.tables);
      ghost var keys := ChannelKeys(u, chs);
      var cached := cache.GetMany(u, chs);
      var result: seq<bool> := [];
      var toCache: map<Id, Permission> := map[];
      for i := 0 to |chs|
        invariant cache.entries == e
        invariant ChannelsDone(f, e, u, chs[..i], perm, result, toCache)
      {
        var ch := chs[i];
        assert chs[..i + 1] == chs[..i] + [ch];
        if ch in cached {
          OneMoreChannel(f, e, u, chs[..i], perm, result, toCache, ch);
          result := result + [Has(cached[ch], perm)];
        } else {
          var effective := ChannelOverrides(br.perm, br.roles, u, ch);
          assert effective == f((u, ch));
          if effective.Err? {
            assert keys[i] == (u, ch) && !AllResolve(f, e, keys);
            return Err(effective.error);
          }
          OneMoreChannel(f, e, u, chs[..i], perm, result, toCache, ch);
          result := result + [Has(effective.value, perm)];
          toCache := toCache[ch := effective.value];
        }
      }
      assert chs[..|chs|] == chs;
      if |toCache| > 0 {
        cache.SetMany(u, toCache);
      }
      ChannelAnswers(f, e, u, chs, perm, result, toCache);
      return Ok(result);
    }

    method FilterUsersPermitted(us: seq<Id>, ch: Id, perm: Permission) returns (r: Result<seq<bool>, ResolveError>)
      modifies cache
      ensures r == FilterUsers(catalog, store.tables, old(cache.entries), us, ch, perm)
      ensures cache.entries == AfterFilterUsers(catalog, store.tables, old(cache.entries), us, ch)
    {
      ghost var e, f := cache.entries, Computing(catalog, store.tables);
      ghost var keys := UserKeys(us, ch);
      var cached := cache.GetManyUsers(us, ch);
      var result: seq<bool> := [];
      var toCache: map<Id, Permission> := map[];
      for i := 0 to |us|
        invariant |result| == i && cache.entries == e
        invariant forall j :: 0 <= j < i ==> Answer(f, e, (us[j], ch)).Ok?
        invariant forall j :: 0 <= j < i ==> result[j] == Has(Answer(f, e, (us[j], ch)).value, perm)
        invariant forall u :: u in toCache <==> u in us[..i] && (u, ch) !in e
        invariant forall u :: u in toCache ==> Answer(f, e, (u, ch)) == Ok(toCache[u])
      {
        var u := us[i];
        assert us[..i + 1] == us[..i] + [u];
        if u in cached {
          result := result + [Has(cached[u], perm)];
        } else {
          var effective := ComputePermissions(u, ch);
          if effective.Err? {
            assert keys[i] == (u, ch) && !AllResolve(f, e, keys);
            return Err(effective.error);
          }
          result := result + [Has(effective.value, perm)];
          toCache := toCache[u := effective.value];
        }
      }
      assert us[..|us|] == us;
      if |toCache| > 0 {
        cache.SetManyUsers(ch, toCache);
      }
      UserAnswers(f, e, us, ch, perm, result, toCache);
      return Ok(result);
    }
  }
}
