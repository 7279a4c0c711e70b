/**
  The Valkey permission cache: what each operation means on the key space, and class ValkeyCache whose loops are
  proved against that meaning. Keys are (user, channel) pairs; server-level results use the nil channel.
*/
module PermissionCache {
  import opened Common
  import opened ServerStore

  type Key = (Id, Id)
  type Entries = map<Key, Permission>

  /** The glob patterns given to SCAN: perms:{user}:*, perms:*:{channel} and perms:*. */
  datatype Pattern = OfUser(user: Id) | OfChannel(channel: Id) | Everything {
    predicate Matches(k: Key) {
      match this
      case OfUser(u) => k.0 == u
      case OfChannel(ch) => k.1 == ch
      case Everything => true
    }
  }

  function Without(e: Entries, p: Pattern): Entries {
    map k | k in e && !p.Matches(k) :: e[k]
  }

  /** Cached channels of one user, as MGET reports them. */
  function CachedChannels(e: Entries, u: Id, chs: seq<Id>): map<Id, Permission> {
    map ch | ch in chs && (u, ch) in e :: e[(u, ch)]
  }

  function CachedUsers(e: Entries, us: seq<Id>, ch: Id): map<Id, Permission> {
    map u | u in us && (u, ch) in e :: e[(u, ch)]
  }

  function WithChannels(e: Entries, u: Id, perms: map<Id, Permission>): Entries {
    map k: Key | k in e.Keys + (set ch | ch in perms :: (u, ch)) ::
      if k.0 == u && k.1 in perms then perms[k.1] else e[k]
  }

  function WithUsers(e: Entries, ch: Id, perms: map<Id, Permission>): Entries {
    map k: Key | k in e.Keys + (set u | u in perms :: (u, ch)) ::
      if k.1 == ch && k.0 in perms then perms[k.0] else e[k]
  }

  /**
    One pass of SCAN over an unchanging key space, as Valkey promises it: every batch holds matching keys, possibly
    repeated, and every matching key turns up in some batch.
  */
  ghost predicate IsScan(e: Entries, p: Pattern, batches: seq<seq<Key>>) {
    && (forall i, k :: 0 <= i < |batches| && k in batches[i] ==> p.Matches(k))
    && (forall k :: k in e && p.Matches(k) ==> exists i :: 0 <= i < |batches| && k in batches[i])
  }

  class ValkeyCache {
    var entries: Entries

    constructor ()
      ensures entries == map[]
    {
      entries := map[];
    }

    method Get(u: Id, ch: Id) returns (hit: Option<Permission>)
      ensures hit == if (u, ch) in entries then Some(entries[(u, ch)]) else None
    {
      hit := if (u, ch) in entries then Some(entries[(u, ch)]) else None;
    }

    method Set(u: Id, ch: Id, perm: Permission)
      modifies this
      ensures entries == old(entries)[(u, ch) := perm]
    {
      entries := entries[(u, ch) := perm];
    }

    method GetMany(u: Id, chs: seq<Id>) returns (found: map<Id, Permission>)
      ensures found == CachedChannels(entries, u, chs)
    {
      found := map[];
      for i := 0 to |chs|
        invariant found == CachedChannels(entries, u, chs[..i])
      {
        if (u, chs[i]) in entries {
          found := found[chs[i] := entries[(u, chs[i])]];
        }
        assert chs[..i + 1] == chs[..i] + [chs[i]];
      }
      assert chs[..|chs|] == chs;
    }

    method GetManyUsers(us: seq<Id>, ch: Id) returns (found: map<Id, Permission>)
      ensures found == CachedUsers(entries, us, ch)
    {
      found := map[];
      for i := 0 to |us|
        invariant found == CachedUsers(entries, us[..i], ch)
      {
        if (us[i], ch) in entries {
          found := found[us[i] := entries[(us[i], ch)]];
        }
        assert us[..i + 1] == us[..i] + [us[i]];
      }
      assert us[..|us|] == us;
    }

    method SetMany(u: Id, perms: map<Id, Permission>)
      modifies this
      ensures entries == WithChannels(old(entries), u, perms)
    {
      var left := perms.Keys;
      while left != {}
        invariant left <= perms.Keys
        invariant forall k: Key :: k in entries <==>
                    k in old(entries) || (k.0 == u && k.1 in perms && k.1 !in left)
        invariant forall k: Key :: k in entries ==>
                    entries[k] == (if k.0 == u && k.1 in perms && k.1 !in left then perms[k.1] else old(entries)[k])
        decreases left
      {
        var ch :| ch in left;
        entries := entries[(u, ch) := perms[ch]];
        left := left - {ch};
      }
    }

    method SetManyUsers(ch: Id, perms: map<Id, Permission>)
      modifies this
      ensures entries == WithUsers(old(entries), ch, perms)
    {
      var left := perms.Keys;
      while left != {}
        invariant left <= perms.Keys
        invariant forall k: Key :: k in entries <==>
                    k in old(entries) || (k.1 == ch && k.0 in perms && k.0 !in left)
        invariant forall k: Key :: k in entries ==>
                    entries[k] == (if k.1 == ch && k.0 in perms && k.0 !in left then perms[k.0] else old(entries)[k])
        decreases left
      {
        var u :| u in left;
        entries := entries[(u, ch) := perms[u]];
        left := left - {u};
      }
    }

    /** The SCAN/DEL loop: whatever batches the cursor yields, exactly the matching entries are gone at its end. */
    method ScanAndDelete(p: Pattern, batches: seq<seq<Key>>)
      requires IsScan(entries, p, batches)
      modifies this
      ensures entries == Without(old(entries), p)
    {
      var cursor := 0;
      while cursor < |batches|
        invariant 0 <= cursor <= |batches|
        invariant entries == map k | k in old(entries) && (forall i :: 0 <= i < cursor ==> k !in batches[i]) :: old(entries)[k]
      {
        var keys := batches[cursor];
        entries := entries - (set k | k in keys);
        cursor := cursor + 1;
      }
    }

    method DeleteExact(u: Id, ch: Id)
      modifies this
      ensures entries == old(entries) - {(u, ch)}
    {
      entries := entries - {(u, ch)};
    }
  }
}
