/**
  Cached and bulk answers against the plain algorithm, on a coherent cache. They agree wherever a real channel is
  asked about; the nil channel, whose key holds server-level results, is the one exception, and its exact extent is
  stated. FilterPermitted additionally skips the bit test for admins.
*/
module PermissionAgreement {
  import opened Common
  import opened ServerStore
  import opened PermissionRules
  import opened PermissionCache
  import opened PermissionResolver
  import opened PermissionCoherence

  /** The slow form: run the algorithm on every element and test the bits; any missing channel fails the whole call. */
  ghost function OneByOne(c: Catalog, t: Tables, keys: seq<Key>, perm: Permission): Result<seq<bool>, ResolveError> {
    if forall i :: 0 <= i < |keys| ==> Compute(c, t, keys[i].0, keys[i].1).Ok?
    then Ok(seq(|keys|, i requires 0 <= i < |keys| => Has(Compute(c, t, keys[i].0, keys[i].1).value, perm)))
    else Err(ChannelNotFound)
  }

  ghost predicate Admin(c: Catalog, t: Tables, u: Id) { Base(c, t, u).admin }

  /** Lookups, single or bulk, keep a coherent cache coherent. */
  lemma ReadersKeepCoherence(c: Catalog, maxRoles: nat, s: System, step: Step)
    requires WellFormed(c, s.tables) && Coherent(c, s.tables, s.entries)
    requires step.Lookup? || step.ServerLookup? || step.Filter? || step.FilterMany?
    ensures var s' := Next(c, maxRoles, s, step);
            s'.tables == s.tables && s'.queue == s.queue && Coherent(c, s'.tables, s'.entries)
  {
    ReadersAddCorrect(c, maxRoles, s, step);
  }

  /** Exactly the given keys are new in the cache, with the algorithm's answers; nothing cached is replaced. */
  ghost predicate Gains(c: Catalog, t: Tables, e: Entries, e': Entries, keys: set<Key>) {
    && e'.Keys == e.Keys + keys
    && (forall k :: k in e ==> e'[k] == e[k])
    && (forall k :: k in keys && k !in e ==> Compute(c, t, k.0, k.1) == Ok(e'[k]))
  }

  /**
    What lookups leave in the cache: a successful single lookup stores its answer, a bulk one the answers of all its
    elements, and a failed one, or FilterPermitted for an admin, nothing.
  */
  lemma LookupsAreRemembered(c: Catalog, t: Tables, e: Entries, u: Id, ch: Id, chs: seq<Id>, us: seq<Id>)
    ensures (u, ch) !in e && Compute(c, t, u, ch).Ok? ==>
              AfterResolve(c, t, e, u, ch) == e[(u, ch) := Compute(c, t, u, ch).value]
    ensures (u, ch) in e || Compute(c, t, u, ch).Err? ==> AfterResolve(c, t, e, u, ch) == e
    ensures AfterServerResolve(c, t, e, u) == if (u, NIL) in e then e else e[(u, NIL) := Base(c, t, u).perm]
    ensures !Admin(c, t, u) && (forall x :: x in chs ==> (u, x) in e || Compute(c, t, u, x).Ok?) ==>
              Gains(c, t, e, AfterFilterChannels(c, t, e, u, chs), (set x | x in chs :: (u, x)))
    ensures Admin(c, t, u) || !(forall x :: x in chs ==> (u, x) in e || Compute(c, t, u, x).Ok?) ==>
              AfterFilterChannels(c, t, e, u, chs) == e
    ensures (forall v :: v in us ==> (v, ch) in e || Compute(c, t, v, ch).Ok?) ==>
              Gains(c, t, e, AfterFilterUsers(c, t, e, us, ch), (set v | v in us :: (v, ch)))
    ensures !(forall v :: v in us ==> (v, ch) in e || Compute(c, t, v, ch).Ok?) ==> AfterFilterUsers(c, t, e, us, ch) == e
  {
    ChannelsRemembered(c, t, e, u, chs);
    UsersRemembered(c, t, e, us, ch);
  }

  lemma FilledGains(c: Catalog, t: Tables, e: Entries, keys: seq<Key>)
    requires AllResolve(Computing(c, t), e, keys)
    ensures Gains(c, t, e, Filled(Computing(c, t), e, keys), (set k | k in keys))
  {
    forall k | k in keys && k !in e ensures Compute(c, t, k.0, k.1) == Ok(Filled(Computing(c, t), e, keys)[k]) {
      var i :| 0 <= i < |keys| && keys[i] == k;
    }
  }

  lemma ChannelsRemembered(c: Catalog, t: Tables, e: Entries, u: Id, chs: seq<Id>)
    ensures !Admin(c, t, u) && (forall x :: x in chs ==> (u, x) in e || Compute(c, t, u, x).Ok?) ==>
              Gains(c, t, e, AfterFilterChannels(c, t, e, u, chs), (set x | x in chs :: (u, x)))
    ensures Admin(c, t, u) || !(forall x :: x in chs ==> (u, x) in e || Compute(c, t, u, x).Ok?) ==>
              AfterFilterChannels(c, t, e, u, chs) == e
  {
    var keys := ChannelKeys(u, chs);
    ChannelKeysHold(u, chs);
    if forall x :: x in chs ==> (u, x) in e || Compute(c, t, u, x).Ok? {
      assert AllResolve(Computing(c, t), e, keys);
      FilledGains(c, t, e, keys);
      assert (set k | k in keys) == set x | x in chs :: (u, x);
    } else {
      var x :| x in chs && (u, x) !in e && Compute(c, t, u, x).Err?;
      var i :| 0 <= i < |chs| && chs[i] == x;
      assert keys[i] == (u, x) && !AllResolve(Computing(c, t), e, keys);
    }
  }

  lemma UsersRemembered(c: Catalog, t: Tables, e: Entries, us: seq<Id>, ch: Id)
    ensures (forall v :: v in us ==> (v, ch) in e || Compute(c, t, v, ch).Ok?) ==>
              Gains(c, t, e, AfterFilterUsers(c, t, e, us, ch), (set v | v in us :: (v, ch)))
    ensures !(forall v :: v in us ==> (v, ch) in e || Compute(c, t, v, ch).Ok?) ==> AfterFilterUsers(c, t, e, us, ch) == e
  {
    var keys := UserKeys(us, ch);
    UserKeysHold(us, ch);
    if forall v :: v in us ==> (v, ch) in e || Compute(c, t, v, ch).Ok? {
      assert AllResolve(Computing(c, t), e, keys);
      FilledGains(c, t, e, keys);
      assert (set k | k in keys) == set v | v in us :: (v, ch);
    } else {
      var v :| v in us && (v, ch) !in e && Compute(c, t, v, ch).Err?;
      var i :| 0 <= i < |us| && us[i] == v;
      assert keys[i] == (v, ch) && !AllResolve(Computing(c, t), e, keys);
    }
  }

  /** Resolve is the algorithm, except for a non-admin asking about the nil channel after a server-level lookup. */
  lemma ResolveAgrees(c: Catalog, t: Tables, e: Entries, u: Id, ch: Id)
    requires WellFormed(c, t) && Coherent(c, t, e)
    ensures Resolved(c, t, e, u, ch) == Compute(c, t, u, ch) <==> ch != NIL || Admin(c, t, u) || (u, NIL) !in e
  {
    if (u, ch) in e {
      assert Correct(c, t, (u, ch), e[(u, ch)]);
    }
  }

  lemma ServerResolveAgrees(c: Catalog, t: Tables, e: Entries, u: Id)
    requires Coherent(c, t, e)
    ensures ServerResolved(c, t, e, u) == Base(c, t, u).perm
  {
    if (u, NIL) in e {
      assert Correct(c, t, (u, NIL), e[(u, NIL)]);
    }
  }

  lemma AnswerAgrees(c: Catalog, t: Tables, e: Entries, k: Key)
    requires WellFormed(c, t) && Coherent(c, t, e)
    ensures Answer(Computing(c, t), e, k) == Resolved(c, t, e, k.0, k.1)
    ensures k.1 != NIL || k !in e || Admin(c, t, k.0) ==> Answer(Computing(c, t), e, k) == Compute(c, t, k.0, k.1)
    ensures k.1 == NIL && k in e && !Admin(c, t, k.0) ==>
              Answer(Computing(c, t), e, k).Ok? && Compute(c, t, k.0, k.1) == Err(ChannelNotFound)
  {
    ResolveAgrees(c, t, e, k.0, k.1);
  }

  /** A key the cache answers although the algorithm knows no such channel. */
  ghost predicate Phantom(c: Catalog, t: Tables, e: Entries, k: Key) {
    k.1 == NIL && k in e && !Admin(c, t, k.0)
  }

  /** Bulk answers agree element by element, unless some key is a phantom and no other key fails. */
  lemma BulkAgrees(c: Catalog, t: Tables, e: Entries, keys: seq<Key>, perm: Permission)
    requires WellFormed(c, t) && Coherent(c, t, e)
    ensures var f := Computing(c, t);
            var fast := if AllResolve(f, e, keys) then Ok(Answers(f, e, keys, perm)) else Err(ChannelNotFound);
            fast == OneByOne(c, t, keys, perm) <==>
              || (forall i :: 0 <= i < |keys| ==> !Phantom(c, t, e, keys[i]))
              || (exists i :: 0 <= i < |keys| && !Phantom(c, t, e, keys[i]) && Compute(c, t, keys[i].0, keys[i].1).Err?)
  {
    var f := Computing(c, t);
    forall i | 0 <= i < |keys|
      ensures !Phantom(c, t, e, keys[i]) ==> Answer(f, e, keys[i]) == Compute(c, t, keys[i].0, keys[i].1)
      ensures Phantom(c, t, e, keys[i]) ==> Answer(f, e, keys[i]).Ok? && Compute(c, t, keys[i].0, keys[i].1).Err?
    {
      AnswerAgrees(c, t, e, keys[i]);
    }
    if forall i :: 0 <= i < |keys| ==> !Phantom(c, t, e, keys[i]) {
      if AllResolve(f, e, keys) {
        assert Answers(f, e, keys, perm) == OneByOne(c, t, keys, perm).value;
      }
    }
  }

  /**
    FilterPermitted: for a user who is no admin, it equals the slow form exactly when the list does not contain the
    nil channel, or no server-level result is cached for the user, or some other listed channel does not exist. For
    an admin it equals the slow form exactly when the wanted bits are defined ones or the list is empty.
  */
  lemma FilterPermittedAgrees(c: Catalog, t: Tables, e: Entries, u: Id, chs: seq<Id>, perm: Permission)
    requires WellFormed(c, t) && Coherent(c, t, e)
    ensures !Admin(c, t, u) ==>
              (FilterChannels(c, t, e, u, chs, perm) == OneByOne(c, t, ChannelKeys(u, chs), perm) <==>
                NIL !in chs || (u, NIL) !in e || exists ch :: ch in chs && ch != NIL && ch !in t.channels)
    ensures Admin(c, t, u) ==>
              (FilterChannels(c, t, e, u, chs, perm) == OneByOne(c, t, ChannelKeys(u, chs), perm) <==>
                perm <= c.all || chs == [])
  {
    var keys := ChannelKeys(u, chs);
    ChannelKeysHold(u, chs);
    if Admin(c, t, u) {
      assert forall i :: 0 <= i < |keys| ==> Compute(c, t, keys[i].0, keys[i].1) == Ok(c.all);
      var slow := OneByOne(c, t, keys, perm).value;
      assert |slow| == |chs| && forall i :: 0 <= i < |chs| ==> slow[i] == Has(c.all, perm);
      var fast := seq(|chs|, _ => true);
      if chs != [] {
        assert slow[0] == Has(c.all, perm) && fast[0];
      }
      if perm <= c.all {
        assert slow == fast;
      }
    } else {
      BulkAgrees(c, t, e, keys, perm);
      NonAdminFilter(c, t, e, u, chs);
    }
  }

  lemma NonAdminFilter(c: Catalog, t: Tables, e: Entries, u: Id, chs: seq<Id>)
    requires WellFormed(c, t) && Coherent(c, t, e) && !Admin(c, t, u)
    ensures var keys := ChannelKeys(u, chs);
            (|| (forall i :: 0 <= i < |keys| ==> !Phantom(c, t, e, keys[i]))
             || (exists i :: 0 <= i < |keys| && !Phantom(c, t, e, keys[i]) && Compute(c, t, keys[i].0, keys[i].1).Err?))
            <==> NIL !in chs || (u, NIL) !in e || exists ch :: ch in chs && ch != NIL && ch !in t.channels
  {
    var keys := ChannelKeys(u, chs);
    ChannelKeysHold(u, chs);
    forall ch ensures Compute(c, t, u, ch).Err? <==> ch !in t.channels {}
    if ch :| ch in chs && ch != NIL && ch !in t.channels {
      var i :| 0 <= i < |chs| && chs[i] == ch;
      assert !Phantom(c, t, e, keys[i]) && Compute(c, t, keys[i].0, keys[i].1).Err?;
    }
    if NIL in chs && (u, NIL) in e {
      var i :| 0 <= i < |chs| && chs[i] == NIL;
      assert Phantom(c, t, e, keys[i]);
    }
  }

  /**
    FilterUsersPermitted equals the slow form exactly when the channel is a real one, or all listed users are admins,
    or some listed user who is no admin has no cached server-level result.
  */
  lemma FilterUsersPermittedAgrees(c: Catalog, t: Tables, e: Entries, us: seq<Id>, ch: Id, perm: Permission)
    requires WellFormed(c, t) && Coherent(c, t, e)
    ensures FilterUsers(c, t, e, us, ch, perm) == OneByOne(c, t, UserKeys(us, ch), perm) <==>
              || ch != NIL
              || (forall u :: u in us ==> Admin(c, t, u))
              || (exists u :: u in us && !Admin(c, t, u) && (u, NIL) !in e)
  {
    var keys := UserKeys(us, ch);
    UserKeysHold(us, ch);
    BulkAgrees(c, t, e, keys, perm);
    if ch == NIL {
      forall u ensures Compute(c, t, u, NIL).Err? <==> !Admin(c, t, u) {}
      if u :| u in us && !Admin(c, t, u) && (u, NIL) !in e {
        var i :| 0 <= i < |us| && us[i] == u;
        assert !Phantom(c, t, e, keys[i]) && Compute(c, t, keys[i].0, keys[i].1).Err?;
      }
      if u :| u in us && !Admin(c, t, u) {
        var i :| 0 <= i < |us| && us[i] == u;
        assert keys[i] == (u, NIL);
      }
    }
  }

  /** The exception is real: a server-level lookup followed by a channel lookup under the nil channel. */
  lemma NilChannelReadsServerEntry()
    ensures exists c: Catalog, t: Tables, e: Entries ::
              WellFormed(c, t) && Coherent(c, t, e) && Resolved(c, t, e, 1, NIL).Ok? && Compute(c, t, 1, NIL).Err?
  {
    var c := Catalog({0, 1}, {1});
    var t := Tables({}, map[], {}, map[], {}, map[], map[]);
    var e := AfterServerResolve(c, t, map[], 1);
    assert 1 !in Base(c, t, 1).perm;
    assert !Base(c, t, 1).admin by {
      assert !Has({}, c.manageServer);
    }
    assert WellFormed(c, t) && Coherent(c, t, e);
    assert Resolved(c, t, e, 1, NIL).Ok? && Compute(c, t, 1, NIL).Err?;
  }
}
