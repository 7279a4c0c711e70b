/**
  The cache across whole runs. A step is one resolver call, one handler that writes and publishes, one user
  joining, one delivered invalidation message, or one cache entry expiring. Every cached entry is either what the algorithm gives on the
  current tables, or some message still in flight covers it.
*/
module PermissionCoherence {
  import opened Common
  import opened ServerStore
  import opened ServerActions
  import opened PermissionRules
  import opened PermissionCache
  import opened PermissionResolver

  // ---- Messages ----

  /** The entries a message removes, read off the fields as handleMessage's switch does. */
  predicate Covers(m: Message, k: Key) {
    && m.version == INVALIDATION_VERSION
    && (m.all
        || (m.user.Some? && m.channel.Some? && k == (m.user.value, m.channel.value))
        || (m.user.Some? && m.channel.None? && k.0 == m.user.value)
        || (m.user.None? && m.channel.Some? && k.1 == m.channel.value))
  }

  /** Each kind of message covers exactly the entries it is named after, and every handler sends the narrowest kind. */
  lemma MessagesAreTargeted(caller: Id, a: Action, k: Key, u: Id, ch: Id)
    ensures Covers(ForAll(), k) && (Covers(ForUser(u), k) <==> k.0 == u) && (Covers(ForChannel(ch), k) <==> k.1 == ch)
    ensures a.CreateRole? || a.UpdateRole? || a.DeleteRole? ==> Invalidation(caller, a) == ForAll()
    ensures a.SetOverride? || a.DeleteOverride? ==> (Covers(Invalidation(caller, a), k) <==> k.1 == a.channel)
    ensures a.AssignRole? || a.RemoveRole? || a.Kick? || a.Ban? || a.Timeout? || a.ClearTimeout? ==>
              (Covers(Invalidation(caller, a), k) <==> k.0 == a.target)
    ensures a.Leave? ==> (Covers(Invalidation(caller, a), k) <==> k.0 == caller)
  {
  }

  /** A handled message removes the covered entries, for user and channel together exactly one, and keeps all others. */
  lemma HandlingIsExact(e: Entries, m: Message, k: Key)
    ensures k in Handled(e, m) ==> k in e && Handled(e, m)[k] == e[k]
    ensures m.version == 1 && !m.all && m.user == Some(k.0) && m.channel == Some(k.1) ==> Handled(e, m) == e - {k}
    ensures m.version == 1 && !m.all && m.user.Some? && m.channel.None? ==> (k in Handled(e, m) <==> k in e && k.0 != m.user.value)
    ensures m.version == 1 && !m.all && m.user.None? && m.channel.Some? ==> (k in Handled(e, m) <==> k in e && k.1 != m.channel.value)
    ensures m.version == 1 && m.all ==> Handled(e, m) == map[]
    ensures m.version != 1 || (!m.all && m.user.None? && m.channel.None?) ==> Handled(e, m) == e
  {
  }

  function Handled(e: Entries, m: Message): Entries {
    map k | k in e && !Covers(m, k) :: e[k]
  }

  class Subscriber {
    const cache: ValkeyCache

    constructor (cache: ValkeyCache)
      ensures this.cache == cache
    {
      this.cache := cache;
    }

    /** The pattern handleMessage scans for, if its case scans. */
    static function ScanPattern(m: Message): Option<Pattern> {
      if m.all then Some(Everything)
      else match (m.user, m.channel)
        case (Some(u), None) => Some(OfUser(u))
        case (None, Some(ch)) => Some(OfChannel(ch))
        case _ => None
    }

    method HandleMessage(m: Message, batches: seq<seq<Key>>)
      requires ScanPattern(m).Some? ==> IsScan(cache.entries, ScanPattern(m).value, batches)
      modifies cache
      ensures cache.entries == Handled(old(cache.entries), m)
    {
      if m.version != INVALIDATION_VERSION {
        return;
      }
      if m.all {
        cache.ScanAndDelete(Everything, batches);
      } else if m.user.Some? && m.channel.Some? {
        cache.DeleteExact(m.user.value, m.channel.value);
      } else if m.user.Some? {
        cache.ScanAndDelete(OfUser(m.user.value), batches);
      } else if m.channel.Some? {
        cache.ScanAndDelete(OfChannel(m.channel.value), batches);
      }
    }
  }

  // ---- The system ----

  datatype System = System(tables: Tables, entries: Entries, queue: seq<Message>)

  datatype Step =
    | Lookup(user: Id, channel: Id)
    | ServerLookup(user: Id)
    | Filter(user: Id, channels: seq<Id>)
    | FilterMany(users: seq<Id>, channel: Id)
    | Mutate(caller: Id, action: Action)
    | Join(user: Id)
    | Deliver(i: nat)
    | Expire(key: Key)

  function Next(c: Catalog, maxRoles: nat, s: System, step: Step): System {
    match step
    case Lookup(u, ch) => s.(entries := AfterResolve(c, s.tables, s.entries, u, ch))
    case ServerLookup(u) => s.(entries := AfterServerResolve(c, s.tables, s.entries, u))
    case Filter(u, chs) => s.(entries := AfterFilterChannels(c, s.tables, s.entries, u, chs))
    case FilterMany(us, ch) => s.(entries := AfterFilterUsers(c, s.tables, s.entries, us, ch))
    case Mutate(caller, a) =>
      (match Apply(c, s.tables, maxRoles, caller, a)
       case Ok(t) => s.(tables := t, queue := s.queue + [Invalidation(caller, a)])
       case Err(_) => s)
    case Join(u) => (match CreatePending(s.tables, u) case Ok(t) => s.(tables := t) case Err(_) => s)
    case Deliver(i) =>
      if i < |s.queue| then s.(entries := Handled(s.entries, s.queue[i]), queue := s.queue[..i] + s.queue[i + 1..])
      else s
    case Expire(k) => s.(entries := s.entries - {k})
  }

  function Run(c: Catalog, maxRoles: nat, s: System, steps: seq<Step>): System
    decreases |steps|
  {
    if steps == [] then s else Run(c, maxRoles, Next(c, maxRoles, s, steps[0]), steps[1..])
  }

  /** Lookups as steps do what the resolver does, deliveries what the subscriber does; nothing else changes. */
  lemma StepsAreCalls(c: Catalog, maxRoles: nat, s: System, u: Id, ch: Id, chs: seq<Id>, us: seq<Id>, i: nat)
    ensures Next(c, maxRoles, s, Lookup(u, ch)) == s.(entries := AfterResolve(c, s.tables, s.entries, u, ch))
    ensures Next(c, maxRoles, s, ServerLookup(u)) == s.(entries := AfterServerResolve(c, s.tables, s.entries, u))
    ensures Next(c, maxRoles, s, Filter(u, chs)) == s.(entries := AfterFilterChannels(c, s.tables, s.entries, u, chs))
    ensures Next(c, maxRoles, s, FilterMany(us, ch)) == s.(entries := AfterFilterUsers(c, s.tables, s.entries, us, ch))
    ensures i < |s.queue| ==>
              var s' := Next(c, maxRoles, s, Deliver(i));
              && s'.entries == Handled(s.entries, s.queue[i]) && s'.tables == s.tables
              && multiset(s'.queue) + multiset{s.queue[i]} == multiset(s.queue)
  {
    if i < |s.queue| {
      assert s.queue == s.queue[..i] + [s.queue[i]] + s.queue[i + 1..];
    }
  }

  /** What the tables say about a key: server-level permissions under the nil channel, the algorithm elsewhere. */
  ghost predicate Correct(c: Catalog, t: Tables, k: Key, p: Permission) {
    if k.1 == NIL then p == Base(c, t, k.0).perm else Compute(c, t, k.0, k.1) == Ok(p)
  }

  ghost predicate Coherent(c: Catalog, t: Tables, e: Entries) {
    forall k :: k in e ==> Correct(c, t, k, e[k])
  }

  ghost predicate InFlight(queue: seq<Message>, k: Key) {
    exists i :: 0 <= i < |queue| && Covers(queue[i], k)
  }

  ghost predicate Inv(c: Catalog, s: System) {
    && WellFormed(c, s.tables)
    && forall k :: k in s.entries ==> Correct(c, s.tables, k, s.entries[k]) || InFlight(s.queue, k)
  }

  // ---- Lookups only add correct entries ----

  lemma ComputedIsCorrect(c: Catalog, t: Tables, k: Key, p: Permission)
    requires WellFormed(c, t)
    requires Compute(c, t, k.0, k.1) == Ok(p)
    ensures Correct(c, t, k, p)
  {
  }

  ghost predicate OnlyAddsCorrect(c: Catalog, t: Tables, e: Entries, e': Entries) {
    forall k :: k in e' ==> (k in e && e'[k] == e[k]) || Correct(c, t, k, e'[k])
  }

  lemma FilledAddsCorrect(c: Catalog, t: Tables, e: Entries, keys: seq<Key>)
    requires WellFormed(c, t)
    requires AllResolve(Computing(c, t), e, keys)
    ensures OnlyAddsCorrect(c, t, e, Filled(Computing(c, t), e, keys))
  {
    var e' := Filled(Computing(c, t), e, keys);
    forall k | k in e' && k !in e ensures Correct(c, t, k, e'[k]) {
      var i :| 0 <= i < |keys| && keys[i] == k;
      ComputedIsCorrect(c, t, k, e'[k]);
    }
  }

  lemma LookupAddsCorrect(c: Catalog, t: Tables, e: Entries, u: Id, ch: Id)
    requires WellFormed(c, t)
    ensures OnlyAddsCorrect(c, t, e, AfterResolve(c, t, e, u, ch))
  {
    if (u, ch) !in e && Compute(c, t, u, ch).Ok? {
      ComputedIsCorrect(c, t, (u, ch), Compute(c, t, u, ch).value);
    }
  }

  /** Any of the four resolver steps leaves old entries alone and adds correct ones. */
  lemma ReadersAddCorrect(c: Catalog, maxRoles: nat, s: System, step: Step)
    requires WellFormed(c, s.tables)
    requires step.Lookup? || step.ServerLookup? || step.Filter? || step.FilterMany?
    ensures OnlyAddsCorrect(c, s.tables, s.entries, Next(c, maxRoles, s, step).entries)
  {
    match step
    case Lookup(u, ch) => LookupAddsCorrect(c, s.tables, s.entries, u, ch);
    case ServerLookup(u) =>
    case Filter(u, chs) =>
      if AllResolve(Computing(c, s.tables), s.entries, ChannelKeys(u, chs)) {
        FilledAddsCorrect(c, s.tables, s.entries, ChannelKeys(u, chs));
      }
    case FilterMany(us, ch) =>
      if AllResolve(Computing(c, s.tables), s.entries, UserKeys(us, ch)) {
        FilledAddsCorrect(c, s.tables, s.entries, UserKeys(us, ch));
      }
    case _ =>
  }

  // ---- Mutations publish what they spoil ----

  /** The tables agree on everything the algorithm reads for one user. */
  ghost predicate SameForUser(t: Tables, t': Tables, u: Id) {
    && (u in t.owners <==> u in t'.owners)
    && t.roles == t'.roles
    && (forall r :: (u, r) in t.memberRoles <==> (u, r) in t'.memberRoles)
    && t.channels == t'.channels
  }

  lemma SameBase(c: Catalog, t: Tables, t': Tables, u: Id)
    requires SameForUser(t, t', u)
    ensures Base(c, t, u) == Base(c, t', u)
  {
    assert HeldRoles(t, u) == HeldRoles(t', u);
  }

  lemma SameLevel(t: Tables, t': Tables, target: Target, base: Permission, roles: set<Id>, u: Id)
    requires forall p :: (target, p) in t.overrides <==> (target, p) in t'.overrides
    requires forall p :: (target, p) in t.overrides ==> t.overrides[(target, p)] == t'.overrides[(target, p)]
    ensures Overridden(t, target, base, roles, u) == Overridden(t', target, base, roles, u)
  {
    assert RoleAllow(t, target, roles) == RoleAllow(t', target, roles);
    assert RoleDeny(t, target, roles) == RoleDeny(t', target, roles);
  }

  /** Changing overrides of channel w only matters to lookups in channel w. */
  lemma SameChannel(c: Catalog, t: Tables, t': Tables, u: Id, ch: Id, w: Id)
    requires SameForUser(t, t', u) && ch != w
    requires forall k :: k in t.overrides && k.0 != ChannelTarget(w) ==> k in t'.overrides && t'.overrides[k] == t.overrides[k]
    requires forall k :: k in t'.overrides && k.0 != ChannelTarget(w) ==> k in t.overrides
    ensures Compute(c, t, u, ch) == Compute(c, t', u, ch)
  {
    SameBase(c, t, t', u);
    var br := Base(c, t, u);
    if !br.admin && ch in t.channels {
      match t.channels[ch]
      case Some(k) =>
        SameLevel(t, t', CategoryTarget(k), br.perm, br.roles, u);
        SameLevel(t, t', ChannelTarget(ch), Overridden(t, CategoryTarget(k), br.perm, br.roles, u), br.roles, u);
      case None =>
        SameLevel(t, t', ChannelTarget(ch), br.perm, br.roles, u);
    }
  }

  /** A handler's message covers every key whose answer its write can have changed. */
  lemma MutationPublishesWhatItSpoils(c: Catalog, t: Tables, maxRoles: nat, caller: Id, a: Action, k: Key, p: Permission)
    requires Apply(c, t, maxRoles, caller, a).Ok?
    requires !Covers(Invalidation(caller, a), k)
    ensures Correct(c, t, k, p) <==> Correct(c, Apply(c, t, maxRoles, caller, a).value, k, p)
  {
    var t' := Apply(c, t, maxRoles, caller, a).value;
    var w := if a.SetOverride? || a.DeleteOverride? then a.channel else k.1 + 1;
    assert SameForUser(t, t', k.0);
    SameBase(c, t, t', k.0);
    SameChannel(c, t, t', k.0, k.1, w);
  }

  /** Joining gives nobody a permission that @everyone did not give already; so it needs no invalidation. */
  lemma JoinChangesNoPermission(c: Catalog, t: Tables, u: Id)
    requires WellFormed(c, t) && CreatePending(t, u).Ok?
    ensures var t' := CreatePending(t, u).value;
            && WellFormed(c, t')
            && (forall v :: Base(c, t', v) == Base(c, t, v))
            && (forall v, ch :: Compute(c, t', v, ch) == Compute(c, t, v, ch))
  {
    var t' := CreatePending(t, u).value;
    forall v ensures HeldRoles(t', v) == HeldRoles(t, v) {}
    forall v ensures Base(c, t', v) == Base(c, t, v) {}
    forall v, ch ensures Compute(c, t', v, ch) == Compute(c, t, v, ch) {
      SameGrants(c, t, t', v, ch);
    }
  }

  lemma SameGrants(c: Catalog, t: Tables, t': Tables, u: Id, ch: Id)
    requires Base(c, t', u) == Base(c, t, u) && t'.channels == t.channels && t'.overrides == t.overrides
    ensures Compute(c, t', u, ch) == Compute(c, t, u, ch)
  {
    var br := Base(c, t, u);
    if !br.admin && ch in t.channels {
      match t.channels[ch]
      case Some(k) =>
        SameLevel(t, t', CategoryTarget(k), br.perm, br.roles, u);
        SameLevel(t, t', ChannelTarget(ch), Overridden(t, CategoryTarget(k), br.perm, br.roles, u), br.roles, u);
      case None =>
        SameLevel(t, t', ChannelTarget(ch), br.perm, br.roles, u);
    }
  }

  lemma JoinKeepsInv(c: Catalog, maxRoles: nat, s: System, u: Id)
    requires Inv(c, s) && CreatePending(s.tables, u).Ok?
    ensures Inv(c, Next(c, maxRoles, s, Join(u)))
  {
    JoinChangesNoPermission(c, s.tables, u);
    var t' := CreatePending(s.tables, u).value;
    forall k | k in s.entries && Correct(c, s.tables, k, s.entries[k]) ensures Correct(c, t', k, s.entries[k]) {}
  }

  // ---- Runs ----

  lemma NextKeepsInv(c: Catalog, maxRoles: nat, s: System, step: Step)
    requires Inv(c, s)
    ensures Inv(c, Next(c, maxRoles, s, step))
  {
    var s' := Next(c, maxRoles, s, step);
    match step
    case Mutate(caller, a) =>
      if Apply(c, s.tables, maxRoles, caller, a).Ok? {
        MutateKeepsInv(c, maxRoles, s, caller, a);
      }
    case Join(u) =>
      if CreatePending(s.tables, u).Ok? {
        JoinKeepsInv(c, maxRoles, s, u);
      }
    case Deliver(i) =>
      if i < |s.queue| {
        DeliverKeepsInv(c, s, i);
      }
    case Expire(k) =>
    case _ => ReadersAddCorrect(c, maxRoles, s, step);
  }

  lemma MutateKeepsInv(c: Catalog, maxRoles: nat, s: System, caller: Id, a: Action)
    requires Inv(c, s)
    requires Apply(c, s.tables, maxRoles, caller, a).Ok?
    ensures Inv(c, Next(c, maxRoles, s, Mutate(caller, a)))
  {
    var s' := Next(c, maxRoles, s, Mutate(caller, a));
    ApplyKeepsTablesWellFormed(c, s.tables, maxRoles, caller, a);
    var m := Invalidation(caller, a);
    assert s'.queue[|s.queue|] == m && forall i :: 0 <= i < |s.queue| ==> s'.queue[i] == s.queue[i];
    forall k | k in s'.entries ensures Correct(c, s'.tables, k, s'.entries[k]) || InFlight(s'.queue, k) {
      if InFlight(s.queue, k) {
        var i :| 0 <= i < |s.queue| && Covers(s.queue[i], k);
        assert Covers(s'.queue[i], k);
      } else if Covers(m, k) {
        assert Covers(s'.queue[|s.queue|], k);
      } else {
        MutationPublishesWhatItSpoils(c, s.tables, maxRoles, caller, a, k, s.entries[k]);
      }
    }
  }

  lemma DeliverKeepsInv(c: Catalog, s: System, i: nat)
    requires Inv(c, s) && i < |s.queue|
    ensures Inv(c, s.(entries := Handled(s.entries, s.queue[i]), queue := s.queue[..i] + s.queue[i + 1..]))
  {
    var queue := s.queue[..i] + s.queue[i + 1..];
    forall k | k in s.entries && InFlight(s.queue, k) && !Covers(s.queue[i], k) ensures InFlight(queue, k) {
      var j :| 0 <= j < |s.queue| && Covers(s.queue[j], k);
      assert queue[if j < i then j else j - 1] == s.queue[j];
    }
  }

  /**
    In every run, messages delivered in any order, each cached entry is right or covered by a message in flight; so
    whenever nothing is in flight, the whole cache is coherent.
  */
  lemma {:induction false} RunsStayCoherent(c: Catalog, maxRoles: nat, s: System, steps: seq<Step>)
    requires Inv(c, s)
    ensures Inv(c, Run(c, maxRoles, s, steps))
    ensures Run(c, maxRoles, s, steps).queue == [] ==>
              Coherent(c, Run(c, maxRoles, s, steps).tables, Run(c, maxRoles, s, steps).entries)
    decreases |steps|
  {
    if steps != [] {
      NextKeepsInv(c, maxRoles, s, steps[0]);
      RunsStayCoherent(c, maxRoles, Next(c, maxRoles, s, steps[0]), steps[1..]);
    }
  }

  /** Delivering the messages in flight, oldest first, always reaches a coherent cache without touching the tables. */
  lemma {:induction false} DrainingRestoresCoherence(c: Catalog, maxRoles: nat, s: System)
    requires Inv(c, s)
    ensures var s' := Run(c, maxRoles, s, seq(|s.queue|, _ => Deliver(0)));
            s'.queue == [] && s'.tables == s.tables && Coherent(c, s'.tables, s'.entries)
    decreases |s.queue|
  {
    var steps := seq(|s.queue|, _ => Deliver(0));
    if s.queue != [] {
      NextKeepsInv(c, maxRoles, s, Deliver(0));
      var s1 := Next(c, maxRoles, s, Deliver(0));
      assert steps[1..] == seq(|s1.queue|, _ => Deliver(0));
      DrainingRestoresCoherence(c, maxRoles, s1);
    }
  }
}
