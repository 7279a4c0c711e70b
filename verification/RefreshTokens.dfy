/**
  Refresh tokens in Valkey: a string key per token and a set of tokens per user, both with expiry times. The three
  Lua scripts run atomically. An expired key is as good as absent, so every read goes through the clock.
*/
module RefreshTokens {
  import opened Common

  type Token = nat

  datatype Stored = Stored(user: Id, expires: int)
  datatype Index = Index(tokens: set<Token>, expires: int)
  datatype Store = Store(now: int, tokens: map<Token, Stored>, index: map<Id, Index>)

  predicate Live(s: Store, t: Token) {
    t in s.tokens && s.now < s.tokens[t].expires
  }

  /** SMEMBERS of the user's set; an expired set has no members. */
  function Members(s: Store, u: Id): set<Token> {
    if u in s.index && s.now < s.index[u].expires then s.index[u].tokens else {}
  }

  function LiveOf(s: Store, u: Id): set<Token> {
    set t | t in s.tokens && Live(s, t) && s.tokens[t].user == u
  }

  // ---- Scripts ----

  /** The common tail of both issuing scripts: drop stale members, store the token, extend the set. */
  function Issue(s: Store, u: Id, kept: set<Token>, t: Token, ttl: int): Store {
    var alive := set m | m in kept && Live(s, m);
    s.(tokens := s.tokens[t := Stored(u, s.now + ttl)],
       index := s.index[u := Index(alive + {t}, s.now + ttl)])
  }

  function Create(s: Store, u: Id, t: Token, ttl: int): Store {
    Issue(s, u, Members(s, u), t, ttl)
  }

  function Rotate(s: Store, spent: Token, next: Token, ttl: int): Store {
    if !Live(s, spent) then s else
    var u := s.tokens[spent].user;
    Issue(s.(tokens := s.tokens - {spent}), u, Members(s, u) - {spent}, next, ttl)
  }

  function RevokeAll(s: Store, u: Id): Store {
    s.(tokens := s.tokens - Members(s, u), index := s.index - {u})
  }

  class TokenStore {
    var state: Store

    constructor (now: int)
      ensures state == Store(now, map[], map[])
    {
      state := Store(now, map[], map[]);
    }

    /** The loop over SMEMBERS that collects the members whose token key is gone. */
    method CollectStale(members: set<Token>) returns (stale: set<Token>)
      ensures stale == set m | m in members && !Live(state, m)
    {
      stale := {};
      var left := members;
      while left != {}
        invariant left <= members
        invariant stale == set m | m in members - left && !Live(state, m)
        decreases left
      {
        var m :| m in left;
        if !Live(state, m) {
          stale := stale + {m};
        }
        left := left - {m};
      }
    }

    method StoreToken(u: Id, kept: set<Token>, t: Token, ttl: int)
      modifies this
      ensures state == Issue(old(state), u, kept, t, ttl)
    {
      var stale := CollectStale(kept);
      assert kept - stale == set m | m in kept && Live(state, m);
      state := state.(tokens := state.tokens[t := Stored(u, state.now + ttl)]);
      state := state.(index := state.index[u := Index(kept - stale + {t}, state.now + ttl)]);
    }

    method CreateScript(u: Id, t: Token, ttl: int)
      modifies this
      ensures state == Create(old(state), u, t, ttl)
    {
      var members := Members(state, u);
      StoreToken(u, members, t, ttl);
    }

    method RotateScript(spent: Token, next: Token, ttl: int) returns (user: Option<Id>)
      modifies this
      ensures state == Rotate(old(state), spent, next, ttl)
      ensures user == if Live(old(state), spent) then Some(old(state).tokens[spent].user) else None
    {
      if !Live(state, spent) {
        return None;
      }
      var u := state.tokens[spent].user;
      var members := Members(state, u) - {spent};
      state := state.(tokens := state.tokens - {spent});
      StoreToken(u, members, next, ttl);
      return Some(u);
    }

    method RevokeAllScript(u: Id) returns (removed: nat)
      modifies this
      ensures state == RevokeAll(old(state), u)
      ensures removed == |Members(old(state), u)|
    {
      var tokens := Members(state, u);
      removed := |tokens|;
      state := state.(tokens := state.tokens - tokens);
      state := state.(index := state.index - {u});
    }

    method Validate(t: Token) returns (user: Option<Id>)
      ensures user == if Live(state, t) then Some(state.tokens[t].user) else None
    {
      user := if Live(state, t) then Some(state.tokens[t].user) else None;
    }

    /** Service.Refresh from its rotation on, given what its earlier lookup returned. */
    method FinishRefresh(t: Token, lookedUp: Option<Id>, next: Token, ttl: int) returns (user: Option<Id>)
      modifies this
      ensures state == AfterRefresh(old(state), t, lookedUp, next, ttl)
      ensures user == if Live(old(state), t) then Some(old(state).tokens[t].user) else None
    {
      user := RotateScript(t, next, ttl);
      if user.None? && lookedUp.Some? {
        var _ := RevokeAllScript(lookedUp.value);
      }
    }

    /** Service.Refresh with nothing happening between its lookup and its rotation. */
    method Refresh(t: Token, next: Token, ttl: int) returns (user: Option<Id>)
      modifies this
      ensures user == if Live(old(state), t) then Some(old(state).tokens[t].user) else None
      ensures state == Rotate(old(state), t, next, ttl)
    {
      var lookedUp := Validate(t);
      user := FinishRefresh(t, lookedUp, next, ttl);
    }
  }

  function AfterRefresh(s: Store, t: Token, lookedUp: Option<Id>, next: Token, ttl: int): Store {
    if Live(s, t) then Rotate(s, t, next, ttl)
    else if lookedUp.Some? then RevokeAll(s, lookedUp.value)
    else s
  }

  // ---- Invariant ----

  /** A live token is in its owner's set, and the set does not expire before the token. */
  ghost predicate Covered(s: Store, t: Token)
    requires t in s.tokens
  {
    var e := s.tokens[t];
    e.user in s.index && t in s.index[e.user].tokens && e.expires <= s.index[e.user].expires
  }

  ghost predicate Inv(s: Store) {
    && (forall t :: t in s.tokens && Live(s, t) ==> Covered(s, t))
    && (forall u, t :: u in s.index && t in s.index[u].tokens && t in s.tokens ==> s.tokens[t].user == u)
  }

  /** No token outlives one just issued: true as long as the TTL is constant and the clock does not go back. */
  ghost predicate WithinTtl(s: Store, ttl: int) {
    forall t :: t in s.tokens ==> s.tokens[t].expires <= s.now + ttl
  }

  /** A token nobody has seen: no key and no member of any set. */
  ghost predicate Unused(s: Store, t: Token) {
    t !in s.tokens && forall u :: u in s.index ==> t !in s.index[u].tokens
  }

  lemma IssueKeepsInv(s: Store, u: Id, gone: set<Token>, t: Token, ttl: int)
    requires Inv(s) && WithinTtl(s, ttl) && Unused(s, t) && ttl > 0
    ensures var s1 := s.(tokens := s.tokens - gone);
            var s' := Issue(s1, u, Members(s, u) - gone, t, ttl);
            Inv(s') && WithinTtl(s', ttl) && Members(s', u) == LiveOf(s', u)
  {
    var s1 := s.(tokens := s.tokens - gone);
    var s' := Issue(s1, u, Members(s, u) - gone, t, ttl);
    forall m | m in s'.tokens && Live(s', m) && s'.tokens[m].user == u && m != t ensures m in Members(s', u) {
      assert Live(s, m) && Covered(s, m);
    }
    forall m | m in s'.tokens && Live(s', m) ensures Covered(s', m) {
      if m != t {
        assert Live(s, m) && Covered(s, m);
      }
    }
  }

  /**
    Right after a token is created or rotated, its owner's set is exactly the owner's live tokens; with a constant TTL
    every live token stays in a set that outlives it.
  */
  lemma CreateKeepsInv(s: Store, u: Id, t: Token, ttl: int)
    requires Inv(s) && WithinTtl(s, ttl) && Unused(s, t) && ttl > 0
    ensures var s' := Create(s, u, t, ttl);
            Inv(s') && WithinTtl(s', ttl) && Members(s', u) == LiveOf(s', u)
  {
    IssueKeepsInv(s, u, {}, t, ttl);
    assert s.(tokens := s.tokens - {}) == s;
    assert Members(s, u) - {} == Members(s, u);
  }

  lemma RotateKeepsInv(s: Store, spent: Token, next: Token, ttl: int)
    requires Inv(s) && WithinTtl(s, ttl) && Unused(s, next) && ttl > 0
    ensures var s' := Rotate(s, spent, next, ttl);
            && Inv(s') && WithinTtl(s', ttl)
            && (Live(s, spent) ==> var u := s.tokens[spent].user; Members(s', u) == LiveOf(s', u))
  {
    if Live(s, spent) {
      IssueKeepsInv(s, s.tokens[spent].user, {spent}, next, ttl);
    }
  }

  /** Revocation is complete and touches nobody else. */
  lemma RevocationIsComplete(s: Store, u: Id)
    requires Inv(s)
    ensures var s' := RevokeAll(s, u);
            && LiveOf(s', u) == {} && u !in s'.index
            && (forall v :: v != u ==> LiveOf(s', v) == LiveOf(s, v))
            && (forall t :: t in s.tokens && s.tokens[t].user != u ==> t in s'.tokens && s'.tokens[t] == s.tokens[t])
            && (forall v :: v != u ==> Members(s', v) == Members(s, v))
            && Inv(s')
  {
    var s' := RevokeAll(s, u);
    forall t | t in s.tokens && Live(s, t) && s.tokens[t].user == u ensures t in Members(s, u) {
      assert Covered(s, t);
    }
    forall t | t in s'.tokens && Live(s', t) ensures Covered(s', t) {
      assert Covered(s, t);
    }
    forall v | v != u ensures LiveOf(s', v) == LiveOf(s, v) {}
  }

  /**
    Why the TTL must be constant: issuing with any TTL keeps every live token inside a set that outlives it exactly
    when no live token of that user expires after the new one.
  */
  lemma SetOutlivesTokensIff(s: Store, u: Id, t: Token, ttl: int)
    requires Inv(s) && Unused(s, t) && ttl > 0
    ensures Inv(Create(s, u, t, ttl)) <==> forall m :: m in LiveOf(s, u) ==> s.tokens[m].expires <= s.now + ttl
  {
    var s' := Create(s, u, t, ttl);
    forall m | m in s'.tokens && Live(s', m) && m != t
      ensures Covered(s', m) <==> s'.tokens[m].user != u || s.tokens[m].expires <= s.now + ttl
    {
      assert Live(s, m) && Covered(s, m);
    }
    if Inv(s') {
      forall m | m in LiveOf(s, u) ensures s.tokens[m].expires <= s.now + ttl {
        assert Covered(s', m);
      }
    }
  }

  // ---- Runs ----

  /** origin maps every token ever issued to the login it descends from. */
  datatype System = System(store: Store, origin: map<Token, Token>)

  datatype Step =
    | Login(user: Id, token: Token)
    | Exchange(spent: Token, next: Token)
    | Logout(user: Id)
    | Tick(seconds: nat)

  /** New tokens are version 4 UUIDs: a step that would reissue an old one does not happen. */
  predicate Possible(h: System, step: Step) {
    match step
    case Login(_, t) => t !in h.origin
    case Exchange(_, t) => t !in h.origin
    case _ => true
  }

  function Next(h: System, ttl: int, step: Step): System {
    if !Possible(h, step) then h else
    match step
    case Login(u, t) => System(Create(h.store, u, t, ttl), h.origin[t := t])
    case Exchange(a, b) =>
      if Live(h.store, a) && a in h.origin then System(Rotate(h.store, a, b, ttl), h.origin[b := h.origin[a]]) else h
    case Logout(u) => h.(store := RevokeAll(h.store, u))
    case Tick(n) => h.(store := h.store.(now := h.store.now + n))
  }

  function Run(h: System, ttl: int, steps: seq<Step>): System
    decreases |steps|
  {
    if steps == [] then h else Run(Next(h, ttl, steps[0]), ttl, steps[1..])
  }

  ghost predicate SystemInv(h: System, ttl: int) {
    Inv(h.store) && WithinTtl(h.store, ttl) && Lineage(h)
  }

  /** Everything stored was issued, and no two stored tokens descend from the same login. */
  ghost predicate Lineage(h: System) {
    && h.store.tokens.Keys <= h.origin.Keys
    && (forall u :: u in h.store.index ==> h.store.index[u].tokens <= h.origin.Keys)
    && (forall t, m :: t in h.store.tokens && m in h.store.tokens && h.origin[t] == h.origin[m] ==> t == m)
    && h.origin.Values <= h.origin.Keys
  }

  lemma LoginKeepsLineage(h: System, ttl: int, u: Id, t: Token)
    requires Lineage(h) && t !in h.origin
    ensures Lineage(System(Create(h.store, u, t, ttl), h.origin[t := t]))
  {
    assert Members(h.store, u) <= h.origin.Keys;
    forall m | m in h.origin ensures h.origin[m] != t {
      assert h.origin[m] in h.origin.Values;
    }
  }

  lemma ExchangeKeepsLineage(h: System, ttl: int, a: Token, b: Token)
    requires Lineage(h) && Live(h.store, a) && a in h.origin && b !in h.origin
    ensures Lineage(System(Rotate(h.store, a, b, ttl), h.origin[b := h.origin[a]]))
  {
    var u := h.store.tokens[a].user;
    assert Members(h.store, u) - {a} <= h.origin.Keys;
    assert Rotate(h.store, a, b, ttl).tokens.Keys == h.store.tokens.Keys - {a} + {b};
  }

  lemma NextKeepsLineage(h: System, ttl: int, step: Step)
    requires Lineage(h)
    ensures Lineage(Next(h, ttl, step))
  {
    if Possible(h, step) {
      match step
      case Login(u, t) => LoginKeepsLineage(h, ttl, u, t);
      case Exchange(a, b) =>
        if Live(h.store, a) && a in h.origin {
          ExchangeKeepsLineage(h, ttl, a, b);
        }
      case _ =>
    }
  }

  lemma NextKeepsStoreInv(h: System, ttl: int, step: Step)
    requires SystemInv(h, ttl) && ttl > 0
    ensures Inv(Next(h, ttl, step).store) && WithinTtl(Next(h, ttl, step).store, ttl)
  {
    if Possible(h, step) {
      match step
      case Login(u, t) => CreateKeepsInv(h.store, u, t, ttl);
      case Exchange(a, b) => RotateKeepsInv(h.store, a, b, ttl);
      case Logout(u) => RevocationIsComplete(h.store, u);
      case Tick(n) =>
        var s' := Next(h, ttl, step).store;
        forall t | t in s'.tokens && Live(s', t) ensures Covered(s', t) {
          assert Live(h.store, t) && Covered(h.store, t);
        }
    }
  }

  lemma NextKeepsSystemInv(h: System, ttl: int, step: Step)
    requires SystemInv(h, ttl) && ttl > 0
    ensures SystemInv(Next(h, ttl, step), ttl)
  {
    NextKeepsLineage(h, ttl, step);
    NextKeepsStoreInv(h, ttl, step);
  }

  lemma {:induction false} RunKeepsSystemInv(h: System, ttl: int, steps: seq<Step>)
    requires SystemInv(h, ttl) && ttl > 0
    ensures SystemInv(Run(h, ttl, steps), ttl)
    decreases |steps|
  {
    if steps != [] {
      NextKeepsSystemInv(h, ttl, steps[0]);
      RunKeepsSystemInv(Next(h, ttl, steps[0]), ttl, steps[1..]);
    }
  }

  /**
    In every run from an empty store, logging a user out leaves the user no live token and changes nobody else's, and
    every login has at most one live descendant.
  */
  lemma LogoutIsCompleteInEveryRun(now: int, ttl: int, steps: seq<Step>, u: Id)
    requires ttl > 0
    ensures var h := Run(System(Store(now, map[], map[]), map[]), ttl, steps);
            var s' := RevokeAll(h.store, u);
            && LiveOf(s', u) == {}
            && (forall v :: v != u ==> LiveOf(s', v) == LiveOf(h.store, v))
            && (forall t :: Live(h.store, t) ==> t in h.origin)
            && (forall t, m :: Live(h.store, t) && Live(h.store, m) && h.origin[t] == h.origin[m] ==> t == m)
  {
    var h := Run(System(Store(now, map[], map[]), map[]), ttl, steps);
    RunKeepsSystemInv(System(Store(now, map[], map[]), map[]), ttl, steps);
    RevocationIsComplete(h.store, u);
  }

  /** A rotation swaps one live token of the owner for one new one, and nobody's live tokens grow in number. */
  lemma RotationSwapsOneToken(s: Store, spent: Token, next: Token, ttl: int)
    requires Inv(s) && Unused(s, next) && ttl > 0 && Live(s, spent)
    ensures var u, s' := s.tokens[spent].user, Rotate(s, spent, next, ttl);
            && LiveOf(s', u) == LiveOf(s, u) - {spent} + {next}
            && |LiveOf(s', u)| == |LiveOf(s, u)|
            && (forall v :: v != u ==> LiveOf(s', v) == LiveOf(s, v))
  {
    var u, s' := s.tokens[spent].user, Rotate(s, spent, next, ttl);
    assert spent in LiveOf(s, u) && next !in LiveOf(s, u);
    assert LiveOf(s', u) == LiveOf(s, u) - {spent} + {next};
    forall v | v != u ensures LiveOf(s', v) == LiveOf(s, v) {}
  }

  // ---- Each token is rotated at most once ----

  /** Issued and no longer live: spent, revoked or expired. */
  predicate Dead(h: System, t: Token) {
    t in h.origin && !Live(h.store, t)
  }

  lemma {:induction false} DeadStaysDead(h: System, ttl: int, steps: seq<Step>, t: Token)
    requires Dead(h, t)
    ensures Dead(Run(h, ttl, steps), t)
    decreases |steps|
  {
    if steps != [] {
      assert Dead(Next(h, ttl, steps[0]), t);
      DeadStaysDead(Next(h, ttl, steps[0]), ttl, steps[1..], t);
    }
  }

  /** How often a run rotates t successfully. */
  function Rotations(h: System, ttl: int, steps: seq<Step>, t: Token): nat
    decreases |steps|
  {
    if steps == [] then 0 else
    var step := steps[0];
    var hit := step.Exchange? && step.spent == t && Possible(h, step) && Live(h.store, t) && t in h.origin;
    (if hit then 1 else 0) + Rotations(Next(h, ttl, step), ttl, steps[1..], t)
  }

  /** RFC 9700, section 4.14.2: a refresh token works once; from then on it is dead for good. */
  lemma {:induction false} RotatedAtMostOnce(h: System, ttl: int, steps: seq<Step>, t: Token)
    ensures Rotations(h, ttl, steps, t) <= 1
    ensures Dead(h, t) ==> Rotations(h, ttl, steps, t) == 0
    ensures Rotations(h, ttl, steps, t) == 1 ==> Dead(Run(h, ttl, steps), t)
    decreases |steps|
  {
    if steps != [] {
      var step := steps[0];
      var h1 := Next(h, ttl, step);
      RotatedAtMostOnce(h1, ttl, steps[1..], t);
      if Dead(h, t) {
        DeadStaysDead(h, ttl, [step], t);
        assert Run(h, ttl, [step]) == h1;
      }
      if Dead(h1, t) {
        DeadStaysDead(h1, ttl, steps[1..], t);
      }
    }
  }

  // ---- Reuse detection ----

  /**
    Refresh looks the token up, other requests may run, then it rotates. It revokes the family exactly when the token
    was live at the lookup and is dead at the rotation: it was used up in between. Presenting a token that was
    already dead at the lookup changes nothing.
  */
  lemma FamilyRevokedOnlyInARace(h: System, ttl: int, between: seq<Step>, t: Token, next: Token)
    requires SystemInv(h, ttl) && ttl > 0 && t in h.origin
    ensures var lookedUp := if Live(h.store, t) then Some(h.store.tokens[t].user) else None;
            var h1 := Run(h, ttl, between);
            var s' := AfterRefresh(h1.store, t, lookedUp, next, ttl);
            && (Live(h.store, t) && Dead(h1, t) ==>
                  s' == RevokeAll(h1.store, h.store.tokens[t].user) && LiveOf(s', h.store.tokens[t].user) == {})
            && (Dead(h, t) ==> s' == h1.store)
            && (Live(h1.store, t) ==> Live(h.store, t) && s' == Rotate(h1.store, t, next, ttl))
  {
    RunKeepsSystemInv(h, ttl, between);
    if Dead(h, t) {
      DeadStaysDead(h, ttl, between, t);
    }
    if Live(h.store, t) {
      RevocationIsComplete(Run(h, ttl, between).store, h.store.tokens[t].user);
    }
  }

  // ---- How long a token lives ----

  predicate LiveAfter(s: Store, t: Token, seconds: nat) {
    Live(s.(now := s.now + seconds), t)
  }

  /** A created token is its owner's and live for exactly the TTL, and so is the set; other tokens and sets stay. */
  lemma CreatedLivesItsTtl(s: Store, u: Id, t: Token, ttl: int, later: nat)
    ensures var s' := Create(s, u, t, ttl);
            && s'.now == s.now && t in s'.tokens && s'.tokens[t].user == u
            && (LiveAfter(s', t, later) <==> later < ttl)
            && u in s'.index && s'.index[u].expires == s.now + ttl
            && (forall m :: m != t ==> (m in s'.tokens <==> m in s.tokens) && (m in s.tokens ==> s'.tokens[m] == s.tokens[m]))
            && (forall v :: v != u ==> (v in s'.index <==> v in s.index) && (v in s.index ==> s'.index[v] == s.index[v]))
  {
  }

  /** A rotation gives the owner of the spent token a new one that lives for exactly the TTL, and the spent one is gone. */
  lemma RotatedLivesItsTtl(s: Store, spent: Token, next: Token, ttl: int, later: nat)
    requires spent != next
    ensures var s' := Rotate(s, spent, next, ttl);
            && (!Live(s, spent) ==> s' == s)
            && (Live(s, spent) ==>
                  var u := s.tokens[spent].user;
                  && s'.now == s.now && next in s'.tokens && s'.tokens[next].user == u && spent !in s'.tokens
                  && (LiveAfter(s', next, later) <==> later < ttl)
                  && u in s'.index && s'.index[u].expires == s.now + ttl
                  && (forall m :: m != next && m != spent ==>
                        (m in s'.tokens <==> m in s.tokens) && (m in s.tokens ==> s'.tokens[m] == s.tokens[m])))
  {
  }

  /** A logout as a step of a run: none of the user's tokens is live afterwards, and everybody else's are as before. */
  lemma LogoutStepRevokes(h: System, ttl: int, u: Id)
    requires SystemInv(h, ttl) && ttl > 0
    ensures var h' := Next(h, ttl, Logout(u));
            LiveOf(h'.store, u) == {} && forall v :: v != u ==> LiveOf(h'.store, v) == LiveOf(h.store, v)
  {
    RevocationIsComplete(h.store, u);
  }

  function Elapsed(steps: seq<Step>): nat {
    if steps == [] then 0 else (if steps[0].Tick? then steps[0].seconds else 0) + Elapsed(steps[1..])
  }

  /** The run neither exchanges the token nor logs its owner out. */
  ghost predicate Spares(steps: seq<Step>, t: Token, u: Id) {
    forall i :: 0 <= i < |steps| ==> !(steps[i].Exchange? && steps[i].spent == t) && steps[i] != Logout(u)
  }

  lemma StepSpares(h: System, ttl: int, step: Step, t: Token)
    requires SystemInv(h, ttl) && t in h.store.tokens
    requires !(step.Exchange? && step.spent == t) && step != Logout(h.store.tokens[t].user)
    ensures var h' := Next(h, ttl, step);
            && t in h'.store.tokens && h'.store.tokens[t] == h.store.tokens[t]
            && h'.store.now == h.store.now + if step.Tick? then step.seconds else 0
  {
  }

  lemma {:induction false} SparedTokenStays(h: System, ttl: int, steps: seq<Step>, t: Token)
    requires SystemInv(h, ttl) && ttl > 0 && t in h.store.tokens && Spares(steps, t, h.store.tokens[t].user)
    ensures var h' := Run(h, ttl, steps);
            && t in h'.store.tokens && h'.store.tokens[t] == h.store.tokens[t]
            && h'.store.now == h.store.now + Elapsed(steps)
    decreases |steps|
  {
    if steps != [] {
      StepSpares(h, ttl, steps[0], t);
      NextKeepsSystemInv(h, ttl, steps[0]);
      SparedTokenStays(Next(h, ttl, steps[0]), ttl, steps[1..], t);
    }
  }

  /**
    Over runs: a token issued at login, or by exchanging a live one, that is not exchanged and whose owner is not logged
    out is live exactly as long as the TTL, whatever else happens.
  */
  lemma IssuedTokenLivesItsTtl(h: System, ttl: int, issue: Step, steps: seq<Step>)
    requires SystemInv(h, ttl) && ttl > 0 && Possible(h, issue)
    requires issue.Login? || (issue.Exchange? && Live(h.store, issue.spent))
    ensures var t := if issue.Login? then issue.token else issue.next;
            var u := if issue.Login? then issue.user else h.store.tokens[issue.spent].user;
            var h' := Run(Next(h, ttl, issue), ttl, steps);
            Spares(steps, t, u) ==> (Live(h'.store, t) <==> Elapsed(steps) < ttl)
  {
    var t := if issue.Login? then issue.token else issue.next;
    var u := if issue.Login? then issue.user else h.store.tokens[issue.spent].user;
    var h1 := Next(h, ttl, issue);
    NextKeepsSystemInv(h, ttl, issue);
    if issue.Login? {
      CreatedLivesItsTtl(h.store, u, t, ttl, 0);
    } else {
      RotatedLivesItsTtl(h.store, issue.spent, t, ttl, 0);
    }
    assert h1.store.tokens[t] == Stored(u, h.store.now + ttl);
    if Spares(steps, t, u) {
      SparedTokenStays(h1, ttl, steps, t);
    }
  }
}
