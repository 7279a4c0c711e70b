/**
  The gateway's answers spelled out: to whom a session belongs, exactly when a request is accepted and what each outcome
  leaves, and exactly who gets an event.
*/
module GatewayAnswers {
  import opened Common
  import opened GatewaySpec
  import opened GatewayRuns

  // ---- Sessions and their owners ----

  /** A session belongs to the user whose identify made it. */
  ghost function NextOwners<C>(y: System<C>, owners: map<Session, Id>, step: Step<C>): map<Session, Id> {
    if Possible(y, step) && step.IdentifyStep? && !y.g.conns[step.c].identified && step.auth.Some? && step.ready.Some?
    then owners[step.session := step.auth.value] else owners
  }

  ghost function OwnersAfter<C>(y: System<C>, lim: Limits, owners: map<Session, Id>, steps: seq<Step<C>>): map<Session, Id>
    decreases |steps|
  {
    if steps == [] then owners else OwnersAfter(Next(y, lim, steps[0]), lim, NextOwners(y, owners, steps[0]), steps[1..])
  }

  /** Every identified connection, and every saved session, carries the session's owner as its user. */
  ghost predicate Owned<C>(y: System<C>, owners: map<Session, Id>) {
    && owners.Keys == y.sent.Keys
    && (forall c :: c in y.g.conns && y.g.conns[c].identified ==>
          y.g.conns[c].session in owners && owners[y.g.conns[c].session] == y.g.conns[c].user)
    && (forall s :: s in y.g.saved ==> s in owners && owners[s] == y.g.saved[s].user)
  }

  lemma IdentifyKeepsOwners<C>(y: System<C>, lim: Limits, owners: map<Session, Id>, c: C, auth: Option<Id>, ready: Option<nat>, s: Session)
    requires Owned(y, owners) && Possible(y, IdentifyStep(c, auth, ready, s))
    ensures Owned(Next(y, lim, IdentifyStep(c, auth, ready, s)), NextOwners(y, owners, IdentifyStep(c, auth, ready, s)))
  {
    assert s !in owners;
  }

  lemma ResumeKeepsOwners<C>(y: System<C>, lim: Limits, owners: map<Session, Id>, c: C, auth: Option<Id>, s: Session, k: int)
    requires Inv(y, lim) && Owned(y, owners) && c in y.g.conns
    ensures Owned(ResumedSystem(y, lim, c, auth, s, k), owners)
  {
    var y' := ResumedSystem(y, lim, c, auth, s, k);
    assert y'.sent.Keys == y.sent.Keys;
  }

  lemma {:induction false} DispatchKeepsOwners<C>(y: System<C>, lim: Limits, owners: map<Session, Id>, e: Event, data: nat, order: seq<C>)
    requires Owned(y, owners) && forall c :: c in order ==> c in y.g.conns
    ensures Owned(DeliveredInOrder(y, lim, e, data, order), owners)
    decreases |order|
  {
    if order != [] {
      DispatchKeepsOwners(DeliveredOne(y, lim, e, data, order[0]), lim, owners, e, data, order[1..]);
    }
  }

  lemma DisconnectKeepsOwners<C>(y: System<C>, owners: map<Session, Id>, c: C)
    requires Owned(y, owners) && c in y.g.conns
    ensures Owned(y.(g := Disconnect(y.g, c)), owners)
  {
  }

  lemma NextKeepsOwners<C>(y: System<C>, lim: Limits, owners: map<Session, Id>, step: Step<C>)
    requires Inv(y, lim) && Owned(y, owners)
    ensures Owned(Next(y, lim, step), NextOwners(y, owners, step))
  {
    if Possible(y, step) {
      match step
      case Connect(c) =>
      case IdentifyStep(c, auth, ready, s) => IdentifyKeepsOwners(y, lim, owners, c, auth, ready, s);
      case ResumeStep(c, auth, s, k) => ResumeKeepsOwners(y, lim, owners, c, auth, s, k);
      case DisconnectStep(c) => DisconnectKeepsOwners(y, owners, c);
      case DispatchStep(e, data, targets, viewers, order) => DispatchKeepsOwners(y, lim, owners, e, data, order);
      case ExpireSession(s) =>
      case ExpireReplay(s) =>
    }
  }

  lemma {:induction false} RunKeepsOwners<C>(y: System<C>, lim: Limits, owners: map<Session, Id>, steps: seq<Step<C>>)
    requires Inv(y, lim) && Owned(y, owners)
    ensures Owned(Run(y, lim, steps), OwnersAfter(y, lim, owners, steps))
    ensures owners.Keys <= OwnersAfter(y, lim, owners, steps).Keys
    ensures forall s :: s in owners ==> OwnersAfter(y, lim, owners, steps)[s] == owners[s]
    decreases |steps|
  {
    if steps != [] {
      NextKeepsOwners(y, lim, owners, steps[0]);
      NextKeepsInv(y, lim, steps[0]);
      RunKeepsOwners(Next(y, lim, steps[0]), lim, NextOwners(y, owners, steps[0]), steps[1..]);
    }
  }

  /**
    In every state a run from an empty gateway reaches, a session's connections and its saved record belong to the user
    who identified it; and a request to resume a session is accepted from nobody else.
  */
  lemma SessionsStayWithTheirOwner<C>(lim: Limits, steps: seq<Step<C>>, c: C, auth: Option<Id>, s: Session, k: int)
    ensures var y, owners := Run(EmptySystem<C>(), lim, steps), OwnersAfter(EmptySystem<C>(), lim, map[], steps);
            && (forall d :: d in y.g.conns && y.g.conns[d].identified ==>
                  y.g.conns[d].session in owners && owners[y.g.conns[d].session] == y.g.conns[d].user)
            && (forall r :: r in y.g.saved ==> r in owners && owners[r] == y.g.saved[r].user)
            && (c in y.g.conns && Resumes(y, lim, c, auth, s, k) ==> s in owners && auth == Some(owners[s]))
  {
    EmptyGatewayIsConsistent<C>(lim);
    RunKeepsOwners(EmptySystem<C>(), lim, map[], steps);
  }

  // ---- Answers ----

  /**
    A resume is accepted if and only if the session is saved, for this very user, the client is not ahead of it, and there
    is room. A request that fails one of the first three conditions changes nothing but one InvalidSession frame; a full
    gateway keeps registry, sessions and replay lists as they are and sends nothing.
  */
  lemma ResumeIsAnsweredExactly<C>(g: Gateway<C>, lim: Limits, c: C, auth: Option<Id>, s: Session, k: int)
    requires RegistryOk(g) && c in g.conns
    ensures var g', conn := Resume(g, lim, c, auth, s, k), g.conns[c];
            var valid := auth.Some? && s in g.saved && g.saved[s].user == auth.value && k <= g.saved[s].lastSeq;
            var room := |RegisteredSet(g)| < lim.maxConnections;
            && (conn.identified || auth.None? ==> g' == g)
            && (!conn.identified && auth.Some? && !valid ==>
                  g' == g.(conns := g.conns[c := conn.(outbox := conn.outbox + [InvalidSession])]))
            && (!conn.identified && valid && !room ==>
                  g' == g.(conns := g.conns[c := Conn(auth.value, s, g.saved[s].lastSeq, true, conn.outbox)]))
            && (!conn.identified && valid && room ==>
                  && g'.conns.Keys == g.conns.Keys && (forall d :: d in g.conns && d != c ==> g'.conns[d] == g.conns[d])
                  && g'.conns[c].user == auth.value && g'.conns[c].session == s && g'.conns[c].identified
                  && g'.saved == g.saved - {s} && g'.replay == g.replay - {s})
            && (!conn.identified ==> ((exists u :: u in g'.clients && c in g'.clients[u]) <==> valid && room))
  {
    if !g.conns[c].identified {
      OutsideRegistry(g, c);
    }
    var g' := Resume(g, lim, c, auth, s, k);
    if !g.conns[c].identified && Resumable(g, auth, s, k) && |RegisteredSet(g)| < lim.maxConnections {
      assert g'.clients[auth.value][|g'.clients[auth.value]| - 1] == c;
    }
  }

  /**
    An identify is accepted if and only if the connection has not identified, token and READY payload are there, and there
    is room; then the connection is its user's, with the new session, and gets READY under its next number.
  */
  lemma IdentifyIsAnsweredExactly<C>(g: Gateway<C>, lim: Limits, c: C, auth: Option<Id>, ready: Option<nat>, s: Session)
    requires RegistryOk(g) && c in g.conns
    ensures var g', conn := Identify(g, lim, c, auth, ready, s), g.conns[c];
            var valid := !conn.identified && auth.Some? && ready.Some?;
            var room := |RegisteredSet(g)| < lim.maxConnections;
            && g'.saved == g.saved && g'.replay == g.replay
            && (!valid ==> g' == g)
            && (valid && !room ==> g' == g.(conns := g.conns[c := Conn(auth.value, s, conn.num, true, conn.outbox)]))
            && (valid && room ==>
                  g'.conns == g.conns[c := Conn(auth.value, s, conn.num + 1, true,
                                                conn.outbox + [Dispatch(conn.num + 1, Ready, ready.value)])])
            && (!conn.identified ==> ((exists u :: u in g'.clients && c in g'.clients[u]) <==> valid && room))
            && (valid && room ==> auth.value in g'.clients && c in g'.clients[auth.value])
  {
    if !g.conns[c].identified {
      OutsideRegistry(g, c);
    }
    var g' := Identify(g, lim, c, auth, ready, s);
    if !g.conns[c].identified && auth.Some? && ready.Some? && |RegisteredSet(g)| < lim.maxConnections {
      assert g'.clients[auth.value][|g'.clients[auth.value]| - 1] == c;
    }
  }

  /** Losing a registered connection saves its session with its user and number; losing any other one changes nothing. */
  lemma DisconnectIsAnsweredExactly<C>(g: Gateway<C>, c: C)
    requires RegistryOk(g) && c in g.conns
    ensures var g', conn := Disconnect(g, c), g.conns[c];
            var listed := exists u :: u in g.clients && c in g.clients[u];
            && g'.conns == g.conns && g'.replay == g.replay
            && (!listed ==> g' == g)
            && (listed ==> g'.saved == g.saved[conn.session := Saved(conn.user, conn.num)])
            && (forall u, d :: (u in g'.clients && d in g'.clients[u]) <==> (u in g.clients && d in g.clients[u] && d != c))
  {
    if Registered(g, c) {
      SwapRemovedSlice(g.clients[g.conns[c].user], c);
    }
  }

  // ---- Who gets an event ----

  /** Registered and identified; one of the targets if there are any, and otherwise allowed to view the channel if any. */
  ghost predicate Gets<C>(g: Gateway<C>, targets: set<Id>, viewers: Option<set<Id>>, c: C)
    requires c in g.conns
  {
    var u := g.conns[c].user;
    && u in g.clients && c in g.clients[u] && g.conns[c].identified
    && (if targets != {} then u in targets else viewers.None? || u in viewers.value)
  }

  /**
    An event reaches exactly those, each with exactly one frame: typing events without a number, all others under the
    connection's next number. Nothing else about any connection changes, and typing events leave replay lists alone.
  */
  lemma EventReachesExactly<C>(g: Gateway<C>, lim: Limits, e: Event, data: nat, targets: set<Id>, viewers: Option<set<Id>>, order: seq<C>, c: C)
    requires Walks(order, Recipients(g, targets, viewers)) && c in g.conns
    ensures forall d :: d in order ==> d in g.conns
    ensures var g', conn := DeliveredAll(g, lim, e, data, order), g.conns[c];
            && g'.conns.Keys == g.conns.Keys && g'.clients == g.clients && g'.saved == g.saved
            && (!Gets(g, targets, viewers, c) ==> g'.conns[c] == conn)
            && (Gets(g, targets, viewers, c) && (e == TypingStart || e == TypingStop) ==>
                  g'.conns[c] == conn.(outbox := conn.outbox + [Ephemeral(e, data)]))
            && (Gets(g, targets, viewers, c) && e != TypingStart && e != TypingStop ==>
                  g'.conns[c] == conn.(num := conn.num + 1, outbox := conn.outbox + [Dispatch(conn.num + 1, e, data)]))
            && (e == TypingStart || e == TypingStop ==> g'.replay == g.replay)
  {
    DispatchIsExact(g, lim, e, data, order);
    assert c in order <==> Gets(g, targets, viewers, c) by {
      assert c in order <==> c in Recipients(g, targets, viewers);
    }
  }
}
