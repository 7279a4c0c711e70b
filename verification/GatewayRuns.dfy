/**
  Runs of the gateway. Two history variables record, per session, every numbered frame ever made on it and the number
  of its last READY or RESUMED. Sessions survive any number of disconnects and resumes; saved sessions and replay
  lists may expire at any time.
*/
module GatewayRuns {
  import opened Common
  import opened GatewaySpec

  datatype System<C(==)> = System(g: Gateway<C>, sent: map<Session, seq<Frame>>, base: map<Session, nat>)

  datatype Step<C> =
    | Connect(c: C)
    | IdentifyStep(c: C, auth: Option<Id>, ready: Option<nat>, session: Session)
    | ResumeStep(c: C, auth: Option<Id>, session: Session, k: int)
    | DisconnectStep(c: C)
    | DispatchStep(event: Event, data: nat, targets: set<Id>, viewers: Option<set<Id>>, order: seq<C>)
    | ExpireSession(session: Session)
    | ExpireReplay(session: Session)

  /** Connections and session identifiers are new when they are made; an event goes to its recipients once each. */
  ghost predicate Possible<C>(y: System<C>, step: Step<C>) {
    match step
    case Connect(c) => c !in y.g.conns
    case IdentifyStep(c, _, _, s) => c in y.g.conns && s != NO_SESSION && s !in y.sent
    case ResumeStep(c, _, _, _) => c in y.g.conns
    case DisconnectStep(c) => c in y.g.conns
    case DispatchStep(_, _, targets, viewers, order) => Walks(order, Recipients(y.g, targets, viewers))
    case _ => true
  }

  // ---- Steps with history ----

  ghost function Identified<C>(y: System<C>, lim: Limits, c: C, auth: Option<Id>, ready: Option<nat>, s: Session): System<C>
    requires c in y.g.conns
  {
    var g' := Identify(y.g, lim, c, auth, ready, s);
    if y.g.conns[c].identified || auth.None? || ready.None? then y
    else if |RegisteredSet(y.g)| >= lim.maxConnections then System(g', y.sent[s := []], y.base[s := 0])
    else System(g', y.sent[s := [Dispatch(1, Ready, ready.value)]], y.base[s := 1])
  }

  ghost predicate Resumes<C>(y: System<C>, lim: Limits, c: C, auth: Option<Id>, s: Session, k: int)
    requires c in y.g.conns
  {
    !y.g.conns[c].identified && Resumable(y.g, auth, s, k) && |RegisteredSet(y.g)| < lim.maxConnections
  }

  ghost function ResumedSystem<C>(y: System<C>, lim: Limits, c: C, auth: Option<Id>, s: Session, k: int): System<C>
    requires c in y.g.conns
  {
    var g' := Resume(y.g, lim, c, auth, s, k);
    if !Resumes(y, lim, c, auth, s, k) || s !in y.sent then y.(g := g') else
    var n := y.g.saved[s].lastSeq + 1;
    System(g', y.sent[s := y.sent[s] + [Dispatch(n, Resumed, 0)]], y.base[s := n])
  }

  ghost function DeliveredOne<C>(y: System<C>, lim: Limits, e: Event, data: nat, c: C): System<C>
    requires c in y.g.conns
  {
    var conn := y.g.conns[c];
    var g' := Delivered(y.g, lim, e, data, c);
    if IsEphemeral(e) || conn.session !in y.sent then y.(g := g')
    else y.(g := g', sent := y.sent[conn.session := y.sent[conn.session] + [Dispatch(conn.num + 1, e, data)]])
  }

  ghost function DeliveredInOrder<C>(y: System<C>, lim: Limits, e: Event, data: nat, order: seq<C>): System<C>
    requires forall c :: c in order ==> c in y.g.conns
    decreases |order|
  {
    if order == [] then y else DeliveredInOrder(DeliveredOne(y, lim, e, data, order[0]), lim, e, data, order[1..])
  }

  ghost function Next<C>(y: System<C>, lim: Limits, step: Step<C>): System<C> {
    if !Possible(y, step) then y else
    match step
    case Connect(c) => y.(g := y.g.(conns := y.g.conns[c := NEW_CONN]))
    case IdentifyStep(c, auth, ready, s) => Identified(y, lim, c, auth, ready, s)
    case ResumeStep(c, auth, s, k) => ResumedSystem(y, lim, c, auth, s, k)
    case DisconnectStep(c) => y.(g := Disconnect(y.g, c))
    case DispatchStep(e, data, _, _, order) => DeliveredInOrder(y, lim, e, data, order)
    case ExpireSession(s) => y.(g := y.g.(saved := y.g.saved - {s}))
    case ExpireReplay(s) => y.(g := y.g.(replay := y.g.replay - {s}))
  }

  // ---- Invariant ----

  /** Frame number n of a session is the n-th frame ever made on it. */
  ghost predicate HistoryOk<C>(y: System<C>) {
    && y.base.Keys == y.sent.Keys
    && NO_SESSION !in y.sent
    && (forall s :: s in y.sent ==> y.base[s] <= |y.sent[s]|)
    && (forall s, i :: s in y.sent && 0 <= i < |y.sent[s]| ==> y.sent[s][i].Dispatch? && y.sent[s][i].num == i + 1)
  }

  /** What one connection was handed: numbers increase, and each numbered frame is the session's frame of that number. */
  ghost predicate ConnOk(conn: Conn, sent: map<Session, seq<Frame>>) {
    && (!conn.identified ==> conn.num == 0 && conn.session == NO_SESSION)
    && (conn.identified ==> conn.session in sent && conn.num <= |sent[conn.session]|)
    && (forall i :: 0 <= i < |conn.outbox| && conn.outbox[i].Dispatch? ==>
          conn.identified && 1 <= conn.outbox[i].num <= conn.num
          && sent[conn.session][conn.outbox[i].num - 1] == conn.outbox[i])
    && (forall i, j :: 0 <= i < j < |conn.outbox| && conn.outbox[i].Dispatch? && conn.outbox[j].Dispatch? ==>
          conn.outbox[i].num < conn.outbox[j].num)
  }

  /** Registered connections have sessions of their own and stand at the last number; saved ones have no connection. */
  ghost predicate SessionsOk<C>(y: System<C>) {
    && (forall c :: c in y.g.conns && Registered(y.g, c) ==>
          y.g.conns[c].session in y.sent && y.g.conns[c].num == |y.sent[y.g.conns[c].session]|)
    && (forall c, d :: c in y.g.conns && d in y.g.conns && Registered(y.g, c) && Registered(y.g, d) ==>
          c == d || y.g.conns[c].session != y.g.conns[d].session)
    && (forall s :: s in y.g.saved ==> s in y.sent && y.g.saved[s].lastSeq == |y.sent[s]|)
    && (forall c :: c in y.g.conns && Registered(y.g, c) ==> y.g.conns[c].session !in y.g.saved)
  }

  /** A replay list is the last stretch of the session's frames, after its last READY or RESUMED. */
  ghost predicate ReplayOk(es: seq<Entry>, sent: seq<Frame>, base: nat, max: Limit) {
    var n, m := |sent|, |es|;
    && m <= max && base + m <= n
    && (forall j :: 0 <= j < m ==> es[j] == Entry(n - m + j + 1, sent[n - m + j]))
  }

  ghost predicate ReplaysOk<C>(y: System<C>, max: Limit) {
    forall s :: s in y.g.replay ==> s in y.sent && s in y.base && ReplayOk(y.g.replay[s], y.sent[s], y.base[s], max)
  }

  ghost predicate Inv<C>(y: System<C>, lim: Limits) {
    && RegistryOk(y.g) && |RegisteredSet(y.g)| <= lim.maxConnections
    && HistoryOk(y)
    && (forall c :: c in y.g.conns ==> ConnOk(y.g.conns[c], y.sent))
    && SessionsOk(y)
    && ReplaysOk(y, lim.maxReplay)
  }

  // ---- Replay lists ----

  lemma DropOne<T>(xs: seq<T>, i: nat)
    requires i < |xs|
    ensures xs[i..] == [xs[i]] + xs[i + 1..]
  {
  }

  /** On a replay list, asking for what follows k gives the frames after the later of k and the list's start. */
  lemma {:induction false} MissedIsSuffix(es: seq<Entry>, sent: seq<Frame>, base: nat, max: Limit, k: int)
    requires ReplayOk(es, sent, base, max)
    requires k <= |sent|
    ensures var start := if k > |sent| - |es| then k else |sent| - |es|;
            MissedAfter(es, k) == sent[start..]
    decreases |es|
  {
    var start := if k > |sent| - |es| then k else |sent| - |es|;
    if es != [] {
      var tail := es[1..];
      assert ReplayOk(tail, sent, base, max);
      MissedIsSuffix(tail, sent, base, max, k);
      assert es[0] == Entry(|sent| - |es| + 1, sent[|sent| - |es|]);
      if k <= |sent| - |es| {
        DropOne(sent, |sent| - |es|);
      }
    } else {
      assert sent[|sent|..] == [];
    }
  }

  lemma AppendedReplayOk(es: seq<Entry>, sent: seq<Frame>, base: nat, max: Limit, f: Frame)
    requires ReplayOk(es, sent, base, max)
    ensures ReplayOk(Trimmed(es + [Entry(|sent| + 1, f)], max), sent + [f], base, max)
  {
  }

  // ---- Each step keeps the invariant ----

  ghost predicate Extends(sent: map<Session, seq<Frame>>, sent': map<Session, seq<Frame>>) {
    forall s :: s in sent ==> s in sent' && sent[s] <= sent'[s]
  }

  lemma ConnStaysOk(conn: Conn, sent: map<Session, seq<Frame>>, sent': map<Session, seq<Frame>>)
    requires ConnOk(conn, sent) && Extends(sent, sent')
    ensures ConnOk(conn, sent')
  {
  }

  lemma UnnumberedConnOk(conn: Conn, sent: map<Session, seq<Frame>>, f: Frame)
    requires ConnOk(conn, sent) && !f.Dispatch?
    ensures ConnOk(Sent(conn, f), sent)
  {
  }

  /** Handing out the next frame of the session it stands at the end of. */
  lemma NumberedConnOk(conn: Conn, sent: map<Session, seq<Frame>>, e: Event, data: nat)
    requires ConnOk(conn, sent) && conn.identified && conn.num == |sent[conn.session]|
    ensures var f := Dispatch(conn.num + 1, e, data);
            ConnOk(Sent(conn.(num := conn.num + 1), f), sent[conn.session := sent[conn.session] + [f]])
  {
  }

  /** The other connections are untouched, and the other sessions have the same frames. */
  ghost predicate OnlyTouches<C>(y: System<C>, y': System<C>, c: C, s: Session) {
    && c in y.g.conns && c in y'.g.conns && y'.g.conns == y.g.conns[c := y'.g.conns[c]]
    && (forall r :: r in y.sent && r != s ==> r in y'.sent && y'.sent[r] == y.sent[r])
    && y'.sent.Keys == y.sent.Keys + {s}
  }

  lemma TouchedConnsOk<C>(y: System<C>, y': System<C>, c: C, s: Session)
    requires c in y'.g.conns && OnlyTouches(y, y', c, s) && Extends(y.sent, y'.sent)
    requires forall d :: d in y.g.conns ==> ConnOk(y.g.conns[d], y.sent)
    requires ConnOk(y'.g.conns[c], y'.sent)
    ensures forall d :: d in y'.g.conns ==> ConnOk(y'.g.conns[d], y'.sent)
  {
    forall d | d in y'.g.conns && d != c ensures ConnOk(y'.g.conns[d], y'.sent) {
      ConnStaysOk(y.g.conns[d], y.sent, y'.sent);
    }
  }

  /** A newly registered connection brings a session of its own and stands at its end. */
  lemma NewcomerSessionsOk<C>(y: System<C>, y': System<C>, c: C, s: Session)
    requires SessionsOk(y) && c in y'.g.conns && OnlyTouches(y, y', c, s)
    requires RegisteredSet(y'.g) == RegisteredSet(y.g) + {c} && !Registered(y.g, c)
    requires y'.g.conns[c].session == s && s in y'.sent && y'.g.conns[c].num == |y'.sent[s]|
    requires forall d :: Registered(y.g, d) ==> y.g.conns[d].session != s
    requires y'.g.saved == y.g.saved - {s}
    ensures SessionsOk(y')
  {
    assert forall d :: Registered(y'.g, d) <==> d in RegisteredSet(y'.g);
    assert forall d :: Registered(y.g, d) <==> d in RegisteredSet(y.g);
  }

  lemma IdleSessionsOk<C>(y: System<C>, y': System<C>, c: C, s: Session)
    requires SessionsOk(y) && c in y'.g.conns && OnlyTouches(y, y', c, s) && y'.g.saved == y.g.saved
    requires s in y.sent ==> y'.sent[s] == y.sent[s]
    requires RegisteredSet(y'.g) == RegisteredSet(y.g) && !Registered(y.g, c)
    ensures SessionsOk(y')
  {
    assert forall d :: Registered(y'.g, d) <==> d in RegisteredSet(y'.g);
    assert forall d :: Registered(y.g, d) <==> d in RegisteredSet(y.g);
  }

  lemma NewSessionRecorded<C>(y: System<C>, y': System<C>, s: Session, frames: seq<Frame>, max: Limit)
    requires HistoryOk(y) && ReplaysOk(y, max) && s !in y.sent && s != NO_SESSION
    requires y'.sent == y.sent[s := frames] && y'.base == y.base[s := |frames|] && y'.g.replay == y.g.replay
    requires forall i :: 0 <= i < |frames| ==> frames[i].Dispatch? && frames[i].num == i + 1
    ensures HistoryOk(y') && ReplaysOk(y', max) && Extends(y.sent, y'.sent)
  {
  }

  lemma IdentifyWhenFull<C>(y: System<C>, lim: Limits, c: C, conn: Conn, s: Session)
    requires Inv(y, lim) && c in y.g.conns && !y.g.conns[c].identified && s != NO_SESSION && s !in y.sent
    requires conn == y.g.conns[c].(user := conn.user, session := s, identified := true)
    ensures var y' := System(y.g.(conns := y.g.conns[c := conn]), y.sent[s := []], y.base[s := 0]);
            Inv(y', lim) && Extends(y.sent, y'.sent)
  {
    var y' := System(y.g.(conns := y.g.conns[c := conn]), y.sent[s := []], y.base[s := 0]);
    NewSessionRecorded(y, y', s, [], lim.maxReplay);
    OutsideRegistry(y.g, c);
    UnregisteredUpdate(y.g, c, conn);
    IdleSessionsOk(y, y', c, s);
    assert ConnOk(y.g.conns[c], y.sent);
    TouchedConnsOk(y, y', c, s);
  }

  lemma IdentifyWithRoom<C>(y: System<C>, lim: Limits, c: C, conn: Conn, s: Session, data: nat)
    requires Inv(y, lim) && c in y.g.conns && !y.g.conns[c].identified && s != NO_SESSION && s !in y.sent
    requires |RegisteredSet(y.g)| < lim.maxConnections
    requires conn == Sent(y.g.conns[c].(user := conn.user, session := s, identified := true, num := 1), Dispatch(1, Ready, data))
    ensures var g' := y.g.(conns := y.g.conns[c := conn], clients := Appending(y.g.clients, conn.user, c));
            var y' := System(g', y.sent[s := [Dispatch(1, Ready, data)]], y.base[s := 1]);
            Inv(y', lim) && Extends(y.sent, y'.sent)
  {
    var g' := y.g.(conns := y.g.conns[c := conn], clients := Appending(y.g.clients, conn.user, c));
    var y' := System(g', y.sent[s := [Dispatch(1, Ready, data)]], y.base[s := 1]);
    NewSessionRecorded(y, y', s, [Dispatch(1, Ready, data)], lim.maxReplay);
    AppendRegisters(y.g, c, conn);
    assert s !in y.g.saved;
    NewcomerSessionsOk(y, y', c, s);
    assert ConnOk(y.g.conns[c], y.sent);
    TouchedConnsOk(y, y', c, s);
  }

  lemma IdentifiedWhenFull<C>(y: System<C>, lim: Limits, c: C, auth: Id, ready: nat, s: Session)
    requires Inv(y, lim) && Possible(y, IdentifyStep(c, Some(auth), Some(ready), s)) && !y.g.conns[c].identified
    requires |RegisteredSet(y.g)| >= lim.maxConnections
    ensures var y' := Identified(y, lim, c, Some(auth), Some(ready), s);
            Inv(y', lim) && Extends(y.sent, y'.sent)
  {
    IdentifyWhenFull(y, lim, c, y.g.conns[c].(user := auth, session := s, identified := true), s);
  }

  lemma IdentifiedWithRoom<C>(y: System<C>, lim: Limits, c: C, auth: Id, ready: nat, s: Session)
    requires Inv(y, lim) && Possible(y, IdentifyStep(c, Some(auth), Some(ready), s)) && !y.g.conns[c].identified
    requires |RegisteredSet(y.g)| < lim.maxConnections
    ensures var y' := Identified(y, lim, c, Some(auth), Some(ready), s);
            Inv(y', lim) && Extends(y.sent, y'.sent)
  {
    assert ConnOk(y.g.conns[c], y.sent);
    var greeted := Sent(y.g.conns[c].(user := auth, session := s, identified := true, num := 1), Dispatch(1, Ready, ready));
    IdentifyWithRoom(y, lim, c, greeted, s, ready);
  }

  lemma IdentifyKeepsInv<C>(y: System<C>, lim: Limits, c: C, auth: Option<Id>, ready: Option<nat>, s: Session)
    requires Inv(y, lim) && Possible(y, IdentifyStep(c, auth, ready, s))
    ensures Inv(Identified(y, lim, c, auth, ready, s), lim)
    ensures Extends(y.sent, Identified(y, lim, c, auth, ready, s).sent)
  {
    if !y.g.conns[c].identified && auth.Some? && ready.Some? {
      if |RegisteredSet(y.g)| >= lim.maxConnections {
        IdentifiedWhenFull(y, lim, c, auth.value, ready.value, s);
      } else {
        IdentifiedWithRoom(y, lim, c, auth.value, ready.value, s);
      }
    }
  }

  lemma SessionsUnchanged<C>(y: System<C>, y': System<C>)
    requires SessionsOk(y) && y'.sent == y.sent
    requires forall d :: Registered(y'.g, d) ==> Registered(y.g, d) && y'.g.conns[d] == y.g.conns[d]
    requires forall s :: s in y'.g.saved ==> s in y.g.saved && y'.g.saved[s] == y.g.saved[s]
    ensures SessionsOk(y')
  {
  }

  lemma InvalidSessionKeepsInv<C>(y: System<C>, lim: Limits, c: C)
    requires Inv(y, lim) && c in y.g.conns && !y.g.conns[c].identified
    ensures Inv(y.(g := y.g.(conns := y.g.conns[c := Sent(y.g.conns[c], InvalidSession)])), lim)
  {
    var conn := Sent(y.g.conns[c], InvalidSession);
    var y' := y.(g := y.g.(conns := y.g.conns[c := conn]));
    OutsideRegistry(y.g, c);
    UnregisteredUpdate(y.g, c, conn);
    SameRegistered(y.g, y'.g);
    SessionsUnchanged(y, y');
    UnnumberedConnOk(y.g.conns[c], y.sent, InvalidSession);
    assert forall d :: d in y'.g.conns && d != c ==> y'.g.conns[d] == y.g.conns[d];
  }

  lemma SameRegistered<C>(g: Gateway<C>, g': Gateway<C>)
    requires RegisteredSet(g') == RegisteredSet(g)
    ensures forall d :: Registered(g', d) <==> Registered(g, d)
  {
    assert forall d :: Registered(g', d) <==> d in RegisteredSet(g');
    assert forall d :: Registered(g, d) <==> d in RegisteredSet(g);
  }

  lemma ResumeWhenFull<C>(y: System<C>, lim: Limits, c: C, conn: Conn, s: Session)
    requires Inv(y, lim) && c in y.g.conns && !y.g.conns[c].identified && s in y.g.saved
    requires conn == y.g.conns[c].(user := conn.user, session := s, num := y.g.saved[s].lastSeq, identified := true)
    ensures Inv(y.(g := y.g.(conns := y.g.conns[c := conn])), lim)
  {
    var y' := y.(g := y.g.(conns := y.g.conns[c := conn]));
    OutsideRegistry(y.g, c);
    UnregisteredUpdate(y.g, c, conn);
    assert ConnOk(y.g.conns[c], y.sent);
    assert ConnOk(conn, y.sent);
    IdleSessionsOk(y, y', c, s);
    TouchedConnsOk(y, y', c, s);
  }

  /** A connection without numbered frames that is handed consecutive frames of a session up to its last one. */
  lemma CaughtUpConnOk(conn: Conn, sent: map<Session, seq<Frame>>, from: nat, outbox: seq<Frame>)
    requires conn.session in sent && conn.identified && conn.num == |sent[conn.session]|
    requires forall i :: 0 <= i < |sent[conn.session]| ==> sent[conn.session][i].Dispatch? && sent[conn.session][i].num == i + 1
    requires forall i :: 0 <= i < |outbox| ==> !outbox[i].Dispatch?
    requires from <= |sent[conn.session]| && conn.outbox == outbox + sent[conn.session][from..]
    ensures ConnOk(conn, sent)
  {
    var n := |outbox|;
    forall i | 0 <= i < |conn.outbox| && conn.outbox[i].Dispatch?
      ensures i >= n && conn.outbox[i] == sent[conn.session][from + i - n] {}
  }

  /** The connection after an accepted resume: the missed frames, then RESUMED under the next number. */
  ghost function ResumedConn<C>(y: System<C>, c: C, user: Id, s: Session, from: nat): Conn
    requires c in y.g.conns && s in y.sent && from <= |y.sent[s]|
  {
    var n := |y.sent[s]|;
    Conn(user, s, n + 1, true, y.g.conns[c].outbox + y.sent[s][from..] + [Dispatch(n + 1, Resumed, 0)])
  }

  ghost function ResumedState<C>(y: System<C>, c: C, user: Id, s: Session, from: nat): System<C>
    requires c in y.g.conns && s in y.sent && from <= |y.sent[s]|
  {
    var n := |y.sent[s]|;
    System(Gateway(y.g.conns[c := ResumedConn(y, c, user, s, from)], Appending(y.g.clients, user, c),
                   y.g.saved - {s}, y.g.replay - {s}),
           y.sent[s := y.sent[s] + [Dispatch(n + 1, Resumed, 0)]], y.base[s := n + 1])
  }

  lemma ResumedHistoryOk<C>(y: System<C>, c: C, user: Id, s: Session, from: nat, max: Limit)
    requires HistoryOk(y) && ReplaysOk(y, max) && c in y.g.conns && s in y.sent && from <= |y.sent[s]|
    ensures var y' := ResumedState(y, c, user, s, from);
            HistoryOk(y') && ReplaysOk(y', max) && Extends(y.sent, y'.sent)
  {
  }

  lemma ResumedRegistryOk<C>(y: System<C>, c: C, user: Id, s: Session, from: nat)
    requires RegistryOk(y.g) && c in y.g.conns && !y.g.conns[c].identified && s in y.sent && from <= |y.sent[s]|
    ensures var g' := ResumedState(y, c, user, s, from).g;
            RegistryOk(g') && RegisteredSet(g') == RegisteredSet(y.g) + {c} && !Registered(y.g, c)
  {
    var conn := ResumedConn(y, c, user, s, from);
    var g' := ResumedState(y, c, user, s, from).g;
    var entered := y.g.(conns := y.g.conns[c := conn], clients := Appending(y.g.clients, user, c));
    AppendRegisters(y.g, c, conn);
    assert RegisteredSet(g') == RegisteredSet(entered);
  }

  lemma ResumedConnOk<C>(y: System<C>, c: C, user: Id, s: Session, from: nat)
    requires HistoryOk(y) && c in y.g.conns && s in y.sent && from <= |y.sent[s]|
    requires ConnOk(y.g.conns[c], y.sent) && !y.g.conns[c].identified
    ensures ConnOk(ResumedConn(y, c, user, s, from), ResumedState(y, c, user, s, from).sent)
  {
    var conn := ResumedConn(y, c, user, s, from);
    var sent' := ResumedState(y, c, user, s, from).sent;
    assert sent'[s][from..] == y.sent[s][from..] + [Dispatch(|y.sent[s]| + 1, Resumed, 0)];
    assert conn.outbox == y.g.conns[c].outbox + sent'[s][from..];
    CaughtUpConnOk(conn, sent', from, y.g.conns[c].outbox);
  }

  lemma ResumedTouches<C>(y: System<C>, c: C, user: Id, s: Session, from: nat)
    requires c in y.g.conns && s in y.sent && from <= |y.sent[s]|
    ensures var y' := ResumedState(y, c, user, s, from);
            && OnlyTouches(y, y', c, s) && y'.g.saved == y.g.saved - {s}
            && y'.g.conns[c] == ResumedConn(y, c, user, s, from) && y'.g.conns[c].session == s
            && s in y'.sent && y'.g.conns[c].num == |y'.sent[s]|
  {
  }

  lemma SavedHasNoConnection<C>(y: System<C>, s: Session)
    requires SessionsOk(y) && s in y.g.saved
    ensures forall d :: Registered(y.g, d) ==> y.g.conns[d].session != s
  {
  }

  lemma ResumedKeepsInv<C>(y: System<C>, lim: Limits, c: C, user: Id, s: Session, from: nat)
    requires Inv(y, lim) && c in y.g.conns && !y.g.conns[c].identified && s in y.g.saved && s in y.sent
    requires |RegisteredSet(y.g)| < lim.maxConnections && from <= |y.sent[s]|
    ensures Inv(ResumedState(y, c, user, s, from), lim)
  {
    var y' := ResumedState(y, c, user, s, from);
    ResumedTouches(y, c, user, s, from);
    SavedHasNoConnection(y, s);
    ResumedHistoryOk(y, c, user, s, from, lim.maxReplay);
    ResumedRegistryOk(y, c, user, s, from);
    NewcomerSessionsOk(y, y', c, s);
    assert ConnOk(y.g.conns[c], y.sent);
    ResumedConnOk(y, c, user, s, from);
    TouchedConnsOk(y, y', c, s);
  }

  /** Where the replay of a resume asking for what follows k starts. */
  function ReplayStart(k: int, last: int, kept: int): int {
    if k > last - kept then k else last - kept
  }

  lemma ReplayedFrames<C>(y: System<C>, lim: Limits, s: Session, k: int)
    requires Inv(y, lim) && s in y.g.saved && k <= y.g.saved[s].lastSeq
    ensures s in y.sent && y.g.saved[s].lastSeq == |y.sent[s]| && |ReplayList(y.g.replay, s)| <= |y.sent[s]|
    ensures var from := ReplayStart(k, |y.sent[s]|, |ReplayList(y.g.replay, s)|);
            0 <= from <= |y.sent[s]| && MissedAfter(ReplayList(y.g.replay, s), k) == y.sent[s][from..]
  {
    var es := ReplayList(y.g.replay, s);
    assert ReplayOk(es, y.sent[s], y.base[s], lim.maxReplay);
    MissedIsSuffix(es, y.sent[s], y.base[s], lim.maxReplay, k);
  }

  /** What Resume computes, given the frames the replay returns. */
  lemma ResumedFrom<C>(y: System<C>, lim: Limits, c: C, auth: Option<Id>, s: Session, k: int, from: nat)
    requires c in y.g.conns && Resumes(y, lim, c, auth, s, k)
    requires s in y.sent && y.g.saved[s].lastSeq == |y.sent[s]| && from <= |y.sent[s]|
    requires MissedAfter(ReplayList(y.g.replay, s), k) == y.sent[s][from..]
    ensures ResumedSystem(y, lim, c, auth, s, k) == ResumedState(y, c, auth.value, s, from)
  {
    var outbox, resumed := y.g.conns[c].outbox, Dispatch(|y.sent[s]| + 1, Resumed, 0);
    assert outbox + (y.sent[s][from..] + [resumed]) == outbox + y.sent[s][from..] + [resumed];
  }

  /**
    An accepted resume hands over, in order, exactly the frames of the session after k that the replay list still
    holds, then RESUMED under the next number; the saved session and the replay list are gone afterwards.
  */
  lemma ResumeIsExact<C>(y: System<C>, lim: Limits, c: C, auth: Option<Id>, s: Session, k: int)
    requires Inv(y, lim) && c in y.g.conns && Resumes(y, lim, c, auth, s, k)
    ensures s in y.sent && y.g.saved[s].lastSeq == |y.sent[s]|
    ensures |ReplayList(y.g.replay, s)| <= |y.sent[s]|
    ensures var from := ReplayStart(k, |y.sent[s]|, |ReplayList(y.g.replay, s)|);
            0 <= from <= |y.sent[s]| && ResumedSystem(y, lim, c, auth, s, k) == ResumedState(y, c, auth.value, s, from)
  {
    ReplayedFrames(y, lim, s, k);
    ResumedFrom(y, lim, c, auth, s, k, ReplayStart(k, |y.sent[s]|, |ReplayList(y.g.replay, s)|));
  }

  lemma ResumeKeepsInv<C>(y: System<C>, lim: Limits, c: C, auth: Option<Id>, s: Session, k: int)
    requires Inv(y, lim) && c in y.g.conns
    ensures Inv(ResumedSystem(y, lim, c, auth, s, k), lim)
    ensures Extends(y.sent, ResumedSystem(y, lim, c, auth, s, k).sent)
  {
    if y.g.conns[c].identified || auth.None? {
    } else if !Resumable(y.g, auth, s, k) {
      InvalidSessionKeepsInv(y, lim, c);
    } else if |RegisteredSet(y.g)| >= lim.maxConnections {
      var conn := y.g.conns[c].(user := auth.value, session := s, num := y.g.saved[s].lastSeq, identified := true);
      ResumeWhenFull(y, lim, c, conn, s);
    } else {
      ResumeIsExact(y, lim, c, auth, s, k);
      ResumedKeepsInv(y, lim, c, auth.value, s, ReplayStart(k, |y.sent[s]|, |ReplayList(y.g.replay, s)|));
    }
  }

  /** A connection that leaves the registry takes its session to the saved ones. */
  lemma LeaverSessionsOk<C>(y: System<C>, y': System<C>, c: C)
    requires SessionsOk(y) && Registered(y.g, c) && y'.sent == y.sent && y'.g.conns == y.g.conns
    requires RegisteredSet(y'.g) == RegisteredSet(y.g) - {c}
    requires y'.g.saved == y.g.saved[y.g.conns[c].session := Saved(y.g.conns[c].user, y.g.conns[c].num)]
    ensures SessionsOk(y')
  {
    assert forall d :: Registered(y'.g, d) <==> d in RegisteredSet(y'.g);
    assert forall d :: Registered(y.g, d) <==> d in RegisteredSet(y.g);
  }

  lemma DisconnectKeepsInv<C>(y: System<C>, lim: Limits, c: C)
    requires Inv(y, lim) && c in y.g.conns
    ensures Inv(y.(g := Disconnect(y.g, c)), lim)
  {
    if Registered(y.g, c) {
      var y' := y.(g := Disconnect(y.g, c));
      SwapRemoveUnregisters(y.g, c);
      var cut := y.g.(clients := SwapRemoved(y.g.clients, y.g.conns[c].user, c));
      assert RegisteredSet(y'.g) == RegisteredSet(cut);
      LeaverSessionsOk(y, y', c);
    }
  }

  // ---- Dispatch ----

  lemma EphemeralKeepsInv<C>(y: System<C>, lim: Limits, e: Event, data: nat, c: C)
    requires Inv(y, lim) && Registered(y.g, c) && IsEphemeral(e)
    ensures Inv(DeliveredOne(y, lim, e, data, c), lim)
  {
    var y' := DeliveredOne(y, lim, e, data, c);
    var s := y.g.conns[c].session;
    RegisteredUpdate(y.g, y'.g, c);
    UnnumberedConnOk(y.g.conns[c], y.sent, Ephemeral(e, data));
    TouchedConnsOk(y, y', c, s);
    NumberedSessionsOk(y, y', c, s);
  }

  lemma AppendedFramesOk<C>(y: System<C>, y': System<C>, s: Session, f: Frame)
    requires HistoryOk(y) && s in y.sent && f.Dispatch? && f.num == |y.sent[s]| + 1
    requires y'.sent == y.sent[s := y.sent[s] + [f]] && y'.base == y.base
    ensures HistoryOk(y') && Extends(y.sent, y'.sent)
  {
    forall r, i | r in y'.sent && 0 <= i < |y'.sent[r]| ensures y'.sent[r][i].Dispatch? && y'.sent[r][i].num == i + 1 {
      assert (r == s && i == |y.sent[s]|) || y'.sent[r][i] == y.sent[r][i];
    }
  }

  lemma AppendedReplaysOk<C>(y: System<C>, y': System<C>, s: Session, f: Frame, max: Limit)
    requires HistoryOk(y) && ReplaysOk(y, max) && s in y.sent && f.Dispatch? && f.num == |y.sent[s]| + 1
    requires y'.sent == y.sent[s := y.sent[s] + [f]] && y'.base == y.base
    requires y'.g.replay == Appended(y.g.replay, s, Entry(f.num, f), max)
    ensures ReplaysOk(y', max)
  {
    var es := ReplayList(y.g.replay, s);
    assert ReplayOk(es, y.sent[s], y.base[s], max);
    AppendedReplayOk(es, y.sent[s], y.base[s], max, f);
    assert ReplayOk(y'.g.replay[s], y'.sent[s], y'.base[s], max);
    forall r | r in y'.g.replay
      ensures r in y'.sent && r in y'.base && ReplayOk(y'.g.replay[r], y'.sent[r], y'.base[r], max)
    {
      assert r == s || (r in y.g.replay && y'.g.replay[r] == y.g.replay[r] && y'.sent[r] == y.sent[r]);
    }
  }

  lemma NumberedSessionsOk<C>(y: System<C>, y': System<C>, c: C, s: Session)
    requires SessionsOk(y) && OnlyTouches(y, y', c, s) && Registered(y.g, c) && y.g.conns[c].session == s
    requires forall d :: Registered(y'.g, d) <==> Registered(y.g, d)
    requires y'.g.conns[c].session == s && s in y'.sent && y'.g.conns[c].num == |y'.sent[s]|
    requires y'.g.saved == y.g.saved
    ensures SessionsOk(y')
  {
  }

  /** What a numbered delivery changes, given that the connection stands at the end of its session. */
  lemma NumberedChanges<C>(y: System<C>, lim: Limits, e: Event, data: nat, c: C)
    requires Inv(y, lim) && Registered(y.g, c) && !IsEphemeral(e)
    ensures c in y.g.conns && ConnOk(y.g.conns[c], y.sent) && y.g.conns[c].identified
    ensures y.g.conns[c].session in y.sent && y.g.conns[c].num == |y.sent[y.g.conns[c].session]|
    ensures y.g.conns[c].session != NO_SESSION
  {
  }

  lemma NumberedKeepsInv<C>(y: System<C>, lim: Limits, e: Event, data: nat, c: C)
    requires Inv(y, lim) && Registered(y.g, c) && !IsEphemeral(e)
    ensures Inv(DeliveredOne(y, lim, e, data, c), lim)
    ensures Extends(y.sent, DeliveredOne(y, lim, e, data, c).sent)
  {
    var y' := DeliveredOne(y, lim, e, data, c);
    NumberedChanges(y, lim, e, data, c);
    var conn := y.g.conns[c];
    AppendedFramesOk(y, y', conn.session, Dispatch(conn.num + 1, e, data));
    AppendedReplaysOk(y, y', conn.session, Dispatch(conn.num + 1, e, data), lim.maxReplay);
    RegisteredUpdate(y.g, y'.g, c);
    NumberedSessionsOk(y, y', c, conn.session);
    NumberedConnOk(conn, y.sent, e, data);
    TouchedConnsOk(y, y', c, conn.session);
  }

  /** Delivering to one connection keeps the invariant and the set of registered connections. */
  lemma DeliverKeepsInv<C>(y: System<C>, lim: Limits, e: Event, data: nat, c: C)
    requires Inv(y, lim) && Registered(y.g, c)
    ensures Inv(DeliveredOne(y, lim, e, data, c), lim)
    ensures forall d :: Registered(DeliveredOne(y, lim, e, data, c).g, d) <==> Registered(y.g, d)
    ensures Extends(y.sent, DeliveredOne(y, lim, e, data, c).sent)
  {
    var y' := DeliveredOne(y, lim, e, data, c);
    RegisteredUpdate(y.g, y'.g, c);
    if IsEphemeral(e) {
      EphemeralKeepsInv(y, lim, e, data, c);
    } else {
      NumberedKeepsInv(y, lim, e, data, c);
    }
  }

  lemma ExtendsTransitive(a: map<Session, seq<Frame>>, b: map<Session, seq<Frame>>, c: map<Session, seq<Frame>>)
    requires Extends(a, b) && Extends(b, c)
    ensures Extends(a, c)
  {
  }

  lemma {:induction false} DispatchKeepsInv<C>(y: System<C>, lim: Limits, e: Event, data: nat, order: seq<C>)
    requires Inv(y, lim) && forall c :: c in order ==> c in y.g.conns && Registered(y.g, c)
    ensures Inv(DeliveredInOrder(y, lim, e, data, order), lim)
    ensures Extends(y.sent, DeliveredInOrder(y, lim, e, data, order).sent)
    ensures DeliveredInOrder(y, lim, e, data, order).g == DeliveredAll(y.g, lim, e, data, order)
    decreases |order|
  {
    if order != [] {
      assert Registered(y.g, order[0]);
      var y1 := DeliveredOne(y, lim, e, data, order[0]);
      DeliverKeepsInv(y, lim, e, data, order[0]);
      DispatchKeepsInv(y1, lim, e, data, order[1..]);
      ExtendsTransitive(y.sent, y1.sent, DeliveredInOrder(y, lim, e, data, order).sent);
    }
  }

  /** The connection after one delivered event. */
  function AfterEvent(conn: Conn, e: Event, data: nat): Conn {
    if IsEphemeral(e) then Sent(conn, Ephemeral(e, data))
    else Sent(conn.(num := conn.num + 1), Dispatch(conn.num + 1, e, data))
  }

  /**
    A dispatched event hands exactly one frame to each recipient, under the recipient's own next number, and nothing to
    anyone else; an ephemeral one touches no number and no replay list.
  */
  lemma {:induction false} DispatchIsExact<C>(g: Gateway<C>, lim: Limits, e: Event, data: nat, order: seq<C>)
    requires forall c :: c in order ==> c in g.conns
    requires forall i, j :: 0 <= i < j < |order| ==> order[i] != order[j]
    ensures var g' := DeliveredAll(g, lim, e, data, order);
            && g'.conns.Keys == g.conns.Keys && g'.clients == g.clients && g'.saved == g.saved
            && (forall c :: c in order ==> g'.conns[c] == AfterEvent(g.conns[c], e, data))
            && (forall c :: c in g.conns && c !in order ==> g'.conns[c] == g.conns[c])
            && (IsEphemeral(e) ==> g'.replay == g.replay)
    decreases |order|
  {
    if order != [] {
      var g1 := Delivered(g, lim, e, data, order[0]);
      DispatchIsExact(g1, lim, e, data, order[1..]);
      assert forall c :: c in order <==> c == order[0] || c in order[1..];
      assert order[0] !in order[1..];
    }
  }

  // ---- Runs ----

  lemma NextKeepsInv<C>(y: System<C>, lim: Limits, step: Step<C>)
    requires Inv(y, lim)
    ensures Inv(Next(y, lim, step), lim)
    ensures Extends(y.sent, Next(y, lim, step).sent)
  {
    if Possible(y, step) {
      match step
      case Connect(c) => ConnectKeepsInv(y, lim, c);
      case IdentifyStep(c, auth, ready, s) => IdentifyKeepsInv(y, lim, c, auth, ready, s);
      case ResumeStep(c, auth, s, k) => ResumeKeepsInv(y, lim, c, auth, s, k);
      case DisconnectStep(c) => DisconnectKeepsInv(y, lim, c);
      case DispatchStep(e, data, targets, viewers, order) => DispatchKeepsInv(y, lim, e, data, order);
      case ExpireSession(s) => ExpiryKeepsInv(y, y.(g := y.g.(saved := y.g.saved - {s})), lim);
      case ExpireReplay(s) => ExpiryKeepsInv(y, y.(g := y.g.(replay := y.g.replay - {s})), lim);
    }
  }

  lemma ConnectRegistryOk<C>(g: Gateway<C>, c: C)
    requires RegistryOk(g) && c !in g.conns
    ensures var g' := g.(conns := g.conns[c := NEW_CONN]);
            RegistryOk(g') && RegisteredSet(g') == RegisteredSet(g)
  {
    var g' := g.(conns := g.conns[c := NEW_CONN]);
    forall d ensures Registered(g', d) <==> Registered(g, d) {}
  }

  lemma ConnectKeepsInv<C>(y: System<C>, lim: Limits, c: C)
    requires Inv(y, lim) && c !in y.g.conns
    ensures Inv(y.(g := y.g.(conns := y.g.conns[c := NEW_CONN])), lim)
  {
    var y' := y.(g := y.g.(conns := y.g.conns[c := NEW_CONN]));
    ConnectRegistryOk(y.g, c);
    assert forall d :: Registered(y'.g, d) <==> d in RegisteredSet(y'.g);
    assert forall d :: Registered(y.g, d) <==> d in RegisteredSet(y.g);
    SessionsUnchanged(y, y');
  }

  lemma ExpiryKeepsInv<C>(y: System<C>, y': System<C>, lim: Limits)
    requires Inv(y, lim) && y'.sent == y.sent && y'.base == y.base
    requires y'.g.conns == y.g.conns && y'.g.clients == y.g.clients
    requires forall s :: s in y'.g.saved ==> s in y.g.saved && y'.g.saved[s] == y.g.saved[s]
    requires forall s :: s in y'.g.replay ==> s in y.g.replay && y'.g.replay[s] == y.g.replay[s]
    ensures Inv(y', lim)
  {
    forall d ensures Registered(y'.g, d) <==> Registered(y.g, d) {}
    assert RegisteredSet(y'.g) == RegisteredSet(y.g);
  }

  ghost function Run<C>(y: System<C>, lim: Limits, steps: seq<Step<C>>): System<C>
    decreases |steps|
  {
    if steps == [] then y else Run(Next(y, lim, steps[0]), lim, steps[1..])
  }

  /**
    In every run the invariant holds, and the frames numbered on a session are only ever added to: number n labels one
    frame for good, across any number of disconnects and resumes.
  */
  lemma {:induction false} RunKeepsInv<C>(y: System<C>, lim: Limits, steps: seq<Step<C>>)
    requires Inv(y, lim)
    ensures Inv(Run(y, lim, steps), lim)
    ensures Extends(y.sent, Run(y, lim, steps).sent)
    decreases |steps|
  {
    if steps != [] {
      NextKeepsInv(y, lim, steps[0]);
      RunKeepsInv(Next(y, lim, steps[0]), lim, steps[1..]);
      ExtendsTransitive(y.sent, Next(y, lim, steps[0]).sent, Run(y, lim, steps).sent);
    }
  }

  function EmptySystem<C(==)>(): System<C> {
    System(Gateway(map[], map[], map[], map[]), map[], map[])
  }

  lemma EmptyGatewayIsConsistent<C>(lim: Limits)
    ensures Inv<C>(EmptySystem(), lim)
  {
    assert RegisteredSet<C>(EmptySystem().g) == {};
  }

  /**
    The gateway's promises, spelled out, in every state a run from an empty gateway reaches: sessions of registered
    connections differ; a saved session has no registered connection and holds the last number made on it, and so does
    a registered connection; the frames of a session are numbered 1, 2, 3 and so on; what a connection was handed has
    increasing numbers and is what the session made under them; the registry stays within the connection limit.
  */
  lemma GatewayGuarantees<C>(lim: Limits, steps: seq<Step<C>>)
    ensures var y := Run(EmptySystem<C>(), lim, steps);
            && (forall c, d :: Registered(y.g, c) && Registered(y.g, d) && c != d ==>
                  y.g.conns[c].session != y.g.conns[d].session)
            && (forall s :: s in y.g.saved ==> s in y.sent && y.g.saved[s].lastSeq == |y.sent[s]|)
            && (forall s, c :: s in y.g.saved && Registered(y.g, c) ==> y.g.conns[c].session != s)
            && (forall c :: Registered(y.g, c) ==> y.g.conns[c].session in y.sent && y.g.conns[c].num == |y.sent[y.g.conns[c].session]|)
            && (forall s, i :: s in y.sent && 0 <= i < |y.sent[s]| ==> y.sent[s][i].Dispatch? && y.sent[s][i].num == i + 1)
            && (forall c :: c in y.g.conns ==> ConnOk(y.g.conns[c], y.sent))
            && RegistryOk(y.g) && |RegisteredSet(y.g)| <= lim.maxConnections
  {
    EmptyGatewayIsConsistent<C>(lim);
    RunKeepsInv(EmptySystem<C>(), lim, steps);
  }

  // ---- Resume window ----

  function Min(a: int, b: int): int { if a <= b then a else b }

  /** As long as no replay list expires, it holds everything since the last READY or RESUMED that fits. */
  ghost predicate Full<C>(y: System<C>, max: Limit) {
    forall s :: s in y.sent && s in y.base ==> |ReplayList(y.g.replay, s)| == Min(|y.sent[s]| - y.base[s], max)
  }

  lemma DeliverKeepsFull<C>(y: System<C>, lim: Limits, e: Event, data: nat, c: C)
    requires Inv(y, lim) && Full(y, lim.maxReplay) && Registered(y.g, c)
    ensures Full(DeliveredOne(y, lim, e, data, c), lim.maxReplay)
  {
    if !IsEphemeral(e) {
      NumberedChanges(y, lim, e, data, c);
      var y' := DeliveredOne(y, lim, e, data, c);
      var s := y.g.conns[c].session;
      assert forall r :: r != s ==> ReplayList(y'.g.replay, r) == ReplayList(y.g.replay, r);
    }
  }

  lemma {:induction false} DispatchKeepsFull<C>(y: System<C>, lim: Limits, e: Event, data: nat, order: seq<C>)
    requires Inv(y, lim) && Full(y, lim.maxReplay) && forall c :: c in order ==> c in y.g.conns && Registered(y.g, c)
    ensures Full(DeliveredInOrder(y, lim, e, data, order), lim.maxReplay)
    decreases |order|
  {
    if order != [] {
      assert Registered(y.g, order[0]);
      DeliverKeepsInv(y, lim, e, data, order[0]);
      DeliverKeepsFull(y, lim, e, data, order[0]);
      DispatchKeepsFull(DeliveredOne(y, lim, e, data, order[0]), lim, e, data, order[1..]);
    }
  }

  lemma NewSessionKeepsFull<C>(y: System<C>, y': System<C>, s: Session, frames: seq<Frame>, max: Limit)
    requires Full(y, max) && s !in y.g.replay && y'.g.replay == y.g.replay
    requires y'.sent == y.sent[s := frames] && y'.base == y.base[s := |frames|]
    ensures Full(y', max)
  {
  }

  lemma IdentifyKeepsFull<C>(y: System<C>, lim: Limits, c: C, auth: Option<Id>, ready: Option<nat>, s: Session)
    requires Inv(y, lim) && Full(y, lim.maxReplay) && Possible(y, IdentifyStep(c, auth, ready, s))
    ensures Full(Identified(y, lim, c, auth, ready, s), lim.maxReplay)
  {
    if !y.g.conns[c].identified && auth.Some? && ready.Some? {
      var y' := Identified(y, lim, c, auth, ready, s);
      assert s !in y.g.replay;
      NewSessionKeepsFull(y, y', s, y'.sent[s], lim.maxReplay);
    }
  }

  lemma ResumeKeepsFull<C>(y: System<C>, lim: Limits, c: C, auth: Option<Id>, s: Session, k: int)
    requires Inv(y, lim) && Full(y, lim.maxReplay) && c in y.g.conns
    ensures Full(ResumedSystem(y, lim, c, auth, s, k), lim.maxReplay)
  {
    if Resumes(y, lim, c, auth, s, k) {
      ResumeIsExact(y, lim, c, auth, s, k);
    }
  }

  lemma NextKeepsFull<C>(y: System<C>, lim: Limits, step: Step<C>)
    requires Inv(y, lim) && Full(y, lim.maxReplay) && !step.ExpireReplay?
    ensures Full(Next(y, lim, step), lim.maxReplay)
  {
    if Possible(y, step) {
      match step
      case DispatchStep(e, data, targets, viewers, order) => DispatchKeepsFull(y, lim, e, data, order);
      case IdentifyStep(c, auth, ready, s) => IdentifyKeepsFull(y, lim, c, auth, ready, s);
      case ResumeStep(c, auth, s, k) => ResumeKeepsFull(y, lim, c, auth, s, k);
      case _ =>
    }
  }

  lemma {:induction false} RunKeepsFull<C>(y: System<C>, lim: Limits, steps: seq<Step<C>>)
    requires Inv(y, lim) && Full(y, lim.maxReplay)
    requires forall i :: 0 <= i < |steps| ==> !steps[i].ExpireReplay?
    ensures Full(Run(y, lim, steps), lim.maxReplay)
    decreases |steps|
  {
    if steps != [] {
      NextKeepsInv(y, lim, steps[0]);
      NextKeepsFull(y, lim, steps[0]);
      RunKeepsFull(Next(y, lim, steps[0]), lim, steps[1..]);
    }
  }

  /**
    Resume when no replay list has expired. A client that saw the session's last READY or RESUMED, number b, and then
    everything up to k is handed exactly the frames after the later of k and n - maxReplay up to n, in order, and then
    RESUMED as n + 1. Whatever it claims to have seen, it gets everything after that if and only if it saw number b
    and missed at most maxReplay frames.
  */
  lemma ResumeWindow<C>(y: System<C>, lim: Limits, c: C, auth: Option<Id>, s: Session, k: int)
    requires Inv(y, lim) && Full(y, lim.maxReplay)
    requires c in y.g.conns && Resumes(y, lim, c, auth, s, k)
    ensures s in y.sent && s in y.base
    ensures var n, b := |y.sent[s]|, y.base[s];
            var from := ReplayStart(k, n, Min(n - b, lim.maxReplay));
            && 0 <= from <= n
            && Resume(y.g, lim, c, auth, s, k).conns[c].outbox
               == y.g.conns[c].outbox + y.sent[s][from..] + [Dispatch(n + 1, Resumed, 0)]
            && (k >= b ==> from == ReplayStart(k, n, lim.maxReplay))
            && (from == k <==> k >= b && n - k <= lim.maxReplay)
  {
    ResumeIsExact(y, lim, c, auth, s, k);
    assert |ReplayList(y.g.replay, s)| == Min(|y.sent[s]| - y.base[s], lim.maxReplay);
    var from := ReplayStart(k, |y.sent[s]|, |ReplayList(y.g.replay, s)|);
    assert ResumedSystem(y, lim, c, auth, s, k).g == Resume(y.g, lim, c, auth, s, k);
    assert ResumedState(y, c, auth.value, s, from).g.conns[c] == ResumedConn(y, c, auth.value, s, from);
  }

  /** Every state of a run from an empty gateway without replay expiry is one ResumeWindow speaks about. */
  lemma RunsWithoutExpiryAreFull<C>(lim: Limits, steps: seq<Step<C>>)
    requires forall i :: 0 <= i < |steps| ==> !steps[i].ExpireReplay?
    ensures Inv(Run(EmptySystem<C>(), lim, steps), lim) && Full(Run(EmptySystem<C>(), lim, steps), lim.maxReplay)
  {
    EmptyGatewayIsConsistent<C>(lim);
    RunKeepsInv(EmptySystem<C>(), lim, steps);
    RunKeepsFull(EmptySystem<C>(), lim, steps);
  }

  // ---- A resume that forgets ----

  const FIRST := Dispatch(1, Ready, 0)
  const SECOND := Dispatch(2, Other(0), 0)
  const THIRD := Dispatch(3, Resumed, 0)

  /**
    User 1 identifies as session 5, gets an event and loses connection 1; resumes on connection 2 from number 1, but
    loses that connection too, before reading anything; and connects once more, as connection 7.
  */
  function LossyRun(): seq<Step<nat>> {
    [Connect(1), IdentifyStep(1, Some(1), Some(0), 5), DispatchStep(Other(0), 0, {}, None, [1]), DisconnectStep(1)]
    + ([Connect(2), ResumeStep(2, Some(1), 5, 1), DisconnectStep(2), Connect(7)])
  }

  function OneSession(conns: map<nat, Conn>, clients: map<Id, seq<nat>>, saved: map<Session, Saved>, replay: seq<Entry>,
                      sent: seq<Frame>, base: nat): System<nat> {
    System(Gateway(conns, clients, saved, if replay == [] then map[] else map[5 := replay]), map[5 := sent], map[5 := base])
  }

  function FirstLost(): System<nat> {
    OneSession(map[1 := Conn(1, 5, 2, true, [FIRST, SECOND])], map[], map[5 := Saved(1, 2)], [Entry(2, SECOND)], [FIRST, SECOND], 1)
  }

  function BothLost(): System<nat> {
    OneSession(map[1 := Conn(1, 5, 2, true, [FIRST, SECOND]), 2 := Conn(1, 5, 3, true, [SECOND, THIRD]), 7 := NEW_CONN],
               map[], map[5 := Saved(1, 3)], [], [FIRST, SECOND, THIRD], 3)
  }

  lemma RunFour(y: System<nat>, lim: Limits, a: Step<nat>, b: Step<nat>, c: Step<nat>, d: Step<nat>, rest: seq<Step<nat>>)
    ensures Run(y, lim, [a, b, c, d] + rest) == Run(Next(Next(Next(Next(y, lim, a), lim, b), lim, c), lim, d), lim, rest)
  {
    RunOne(y, lim, a, [b, c, d] + rest);
    RunOne(Next(y, lim, a), lim, b, [c, d] + rest);
    RunOne(Next(Next(y, lim, a), lim, b), lim, c, [d] + rest);
    RunOne(Next(Next(Next(y, lim, a), lim, b), lim, c), lim, d, rest);
    assert [a, b, c, d] + rest == [a] + ([b, c, d] + rest);
    assert [b, c, d] + rest == [b] + ([c, d] + rest);
    assert [c, d] + rest == [c] + ([d] + rest);
  }

  lemma RunOne(y: System<nat>, lim: Limits, step: Step<nat>, rest: seq<Step<nat>>)
    ensures Run(y, lim, [step] + rest) == Run(Next(y, lim, step), lim, rest)
  {
    assert ([step] + rest)[1..] == rest;
  }

  /** Connection 1 after its READY. */
  function Greeted(): System<nat> {
    OneSession(map[1 := Conn(1, 5, 1, true, [FIRST])], map[1 := [1]], map[], [], [FIRST], 1)
  }

  lemma FirstIdentify(lim: Limits)
    ensures Next(Next(EmptySystem<nat>(), lim, Connect(1)), lim, IdentifyStep(1, Some(1), Some(0), 5)) == Greeted()
  {
    var y := Next(EmptySystem<nat>(), lim, Connect(1));
    assert y.g.conns == map[1 := NEW_CONN];
    assert RegisteredSet(y.g) == {};
    assert Appending(y.g.clients, 1, 1)[1] == [1];
    assert Appending(y.g.clients, 1, 1) == map[1 := [1]];
    assert NEW_CONN.outbox + [FIRST] == [FIRST];
    var conn := Conn(1, 5, 1, true, [FIRST]);
    assert y.g.conns[1 := conn] == Greeted().g.conns;
    assert Identify(y.g, lim, 1, Some(1), Some(0), 5) == Greeted().g;
  }

  lemma FirstEvent(lim: Limits)
    ensures Next(Greeted(), lim, DispatchStep(Other(0), 0, {}, None, [1]))
            == OneSession(map[1 := Conn(1, 5, 2, true, [FIRST, SECOND])], map[1 := [1]], map[], [Entry(2, SECOND)], [FIRST, SECOND], 1)
  {
    var y := Greeted();
    assert Recipients(y.g, {}, None) == {1};
    assert Walks([1], Recipients(y.g, {}, None));
    var y' := DeliveredOne(y, lim, Other(0), 0, 1);
    assert [1][1..] == [];
    assert DeliveredInOrder(y, lim, Other(0), 0, [1]) == y';
    assert [FIRST] + [SECOND] == [FIRST, SECOND];
    assert ReplayList(y.g.replay, 5) + [Entry(2, SECOND)] == [Entry(2, SECOND)];
    assert y'.g.conns == map[1 := Conn(1, 5, 2, true, [FIRST, SECOND])];
    assert y'.g.replay == map[5 := [Entry(2, SECOND)]];
    assert y'.sent == map[5 := [FIRST, SECOND]];
  }

  lemma LostConnection(lim: Limits, y: System<nat>, c: nat, num: nat)
    requires y.g.clients == map[1 := [c]] && c in y.g.conns
    requires y.g.conns[c].user == 1 && y.g.conns[c].session == 5 && y.g.conns[c].num == num && y.g.conns[c].identified
    ensures Next(y, lim, DisconnectStep(c)) == y.(g := y.g.(clients := map[], saved := y.g.saved[5 := Saved(1, num)]))
  {
    assert SwapRemoved(y.g.clients, 1, c) == map[];
  }

  lemma SecondConnection(lim: Limits)
    ensures var y := Next(FirstLost(), lim, Connect(2));
            Next(y, lim, ResumeStep(2, Some(1), 5, 1))
            == OneSession(map[1 := Conn(1, 5, 2, true, [FIRST, SECOND]), 2 := Conn(1, 5, 3, true, [SECOND, THIRD])],
                          map[1 := [2]], map[], [], [FIRST, SECOND, THIRD], 3)
  {
    var y := Next(FirstLost(), lim, Connect(2));
    assert y.g.conns == map[1 := Conn(1, 5, 2, true, [FIRST, SECOND]), 2 := NEW_CONN];
    assert RegisteredSet(y.g) == {};
    assert MissedAfter(ReplayList(y.g.replay, 5), 1) == [SECOND];
    assert Resumes(y, lim, 2, Some(1), 5, 1);
    var y' := Next(y, lim, ResumeStep(2, Some(1), 5, 1));
    assert [] + ([SECOND] + [THIRD]) == [SECOND, THIRD];
    assert y'.g.conns == map[1 := Conn(1, 5, 2, true, [FIRST, SECOND]), 2 := Conn(1, 5, 3, true, [SECOND, THIRD])];
    assert y'.g.clients[1] == [2] && y'.g.clients == map[1 := [2]] && y'.g.saved == map[] && y'.g.replay == map[];
    assert [FIRST, SECOND] + [THIRD] == [FIRST, SECOND, THIRD];
    assert y'.sent == map[5 := [FIRST, SECOND, THIRD]];
  }

  lemma LossyRunEnds(lim: Limits)
    ensures Run(EmptySystem<nat>(), lim, LossyRun()) == BothLost()
  {
    FirstIdentify(lim);
    FirstEvent(lim);
    var y3 := OneSession(map[1 := Conn(1, 5, 2, true, [FIRST, SECOND])], map[1 := [1]], map[], [Entry(2, SECOND)], [FIRST, SECOND], 1);
    LostConnection(lim, y3, 1, 2);
    RunFour(EmptySystem<nat>(), lim, Connect(1), IdentifyStep(1, Some(1), Some(0), 5), DispatchStep(Other(0), 0, {}, None, [1]),
            DisconnectStep(1), [Connect(2), ResumeStep(2, Some(1), 5, 1), DisconnectStep(2), Connect(7)]);
    SecondConnection(lim);
    var y6 := OneSession(map[1 := Conn(1, 5, 2, true, [FIRST, SECOND]), 2 := Conn(1, 5, 3, true, [SECOND, THIRD])],
                         map[1 := [2]], map[], [], [FIRST, SECOND, THIRD], 3);
    LostConnection(lim, y6, 2, 3);
    RunFour(FirstLost(), lim, Connect(2), ResumeStep(2, Some(1), 5, 1), DisconnectStep(2), Connect(7), []);
    assert [Connect(2), ResumeStep(2, Some(1), 5, 1), DisconnectStep(2), Connect(7)] + []
           == [Connect(2), ResumeStep(2, Some(1), 5, 1), DisconnectStep(2), Connect(7)];
  }

  /**
    Frames handed out by a resume are not handed out again: after the lossy run, a client that has seen only number 1
    resumes from there, is accepted, and gets RESUMED as number 4 but never the event numbered 2.
  */
  lemma SecondResumeForgetsEarlierFrames(lim: Limits)
    ensures var y := Run(EmptySystem<nat>(), lim, LossyRun());
            && 7 in y.g.conns && Resumes(y, lim, 7, Some(1), 5, 1)
            && 5 in y.sent && y.sent[5] == [FIRST, SECOND, THIRD]
            && Resume(y.g, lim, 7, Some(1), 5, 1).conns[7].outbox == [Dispatch(4, Resumed, 0)]
  {
    LossyRunEnds(lim);
    assert RegisteredSet(BothLost().g) == {};
    assert MissedAfter([], 1) == [];
  }
}
