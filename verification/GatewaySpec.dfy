/**
  The gateway as a state machine over values: connections, the per-user registry, saved sessions and replay lists. One
  step is one handler call. C is whatever identifies a connection.
*/
module GatewaySpec {
  import opened Common

  /** Session identifiers are unique strings; 0 stands for the empty one of a connection without a session. */
  type Session = nat
  const NO_SESSION: Session := 0

  datatype Event = Ready | Resumed | TypingStart | TypingStop | Other(name: nat)
  datatype Frame = Dispatch(num: nat, event: Event, data: nat) | Ephemeral(event: Event, data: nat) | InvalidSession

  datatype Conn = Conn(user: Id, session: Session, num: nat, identified: bool, outbox: seq<Frame>)
  datatype Saved = Saved(user: Id, lastSeq: nat)
  datatype Entry = Entry(num: nat, frame: Frame)

  datatype Gateway<C(==)> = Gateway(
    conns: map<C, Conn>,
    clients: map<Id, seq<C>>,
    saved: map<Session, Saved>,
    replay: map<Session, seq<Entry>>)

  /** The configuration is refused unless both limits are at least 1; LTRIM with -0 would keep everything. */
  type Limit = n: nat | n >= 1 witness 1
  datatype Limits = Limits(maxConnections: Limit, maxReplay: Limit)

  const NEW_CONN := Conn(NIL, NO_SESSION, 0, false, [])

  // ---- Session store ----

  function ReplayList(replay: map<Session, seq<Entry>>, s: Session): seq<Entry> {
    if s in replay then replay[s] else []
  }

  /** LTRIM key -max -1: the last max elements stay. */
  function Trimmed<T>(xs: seq<T>, max: Limit): seq<T> {
    if |xs| <= max then xs else xs[|xs| - max..]
  }

  function Appended(replay: map<Session, seq<Entry>>, s: Session, e: Entry, max: Limit): map<Session, seq<Entry>> {
    replay[s := Trimmed(ReplayList(replay, s) + [e], max)]
  }

  /** Replay: the frames numbered after k. */
  function MissedAfter(entries: seq<Entry>, k: int): seq<Frame> {
    if entries == [] then []
    else (if entries[0].num > k then [entries[0].frame] else []) + MissedAfter(entries[1..], k)
  }

  // ---- Registry ----

  ghost predicate Registered<C>(g: Gateway<C>, c: C) {
    c in g.conns && g.conns[c].user in g.clients && c in g.clients[g.conns[c].user]
  }

  ghost function RegisteredSet<C>(g: Gateway<C>): set<C> {
    set c | c in g.conns && Registered(g, c)
  }

  function Appending<C(==)>(clients: map<Id, seq<C>>, u: Id, c: C): map<Id, seq<C>> {
    clients[u := (if u in clients then clients[u] else []) + [c]]
  }

  function IndexOf<C(==)>(cs: seq<C>, c: C): (i: nat)
    requires c in cs
    ensures i < |cs| && cs[i] == c && c !in cs[..i]
  {
    if cs[0] == c then 0 else 1 + IndexOf(cs[1..], c)
  }

  /** Swap with the last element and cut the tail; an emptied slice leaves the map. */
  function SwapRemoved<C(==)>(clients: map<Id, seq<C>>, u: Id, c: C): map<Id, seq<C>>
    requires u in clients && c in clients[u]
  {
    var cs := clients[u];
    var last := |cs| - 1;
    var rest := cs[IndexOf(cs, c) := cs[last]][..last];
    if rest == [] then clients - {u} else clients[u := rest]
  }

  // ---- Handlers ----

  function Sent(conn: Conn, f: Frame): Conn { conn.(outbox := conn.outbox + [f]) }

  ghost function Identify<C>(g: Gateway<C>, lim: Limits, c: C, auth: Option<Id>, ready: Option<nat>, s: Session): Gateway<C>
    requires c in g.conns
  {
    if g.conns[c].identified || auth.None? || ready.None? then g else
    var conn := g.conns[c].(user := auth.value, session := s, identified := true);
    if |RegisteredSet(g)| >= lim.maxConnections then g.(conns := g.conns[c := conn]) else
    var n := conn.num + 1;
    g.(conns := g.conns[c := Sent(conn.(num := n), Dispatch(n, Ready, ready.value))],
       clients := Appending(g.clients, auth.value, c))
  }

  /** Whether a resume request passes the checks in front of the replay. */
  predicate Resumable<C>(g: Gateway<C>, auth: Option<Id>, s: Session, k: int) {
    auth.Some? && s in g.saved && g.saved[s].user == auth.value && k <= g.saved[s].lastSeq
  }

  ghost function Resume<C>(g: Gateway<C>, lim: Limits, c: C, auth: Option<Id>, s: Session, k: int): Gateway<C>
    requires c in g.conns
  {
    if g.conns[c].identified || auth.None? then g
    else if !Resumable(g, auth, s, k) then g.(conns := g.conns[c := Sent(g.conns[c], InvalidSession)])
    else
      var last := g.saved[s].lastSeq;
      var conn := g.conns[c].(user := auth.value, session := s, num := last, identified := true);
      if |RegisteredSet(g)| >= lim.maxConnections then g.(conns := g.conns[c := conn])
      else
        var frames := MissedAfter(ReplayList(g.replay, s), k) + [Dispatch(last + 1, Resumed, 0)];
        Gateway(g.conns[c := conn.(num := last + 1, outbox := conn.outbox + frames)],
                Appending(g.clients, auth.value, c), g.saved - {s}, g.replay - {s})
  }

  ghost function Disconnect<C>(g: Gateway<C>, c: C): Gateway<C>
    requires c in g.conns
  {
    if !Registered(g, c) then g else
    var conn := g.conns[c];
    g.(clients := SwapRemoved(g.clients, conn.user, c),
       saved := if conn.identified then g.saved[conn.session := Saved(conn.user, conn.num)] else g.saved)
  }

  predicate IsEphemeral(e: Event) { e == TypingStart || e == TypingStop }

  /** Identified connections of the targeted users; untargeted channel events go to those who may view the channel. */
  ghost predicate Receives<C>(g: Gateway<C>, targets: set<Id>, viewers: Option<set<Id>>, c: C) {
    && Registered(g, c) && g.conns[c].identified
    && (targets != {} ==> g.conns[c].user in targets)
    && (targets == {} && viewers.Some? ==> g.conns[c].user in viewers.value)
  }

  ghost function Recipients<C>(g: Gateway<C>, targets: set<Id>, viewers: Option<set<Id>>): set<C> {
    set c | c in g.conns && Receives(g, targets, viewers, c)
  }

  /** The recipients in the order the hub happens to walk its map. */
  ghost predicate Walks<C>(order: seq<C>, to: set<C>) {
    && (forall i, j :: 0 <= i < j < |order| ==> order[i] != order[j])
    && (forall c :: c in order ==> c in to)
    && (forall c :: c in to ==> c in order)
  }

  /** One frame to one connection: numbered and recorded for replay, unless the event is ephemeral. */
  function Delivered<C(==)>(g: Gateway<C>, lim: Limits, e: Event, data: nat, c: C): Gateway<C>
    requires c in g.conns
  {
    var conn := g.conns[c];
    if IsEphemeral(e) then g.(conns := g.conns[c := Sent(conn, Ephemeral(e, data))]) else
    var n := conn.num + 1;
    var f := Dispatch(n, e, data);
    g.(conns := g.conns[c := Sent(conn.(num := n), f)],
       replay := if conn.session != NO_SESSION then Appended(g.replay, conn.session, Entry(n, f), lim.maxReplay) else g.replay)
  }

  function DeliveredAll<C(==)>(g: Gateway<C>, lim: Limits, e: Event, data: nat, order: seq<C>): Gateway<C>
    requires forall c :: c in order ==> c in g.conns
    decreases |order|
  {
    if order == [] then g else DeliveredAll(Delivered(g, lim, e, data, order[0]), lim, e, data, order[1..])
  }

  // ---- What the registry keeps ----

  /** The registry holds no empty slice and no connection twice, each under its own user. */
  ghost predicate RegistryOk<C>(g: Gateway<C>) {
    forall u :: u in g.clients ==>
      && g.clients[u] != []
      && (forall i :: 0 <= i < |g.clients[u]| ==> g.clients[u][i] in g.conns && g.conns[g.clients[u][i]].user == u
                                                  && g.conns[g.clients[u][i]].identified)
      && (forall i, j :: 0 <= i < j < |g.clients[u]| ==> g.clients[u][i] != g.clients[u][j])
  }

  lemma OutsideRegistry<C>(g: Gateway<C>, c: C)
    requires RegistryOk(g) && c in g.conns && !g.conns[c].identified
    ensures forall u :: u in g.clients ==> c !in g.clients[u]
  {
  }

  /** Registering a connection that was not identified adds exactly that connection. */
  lemma AppendRegisters<C>(g: Gateway<C>, c: C, conn: Conn)
    requires RegistryOk(g) && c in g.conns && !g.conns[c].identified && conn.identified
    ensures var g' := g.(conns := g.conns[c := conn], clients := Appending(g.clients, conn.user, c));
            RegistryOk(g') && !Registered(g, c) && RegisteredSet(g') == RegisteredSet(g) + {c}
  {
    OutsideRegistry(g, c);
    var g' := g.(conns := g.conns[c := conn], clients := Appending(g.clients, conn.user, c));
    var cs := if conn.user in g.clients then g.clients[conn.user] else [];
    assert g'.clients[conn.user] == cs + [c];
    forall d | d in g'.conns ensures Registered(g', d) <==> Registered(g, d) || d == c {}
  }

  lemma SwapRemovedSlice<C>(cs: seq<C>, c: C)
    requires c in cs && forall i, j :: 0 <= i < j < |cs| ==> cs[i] != cs[j]
    ensures var last := |cs| - 1;
            var rest := cs[IndexOf(cs, c) := cs[last]][..last];
            && (forall i, j :: 0 <= i < j < |rest| ==> rest[i] != rest[j])
            && (forall d :: d in rest <==> d in cs && d != c)
  {
    var i, last := IndexOf(cs, c), |cs| - 1;
    var rest := cs[i := cs[last]][..last];
    forall d | d in cs && d != c ensures d in rest {
      var j :| 0 <= j < |cs| && cs[j] == d;
      assert rest[if j == last then i else j] == d;
    }
  }

  /** Unregistering removes exactly that connection. */
  lemma SwapRemoveUnregisters<C>(g: Gateway<C>, c: C)
    requires RegistryOk(g) && Registered(g, c)
    ensures var g' := g.(clients := SwapRemoved(g.clients, g.conns[c].user, c));
            RegistryOk(g') && RegisteredSet(g') == RegisteredSet(g) - {c}
  {
    var u := g.conns[c].user;
    var g' := g.(clients := SwapRemoved(g.clients, u, c));
    SwapRemovedSlice(g.clients[u], c);
    forall d | d in g'.conns ensures Registered(g', d) <==> Registered(g, d) && d != c {}
  }

  /** Changing a connection outside the registry leaves the registry alone. */
  lemma UnregisteredUpdate<C>(g: Gateway<C>, c: C, conn: Conn)
    requires RegistryOk(g) && c in g.conns && forall u :: u in g.clients ==> c !in g.clients[u]
    ensures var g' := g.(conns := g.conns[c := conn]);
            RegistryOk(g') && RegisteredSet(g') == RegisteredSet(g) && !Registered(g', c)
  {
    var g' := g.(conns := g.conns[c := conn]);
    forall d | d in g'.conns ensures Registered(g', d) <==> Registered(g, d) {}
  }

  /** Replacing a registered connection by one of the same user keeps the registry. */
  lemma RegisteredUpdate<C>(g: Gateway<C>, g': Gateway<C>, c: C)
    requires RegistryOk(g) && c in g.conns && c in g'.conns
    requires g'.conns == g.conns[c := g'.conns[c]] && g'.clients == g.clients
    requires g'.conns[c].user == g.conns[c].user && g'.conns[c].identified
    ensures RegistryOk(g') && RegisteredSet(g') == RegisteredSet(g)
    ensures forall d :: Registered(g', d) <==> Registered(g, d)
  {
    forall d ensures Registered(g', d) <==> Registered(g, d) {}
  }
}
