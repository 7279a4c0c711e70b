/**
  The gateway in the form the server runs it: connections whose fields change in place, the hub's map of slices, and
  the session store. Every handler is proved to do what GatewaySpec says of the state it finds.
*/
module GatewayHub {
  import opened Common
  import opened GatewaySpec

  class Client {
    var userID: Id
    var sessionID: Session
    var num: nat
    var identified: bool
    var outbox: seq<Frame>

    constructor ()
      ensures View() == NEW_CONN
    {
      userID, sessionID, num, identified, outbox := NIL, NO_SESSION, 0, false, [];
    }

    ghost function View(): Conn
      reads this
    {
      Conn(userID, sessionID, num, identified, outbox)
    }

    method NextSeq() returns (n: nat)
      modifies this`num
      ensures n == num == old(num) + 1
    {
      num := num + 1;
      n := num;
    }

    method Enqueue(f: Frame)
      modifies this`outbox
      ensures outbox == old(outbox) + [f]
    {
      outbox := outbox + [f];
    }
  }

  class SessionStore {
    const maxReplay: Limit
    var saved: map<Session, Saved>
    var replay: map<Session, seq<Entry>>

    constructor (maxReplay: Limit)
      ensures this.maxReplay == maxReplay && saved == map[] && replay == map[]
    {
      this.maxReplay := maxReplay;
      saved, replay := map[], map[];
    }

    method Save(s: Session, user: Id, lastSeq: nat)
      modifies this`saved
      ensures saved == old(saved)[s := Saved(user, lastSeq)]
    {
      saved := saved[s := Saved(user, lastSeq)];
    }

    method Load(s: Session) returns (r: Option<Saved>)
      ensures r == if s in saved then Some(saved[s]) else None
    {
      r := if s in saved then Some(saved[s]) else None;
    }

    method Delete(s: Session)
      modifies this`saved, this`replay
      ensures saved == old(saved) - {s} && replay == old(replay) - {s}
    {
      saved := saved - {s};
      replay := replay - {s};
    }

    /** RPUSH, then LTRIM from -maxReplay to -1. */
    method AppendReplay(s: Session, num: nat, payload: Frame)
      modifies this`replay
      ensures replay == Appended(old(replay), s, Entry(num, payload), maxReplay)
    {
      var list := (if s in replay then replay[s] else []) + [Entry(num, payload)];
      if |list| > maxReplay {
        list := list[|list| - maxReplay..];
      }
      replay := replay[s := list];
    }

    method Replay(s: Session, afterSeq: int) returns (missed: seq<Frame>)
      ensures missed == MissedAfter(ReplayList(replay, s), afterSeq)
    {
      var raw := if s in replay then replay[s] else [];
      missed := [];
      for i := 0 to |raw|
        invariant missed + MissedAfter(raw[i..], afterSeq) == MissedAfter(raw, afterSeq)
      {
        var entry := raw[i];
        assert raw[i..][1..] == raw[i + 1..];
        if entry.num > afterSeq {
          missed := missed + [entry.frame];
        }
      }
    }
  }

  // ---- Counting and listing ----

  ghost predicate Distinct<C>(cs: seq<C>) {
    forall i, j :: 0 <= i < j < |cs| ==> cs[i] != cs[j]
  }

  lemma {:induction false} DistinctCount<C>(cs: seq<C>)
    requires Distinct(cs)
    ensures |set c | c in cs| == |cs|
  {
    if cs != [] {
      var init := cs[..|cs| - 1];
      DistinctCount(init);
      assert (set c | c in cs) == (set c | c in init) + {cs[|cs| - 1]};
    }
  }

  /** The registered connections of users outside the given ones. */
  ghost function RegisteredOutside<C>(g: Gateway<C>, users: set<Id>): set<C> {
    set c | c in g.conns && Registered(g, c) && g.conns[c].user !in users
  }

  lemma CountOneMore<C>(g: Gateway<C>, users: set<Id>, u: Id)
    requires RegistryOk(g) && u in users && u in g.clients
    ensures |RegisteredOutside(g, users - {u})| == |RegisteredOutside(g, users)| + |g.clients[u]|
  {
    var mine := set c | c in g.clients[u];
    DistinctCount(g.clients[u]);
    assert RegisteredOutside(g, users - {u}) == RegisteredOutside(g, users) + mine;
    assert RegisteredOutside(g, users) !! mine;
  }

  /** The recipients among the users walked so far. */
  ghost function WalkedRecipients<C>(g: Gateway<C>, targets: set<Id>, users: set<Id>): set<C> {
    set c | c in Recipients(g, targets, None) && g.conns[c].user !in users
  }

  lemma WalksOn<C>(order: seq<C>, to: set<C>, more: seq<C>, to': set<C>)
    requires Walks(order, to) && Distinct(more)
    requires forall c :: c in more ==> c !in to
    requires to' == to + set c | c in more
    ensures Walks(order + more, to')
  {
    var both := order + more;
    forall i, j | 0 <= i < j < |both| ensures both[i] != both[j] {
      if i < |order| <= j {
        assert order[i] in to && more[j - |order|] in more;
      }
    }
  }

  lemma WalkOneMore<C>(g: Gateway<C>, targets: set<Id>, users: set<Id>, u: Id, cs: seq<C>)
    requires RegistryOk(g) && u in users && u in g.clients && Walks(cs, WalkedRecipients(g, targets, users))
    ensures (targets == {} || u in targets) ==> Walks(cs + g.clients[u], WalkedRecipients(g, targets, users - {u}))
    ensures !(targets == {} || u in targets) ==> Walks(cs, WalkedRecipients(g, targets, users - {u}))
  {
    var before, after := WalkedRecipients(g, targets, users), WalkedRecipients(g, targets, users - {u});
    if targets == {} || u in targets {
      assert after == before + set c | c in g.clients[u];
      WalksOn(cs, before, g.clients[u], after);
    } else {
      assert after == before;
    }
  }

  /** The users whose permission check for a channel says yes. */
  ghost function Viewers(users: set<Id>, check: Id -> Option<bool>): set<Id> {
    set u | u in users && check(u) == Some(true)
  }

  ghost function ViewersFor(users: set<Id>, channelCheck: Option<Id -> Option<bool>>): Option<set<Id>> {
    if channelCheck.Some? then Some(Viewers(users, channelCheck.value)) else None
  }

  lemma ViewersAreRecipients<C>(g: Gateway<C>, all: seq<C>, check: Id -> Option<bool>, permitted: set<C>)
    requires Walks(all, Recipients(g, {}, None))
    requires forall c :: c in permitted ==> c in all
    requires forall c :: c in all ==> (c in permitted <==> check(g.conns[c].user) == Some(true))
    ensures permitted == Recipients(g, {}, Some(Viewers(g.clients.Keys, check)))
  {
  }

  lemma UnfilteredRecipients<C>(g: Gateway<C>, targets: set<Id>, channelCheck: Option<Id -> Option<bool>>)
    requires channelCheck.None? || targets != {}
    ensures Recipients(g, targets, ViewersFor(g.clients.Keys, channelCheck)) == Recipients(g, targets, None)
  {
  }

  // ---- Value-level steps of the handlers ----

  /** A connection outside the registry that takes on an identity stays outside. */
  lemma ClaimedUpdate<C>(g: Gateway<C>, c: C, conn: Conn)
    requires RegistryOk(g) && c in g.conns && !g.conns[c].identified
    ensures var g' := g.(conns := g.conns[c := conn]);
            RegistryOk(g') && RegisteredSet(g') == RegisteredSet(g)
  {
    OutsideRegistry(g, c);
    UnregisteredUpdate(g, c, conn);
  }

  lemma IdentifyKeepsRegistry<C>(g: Gateway<C>, lim: Limits, c: C, auth: Option<Id>, ready: Option<nat>, s: Session)
    requires RegistryOk(g) && c in g.conns
    ensures RegistryOk(Identify(g, lim, c, auth, ready, s))
  {
    var g' := Identify(g, lim, c, auth, ready, s);
    if !g.conns[c].identified {
      ClaimedUpdate(g, c, g'.conns[c]);
      if g'.conns[c].identified {
        AppendRegisters(g, c, g'.conns[c]);
      }
    }
  }

  lemma ResumeKeepsRegistry<C>(g: Gateway<C>, lim: Limits, c: C, auth: Option<Id>, s: Session, k: int)
    requires RegistryOk(g) && c in g.conns
    ensures RegistryOk(Resume(g, lim, c, auth, s, k))
  {
    var g' := Resume(g, lim, c, auth, s, k);
    if !g.conns[c].identified {
      ClaimedUpdate(g, c, g'.conns[c]);
      if g'.conns[c].identified {
        AppendRegisters(g, c, g'.conns[c]);
      }
    }
  }

  /** The connection carries its new identity, and stands in the registry when there was room. */
  function Entered<C(==)>(g: Gateway<C>, c: C, conn: Conn, ok: bool): Gateway<C> {
    g.(conns := g.conns[c := conn], clients := if ok then Appending(g.clients, conn.user, c) else g.clients)
  }

  lemma IdentifyIsEnter<C>(g: Gateway<C>, lim: Limits, c: C, auth: Option<Id>, ready: Option<nat>, s: Session)
    requires c in g.conns && !g.conns[c].identified && auth.Some? && ready.Some?
    ensures var ok := |RegisteredSet(g)| < lim.maxConnections;
            var conn := Conn(auth.value, s, g.conns[c].num, true, g.conns[c].outbox);
            var e := Entered(g, c, conn, ok);
            && (!ok ==> Identify(g, lim, c, auth, ready, s) == e)
            && (ok ==> Identify(g, lim, c, auth, ready, s)
                       == e.(conns := e.conns[c := Sent(conn.(num := conn.num + 1), Dispatch(conn.num + 1, Ready, ready.value))]))
  {
    var conn := Conn(auth.value, s, g.conns[c].num, true, g.conns[c].outbox);
    var greeted := Sent(conn.(num := conn.num + 1), Dispatch(conn.num + 1, Ready, ready.value));
    assert g.conns[c := conn][c := greeted] == g.conns[c := greeted];
  }

  lemma ResumeIsEnter<C>(g: Gateway<C>, lim: Limits, c: C, auth: Option<Id>, s: Session, k: int)
    requires c in g.conns && !g.conns[c].identified && Resumable(g, auth, s, k)
    ensures var ok := |RegisteredSet(g)| < lim.maxConnections;
            var last := g.saved[s].lastSeq;
            var conn := Conn(auth.value, s, last, true, g.conns[c].outbox);
            var e := Entered(g, c, conn, ok);
            var replayed := conn.(outbox := conn.outbox + MissedAfter(ReplayList(g.replay, s), k));
            && (!ok ==> Resume(g, lim, c, auth, s, k) == e)
            && (ok ==> Resume(g, lim, c, auth, s, k)
                       == e.(conns := e.conns[c := replayed][c := Sent(replayed.(num := last + 1), Dispatch(last + 1, Resumed, 0))],
                             saved := g.saved - {s}, replay := g.replay - {s}))
  {
    var last := g.saved[s].lastSeq;
    var missed := MissedAfter(ReplayList(g.replay, s), k);
    assert g.conns[c].outbox + missed + [Dispatch(last + 1, Resumed, 0)]
           == g.conns[c].outbox + (missed + [Dispatch(last + 1, Resumed, 0)]);
  }

  // ---- Hub ----

  class Hub {
    const maxConnections: Limit
    const sessions: SessionStore
    var clients: map<Id, seq<Client>>
    ghost var known: set<Client>

    constructor (maxConnections: Limit, sessions: SessionStore)
      requires sessions.saved == map[] && sessions.replay == map[]
      ensures Valid() && Abs() == Gateway(map[], map[], map[], map[])
      ensures this.maxConnections == maxConnections && this.sessions == sessions
    {
      this.maxConnections, this.sessions := maxConnections, sessions;
      clients, known := map[], {};
    }

    ghost function Lim(): Limits {
      Limits(maxConnections, sessions.maxReplay)
    }

    ghost function Abs(): Gateway<Client>
      reads this, sessions, known
    {
      Gateway(map c | c in known :: c.View(), clients, sessions.saved, sessions.replay)
    }

    ghost predicate Valid()
      reads this, sessions, known
    {
      RegistryOk(Abs())
    }

    /** Every open connection, once: the sum of the slices' lengths. */
    method TotalClients() returns (n: nat)
      requires Valid()
      ensures n == |RegisteredSet(Abs())|
    {
      var users := clients.Keys;
      n := 0;
      assert RegisteredOutside(Abs(), users) == {};
      while users != {}
        invariant users <= clients.Keys
        invariant n == |RegisteredOutside(Abs(), users)|
        decreases |users|
      {
        ghost var some := Member(users);
        var u :| u in users;
        CountOneMore(Abs(), users, u);
        n := n + |clients[u]|;
        users := users - {u};
      }
      assert RegisteredOutside(Abs(), users) == RegisteredSet(Abs());
    }

    /** A new WebSocket connection. */
    method Connect() returns (client: Client)
      requires Valid()
      modifies this`known
      ensures fresh(client) && known == old(known) + {client}
      ensures Abs() == old(Abs()).(conns := old(Abs()).conns[client := NEW_CONN])
      ensures Valid()
    {
      client := new Client();
      known := known + {client};
    }

    method Register(client: Client) returns (ok: bool)
      requires Valid() && client in known
      modifies this`clients
      ensures ok == (old(|RegisteredSet(Abs())|) < maxConnections)
      ensures Abs() == if ok then old(Abs()).(clients := Appending(old(clients), client.userID, client)) else old(Abs())
    {
      var total := TotalClients();
      if total >= maxConnections {
        return false;
      }
      var userID := client.userID;
      clients := clients[userID := (if userID in clients then clients[userID] else []) + [client]];
      ok := true;
    }

    method Unregister(client: Client)
      requires Valid() && client in known
      modifies this`clients, sessions`saved
      ensures known == old(known)
      ensures Abs() == Disconnect(old(Abs()), client)
      ensures Valid()
    {
      var userID := client.userID;
      var cs := if userID in clients then clients[userID] else [];
      var idx := 0;
      while idx < |cs| && cs[idx] != client
        invariant idx <= |cs| && client !in cs[..idx]
      {
        idx := idx + 1;
      }
      if idx == |cs| {
        return;
      }
      IndexIsFirst(cs, client, idx);
      SwapRemoveUnregisters(Abs(), client);
      var last := |cs| - 1;
      cs := cs[idx := cs[last]];
      cs := cs[..last];
      if |cs| == 0 {
        clients := clients - {userID};
      } else {
        clients := clients[userID := cs];
      }
      if client.identified {
        sessions.Save(client.sessionID, userID, client.num);
      }
    }

    /** The connection takes on an identity. */
    method Claim(client: Client, user: Id, session: Session, num: nat)
      requires client in known
      modifies client
      ensures Abs() == old(Abs()).(conns := old(Abs()).conns[client := Conn(user, session, num, true, old(client.outbox))])
    {
      client.userID, client.sessionID, client.num, client.identified := user, session, num, true;
    }

    method Push(client: Client, f: Frame)
      requires client in known
      modifies client`outbox
      ensures Abs() == old(Abs()).(conns := old(Abs()).conns[client := Sent(old(client.View()), f)])
    {
      client.Enqueue(f);
    }

    method PushNext(client: Client, e: Event, data: nat) returns (n: nat, f: Frame)
      requires client in known
      modifies client`num, client`outbox
      ensures n == old(client.num) + 1 && f == Dispatch(n, e, data)
      ensures Abs() == old(Abs()).(conns := old(Abs()).conns[client := Sent(old(client.View()).(num := n), f)])
    {
      n := client.NextSeq();
      f := Dispatch(n, e, data);
      client.Enqueue(f);
    }

    /** Both handlers go on like this once their checks have passed. */
    method Enter(client: Client, user: Id, session: Session, num: nat) returns (ok: bool)
      requires Valid() && client in known && !client.identified
      modifies client, this`clients
      ensures ok == (|RegisteredSet(old(Abs()))| < maxConnections)
      ensures Abs() == Entered(old(Abs()), client, Conn(user, session, num, true, old(client.outbox)), ok)
    {
      ghost var g := Abs();
      ghost var claimed := Conn(user, session, num, true, client.outbox);
      ClaimedUpdate(g, client, claimed);
      Claim(client, user, session, num);
      ok := Register(client);
    }

    method HandleIdentify(client: Client, auth: Option<Id>, ready: Option<nat>, session: Session)
      requires Valid() && client in known
      modifies client, this`clients
      ensures known == old(known)
      ensures Abs() == Identify(old(Abs()), Lim(), client, auth, ready, session)
      ensures Valid()
    {
      ghost var g := Abs();
      IdentifyKeepsRegistry(g, Lim(), client, auth, ready, session);
      if client.identified || auth.None? || ready.None? {
        return;
      }
      IdentifyIsEnter(g, Lim(), client, auth, ready, session);
      var ok := Enter(client, auth.value, session, client.num);
      if !ok {
        return;
      }
      var n, f := PushNext(client, Ready, ready.value);
    }

    method PushAll(client: Client, frames: seq<Frame>)
      requires client in known
      modifies client`outbox
      ensures Abs() == old(Abs()).(conns := old(Abs()).conns[client := old(client.View()).(outbox := old(client.outbox) + frames)])
    {
      for i := 0 to |frames|
        invariant client.outbox == old(client.outbox) + frames[..i]
      {
        client.Enqueue(frames[i]);
        assert frames[..i + 1] == frames[..i] + [frames[i]];
      }
      assert frames[..|frames|] == frames;
    }

    /** The saved session makes way for the connection, which gets the missed frames and RESUMED. */
    method CatchUp(client: Client, session: Session, missed: seq<Frame>)
      requires client in known
      modifies client`num, client`outbox, sessions
      ensures var conn := old(client.View());
              var replayed := conn.(outbox := conn.outbox + missed);
              var resumed := Sent(replayed.(num := conn.num + 1), Dispatch(conn.num + 1, Resumed, 0));
              Abs() == old(Abs()).(conns := old(Abs()).conns[client := replayed][client := resumed],
                                   saved := old(Abs()).saved - {session}, replay := old(Abs()).replay - {session})
    {
      sessions.Delete(session);
      PushAll(client, missed);
      var n, f := PushNext(client, Resumed, 0);
    }

    /** The part of a resume behind its checks. */
    method Restore(client: Client, user: Id, session: Session, k: int, lastSeq: nat)
      requires Valid() && client in known && !client.identified
      requires Resumable(Abs(), Some(user), session, k) && sessions.saved[session].lastSeq == lastSeq
      modifies client, this`clients, sessions
      ensures Abs() == Resume(old(Abs()), Lim(), client, Some(user), session, k)
    {
      ResumeIsEnter(Abs(), Lim(), client, Some(user), session, k);
      var missed := sessions.Replay(session, k);
      var ok := Enter(client, user, session, lastSeq);
      if !ok {
        return;
      }
      CatchUp(client, session, missed);
    }

    method HandleResume(client: Client, auth: Option<Id>, session: Session, k: int)
      requires Valid() && client in known
      modifies client, this`clients, sessions
      ensures Abs() == Resume(old(Abs()), Lim(), client, auth, session, k)
      ensures Valid()
    {
      ResumeKeepsRegistry(Abs(), Lim(), client, auth, session, k);
      if client.identified || auth.None? {
        return;
      }
      var loaded := sessions.Load(session);
      if loaded.None? || loaded.value.user != auth.value || k > loaded.value.lastSeq {
        Push(client, InvalidSession);
        return;
      }
      Restore(client, auth.value, session, k, loaded.value.lastSeq);
    }

    /** The identified connections of the targeted users, or of everyone. */
    method Collect(targets: set<Id>) returns (cs: seq<Client>)
      requires Valid()
      ensures Walks(cs, Recipients(Abs(), targets, None))
    {
      cs := [];
      var users := clients.Keys;
      while users != {}
        invariant users <= clients.Keys
        invariant Walks(cs, WalkedRecipients(Abs(), targets, users))
        decreases |users|
      {
        ghost var some := Member(users);
        var u :| u in users;
        WalkOneMore(Abs(), targets, users, u, cs);
        users := users - {u};
        if targets != {} && u !in targets {
          continue;
        }
        var mine := clients[u];
        ghost var before := cs;
        for i := 0 to |mine|
          invariant cs == before + mine[..i]
        {
          if mine[i].identified {
            cs := cs + [mine[i]];
          }
          assert mine[..i + 1] == mine[..i] + [mine[i]];
        }
        assert mine[..|mine|] == mine;
      }
      assert WalkedRecipients(Abs(), targets, users) == Recipients(Abs(), targets, None);
    }

    /** Connections whose user passes the check. A user's verdict is asked for once; a failed check is asked again. */
    method FilterByPermission(targets: seq<Client>, check: Id -> Option<bool>) returns (permitted: seq<Client>)
      requires Distinct(targets)
      ensures Walks(permitted, set c | c in targets && check(c.userID) == Some(true))
    {
      var memo: map<Id, bool> := map[];
      permitted := [];
      for i := 0 to |targets|
        invariant forall u :: u in memo ==> check(u) == Some(memo[u])
        invariant Walks(permitted, set c | c in targets[..i] && check(c.userID) == Some(true))
      {
        var c := targets[i];
        var u := c.userID;
        ghost var soFar := set d | d in targets[..i] && check(d.userID) == Some(true);
        ghost var more := if check(u) == Some(true) then [c] else [];
        assert targets[..i + 1] == targets[..i] + [c];
        assert (set d | d in targets[..i + 1] && check(d.userID) == Some(true)) == soFar + set d | d in more;
        WalksOn(permitted, soFar, more, set d | d in targets[..i + 1] && check(d.userID) == Some(true));
        assert permitted + [] == permitted;
        if u !in memo {
          var verdict := check(u);
          if verdict.None? {
            continue;
          }
          memo := memo[u := verdict.value];
        }
        if memo[u] {
          permitted := permitted + [c];
        }
      }
      assert targets[..|targets|] == targets;
    }

    method SendEphemeral(c: Client, e: Event, data: nat)
      requires Valid() && c in known && Registered(Abs(), c) && IsEphemeral(e)
      modifies c`outbox
      ensures known == old(known) && Abs() == Delivered(old(Abs()), Lim(), e, data, c)
      ensures Valid() && forall d :: d in known ==> (Registered(Abs(), d) <==> Registered(old(Abs()), d))
    {
      ghost var g := Abs();
      Push(c, Ephemeral(e, data));
      RegisteredUpdate(g, Abs(), c);
    }

    method SendNumbered(c: Client, e: Event, data: nat)
      requires Valid() && c in known && Registered(Abs(), c) && !IsEphemeral(e)
      modifies c`num, c`outbox, sessions`replay
      ensures known == old(known) && Abs() == Delivered(old(Abs()), Lim(), e, data, c)
      ensures Valid() && forall d :: d in known ==> (Registered(Abs(), d) <==> Registered(old(Abs()), d))
    {
      ghost var g := Abs();
      var n, frame := PushNext(c, e, data);
      if c.sessionID != NO_SESSION {
        sessions.AppendReplay(c.sessionID, n, frame);
      }
      RegisteredUpdate(g, Abs(), c);
    }

    ghost predicate AllRegistered(targets: seq<Client>)
      reads this, sessions, known
    {
      forall c :: c in targets ==> c in known && Registered(Abs(), c)
    }

    /** One frame to each of the given connections, in order. */
    method SendAll(targets: seq<Client>, e: Event, data: nat)
      requires Valid() && AllRegistered(targets)
      modifies known, sessions`replay
      ensures known == old(known) && Abs() == DeliveredAll(old(Abs()), Lim(), e, data, targets)
      ensures Valid()
    {
      for i := 0 to |targets|
        invariant known == old(known) && Valid() && AllRegistered(targets)
        invariant DeliveredAll(Abs(), Lim(), e, data, targets[i..]) == DeliveredAll(old(Abs()), Lim(), e, data, targets)
      {
        assert targets[i..][0] == targets[i] && targets[i..][1..] == targets[i + 1..];
        if IsEphemeral(e) {
          SendEphemeral(targets[i], e, data);
        } else {
          SendNumbered(targets[i], e, data);
        }
      }
    }

    /** The connections an event goes to. */
    method TargetsOf(targetUsers: seq<Id>, channelCheck: Option<Id -> Option<bool>>) returns (cs: seq<Client>)
      requires Valid()
      ensures Walks(cs, Recipients(Abs(), (set t | t in targetUsers), ViewersFor(clients.Keys, channelCheck)))
    {
      var targets := set t | t in targetUsers;
      cs := Collect(targets);
      assert targetUsers != [] ==> targetUsers[0] in targets;
      if channelCheck.Some? && |targetUsers| == 0 {
        ghost var all := cs;
        cs := FilterByPermission(cs, channelCheck.value);
        assert forall c :: c in all ==> c.userID == Abs().conns[c].user;
        ViewersAreRecipients(Abs(), all, channelCheck.value, set c | c in all && channelCheck.value(c.userID) == Some(true));
      } else {
        UnfilteredRecipients(Abs(), targets, channelCheck);
      }
    }

    /** channelCheck is None for an event without a channel; otherwise it is the resolver's answer for each user. */
    method HandlePubSubEvent(e: Event, data: nat, targetUsers: seq<Id>, channelCheck: Option<Id -> Option<bool>>)
        returns (ghost order: seq<Client>)
      requires Valid()
      modifies known, sessions`replay
      ensures Walks(order, Recipients(old(Abs()), (set t | t in targetUsers), ViewersFor(old(clients).Keys, channelCheck)))
      ensures known == old(known) && Abs() == DeliveredAll(old(Abs()), Lim(), e, data, order)
      ensures Valid()
    {
      var cs := TargetsOf(targetUsers, channelCheck);
      order := cs;
      assert AllRegistered(cs);
      SendAll(cs, e, data);
    }
  }

  lemma IndexIsFirst<C>(cs: seq<C>, c: C, i: nat)
    requires i < |cs| && cs[i] == c && c !in cs[..i]
    ensures IndexOf(cs, c) == i
  {
  }
}
