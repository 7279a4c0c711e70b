/** The listings of the server on top of the keyset query: messages, threads, audit log entries. */
module Listings {
  import opened Common
  import opened KeysetPaging

  // ---- Messages ----

  datatype Message = Message(channel: Id, thread: Option<Id>, at: int, deleted: bool)

  /** A channel's messages, or a thread's. */
  datatype Place = Channel(id: Id) | Thread(id: Id)

  predicate In(m: Message, p: Place) {
    match p
    case Channel(c) => m.channel == c
    case Thread(t) => m.thread == Some(t)
  }

  /** A soft-deleted row stays in the table, where a cursor can still find it. */
  function MessageView(rows: map<Id, Message>, p: Place): (v: View)
    ensures ViewOk(v)
  {
    View(map id | id in rows :: rows[id].at, set id | id in rows && In(rows[id], p) && !rows[id].deleted)
  }

  datatype Change = Create(id: Id, message: Message) | SoftDelete(id: Id)

  function Changed(rows: map<Id, Message>, c: Change): map<Id, Message> {
    match c
    case Create(id, m) => if id in rows then rows else rows[id := m.(deleted := false)]
    case SoftDelete(id) => if id in rows then rows[id := rows[id].(deleted := true)] else rows
  }

  function ChangedAll(rows: map<Id, Message>, cs: seq<Change>): map<Id, Message>
    decreases |cs|
  {
    if cs == [] then rows else ChangedAll(Changed(rows, cs[0]), cs[1..])
  }

  /** The states the pages are read from: churn[i] happens between page i and page i + 1. */
  function Views(rows: map<Id, Message>, churn: seq<seq<Change>>, p: Place): (vs: seq<View>)
    ensures forall v :: v in vs ==> ViewOk(v)
    ensures vs != [] && vs[0] == MessageView(rows, p)
    decreases |churn|
  {
    [MessageView(rows, p)] + if churn == [] then [] else Views(ChangedAll(rows, churn[0]), churn[1..], p)
  }

  class MessageRepository {
    var rows: map<Id, Message>

    constructor ()
      ensures rows == map[]
    {
      rows := map[];
    }

    method Create(id: Id, channel: Id, thread: Option<Id>, at: int)
      requires id !in rows
      modifies this
      ensures rows == Changed(old(rows), Change.Create(id, Message(channel, thread, at, false)))
    {
      rows := rows[id := Message(channel, thread, at, false)];
    }

    /** False when there is no such message or it is deleted already. */
    method SoftDelete(id: Id) returns (found: bool)
      modifies this
      ensures found == (id in old(rows) && !old(rows)[id].deleted)
      ensures rows == Changed(old(rows), Change.SoftDelete(id))
    {
      if id !in rows || rows[id].deleted {
        assert id in rows ==> rows[id := rows[id].(deleted := true)] == rows;
        return false;
      }
      rows := rows[id := rows[id].(deleted := true)];
      found := true;
    }

    /**
      Newest first: undeleted messages of the channel or thread, older than the cursor message if there is one. What is
      left out is older than the whole page, and then the page is full. A cursor that is not stored gives nothing.
    */
    method List(p: Place, before: Option<Id>, limit: nat) returns (page: seq<Key>)
      requires limit >= 1
      ensures page == Page(NewestFirst, MessageView(rows, p), before, limit)
      ensures IsPage(NewestFirst, (map id | id in rows :: rows[id].at), Undeleted(rows, p), before, limit, page)
    {
      page := Page(NewestFirst, MessageView(rows, p), before, limit);
      PageIsPlain(NewestFirst, MessageView(rows, p), before, limit);
      assert MessageView(rows, p).shown == Undeleted(rows, p);
    }
  }

  /** The messages of a channel or thread that are not deleted. */
  ghost function Undeleted(rows: map<Id, Message>, p: Place): set<Id> {
    set id | id in rows && !rows[id].deleted && (if p.Channel? then rows[id].channel == p.id else rows[id].thread == Some(p.id))
  }

  /** A deleted message is in no view any more, and a created one in those of its channel and thread at once. */
  lemma ChangesShow(rows: map<Id, Message>, id: Id, m: Message, p: Place)
    ensures id !in MessageView(Changed(rows, SoftDelete(id)), p).shown
    ensures forall other :: other != id ==>
              (other in MessageView(Changed(rows, SoftDelete(id)), p).shown <==> other in MessageView(rows, p).shown)
    ensures id !in rows ==>
              && (id in MessageView(Changed(rows, Create(id, m)), p).shown <==>
                    (p.Channel? && m.channel == p.id) || (p.Thread? && m.thread == Some(p.id)))
              && MessageView(Changed(rows, Create(id, m)), p).at == MessageView(rows, p).at[id := m.at]
    ensures forall other :: other != id ==>
              (other in MessageView(Changed(rows, Create(id, m)), p).shown <==> other in MessageView(rows, p).shown)
  {
  }

  // ---- Scanning messages while the table changes ----

  predicate Kept(rows: map<Id, Message>, rows': map<Id, Message>, id: Id) {
    id in rows ==> id in rows' && rows'[id].at == rows[id].at && rows'[id].channel == rows[id].channel && rows'[id].thread == rows[id].thread
  }

  lemma {:induction false} ChangesKeepRows(rows: map<Id, Message>, cs: seq<Change>, id: Id)
    ensures Kept(rows, ChangedAll(rows, cs), id)
    ensures id in rows && SoftDelete(id) !in cs ==> ChangedAll(rows, cs)[id].deleted == rows[id].deleted
    decreases |cs|
  {
    if cs != [] {
      var rows1 := Changed(rows, cs[0]);
      assert SoftDelete(id) !in cs ==> cs[0] != SoftDelete(id) && SoftDelete(id) !in cs[1..];
      ChangesKeepRows(rows1, cs[1..], id);
    }
  }

  lemma {:induction false} ViewsGrow(rows: map<Id, Message>, churn: seq<seq<Change>>, p: Place)
    ensures Growing(Views(rows, churn, p))
    decreases |churn|
  {
    var vs := Views(rows, churn, p);
    if churn != [] {
      var rows1 := ChangedAll(rows, churn[0]);
      ViewsGrow(rows1, churn[1..], p);
      var later := Views(rows1, churn[1..], p);
      forall id | id in rows ensures Kept(rows, rows1, id) {
        ChangesKeepRows(rows, churn[0], id);
      }
      assert Grows(vs[0], later[0]);
      forall j | 0 <= j < |later| ensures Grows(vs[0], later[j]) {
        assert Grows(later[0], later[j]);
      }
      forall i, j | 0 <= i <= j < |vs| ensures Grows(vs[i], vs[j]) {
        if i > 0 {
          assert Grows(later[i - 1], later[j - 1]);
        }
      }
    }
  }

  /** A message shown at the start that nobody deletes is shown throughout. */
  lemma {:induction false} ShownThroughout(rows: map<Id, Message>, churn: seq<seq<Change>>, p: Place, id: Id)
    requires id in MessageView(rows, p).shown
    requires forall i :: 0 <= i < |churn| ==> SoftDelete(id) !in churn[i]
    ensures forall v :: v in Views(rows, churn, p) ==> id in v.shown
    decreases |churn|
  {
    if churn != [] {
      var rows1 := ChangedAll(rows, churn[0]);
      ChangesKeepRows(rows, churn[0], id);
      forall i | 0 <= i < |churn[1..]| ensures SoftDelete(id) !in churn[1..][i] {
        assert churn[1..][i] == churn[i + 1];
      }
      ShownThroughout(rows1, churn[1..], p, id);
    }
  }

  /**
    Scrolling back through a channel or a thread while messages are created and deleted: nothing is returned twice,
    and once a page comes back short, every message that was there at the start and was not deleted in between was
    returned exactly once.
  */
  lemma ScrollingMissesNothing(rows: map<Id, Message>, churn: seq<seq<Change>>, p: Place, limit: nat)
    requires limit >= 1
    ensures var scan := Scan(NewestFirst, Views(rows, churn, p), None, limit);
            && NewestToOldest(scan)
            && (Finished(NewestFirst, Views(rows, churn, p), None, limit) ==>
                  forall id :: id in rows && In(rows[id], p) && !rows[id].deleted
                               && (forall i :: 0 <= i < |churn| ==> SoftDelete(id) !in churn[i]) ==>
                    multiset(scan)[Key(rows[id].at, id)] == 1)
  {
    var vs := Views(rows, churn, p);
    var scan := Scan(NewestFirst, vs, None, limit);
    ViewsGrow(rows, churn, p);
    ScanIsOrdered(NewestFirst, vs, None, limit);
    InOrderIsPlain(NewestFirst, scan);
    if Finished(NewestFirst, vs, None, limit) {
      forall id | id in rows && In(rows[id], p) && !rows[id].deleted
                  && (forall i :: 0 <= i < |churn| ==> SoftDelete(id) !in churn[i])
        ensures multiset(scan)[Key(rows[id].at, id)] == 1
      {
        ShownThroughout(rows, churn, p, id);
        ScanMissesNothing(NewestFirst, vs, None, limit, id);
        OnlyOnce(NewestFirst, scan, Key(rows[id].at, id));
      }
    }
  }

  // ---- Unchanging tables: threads and the audit log ----

  /** Walking an unchanging table returns exactly the rows that pass the conditions, each once and in order. */
  lemma WalkIsExact(o: Order, v: View, limit: nat)
    requires ViewOk(v) && limit >= 1
    ensures InOrder(o, Walk(o, v, None, limit))
    ensures forall k :: k in Walk(o, v, None, limit) <==> k.id in v.shown && k == KeyOf(v, k.id)
    ensures forall id :: id in v.shown ==> multiset(Walk(o, v, None, limit))[KeyOf(v, id)] == 1
  {
    var walk := Walk(o, v, None, limit);
    PagesConcatenate(o, v, None, limit);
    RestIsExact(o, v, None);
    forall id | id in v.shown ensures multiset(walk)[KeyOf(v, id)] == 1 {
      assert KeyOf(v, id) in Keys(v);
      OnlyOnce(o, walk, KeyOf(v, id));
    }
  }

  datatype ThreadRow = ThreadRow(channel: Id, at: int)

  function ThreadView(rows: map<Id, ThreadRow>, channel: Id): (v: View)
    ensures ViewOk(v)
  {
    View(map id | id in rows :: rows[id].at, set id | id in rows && rows[id].channel == channel)
  }

  datatype Entry = Entry(actor: Option<Id>, action: nat, target: Option<Id>, at: int)
  datatype Params = Params(actor: Option<Id>, action: Option<nat>, target: Option<Id>, before: Option<Id>, limit: int)

  const DEFAULT_LIMIT := 50
  const MAX_LIMIT := 100

  function ClampLimit(n: int): (limit: nat)
    ensures 1 <= limit <= MAX_LIMIT && (1 <= n <= MAX_LIMIT ==> limit == n)
    ensures n > MAX_LIMIT ==> limit == MAX_LIMIT
    ensures n <= 0 ==> limit == DEFAULT_LIMIT
  {
    if n <= 0 then DEFAULT_LIMIT else if n > MAX_LIMIT then MAX_LIMIT else n
  }

  /** Which entries a listing is about; a NULL column equals nothing. */
  predicate Wanted(e: Entry, params: Params) {
    && (params.actor.Some? ==> e.actor == params.actor)
    && (params.action.Some? ==> e.action == params.action.value)
    && (params.target.Some? ==> e.target == params.target)
  }

  function AuditView(rows: map<Id, Entry>, params: Params): (v: View)
    ensures ViewOk(v)
  {
    View(map id | id in rows :: rows[id].at, set id | id in rows && Wanted(rows[id], params))
  }

  /** Page by page, a channel's threads come newest first, each exactly once. */
  lemma ThreadsWalk(rows: map<Id, ThreadRow>, channel: Id, limit: nat)
    requires limit >= 1
    ensures var walk := Walk(NewestFirst, ThreadView(rows, channel), None, limit);
            && NewestToOldest(walk)
            && (forall k :: k in walk <==> k.id in rows && rows[k.id].channel == channel && k.at == rows[k.id].at)
            && (forall id :: id in rows && rows[id].channel == channel ==> multiset(walk)[Key(rows[id].at, id)] == 1)
  {
    var v := ThreadView(rows, channel);
    WalkIsExact(NewestFirst, v, limit);
    InOrderIsPlain(NewestFirst, Walk(NewestFirst, v, None, limit));
    forall id | id in rows && rows[id].channel == channel
      ensures multiset(Walk(NewestFirst, v, None, limit))[Key(rows[id].at, id)] == 1
    {
      assert id in v.shown && KeyOf(v, id) == Key(rows[id].at, id);
    }
  }

  /** The filters spelled out: each one given has to match. */
  ghost predicate Passes(e: Entry, params: Params) {
    && (match params.actor case Some(a) => e.actor == Some(a) case None => true)
    && (match params.action case Some(a) => e.action == a case None => true)
    && (match params.target case Some(x) => e.target == Some(x) case None => true)
  }

  /** Page by page, the entries that pass the filters come newest first, each exactly once, and no others. */
  lemma AuditWalk(rows: map<Id, Entry>, params: Params)
    ensures var walk := Walk(NewestFirst, AuditView(rows, params), None, ClampLimit(params.limit));
            && NewestToOldest(walk)
            && (forall k :: k in walk <==> k.id in rows && Passes(rows[k.id], params) && k.at == rows[k.id].at)
            && (forall id :: id in rows && Passes(rows[id], params) ==> multiset(walk)[Key(rows[id].at, id)] == 1)
  {
    var v := AuditView(rows, params);
    WalkIsExact(NewestFirst, v, ClampLimit(params.limit));
    InOrderIsPlain(NewestFirst, Walk(NewestFirst, v, None, ClampLimit(params.limit)));
    forall id | id in rows && Passes(rows[id], params)
      ensures multiset(Walk(NewestFirst, v, None, ClampLimit(params.limit)))[Key(rows[id].at, id)] == 1
    {
      assert id in v.shown && KeyOf(v, id) == Key(rows[id].at, id);
    }
  }

  /** A condition of the WHERE clause. */
  datatype Condition = ActorIs(id: Id) | ActionIs(action: nat) | TargetIs(id: Id) | OlderThan(id: Id)

  predicate Meets(rows: map<Id, Entry>, id: Id, c: Condition)
    requires id in rows
  {
    match c
    case ActorIs(a) => rows[id].actor == Some(a)
    case ActionIs(a) => rows[id].action == a
    case TargetIs(t) => rows[id].target == Some(t)
    case OlderThan(b) => b in rows && Precedes(NewestFirst, Key(rows[b].at, b), Key(rows[id].at, id))
  }

  class AuditLog {
    var rows: map<Id, Entry>

    constructor ()
      ensures rows == map[]
    {
      rows := map[];
    }

    method Create(id: Id, e: Entry)
      requires id !in rows
      modifies this
      ensures rows == old(rows)[id := e]
    {
      rows := rows[id := e];
    }

    /** The query is put together condition by condition; its answer is the page of the wanted entries. */
    method List(params: Params) returns (page: seq<Key>)
      ensures page == Page(NewestFirst, AuditView(rows, params), params.before, ClampLimit(params.limit))
      ensures IsPage(NewestFirst, (map id | id in rows :: rows[id].at), Passing(rows, params),
                     params.before, ClampLimit(params.limit), page)
    {
      var conditions: seq<Condition> := [];
      if params.actor.Some? {
        conditions := conditions + [ActorIs(params.actor.value)];
      }
      if params.action.Some? {
        conditions := conditions + [ActionIs(params.action.value)];
      }
      if params.target.Some? {
        conditions := conditions + [TargetIs(params.target.value)];
      }
      ghost var filters := conditions;
      if params.before.Some? {
        conditions := conditions + [OlderThan(params.before.value)];
      }
      var limit := ClampLimit(params.limit);
      var matching := set id | id in rows && (forall c :: c in conditions ==> Meets(rows, id, c)) :: Key(rows[id].at, id);
      page := Take(Sorted(NewestFirst, matching), limit);
      FiltersAreWanted(rows, params, filters, conditions, matching);
      AuditPageIsPlain(rows, params);
    }
  }

  ghost function Passing(rows: map<Id, Entry>, params: Params): set<Id> {
    set id | id in rows && Passes(rows[id], params)
  }

  lemma AuditPageIsPlain(rows: map<Id, Entry>, params: Params)
    ensures IsPage(NewestFirst, (map id | id in rows :: rows[id].at), Passing(rows, params), params.before,
                   ClampLimit(params.limit), Page(NewestFirst, AuditView(rows, params), params.before, ClampLimit(params.limit)))
  {
    PageIsPlain(NewestFirst, AuditView(rows, params), params.before, ClampLimit(params.limit));
    assert AuditView(rows, params).shown == Passing(rows, params);
  }

  lemma FiltersAreWanted(rows: map<Id, Entry>, params: Params, filters: seq<Condition>, conditions: seq<Condition>, matching: set<Key>)
    requires filters == (if params.actor.Some? then [ActorIs(params.actor.value)] else [])
                        + (if params.action.Some? then [ActionIs(params.action.value)] else [])
                        + (if params.target.Some? then [TargetIs(params.target.value)] else [])
    requires conditions == filters + if params.before.Some? then [OlderThan(params.before.value)] else []
    requires matching == set id | id in rows && (forall c :: c in conditions ==> Meets(rows, id, c)) :: Key(rows[id].at, id)
    ensures Sorted(NewestFirst, matching) == Rest(NewestFirst, AuditView(rows, params), params.before)
  {
    var v := AuditView(rows, params);
    assert forall c :: c in conditions <==> IsCondition(c, params) by {
      assert forall c :: c in filters <==> IsCondition(c, params) && !c.OlderThan?;
    }
    forall id | id in rows
      ensures (forall c :: c in conditions ==> Meets(rows, id, c))
              <==> Wanted(rows[id], params) && (params.before.Some? ==> Meets(rows, id, OlderThan(params.before.value)))
    {
      ConditionsMeanWanted(rows, params, conditions, id);
    }
    if params.before.Some? && params.before.value !in rows {
      assert matching == {};
    } else {
      var wanted := After(NewestFirst, Keys(v), CursorKey(v, params.before));
      forall k ensures k in matching <==> k in wanted {
        assert k in Keys(v) <==> k.id in v.shown && k == KeyOf(v, k.id);
        assert k in matching <==> k.id in rows && k == Key(rows[k.id].at, k.id)
                                  && forall c :: c in conditions ==> Meets(rows, k.id, c);
      }
      assert matching == wanted;
    }
  }

  /** The conditions the query is made of. */
  predicate IsCondition(c: Condition, params: Params) {
    || (c.ActorIs? && params.actor == Some(c.id))
    || (c.ActionIs? && params.action == Some(c.action))
    || (c.TargetIs? && params.target == Some(c.id))
    || (c.OlderThan? && params.before == Some(c.id))
  }

  lemma ConditionsMeanWanted(rows: map<Id, Entry>, params: Params, conditions: seq<Condition>, id: Id)
    requires id in rows && forall c :: c in conditions <==> IsCondition(c, params)
    ensures (forall c :: c in conditions ==> Meets(rows, id, c))
            <==> Wanted(rows[id], params) && (params.before.Some? ==> Meets(rows, id, OlderThan(params.before.value)))
  {
    if forall c :: c in conditions ==> Meets(rows, id, c) {
      assert params.actor.Some? ==> ActorIs(params.actor.value) in conditions;
      assert params.action.Some? ==> ActionIs(params.action.value) in conditions;
      assert params.target.Some? ==> TargetIs(params.target.value) in conditions;
      assert params.before.Some? ==> OlderThan(params.before.value) in conditions;
    }
  }
}
