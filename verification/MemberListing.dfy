/** The member listings: all members, and the members who may view a channel, filtered while paging. */
module MemberListing {
  import opened Common
  import opened KeysetPaging
  import Listings

  datatype MemberRow = MemberRow(joinedAt: int, pending: bool)

  /** Pending members are not listed. */
  function MemberView(rows: map<Id, MemberRow>): (v: View)
    ensures ViewOk(v)
  {
    View(map id | id in rows :: rows[id].joinedAt, set id | id in rows && !rows[id].pending)
  }

  /** may is the resolver's answer for a user and the channel; None is a failed check. */
  function PermittedView(v: View, may: Id -> Option<bool>): (p: View)
    requires ViewOk(v)
    ensures ViewOk(p)
  {
    View(v.at, set id | id in v.shown && may(id) == Some(true))
  }

  function Permitted(ks: seq<Key>, may: Id -> Option<bool>): seq<Key> {
    if ks == [] then [] else IfPermitted(ks[0], may) + Permitted(ks[1..], may)
  }

  function IfPermitted(k: Key, may: Id -> Option<bool>): seq<Key> {
    if may(k.id) == Some(true) then [k] else []
  }

  lemma Associative(x: seq<Key>, y: seq<Key>, z: seq<Key>)
    ensures x + (y + z) == (x + y) + z
  {
  }

  lemma PermittedCons(k: Key, ks: seq<Key>, may: Id -> Option<bool>)
    ensures Permitted([k] + ks, may) == IfPermitted(k, may) + Permitted(ks, may)
  {
    assert ([k] + ks)[1..] == ks;
  }

  lemma {:induction false} PermittedJoins(a: seq<Key>, b: seq<Key>, may: Id -> Option<bool>)
    ensures Permitted(a + b, may) == Permitted(a, may) + Permitted(b, may)
  {
    if a == [] {
      assert a + b == b;
    } else {
      PermittedJoins(a[1..], b, may);
      PermittedCons(a[0], a[1..], may);
      PermittedCons(a[0], a[1..] + b, may);
      assert [a[0]] + a[1..] == a && [a[0]] + (a[1..] + b) == a + b;
      Associative(IfPermitted(a[0], may), Permitted(a[1..], may), Permitted(b, may));
    }
  }

  lemma {:induction false} PermittedIsFiltered(o: Order, ks: seq<Key>, may: Id -> Option<bool>)
    requires InOrder(o, ks)
    ensures InOrder(o, Permitted(ks, may))
    ensures forall k :: k in Permitted(ks, may) <==> k in ks && may(k.id) == Some(true)
  {
    if ks != [] {
      var tail := Permitted(ks[1..], may);
      PermittedIsFiltered(o, ks[1..], may);
      forall k | k in tail ensures Precedes(o, ks[0], k) {
        var i :| 0 <= i < |ks[1..]| && ks[1..][i] == k;
        assert ks[i + 1] == k;
      }
      if may(ks[0].id) == Some(true) {
        InOrderJoins(o, [ks[0]], tail);
      }
      assert forall k :: k in ks <==> k == ks[0] || k in ks[1..];
    }
  }

  /** Filtering the listing by permission is listing the permitted rows. */
  lemma FilterIsQuery(o: Order, v: View, cursor: Option<Id>, may: Id -> Option<bool>)
    requires ViewOk(v)
    ensures Permitted(Rest(o, v, cursor), may) == Rest(o, PermittedView(v, may), cursor)
  {
    var p := PermittedView(v, may);
    if cursor.None? || cursor.value in v.at {
      var filtered := Permitted(Rest(o, v, cursor), may);
      RestIsExact(o, v, cursor);
      PermittedIsFiltered(o, Rest(o, v, cursor), may);
      assert forall k :: k in Keys(v) <==> k.id in v.shown && k == KeyOf(v, k.id);
      assert forall k :: k in Keys(p) <==> k.id in p.shown && k == KeyOf(p, k.id);
      SortedIsUnique(o, filtered, After(o, Keys(p), CursorKey(p, cursor)));
    }
  }

  /** FilterUsersPermitted: one answer per user, or nothing if any check fails. */
  function Answers(ks: seq<Key>, may: Id -> Option<bool>): Option<seq<bool>> {
    if exists k :: k in ks && may(k.id).None? then None
    else Some(seq(|ks|, i requires 0 <= i < |ks| => may(ks[i].id) == Some(true)))
  }

  /** Where the loop stands: what it has, followed by what is permitted in the rest, starts with the page it is after. */
  ghost predicate OnTrack(result: seq<Key>, rest: seq<Key>, goal: seq<Key>, may: Id -> Option<bool>, limit: nat) {
    |result| <= limit && Take(result + Permitted(rest, may), limit) == Take(goal, limit)
  }

  /** The rows of a batch up to where the loop stopped taking. */
  lemma BatchTaken(result: seq<Key>, batch: seq<Key>, tail: seq<Key>, j: nat, result': seq<Key>, goal: seq<Key>,
                   may: Id -> Option<bool>, limit: nat)
    requires OnTrack(result, batch + tail, goal, may, limit)
    requires j <= |batch| && result' == result + Permitted(batch[..j], may) && |result'| <= limit
    requires j == |batch| || |result'| == limit
    ensures OnTrack(result', tail, goal, may, limit)
    ensures |result'| == limit ==> result' == Take(goal, limit)
  {
    assert batch + tail == batch[..j] + (batch[j..] + tail);
    PermittedJoins(batch[..j], batch[j..] + tail, may);
    var whole := result + Permitted(batch + tail, may);
    assert whole == result' + Permitted(batch[j..] + tail, may);
    if j == |batch| {
      assert batch[j..] + tail == tail;
    } else {
      assert Take(whole, limit) == result';
      assert Take(result' + Permitted(tail, may), limit) == result';
    }
  }

  /** One batch of the loop: a short batch ends the page, a full one leaves fewer rows to come. */
  lemma BatchDone(v: View, cursor: Option<Id>, size: nat, result: seq<Key>, j: nat, result': seq<Key>, goal: seq<Key>,
                  may: Id -> Option<bool>, limit: nat)
    requires ViewOk(v) && size >= 1 && OnTrack(result, Rest(OldestFirst, v, cursor), goal, may, limit)
    requires var batch := Page(OldestFirst, v, cursor, size);
             && j <= |batch| && result' == result + Permitted(batch[..j], may) && |result'| <= limit
             && (j == |batch| || |result'| == limit)
    ensures |result'| == limit ==> result' == Take(goal, limit)
    ensures var batch := Page(OldestFirst, v, cursor, size);
            if |batch| < size then result' == Take(goal, limit)
            else var next := Rest(OldestFirst, v, Some(batch[|batch| - 1].id));
              OnTrack(result', next, goal, may, limit) && |next| < |Rest(OldestFirst, v, cursor)|
  {
    var batch := Page(OldestFirst, v, cursor, size);
    var tail := PageSplits(OldestFirst, v, cursor, size);
    BatchTaken(result, batch, tail, j, result', goal, may, limit);
    assert result' + [] == result';
  }

  /** Adds the permitted members of a batch until the page is full. */
  method TakePermitted(batch: seq<Key>, permitted: seq<bool>, before: seq<Key>, limit: nat, ghost may: Id -> Option<bool>)
      returns (result: seq<Key>, ghost taken: nat)
    requires |before| < limit && Answers(batch, may) == Some(permitted)
    ensures taken <= |batch| && |result| <= limit && (taken == |batch| || |result| == limit)
    ensures result == before + Permitted(batch[..taken], may)
  {
    result, taken := before, 0;
    for i := 0 to |batch|
      invariant |result| < limit
      invariant result == before + Permitted(batch[..i], may)
    {
      assert batch[..i + 1] == batch[..i] + [batch[i]];
      PermittedJoins(batch[..i], [batch[i]], may);
      if permitted[i] {
        result := result + [batch[i]];
        if |result| >= limit {
          taken := i + 1;
          return;
        }
      }
    }
    taken := |batch|;
    assert batch[..|batch|] == batch;
  }

  /**
    Batches of twice the limit, filtered by permission, until the page is full or the members run out. The answer is
    exactly the first limit permitted members after the cursor.
  */
  method ListChannelMembers(rows: map<Id, MemberRow>, after: Option<Id>, limit: nat, may: Id -> Option<bool>)
      returns (r: Option<seq<Key>>)
    requires limit >= 1
    ensures r.Some? ==> r.value == Page(OldestFirst, PermittedView(MemberView(rows), may), after, limit)
    ensures r.Some? ==> IsMemberPage(rows, after, limit, may, r.value)
    ensures r.None? ==> exists id :: id in MemberView(rows).shown && may(id).None?
  {
    var v := MemberView(rows);
    var batchSize := limit * 2;
    var result: seq<Key> := [];
    var cursor := after;
    ghost var goal := Permitted(Rest(OldestFirst, v, after), may);
    while |result| < limit
      invariant OnTrack(result, Rest(OldestFirst, v, cursor), goal, may, limit)
      invariant |result| == limit ==> result == Take(goal, limit)
      decreases |Rest(OldestFirst, v, cursor)|
    {
      var batch := Page(OldestFirst, v, cursor, batchSize);
      var permitted := Answers(batch, may);
      if permitted.None? {
        SomeCheckFails(v, cursor, batchSize, may);
        return None;
      }
      ghost var before, taken := result, 0;
      result, taken := TakePermitted(batch, permitted.value, result, limit, may);
      BatchDone(v, cursor, batchSize, before, taken, result, goal, may, limit);
      if |batch| < batchSize {
        break;
      }
      cursor := Some(batch[|batch| - 1].id);
    }
    assert result == Take(goal, limit);
    TakenIsPage(rows, after, limit, may);
    r := Some(result);
  }

  /** The members past onboarding who pass the check. */
  ghost function MayView(rows: map<Id, MemberRow>, may: Id -> Option<bool>): set<Id> {
    set id | id in rows && !rows[id].pending && may(id) == Some(true)
  }

  /** A page of them in joining order, in terms of the stored rows. */
  ghost predicate IsMemberPage(rows: map<Id, MemberRow>, after: Option<Id>, limit: nat, may: Id -> Option<bool>, page: seq<Key>) {
    IsPage(OldestFirst, (map id | id in rows :: rows[id].joinedAt), MayView(rows, may), after, limit, page)
  }

  lemma TakenIsPage(rows: map<Id, MemberRow>, after: Option<Id>, limit: nat, may: Id -> Option<bool>)
    requires limit >= 1
    ensures var v := MemberView(rows);
            var page := Take(Permitted(Rest(OldestFirst, v, after), may), limit);
            page == Page(OldestFirst, PermittedView(v, may), after, limit) && IsMemberPage(rows, after, limit, may, page)
  {
    var v := PermittedView(MemberView(rows), may);
    FilterIsQuery(OldestFirst, MemberView(rows), after, may);
    PageIsPlain(OldestFirst, v, after, limit);
    assert v.shown == MayView(rows, may);
  }

  lemma SomeCheckFails(v: View, cursor: Option<Id>, size: nat, may: Id -> Option<bool>)
    requires ViewOk(v) && Answers(Page(OldestFirst, v, cursor, size), may).None?
    ensures exists id :: id in v.shown && may(id).None?
  {
    var page := Page(OldestFirst, v, cursor, size);
    var k :| k in page && may(k.id).None?;
    RestIsExact(OldestFirst, v, cursor);
    assert k in Rest(OldestFirst, v, cursor);
  }

  /**
    Asking again with the last returned user until a page comes back short walks all permitted members who are not
    pending, in joining order, without a gap and without a repeat.
  */
  lemma ChannelMembersWalk(rows: map<Id, MemberRow>, may: Id -> Option<bool>, limit: nat)
    requires limit >= 1
    ensures var walk := Walk(OldestFirst, PermittedView(MemberView(rows), may), None, limit);
            && OldestToNewest(walk)
            && (forall k :: k in walk <==> k.id in rows && !rows[k.id].pending && may(k.id) == Some(true) && k.at == rows[k.id].joinedAt)
            && (forall id :: id in rows && !rows[id].pending && may(id) == Some(true) ==>
                  multiset(walk)[Key(rows[id].joinedAt, id)] == 1)
  {
    var v := PermittedView(MemberView(rows), may);
    Listings.WalkIsExact(OldestFirst, v, limit);
    InOrderIsPlain(OldestFirst, Walk(OldestFirst, v, None, limit));
    forall id | id in rows && !rows[id].pending && may(id) == Some(true)
      ensures multiset(Walk(OldestFirst, v, None, limit))[Key(rows[id].joinedAt, id)] == 1
    {
      assert id in v.shown && KeyOf(v, id) == Key(rows[id].joinedAt, id);
    }
  }
}
