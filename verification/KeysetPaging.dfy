/**
  Keyset pagination: rows ordered by (time, id), a page holds the first rows strictly past a cursor row, and the next
  cursor is the last row of the page. The cursor names a row, and the query looks its key up in the whole table.
*/
module KeysetPaging {
  import opened Common

  datatype Key = Key(at: int, id: Id)

  /** Oldest lists members, Newest everything else. */
  datatype Order = OldestFirst | NewestFirst

  predicate Less(a: Key, b: Key) { a.at < b.at || (a.at == b.at && a.id < b.id) }

  predicate Precedes(o: Order, a: Key, b: Key) {
    if o.OldestFirst? then Less(a, b) else Less(b, a)
  }

  /** The times of all stored rows, and the rows that pass a query's conditions. */
  datatype View = View(at: map<Id, int>, shown: set<Id>)

  predicate ViewOk(v: View) { v.shown <= v.at.Keys }

  function KeyOf(v: View, id: Id): Key
    requires id in v.at
  {
    Key(v.at[id], id)
  }

  function Keys(v: View): set<Key>
    requires ViewOk(v)
  {
    set id | id in v.shown :: KeyOf(v, id)
  }

  // ---- ORDER BY ----

  predicate IsFirst(o: Order, s: set<Key>, k: Key) {
    k in s && forall x :: x in s && x != k ==> Precedes(o, k, x)
  }

  lemma {:induction false} HasFirst(o: Order, s: set<Key>)
    requires s != {}
    ensures exists k :: IsFirst(o, s, k)
    decreases |s|
  {
    var e := Member(s);
    var rest := s - {e};
    if rest == {} {
      assert forall x :: x in s && x != e ==> x in rest;
      assert IsFirst(o, s, e);
    } else {
      HasFirst(o, rest);
      var k :| IsFirst(o, rest, k);
      forall x | x in s ensures x == e || x == k || Precedes(o, k, x) {
        assert x == e || x in rest;
      }
      assert IsFirst(o, s, if Precedes(o, e, k) then e else k);
    }
  }

  function First(o: Order, s: set<Key>): (k: Key)
    requires s != {}
    ensures IsFirst(o, s, k)
  {
    HasFirst(o, s);
    var k :| k in s && IsFirst(o, s, k);
    k
  }

  function Sorted(o: Order, s: set<Key>): (ks: seq<Key>)
    decreases |s|
  {
    if s == {} then [] else
    var k := First(o, s);
    [k] + Sorted(o, s - {k})
  }

  ghost predicate InOrder(o: Order, ks: seq<Key>) {
    forall i, j :: 0 <= i < j < |ks| ==> Precedes(o, ks[i], ks[j])
  }

  lemma InOrderJoins(o: Order, a: seq<Key>, b: seq<Key>)
    requires InOrder(o, a) && InOrder(o, b) && a != []
    requires forall k :: k in b ==> Precedes(o, a[|a| - 1], k)
    ensures InOrder(o, a + b)
  {
    forall i, j | 0 <= i < j < |a + b| ensures Precedes(o, (a + b)[i], (a + b)[j]) {
      if i < |a| <= j {
        assert b[j - |a|] in b;
        assert i == |a| - 1 || Precedes(o, a[i], a[|a| - 1]);
      }
    }
  }

  lemma {:induction false} SortedIsSorted(o: Order, s: set<Key>)
    ensures InOrder(o, Sorted(o, s))
    ensures forall k :: k in Sorted(o, s) <==> k in s
    decreases |s|
  {
    if s != {} {
      var k := First(o, s);
      var tail := Sorted(o, s - {k});
      SortedIsSorted(o, s - {k});
      assert InOrder(o, [k]);
      InOrderJoins(o, [k], tail);
      assert forall x :: x in [k] + tail <==> x == k || x in tail;
    }
  }

  /** There is only one way to put a set of keys in order. */
  lemma {:induction false} SortedIsUnique(o: Order, ks: seq<Key>, s: set<Key>)
    requires InOrder(o, ks)
    requires forall k :: k in ks <==> k in s
    ensures ks == Sorted(o, s)
    decreases |ks|
  {
    if ks == [] {
      if s != {} {
        var e := Member(s);
      }
    } else {
      assert ks[0] in s;
      FirstIsHead(o, ks, s);
      var rest := s - {ks[0]};
      forall k ensures k in ks[1..] <==> k in rest {
        assert k in ks <==> k == ks[0] || k in ks[1..];
        if k in ks[1..] {
          var i :| 0 <= i < |ks[1..]| && ks[1..][i] == k;
          assert Precedes(o, ks[0], ks[i + 1]);
        }
      }
      SortedIsUnique(o, ks[1..], rest);
    }
  }

  lemma FirstIsHead(o: Order, ks: seq<Key>, s: set<Key>)
    requires InOrder(o, ks) && ks != [] && s != {}
    requires forall k :: k in ks <==> k in s
    ensures First(o, s) == ks[0]
  {
    var k := First(o, s);
    var i :| 0 <= i < |ks| && ks[i] == k;
    assert ks[0] in s;
    assert i > 0 ==> Precedes(o, ks[0], ks[i]);
  }

  function After(o: Order, s: set<Key>, cursor: Option<Key>): set<Key> {
    if cursor.None? then s else set k | k in s && Precedes(o, cursor.value, k)
  }

  function Take<T>(xs: seq<T>, n: nat): seq<T> { if |xs| <= n then xs else xs[..n] }

  // ---- The query ----

  /** Everything the query returns without a limit; a cursor row that is gone compares as unknown with every row. */
  function Rest(o: Order, v: View, cursor: Option<Id>): seq<Key>
    requires ViewOk(v)
  {
    if cursor.None? then Sorted(o, Keys(v))
    else if cursor.value !in v.at then []
    else Sorted(o, After(o, Keys(v), Some(KeyOf(v, cursor.value))))
  }

  function Page(o: Order, v: View, cursor: Option<Id>, limit: nat): seq<Key>
    requires ViewOk(v)
  {
    Take(Rest(o, v, cursor), limit)
  }

  function CursorKey(v: View, cursor: Option<Id>): Option<Key>
    requires cursor.Some? ==> cursor.value in v.at
  {
    if cursor.None? then None else Some(KeyOf(v, cursor.value))
  }

  ghost predicate Beyond(o: Order, cursor: Option<Key>, k: Key) {
    cursor.Some? ==> Precedes(o, cursor.value, k)
  }

  lemma RestIsExact(o: Order, v: View, cursor: Option<Id>)
    requires ViewOk(v) && (cursor.Some? ==> cursor.value in v.at)
    ensures InOrder(o, Rest(o, v, cursor))
    ensures forall k :: k in Rest(o, v, cursor) <==> k in Keys(v) && Beyond(o, CursorKey(v, cursor), k)
  {
    SortedIsSorted(o, After(o, Keys(v), CursorKey(v, cursor)));
  }

  lemma LaterIndex(o: Order, ks: seq<Key>, i: nat, j: nat)
    requires InOrder(o, ks) && i < |ks| && j < |ks| && Precedes(o, ks[i], ks[j])
    ensures i < j
  {
  }

  /** Past its i-th row, the rest of a listing is what the query returns with that row as the cursor. */
  lemma RestAfterRow(o: Order, v: View, cursor: Option<Id>, i: nat)
    requires ViewOk(v) && i < |Rest(o, v, cursor)|
    ensures var row := Rest(o, v, cursor)[i];
            && row.id in v.at && row == KeyOf(v, row.id)
            && Rest(o, v, Some(row.id)) == Rest(o, v, cursor)[i + 1..]
  {
    var rest := Rest(o, v, cursor);
    RestIsExact(o, v, cursor);
    assert rest[i] in Keys(v);
    var tail := rest[i + 1..];
    var wanted := After(o, Keys(v), Some(rest[i]));
    forall k ensures k in tail <==> k in wanted {
      if k in wanted {
        assert k in rest;
        var j :| 0 <= j < |rest| && rest[j] == k;
        LaterIndex(o, rest, i, j);
        assert tail[j - i - 1] == k;
      }
      if k in tail {
        var j :| 0 <= j < |tail| && tail[j] == k;
        assert Precedes(o, rest[i], rest[i + 1 + j]) && rest[i + 1 + j] in rest;
      }
    }
    SortedIsUnique(o, tail, wanted);
  }

  // ---- The same in plain times and ids ----

  ghost predicate NewestToOldest(ks: seq<Key>) {
    forall i, j :: 0 <= i < j < |ks| ==> ks[i].at > ks[j].at || (ks[i].at == ks[j].at && ks[i].id > ks[j].id)
  }

  ghost predicate OldestToNewest(ks: seq<Key>) {
    forall i, j :: 0 <= i < j < |ks| ==> ks[i].at < ks[j].at || (ks[i].at == ks[j].at && ks[i].id < ks[j].id)
  }

  lemma InOrderIsPlain(o: Order, ks: seq<Key>)
    requires InOrder(o, ks)
    ensures if o == NewestFirst then NewestToOldest(ks) else OldestToNewest(ks)
  {
  }

  ghost predicate Older(a: Key, b: Key) { a.at < b.at || (a.at == b.at && a.id < b.id) }

  /** Past the cursor row, in the given direction; no row is past a cursor that is not stored. */
  ghost predicate Past(o: Order, at: map<Id, int>, cursor: Option<Id>, k: Key) {
    match cursor
    case None => true
    case Some(id) => id in at && if o == NewestFirst then Older(k, Key(at[id], id)) else Older(Key(at[id], id), k)
  }

  /**
    A page in plain times and ids: shown rows past the cursor, in the direction's order; one that is left out lies behind
    the whole page, and then the page is full.
  */
  ghost predicate IsPage(o: Order, at: map<Id, int>, shown: set<Id>, cursor: Option<Id>, limit: nat, page: seq<Key>) {
    && |page| <= limit && (if o == NewestFirst then NewestToOldest(page) else OldestToNewest(page))
    && (forall k :: k in page ==> k.id in shown && k.id in at && k.at == at[k.id] && Past(o, at, cursor, k))
    && (forall id :: id in shown && id in at && Key(at[id], id) !in page && Past(o, at, cursor, Key(at[id], id)) ==>
          && |page| == limit
          && (page != [] ==>
                if o == NewestFirst then Older(Key(at[id], id), page[|page| - 1]) else Older(page[|page| - 1], Key(at[id], id))))
  }

  /** Every page of the query is one. */
  lemma PageIsPlain(o: Order, v: View, cursor: Option<Id>, limit: nat)
    requires ViewOk(v) && limit >= 1
    ensures IsPage(o, v.at, v.shown, cursor, limit, Page(o, v, cursor, limit))
  {
    if cursor.None? || cursor.value in v.at {
      PageIsExact(o, v, cursor, limit);
      InOrderIsPlain(o, Page(o, v, cursor, limit));
      forall id | id in v.shown ensures KeyOf(v, id) in Keys(v) && KeyOf(v, id) == Key(v.at[id], id) {}
    }
  }

  // ---- Walking an unchanging table ----

  /** Page after page, each cursor the last row of the page before, until a page comes back short. */
  ghost function Walk(o: Order, v: View, cursor: Option<Id>, limit: nat): seq<Key>
    requires ViewOk(v) && limit >= 1
    decreases |Rest(o, v, cursor)|
  {
    var page := Page(o, v, cursor, limit);
    if |page| < limit then page
    else
      RestAfterRow(o, v, cursor, limit - 1);
      page + Walk(o, v, Some(page[limit - 1].id), limit)
  }

  /** What a page leaves: nothing when it is short, what follows its last row when it is full. */
  lemma PageSplits(o: Order, v: View, cursor: Option<Id>, limit: nat) returns (tail: seq<Key>)
    requires ViewOk(v) && limit >= 1
    ensures Rest(o, v, cursor) == Page(o, v, cursor, limit) + tail
    ensures |Page(o, v, cursor, limit)| <= limit
    ensures |Page(o, v, cursor, limit)| < limit ==> tail == []
    ensures |Page(o, v, cursor, limit)| == limit ==> tail == Rest(o, v, Some(Page(o, v, cursor, limit)[limit - 1].id))
  {
    var rest, page := Rest(o, v, cursor), Page(o, v, cursor, limit);
    tail := rest[|page|..];
    if |page| == limit {
      RestAfterRow(o, v, cursor, limit - 1);
    }
  }

  /** On an unchanging table the pages concatenate to the whole listing, whatever the page size. */
  lemma {:induction false} PagesConcatenate(o: Order, v: View, cursor: Option<Id>, limit: nat)
    requires ViewOk(v) && limit >= 1
    ensures Walk(o, v, cursor, limit) == Rest(o, v, cursor)
    decreases |Rest(o, v, cursor)|
  {
    var page := Page(o, v, cursor, limit);
    var tail := PageSplits(o, v, cursor, limit);
    if |page| == limit {
      PagesConcatenate(o, v, Some(page[limit - 1].id), limit);
    }
  }

  /** The next page is empty although rows are left exactly when the cursor row is no longer stored. */
  lemma CursorMustBeStored(o: Order, v: View, cursor: Key, id: Id, limit: nat)
    requires ViewOk(v) && limit >= 1
    requires cursor.id in v.at ==> v.at[cursor.id] == cursor.at
    requires id in v.shown && Precedes(o, cursor, KeyOf(v, id))
    ensures Page(o, v, Some(cursor.id), limit) == [] <==> cursor.id !in v.at
  {
    if cursor.id in v.at {
      RestIsExact(o, v, Some(cursor.id));
      assert KeyOf(v, id) in Rest(o, v, Some(cursor.id));
    }
  }

  // ---- Walking a table that changes between the pages ----

  /** Rows come and rows stop passing the conditions, but no stored row goes away or changes its time. */
  ghost predicate Grows(v: View, v': View) {
    forall id :: id in v.at ==> id in v'.at && v'.at[id] == v.at[id]
  }

  ghost predicate Growing(views: seq<View>) {
    && (forall i :: 0 <= i < |views| ==> ViewOk(views[i]))
    && (forall i, j :: 0 <= i <= j < |views| ==> Grows(views[i], views[j]))
  }

  /** One page from each state of the table in turn, until a page comes back short. */
  function Scan(o: Order, views: seq<View>, cursor: Option<Id>, limit: nat): seq<Key>
    requires limit >= 1 && forall v :: v in views ==> ViewOk(v)
    decreases |views|
  {
    if views == [] then [] else
    var page := Page(o, views[0], cursor, limit);
    if |page| < limit then page else page + Scan(o, views[1..], Some(page[limit - 1].id), limit)
  }

  /** The scan went on until a page came back short. */
  predicate Finished(o: Order, views: seq<View>, cursor: Option<Id>, limit: nat)
    requires limit >= 1 && forall v :: v in views ==> ViewOk(v)
    decreases |views|
  {
    views != [] &&
    var page := Page(o, views[0], cursor, limit);
    |page| < limit || Finished(o, views[1..], Some(page[limit - 1].id), limit)
  }

  /** A page: in order, past the cursor; a full one leaves out only rows past its last. */
  lemma PageIsExact(o: Order, v: View, cursor: Option<Id>, limit: nat)
    requires ViewOk(v) && limit >= 1 && (cursor.Some? ==> cursor.value in v.at)
    ensures var page := Page(o, v, cursor, limit);
            && InOrder(o, page) && |page| <= limit
            && (forall k :: k in page ==> k in Keys(v) && Beyond(o, CursorKey(v, cursor), k))
            && (forall k :: k in Keys(v) && Beyond(o, CursorKey(v, cursor), k) && k !in page ==>
                  |page| == limit && Precedes(o, page[limit - 1], k))
  {
    RestIsExact(o, v, cursor);
    var rest, page := Rest(o, v, cursor), Page(o, v, cursor, limit);
    forall k | k in page ensures k in rest {}
    forall k | k in rest && k !in page ensures |page| == limit && Precedes(o, page[limit - 1], k) {
      var j :| 0 <= j < |rest| && rest[j] == k;
      assert j >= limit;
    }
  }

  lemma NextCursor(views: seq<View>, last: Key)
    requires views != [] && Growing(views) && last in Keys(views[0])
    ensures Growing(views[1..]) && last.id in views[0].at && last == KeyOf(views[0], last.id)
    ensures |views| > 1 ==> last.id in views[1].at && KeyOf(views[1], last.id) == last
  {
    assert |views| > 1 ==> Grows(views[0], views[1]);
  }

  /** A full page followed by a scan of what lies past its last row. */
  lemma PageThenScan(o: Order, cursor: Option<Key>, page: seq<Key>, tail: seq<Key>)
    requires page != [] && InOrder(o, page) && InOrder(o, tail)
    requires forall k :: k in page ==> Beyond(o, cursor, k)
    requires forall k :: k in tail ==> Precedes(o, page[|page| - 1], k)
    ensures InOrder(o, page + tail)
    ensures forall k :: k in page + tail ==> Beyond(o, cursor, k)
  {
    InOrderJoins(o, page, tail);
    assert page[|page| - 1] in page;
    forall k | k in tail ensures Beyond(o, cursor, k) {
      assert Precedes(o, page[|page| - 1], k) && Beyond(o, cursor, page[|page| - 1]);
    }
  }

  /** What a scan returns is in strict order and past the cursor; so nothing comes twice. */
  lemma {:induction false} ScanIsOrdered(o: Order, views: seq<View>, cursor: Option<Id>, limit: nat)
    requires limit >= 1 && Growing(views) && views != [] && (cursor.Some? ==> cursor.value in views[0].at)
    ensures InOrder(o, Scan(o, views, cursor, limit))
    ensures forall k :: k in Scan(o, views, cursor, limit) ==> Beyond(o, CursorKey(views[0], cursor), k)
    decreases |views|
  {
    var page := Page(o, views[0], cursor, limit);
    PageIsExact(o, views[0], cursor, limit);
    if |page| == limit && |views| > 1 {
      var last := page[limit - 1];
      assert last in page;
      NextCursor(views, last);
      ScanIsOrdered(o, views[1..], Some(last.id), limit);
      assert CursorKey(views[1..][0], Some(last.id)) == Some(last);
      PageThenScan(o, CursorKey(views[0], cursor), page, Scan(o, views[1..], Some(last.id), limit));
    }
  }

  /** A row shown in every state of the table, past the cursor, is returned by a finished scan. */
  lemma {:induction false} ScanMissesNothing(o: Order, views: seq<View>, cursor: Option<Id>, limit: nat, id: Id)
    requires limit >= 1 && Growing(views) && views != [] && (cursor.Some? ==> cursor.value in views[0].at)
    requires Finished(o, views, cursor, limit)
    requires forall v :: v in views ==> id in v.shown
    requires Beyond(o, CursorKey(views[0], cursor), KeyOf(views[0], id))
    ensures KeyOf(views[0], id) in Scan(o, views, cursor, limit)
    decreases |views|
  {
    var v, page, k := views[0], Page(o, views[0], cursor, limit), KeyOf(views[0], id);
    PageIsExact(o, v, cursor, limit);
    assert k in Keys(v);
    if k !in page {
      var last := page[limit - 1];
      assert last in page;
      NextCursor(views, last);
      assert Grows(views[0], views[1]);
      ScanMissesNothing(o, views[1..], Some(last.id), limit, id);
    }
  }

  lemma OnlyOnce(o: Order, ks: seq<Key>, k: Key)
    requires InOrder(o, ks) && k in ks
    ensures multiset(ks)[k] == 1
  {
    var i :| 0 <= i < |ks| && ks[i] == k;
    assert ks == ks[..i] + [k] + ks[i + 1..];
    assert k !in ks[..i] && k !in ks[i + 1..];
  }
}
