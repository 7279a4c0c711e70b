/**
  Reactions and their two summarisers: the listing of one message's reactions grouped in the handler, and the grouped
  SQL query joined with the user's own reactions when messages are shown.
*/
module Reactions {
  import opened Common

  datatype Emoji = Emoji(id: Option<Id>, unicode: Option<string>)
  datatype Row = Row(message: Id, user: Id, emoji: Emoji, at: int)
  datatype Summary = Summary(emoji: Emoji, count: nat, me: bool)

  const CUSTOM := "custom:"

  /** How UUIDs are written and read; only that texts of different UUIDs differ and are not empty matters. */
  datatype Uuids = Uuids(text: Id -> string, parse: string -> Option<Id>)

  ghost predicate Texts(uuids: Uuids) {
    && (forall a, b :: uuids.text(a) == uuids.text(b) ==> a == b)
    && (forall a :: uuids.text(a) != "")
  }

  predicate HasPrefix(s: string, p: string) { p <= s }

  /** Refused are exactly the empty text and a custom prefix without a UUID behind it. */
  function ParseEmojiParam(param: string, uuids: Uuids): (r: Option<Emoji>)
    ensures r.None? <==> param == "" || (HasPrefix(param, CUSTOM) && uuids.parse(param[|CUSTOM|..]).None?)
    ensures r.Some? ==> (r.value.id.Some? <==> HasPrefix(param, CUSTOM))
    ensures r.Some? && (r.value.id.Some? ==> r.value.id.value != NIL) ==> Proper(r.value)
  {
    if param == "" then None
    else if HasPrefix(param, CUSTOM) then
      var id := uuids.parse(param[|CUSTOM|..]);
      if id.None? then None else Some(Emoji(id, None))
    else Some(Emoji(None, Some(param)))
  }

  /** Exactly one of the two columns is set, and neither holds a value the other side could be mistaken for. */
  predicate Proper(e: Emoji) {
    || (e.id.Some? && e.id.value != NIL && e.unicode.None?)
    || (e.id.None? && e.unicode.Some? && e.unicode.value != "" && !HasPrefix(e.unicode.value, CUSTOM))
  }

  // ---- Store ----

  /** The unique index: message, user, and the emoji columns with NULL replaced by a sentinel. */
  function IndexKey(r: Row): (Id, Id, Id, string) {
    (r.message, r.user, r.emoji.id.UnwrapOr(NIL), r.emoji.unicode.UnwrapOr(""))
  }

  ghost predicate StoreOk(rows: set<Row>) {
    && (forall r :: r in rows ==> Proper(r.emoji))
    && (forall r, q :: r in rows && q in rows && IndexKey(r) == IndexKey(q) ==> r == q)
  }

  predicate Matches(r: Row, message: Id, user: Id, e: Emoji) {
    r.message == message && r.user == user && (if e.id.Some? then r.emoji.id == e.id else e.unicode.Some? && r.emoji.unicode == e.unicode)
  }

  class ReactionRepository {
    var rows: set<Row>

    constructor ()
      ensures rows == {} && StoreOk(rows)
    {
      rows := {};
    }

    /** False when the unique index refuses the row. The handler has looked a custom emoji up before, so it exists. */
    method Add(message: Id, user: Id, e: Emoji, now: int) returns (added: bool)
      requires StoreOk(rows) && Proper(e)
      modifies this
      ensures added <==> !exists r :: r in old(rows) && r.message == message && r.user == user && r.emoji == e
      ensures rows == if added then old(rows) + {Row(message, user, e, now)} else old(rows)
      ensures StoreOk(rows)
    {
      var row := Row(message, user, e, now);
      added := !exists r :: r in rows && IndexKey(r) == IndexKey(row);
      if added {
        rows := rows + {row};
      } else {
        var r :| r in rows && IndexKey(r) == IndexKey(row);
        ProperKeysDiffer(r, row);
      }
    }

    /** False when there was nothing to remove; otherwise exactly the user's one reaction with the emoji goes. */
    method Remove(message: Id, user: Id, e: Emoji) returns (found: bool)
      requires StoreOk(rows)
      modifies this
      ensures found <==> exists r :: r in old(rows) && Matches(r, message, user, e)
      ensures rows == set r | r in old(rows) && !Matches(r, message, user, e)
      ensures Proper(e) ==> rows == set r | r in old(rows) && !(r.message == message && r.user == user && r.emoji == e)
      ensures StoreOk(rows)
    {
      var hit := set r | r in rows && Matches(r, message, user, e);
      found := hit != {};
      assert forall r :: r in rows && Matches(r, message, user, e) ==> r in hit;
      if found {
        ghost var r := Member(hit);
        assert r in rows && Matches(r, message, user, e);
      }
      rows := rows - hit;
      if Proper(e) {
        forall r | r in old(rows) ensures Matches(r, message, user, e) <==> r.message == message && r.user == user && r.emoji == e {
          assert Proper(r.emoji);
        }
      }
    }
  }

  lemma ProperKeysDiffer(r: Row, q: Row)
    requires Proper(r.emoji) && Proper(q.emoji) && IndexKey(r) == IndexKey(q)
    ensures r.message == q.message && r.user == q.user && r.emoji == q.emoji
  {
  }

  /** Adding a reaction and taking it back leaves the store as it was. */
  lemma AddThenRemove(rows: set<Row>, row: Row)
    requires StoreOk(rows) && Proper(row.emoji)
    requires !exists r :: r in rows && r.message == row.message && r.user == row.user && r.emoji == row.emoji
    ensures (set r | r in rows + {row} && !Matches(r, row.message, row.user, row.emoji)) == rows
  {
    forall r | r in rows ensures !Matches(r, row.message, row.user, row.emoji) {
      assert Proper(r.emoji);
    }
  }

  // ---- Summaries of a listing ----

  function Count(rs: seq<Row>, e: Emoji): nat {
    if rs == [] then 0
    else Count(rs[..|rs| - 1], e) + if rs[|rs| - 1].emoji == e then 1 else 0
  }

  predicate Reacted(rs: seq<Row>, e: Emoji, user: Id) {
    exists r :: r in rs && r.emoji == e && r.user == user
  }

  /** The emojis of a listing in the order they first occur. */
  function Seen(rs: seq<Row>): (es: seq<Emoji>)
    ensures forall e :: e in es <==> exists r :: r in rs && r.emoji == e
  {
    if rs == [] then []
    else
      var es := Seen(rs[..|rs| - 1]);
      var last := rs[|rs| - 1];
      assert forall r :: r in rs <==> r in rs[..|rs| - 1] || r == last;
      if last.emoji in es then es else es + [last.emoji]
  }

  function SummaryOf(rs: seq<Row>, e: Emoji, user: Id): Summary {
    Summary(e, Count(rs, e), Reacted(rs, e, user))
  }

  function Summarised(rs: seq<Row>, user: Id): seq<Summary> {
    seq(|Seen(rs)|, i requires 0 <= i < |Seen(rs)| => SummaryOf(rs, Seen(rs)[i], user))
  }

  /** The key groupReactions groups by. */
  function GroupKey(e: Emoji, uuids: Uuids): (string, string) {
    (if e.id.Some? then uuids.text(e.id.value) else "", e.unicode.UnwrapOr(""))
  }

  lemma GroupKeysDiffer(a: Emoji, b: Emoji, uuids: Uuids)
    requires Texts(uuids) && Proper(a) && Proper(b) && GroupKey(a, uuids) == GroupKey(b, uuids)
    ensures a == b
  {
  }

  lemma SeenOneMore(rs: seq<Row>, n: nat)
    requires n < |rs|
    ensures Seen(rs[..n + 1]) == if rs[n].emoji in Seen(rs[..n]) then Seen(rs[..n]) else Seen(rs[..n]) + [rs[n].emoji]
  {
    assert rs[..n + 1][..n] == rs[..n];
  }

  lemma SummaryOneMore(rs: seq<Row>, n: nat, e: Emoji, user: Id)
    requires n < |rs|
    ensures Count(rs[..n + 1], e) == Count(rs[..n], e) + if rs[n].emoji == e then 1 else 0
    ensures Reacted(rs[..n + 1], e, user) <==> Reacted(rs[..n], e, user) || (rs[n].emoji == e && rs[n].user == user)
  {
    assert rs[..n + 1][..n] == rs[..n];
    var some := rs[..n + 1];
    assert forall r :: r in some <==> r in rs[..n] || r == rs[n] by {
      assert some == rs[..n] + [rs[n]];
    }
  }

  /** What the loop of groupReactions keeps after n rows. */
  ghost predicate OrderOk(order: seq<(string, string)>, es: seq<Emoji>, uuids: Uuids) {
    |order| == |es| && forall i :: 0 <= i < |order| ==> order[i] == GroupKey(es[i], uuids)
  }

  ghost predicate CountsOk(counts: map<(string, string), Summary>, rs: seq<Row>, user: Id, uuids: Uuids) {
    && (forall e :: e in Seen(rs) ==> GroupKey(e, uuids) in counts && counts[GroupKey(e, uuids)] == SummaryOf(rs, e, user))
    && (forall k :: k in counts ==> exists e :: e in Seen(rs) && GroupKey(e, uuids) == k)
  }

  /** Grouping one row: a first occurrence opens a group, and the row counts in its group. */
  function GroupedRow(counts: map<(string, string), Summary>, r: Row, user: Id, uuids: Uuids): map<(string, string), Summary> {
    var k := GroupKey(r.emoji, uuids);
    var summary := if k in counts then counts[k] else Summary(r.emoji, 0, false);
    counts[k := summary.(count := summary.count + 1, me := summary.me || r.user == user)]
  }

  lemma {:induction false} NotSeen(rs: seq<Row>, e: Emoji, user: Id)
    requires e !in Seen(rs)
    ensures Count(rs, e) == 0 && !Reacted(rs, e, user)
  {
    if rs != [] {
      var init := rs[..|rs| - 1];
      assert rs[|rs| - 1] in rs;
      assert forall r :: r in init ==> r in rs;
      NotSeen(init, e, user);
    }
  }

  ghost predicate AllProper(rs: seq<Row>) {
    forall r :: r in rs ==> Proper(r.emoji)
  }

  lemma KeyIsSeen(counts: map<(string, string), Summary>, rs: seq<Row>, n: nat, user: Id, uuids: Uuids, d: Emoji)
    requires Texts(uuids) && n < |rs| && AllProper(rs) && CountsOk(counts, rs[..n], user, uuids)
    ensures GroupKey(rs[n].emoji, uuids) in counts <==> rs[n].emoji in Seen(rs[..n])
    ensures d in Seen(rs[..n]) && GroupKey(d, uuids) == GroupKey(rs[n].emoji, uuids) ==> d == rs[n].emoji
  {
    assert rs[n] in rs;
    forall e | e in Seen(rs[..n]) && GroupKey(e, uuids) == GroupKey(rs[n].emoji, uuids) ensures e == rs[n].emoji {
      var r :| r in rs[..n] && r.emoji == e;
      assert r in rs;
      GroupKeysDiffer(e, rs[n].emoji, uuids);
    }
  }

  lemma OwnGroupOneMore(counts: map<(string, string), Summary>, rs: seq<Row>, n: nat, user: Id, uuids: Uuids)
    requires Texts(uuids) && n < |rs| && AllProper(rs) && CountsOk(counts, rs[..n], user, uuids)
    ensures GroupedRow(counts, rs[n], user, uuids)[GroupKey(rs[n].emoji, uuids)] == SummaryOf(rs[..n + 1], rs[n].emoji, user)
  {
    var e := rs[n].emoji;
    KeyIsSeen(counts, rs, n, user, uuids, e);
    SummaryOneMore(rs, n, e, user);
    if e !in Seen(rs[..n]) {
      NotSeen(rs[..n], e, user);
    }
  }

  lemma OtherGroupOneMore(counts: map<(string, string), Summary>, rs: seq<Row>, n: nat, user: Id, uuids: Uuids, d: Emoji)
    requires Texts(uuids) && n < |rs| && AllProper(rs) && CountsOk(counts, rs[..n], user, uuids)
    requires d in Seen(rs[..n]) && d != rs[n].emoji
    ensures var counts' := GroupedRow(counts, rs[n], user, uuids);
            GroupKey(d, uuids) in counts' && counts'[GroupKey(d, uuids)] == SummaryOf(rs[..n + 1], d, user)
  {
    KeyIsSeen(counts, rs, n, user, uuids, d);
    SummaryOneMore(rs, n, d, user);
  }

  lemma KeysOneMore(counts: map<(string, string), Summary>, before: seq<Emoji>, after: seq<Emoji>, r: Row, user: Id, uuids: Uuids)
    requires forall k :: k in counts ==> exists e :: e in before && GroupKey(e, uuids) == k
    requires forall d :: d in after <==> d in before || d == r.emoji
    ensures forall k :: k in GroupedRow(counts, r, user, uuids) ==> exists d :: d in after && GroupKey(d, uuids) == k
  {
    forall k | k in GroupedRow(counts, r, user, uuids) ensures exists d :: d in after && GroupKey(d, uuids) == k {
      if k in counts {
        var d :| d in before && GroupKey(d, uuids) == k;
        assert d in after;
      } else {
        assert r.emoji in after && k == GroupKey(r.emoji, uuids);
      }
    }
  }

  lemma CountsOneMore(counts: map<(string, string), Summary>, rs: seq<Row>, n: nat, user: Id, uuids: Uuids)
    requires Texts(uuids) && n < |rs| && AllProper(rs) && CountsOk(counts, rs[..n], user, uuids)
    ensures CountsOk(GroupedRow(counts, rs[n], user, uuids), rs[..n + 1], user, uuids)
  {
    var before, after := Seen(rs[..n]), Seen(rs[..n + 1]);
    SeenOneMore(rs, n);
    assert forall d :: d in after <==> d in before || d == rs[n].emoji;
    KeysOneMore(counts, before, after, rs[n], user, uuids);
    GroupsOneMore(counts, rs, n, user, uuids, before, after);
  }

  lemma GroupsOneMore(counts: map<(string, string), Summary>, rs: seq<Row>, n: nat, user: Id, uuids: Uuids,
                      before: seq<Emoji>, after: seq<Emoji>)
    requires Texts(uuids) && n < |rs| && AllProper(rs) && CountsOk(counts, rs[..n], user, uuids)
    requires before == Seen(rs[..n]) && forall d :: d in after <==> d in before || d == rs[n].emoji
    ensures var counts' := GroupedRow(counts, rs[n], user, uuids);
            forall d :: d in after ==> GroupKey(d, uuids) in counts' && counts'[GroupKey(d, uuids)] == SummaryOf(rs[..n + 1], d, user)
  {
    var counts' := GroupedRow(counts, rs[n], user, uuids);
    forall d | d in after
      ensures GroupKey(d, uuids) in counts' && counts'[GroupKey(d, uuids)] == SummaryOf(rs[..n + 1], d, user)
    {
      if d == rs[n].emoji {
        OwnGroupOneMore(counts, rs, n, user, uuids);
      } else {
        OtherGroupOneMore(counts, rs, n, user, uuids, d);
      }
    }
  }

  /** One row: its group is opened if there is none, and counts the row. */
  method GroupRow(counts: map<(string, string), Summary>, order: seq<(string, string)>, r: Row, user: Id, uuids: Uuids)
      returns (counts': map<(string, string), Summary>, order': seq<(string, string)>)
    ensures counts' == GroupedRow(counts, r, user, uuids)
    ensures var k := GroupKey(r.emoji, uuids); order' == if k in counts then order else order + [k]
  {
    counts', order' := counts, order;
    var k := GroupKey(r.emoji, uuids);
    if k !in counts' {
      counts' := counts'[k := Summary(r.emoji, 0, false)];
      order' := order' + [k];
    }
    counts' := counts'[k := counts'[k].(count := counts'[k].count + 1)];
    if r.user == user {
      counts' := counts'[k := counts'[k].(me := true)];
    }
  }

  method GroupReactions(rs: seq<Row>, user: Id, uuids: Uuids) returns (result: seq<Summary>)
    requires Texts(uuids) && AllProper(rs)
    ensures result == Summarised(rs, user)
  {
    var order: seq<(string, string)> := [];
    var counts: map<(string, string), Summary> := map[];
    for n := 0 to |rs|
      invariant OrderOk(order, Seen(rs[..n]), uuids)
      invariant CountsOk(counts, rs[..n], user, uuids)
    {
      CountsOneMore(counts, rs, n, user, uuids);
      KeyIsSeen(counts, rs, n, user, uuids, rs[n].emoji);
      SeenOneMore(rs, n);
      counts, order := GroupRow(counts, order, rs[n], user, uuids);
    }
    assert rs[..|rs|] == rs;
    result := InOrderOfFirst(order, counts, rs, user, uuids);
  }

  method InOrderOfFirst(order: seq<(string, string)>, counts: map<(string, string), Summary>,
                        ghost rs: seq<Row>, ghost user: Id, ghost uuids: Uuids) returns (result: seq<Summary>)
    requires OrderOk(order, Seen(rs), uuids) && CountsOk(counts, rs, user, uuids)
    ensures result == Summarised(rs, user)
  {
    ghost var es := Seen(rs);
    assert forall i :: 0 <= i < |es| ==> es[i] in es;
    result := [];
    for i := 0 to |order|
      invariant |result| == i
      invariant forall j :: 0 <= j < i ==> result[j] == SummaryOf(rs, es[j], user)
    {
      result := result + [counts[order[i]]];
    }
  }

  // ---- The SQL path ----

  datatype Group = Group(emoji: Emoji, count: nat, first: int)

  /** WHERE message_id = ... */
  function RowsOf(rows: set<Row>, message: Id): set<Row> {
    set r | r in rows && r.message == message
  }

  /** ORDER BY created_at: every row of the message once; rows of one instant in any order. */
  ghost predicate IsListing(rs: seq<Row>, rows: set<Row>) {
    && Distinct(rs)
    && (forall i, j :: 0 <= i < j < |rs| ==> rs[i].at <= rs[j].at)
    && (forall r :: r in rs <==> r in rows)
  }

  /** MIN(created_at) of one emoji: the first time somebody reacted with it. */
  ghost predicate FirstIn(rows: set<Row>, e: Emoji, t: int) {
    && (exists r :: r in rows && r.emoji == e && r.at == t)
    && (forall r :: r in rows && r.emoji == e ==> t <= r.at)
  }

  /** COUNT(*) and MIN(created_at) of one emoji. */
  ghost predicate IsGroup(g: Group, rows: set<Row>) {
    g.count == |set r | r in rows && r.emoji == g.emoji| && FirstIn(rows, g.emoji, g.first)
  }

  /** GROUP BY emoji, ORDER BY MIN(created_at); groups of one instant in any order. */
  ghost predicate IsGrouped(groups: seq<Group>, rows: set<Row>) {
    && (forall i, j :: 0 <= i < j < |groups| ==> groups[i].first <= groups[j].first && groups[i].emoji != groups[j].emoji)
    && (forall r :: r in rows ==> exists g :: g in groups && g.emoji == r.emoji)
    && (forall g :: g in groups ==> IsGroup(g, rows))
  }

  /** The text a user's own reactions are looked up by. */
  function OwnKey(e: Emoji, uuids: Uuids): string {
    if e.id.Some? then CUSTOM + uuids.text(e.id.value) else e.unicode.UnwrapOr("")
  }

  function OwnKeys(rows: set<Row>, user: Id, uuids: Uuids): set<string> {
    set r | r in rows && r.user == user :: OwnKey(r.emoji, uuids)
  }

  function Modelled(groups: seq<Group>, mine: set<string>, uuids: Uuids): seq<Summary> {
    seq(|groups|, i requires 0 <= i < |groups| =>
      Summary(groups[i].emoji, groups[i].count, OwnKey(groups[i].emoji, uuids) in mine))
  }

  /** The reactions part of buildMessageModel. */
  method BuildMessageModel(groups: seq<Group>, mine: set<string>, uuids: Uuids) returns (result: seq<Summary>)
    ensures result == Modelled(groups, mine, uuids)
  {
    result := [];
    for i := 0 to |groups|
      invariant result == Modelled(groups, mine, uuids)[..i]
    {
      var key := "";
      if groups[i].emoji.id.Some? {
        key := CUSTOM + uuids.text(groups[i].emoji.id.value);
      } else if groups[i].emoji.unicode.Some? {
        key := groups[i].emoji.unicode.value;
      }
      result := result + [Summary(groups[i].emoji, groups[i].count, key in mine)];
    }
  }

  /** A custom emoji and a unicode one never share a key. */
  lemma OwnKeysDiffer(a: Emoji, b: Emoji, uuids: Uuids)
    requires Texts(uuids) && Proper(a) && Proper(b) && OwnKey(a, uuids) == OwnKey(b, uuids)
    ensures a == b
  {
    if a.id.Some? {
      assert HasPrefix(OwnKey(a, uuids), CUSTOM);
      assert OwnKey(a, uuids)[|CUSTOM|..] == uuids.text(a.id.value);
      if b.id.Some? {
        assert OwnKey(b, uuids)[|CUSTOM|..] == uuids.text(b.id.value);
      }
    } else if b.id.Some? {
      assert HasPrefix(OwnKey(b, uuids), CUSTOM);
    }
  }

  function With(rs: seq<Row>, e: Emoji): set<Row> {
    set r | r in rs && r.emoji == e
  }

  lemma WithOneMore(init: seq<Row>, last: Row, e: Emoji)
    ensures With(init + [last], e) == if last.emoji == e then With(init, e) + {last} else With(init, e)
  {
  }

  ghost predicate Distinct(rs: seq<Row>) {
    forall i, j :: 0 <= i < j < |rs| ==> rs[i] != rs[j]
  }

  lemma DistinctInit(rs: seq<Row>)
    requires rs != [] && Distinct(rs)
    ensures Distinct(rs[..|rs| - 1]) && rs[|rs| - 1] !in rs[..|rs| - 1]
  {
  }

  lemma {:induction false} CountIsSetSize(rs: seq<Row>, e: Emoji)
    requires Distinct(rs)
    ensures Count(rs, e) == |With(rs, e)|
  {
    if rs != [] {
      var init, last := rs[..|rs| - 1], rs[|rs| - 1];
      DistinctInit(rs);
      CountIsSetSize(init, e);
      assert rs == init + [last];
      assert With(rs, e) == if last.emoji == e then With(init, e) + {last} else With(init, e) by {
        WithOneMore(init, last, e);
      }
      assert last !in With(init, e);
    }
  }

  ghost predicate Sorted(rs: seq<Row>) {
    forall i, j :: 0 <= i < j < |rs| ==> rs[i].at <= rs[j].at
  }

  /** The time of the first row of a listing with the emoji. */
  function FirstTime(rs: seq<Row>, e: Emoji): int {
    if rs == [] then 0
    else if e in Seen(rs[..|rs| - 1]) then FirstTime(rs[..|rs| - 1], e)
    else rs[|rs| - 1].at
  }

  lemma {:induction false} FirstTimeIsFirst(rs: seq<Row>, e: Emoji)
    requires Sorted(rs) && e in Seen(rs)
    ensures exists r :: r in rs && r.emoji == e && r.at == FirstTime(rs, e)
    ensures forall r :: r in rs && r.emoji == e ==> FirstTime(rs, e) <= r.at
  {
    var init, last := rs[..|rs| - 1], rs[|rs| - 1];
    assert forall r :: r in rs <==> r in init || r == last;
    if e in Seen(init) {
      FirstTimeIsFirst(init, e);
      var r :| r in init && r.emoji == e && r.at == FirstTime(init, e);
      assert r in rs && r.at <= last.at;
    } else {
      assert last in rs && last.emoji == e;
    }
  }

  lemma FirstTimeInRows(rs: seq<Row>, rows: set<Row>, e: Emoji)
    requires IsListing(rs, rows) && e in Seen(rs)
    ensures FirstIn(rows, e, FirstTime(rs, e))
  {
    FirstTimeIsFirst(rs, e);
    var r :| r in rs && r.emoji == e && r.at == FirstTime(rs, e);
    assert r in rows;
  }

  lemma {:induction false} FirstTimeByLast(rs: seq<Row>, e: Emoji)
    requires Sorted(rs) && rs != [] && e in Seen(rs)
    ensures FirstTime(rs, e) <= rs[|rs| - 1].at
  {
    FirstTimeIsFirst(rs, e);
    var r :| r in rs && r.emoji == e && r.at == FirstTime(rs, e);
    var i :| 0 <= i < |rs| && rs[i] == r;
  }

  /** Emojis are seen in the order of their first times, and each once. */
  lemma {:induction false} SeenInOrder(rs: seq<Row>)
    requires Sorted(rs)
    ensures forall i, j :: 0 <= i < j < |Seen(rs)| ==> FirstTime(rs, Seen(rs)[i]) <= FirstTime(rs, Seen(rs)[j])
    ensures forall i, j :: 0 <= i < j < |Seen(rs)| ==> Seen(rs)[i] != Seen(rs)[j]
  {
    if rs != [] {
      var init, e := rs[..|rs| - 1], rs[|rs| - 1].emoji;
      SeenInOrder(init);
      assert forall i :: 0 <= i < |Seen(init)| ==> Seen(init)[i] in Seen(init);
      if e !in Seen(init) {
        assert Seen(rs) == Seen(init) + [e] && FirstTime(rs, e) == rs[|rs| - 1].at;
        forall i | 0 <= i < |Seen(init)| ensures FirstTime(rs, Seen(init)[i]) <= FirstTime(rs, e) && Seen(init)[i] != e {
          assert Seen(init)[i] == Seen(rs)[i] && Seen(rs)[i] in Seen(rs);
          FirstTimeByLast(rs, Seen(rs)[i]);
        }
      }
    }
  }

  lemma HeadIn<T>(xs: seq<T>)
    requires xs != []
    ensures xs[0] in xs
  {
  }

  /** Two lists of the same emojis, both in the order of their first times, are the same list. */
  lemma {:induction false} OneOrder(a: seq<Emoji>, b: seq<Emoji>, first: Emoji -> int)
    requires forall i, j :: 0 <= i < j < |a| ==> first(a[i]) < first(a[j])
    requires forall i, j :: 0 <= i < j < |b| ==> first(b[i]) < first(b[j])
    requires forall e :: e in a <==> e in b
    ensures a == b
  {
    if a == [] {
      if b != [] {
        HeadIn(b);
      }
    } else {
      assert a[0] in b && b != [];
      assert b[0] in a;
      assert a[0] == b[0];
      forall e ensures e in a[1..] <==> e in b[1..] {
        assert e in a <==> e == a[0] || e in a[1..];
        assert e in b <==> e == b[0] || e in b[1..];
        assert a[0] !in a[1..] && b[0] !in b[1..];
      }
      OneOrder(a[1..], b[1..], first);
    }
  }

  /** Different emojis have different first times. */
  ghost predicate DistinctFirsts(rows: set<Row>) {
    forall e, f, t :: FirstIn(rows, e, t) && FirstIn(rows, f, t) ==> e == f
  }

  lemma GroupIsFirst(rs: seq<Row>, g: Group, rows: set<Row>)
    requires IsListing(rs, rows) && IsGroup(g, rows)
    ensures g.emoji in Seen(rs) && g.first == FirstTime(rs, g.emoji)
  {
    var r :| r in rows && r.emoji == g.emoji && r.at == g.first;
    assert r in rs;
    FirstTimeInRows(rs, rows, g.emoji);
  }

  lemma SeenIsGrouped(rs: seq<Row>, groups: seq<Group>, rows: set<Row>, e: Emoji) returns (g: Group)
    requires IsListing(rs, rows) && IsGrouped(groups, rows) && e in Seen(rs)
    ensures g in groups && g.emoji == e
  {
    var r :| r in rs && r.emoji == e;
    assert r in rows;
    g :| g in groups && g.emoji == r.emoji;
  }

  function EmojisOf(groups: seq<Group>): seq<Emoji> {
    seq(|groups|, i requires 0 <= i < |groups| => groups[i].emoji)
  }

  /** Each group's emoji is seen, at the group's first time. */
  lemma GroupIsSeen(rs: seq<Row>, groups: seq<Group>, rows: set<Row>, i: nat)
    requires IsListing(rs, rows) && IsGrouped(groups, rows) && i < |groups|
    ensures groups[i].emoji in Seen(rs) && groups[i].first == FirstTime(rs, groups[i].emoji)
    ensures FirstIn(rows, groups[i].emoji, groups[i].first)
  {
    assert groups[i] in groups;
    GroupIsFirst(rs, groups[i], rows);
  }

  lemma SeenHasGroup(rs: seq<Row>, groups: seq<Group>, rows: set<Row>, e: Emoji)
    requires IsListing(rs, rows) && IsGrouped(groups, rows) && e in Seen(rs)
    ensures e in EmojisOf(groups)
  {
    var g := SeenIsGrouped(rs, groups, rows, e);
    var i :| 0 <= i < |groups| && groups[i] == g;
    assert EmojisOf(groups)[i] == e;
  }

  lemma GroupedIsSeen(rs: seq<Row>, groups: seq<Group>, rows: set<Row>, e: Emoji)
    requires IsListing(rs, rows) && IsGrouped(groups, rows) && e in EmojisOf(groups)
    ensures e in Seen(rs)
  {
    var i :| 0 <= i < |EmojisOf(groups)| && EmojisOf(groups)[i] == e;
    GroupIsSeen(rs, groups, rows, i);
  }

  lemma FirstsDiffer(rows: set<Row>, e: Emoji, f: Emoji, t: int, u: int)
    requires DistinctFirsts(rows) && FirstIn(rows, e, t) && FirstIn(rows, f, u) && e != f
    ensures t != u
  {
  }

  lemma GroupsInOrder(rs: seq<Row>, groups: seq<Group>, rows: set<Row>, i: nat, j: nat)
    requires DistinctFirsts(rows) && IsListing(rs, rows) && IsGrouped(groups, rows) && i < j < |groups|
    ensures FirstTime(rs, groups[i].emoji) < FirstTime(rs, groups[j].emoji)
  {
    var a, b := groups[i], groups[j];
    assert a.first <= b.first && a.emoji != b.emoji;
    GroupIsSeen(rs, groups, rows, i);
    GroupIsSeen(rs, groups, rows, j);
    FirstsDiffer(rows, a.emoji, b.emoji, a.first, b.first);
  }

  lemma SeenStrictly(rs: seq<Row>, rows: set<Row>, i: nat, j: nat)
    requires DistinctFirsts(rows) && IsListing(rs, rows) && i < j < |Seen(rs)|
    ensures FirstTime(rs, Seen(rs)[i]) < FirstTime(rs, Seen(rs)[j])
  {
    SeenInOrder(rs);
    assert Seen(rs)[i] in Seen(rs) && Seen(rs)[j] in Seen(rs);
    FirstTimeInRows(rs, rows, Seen(rs)[i]);
    FirstTimeInRows(rs, rows, Seen(rs)[j]);
  }

  /** The grouped query lists the emojis as the listing shows them first. */
  lemma SameOrder(rs: seq<Row>, groups: seq<Group>, rows: set<Row>)
    requires DistinctFirsts(rows) && IsListing(rs, rows) && IsGrouped(groups, rows)
    ensures EmojisOf(groups) == Seen(rs)
  {
    var first := e => FirstTime(rs, e);
    var es := EmojisOf(groups);
    forall i, j | 0 <= i < j < |es| ensures first(es[i]) < first(es[j]) {
      GroupsInOrder(rs, groups, rows, i, j);
    }
    forall i, j | 0 <= i < j < |Seen(rs)| ensures first(Seen(rs)[i]) < first(Seen(rs)[j]) {
      SeenStrictly(rs, rows, i, j);
    }
    forall e | e in es ensures e in Seen(rs) {
      GroupedIsSeen(rs, groups, rows, e);
    }
    forall e | e in Seen(rs) ensures e in es {
      SeenHasGroup(rs, groups, rows, e);
    }
    OneOrder(es, Seen(rs), first);
  }

  lemma SameCount(rs: seq<Row>, g: Group, rows: set<Row>)
    requires IsListing(rs, rows) && IsGroup(g, rows)
    ensures g.count == Count(rs, g.emoji)
  {
    CountIsSetSize(rs, g.emoji);
    assert (set r | r in rows && r.emoji == g.emoji) == With(rs, g.emoji);
  }

  /** Me looked up by text is Me looked up by row. */
  lemma SameMe(rs: seq<Row>, e: Emoji, rows: set<Row>, user: Id, uuids: Uuids)
    requires Texts(uuids) && (forall r :: r in rows ==> Proper(r.emoji)) && Proper(e) && IsListing(rs, rows)
    ensures OwnKey(e, uuids) in OwnKeys(rows, user, uuids) <==> Reacted(rs, e, user)
  {
    if OwnKey(e, uuids) in OwnKeys(rows, user, uuids) {
      var r :| r in rows && r.user == user && OwnKey(r.emoji, uuids) == OwnKey(e, uuids);
      OwnKeysDiffer(r.emoji, e, uuids);
      assert r in rs;
    }
  }

  lemma SameSummary(rs: seq<Row>, g: Group, rows: set<Row>, user: Id, uuids: Uuids)
    requires Texts(uuids) && (forall r :: r in rows ==> Proper(r.emoji)) && IsListing(rs, rows) && IsGroup(g, rows)
    ensures Summary(g.emoji, g.count, OwnKey(g.emoji, uuids) in OwnKeys(rows, user, uuids)) == SummaryOf(rs, g.emoji, user)
  {
    SameCount(rs, g, rows);
    SameMe(rs, g.emoji, rows, user, uuids);
  }

  lemma SameEntry(rs: seq<Row>, groups: seq<Group>, rows: set<Row>, user: Id, uuids: Uuids, i: nat)
    requires Texts(uuids) && (forall r :: r in rows ==> Proper(r.emoji)) && IsListing(rs, rows) && IsGrouped(groups, rows)
    requires EmojisOf(groups) == Seen(rs) && i < |groups|
    ensures i < |Seen(rs)|
    ensures Modelled(groups, OwnKeys(rows, user, uuids), uuids)[i] == SummaryOf(rs, Seen(rs)[i], user)
  {
    assert groups[i] in groups && EmojisOf(groups)[i] == groups[i].emoji;
    SameSummary(rs, groups[i], rows, user, uuids);
  }

  lemma SameLists(modelled: seq<Summary>, rs: seq<Row>, user: Id)
    requires |modelled| == |Seen(rs)|
    requires forall i :: 0 <= i < |modelled| ==> modelled[i] == SummaryOf(rs, Seen(rs)[i], user)
    ensures modelled == Summarised(rs, user)
  {
  }

  /** With different first times, every listing and every answer of the grouped query give the same summaries. */
  lemma SummariesAgree(rs: seq<Row>, groups: seq<Group>, rows: set<Row>, user: Id, uuids: Uuids)
    requires Texts(uuids) && (forall r :: r in rows ==> Proper(r.emoji)) && DistinctFirsts(rows)
    requires IsListing(rs, rows) && IsGrouped(groups, rows)
    ensures Modelled(groups, OwnKeys(rows, user, uuids), uuids) == Summarised(rs, user)
  {
    var modelled := Modelled(groups, OwnKeys(rows, user, uuids), uuids);
    SameOrder(rs, groups, rows);
    assert |modelled| == |EmojisOf(groups)|;
    forall i | 0 <= i < |modelled| ensures modelled[i] == SummaryOf(rs, Seen(rs)[i], user) {
      SameEntry(rs, groups, rows, user, uuids, i);
    }
    SameLists(modelled, rs, user);
  }

  // ---- The other half: equal first times part them ----

  lemma {:induction false} LatestRow(rows: set<Row>) returns (r: Row)
    requires rows != {}
    ensures r in rows && forall q :: q in rows ==> q.at <= r.at
    decreases |rows|
  {
    r := Member(rows);
    if rows != {r} {
      var q := LatestRow(rows - {r});
      assert forall x :: x in rows ==> x == r || x in rows - {r};
      if r.at <= q.at {
        r := q;
      }
    }
  }

  lemma {:induction false} ListingExists(rows: set<Row>) returns (rs: seq<Row>)
    ensures IsListing(rs, rows)
    decreases |rows|
  {
    rs := [];
    if rows != {} {
      var last := LatestRow(rows);
      var init := ListingExists(rows - {last});
      rs := init + [last];
      forall i, j | 0 <= i < j < |rs| ensures rs[i] != rs[j] && rs[i].at <= rs[j].at {
        assert rs[i] in init;
      }
      assert forall r :: r in rs <==> r in init || r == last;
    }
  }

  /** The groups of a listing, in the order the listing shows their emojis first. */
  function GroupsOf(rs: seq<Row>): seq<Group> {
    seq(|Seen(rs)|, i requires 0 <= i < |Seen(rs)| => Group(Seen(rs)[i], Count(rs, Seen(rs)[i]), FirstTime(rs, Seen(rs)[i])))
  }

  lemma GroupOfListing(rs: seq<Row>, rows: set<Row>, i: nat)
    requires IsListing(rs, rows) && i < |Seen(rs)|
    ensures IsGroup(GroupsOf(rs)[i], rows)
  {
    var e := Seen(rs)[i];
    assert e in Seen(rs);
    FirstTimeInRows(rs, rows, e);
    CountIsSetSize(rs, e);
    assert (set r | r in rows && r.emoji == e) == With(rs, e);
  }

  lemma GroupsOfListing(rs: seq<Row>, rows: set<Row>)
    requires IsListing(rs, rows)
    ensures IsGrouped(GroupsOf(rs), rows)
  {
    var groups := GroupsOf(rs);
    SeenInOrder(rs);
    forall r | r in rows ensures exists g :: g in groups && g.emoji == r.emoji {
      assert r in rs && r.emoji in Seen(rs);
      var i :| 0 <= i < |Seen(rs)| && Seen(rs)[i] == r.emoji;
      assert groups[i] in groups && groups[i].emoji == r.emoji;
    }
    forall g | g in groups ensures IsGroup(g, rows) {
      var i :| 0 <= i < |groups| && groups[i] == g;
      GroupOfListing(rs, rows, i);
    }
  }

  function Swapped<T>(xs: seq<T>, i: nat, j: nat): seq<T>
    requires i < |xs| && j < |xs|
  {
    xs[i := xs[j]][j := xs[i]]
  }

  function Other(i: nat, j: nat, k: nat): nat { if k == i then j else if k == j then i else k }

  lemma SwappedAt<T>(xs: seq<T>, i: nat, j: nat, k: nat)
    requires i < |xs| && j < |xs| && k < |xs|
    ensures Other(i, j, k) < |xs| && Swapped(xs, i, j)[k] == xs[Other(i, j, k)]
    ensures Swapped(xs, i, j)[Other(i, j, k)] == xs[k]
  {
  }

  lemma SameElements<T>(xs: seq<T>, i: nat, j: nat, x: T)
    requires i < |xs| && j < |xs|
    ensures x in Swapped(xs, i, j) <==> x in xs
  {
    if x in xs {
      var k :| 0 <= k < |xs| && xs[k] == x;
      SwappedAt(xs, i, j, k);
    }
    if x in Swapped(xs, i, j) {
      var k :| 0 <= k < |xs| && Swapped(xs, i, j)[k] == x;
      SwappedAt(xs, i, j, k);
    }
  }

  lemma SwappedPair(groups: seq<Group>, rows: set<Row>, i: nat, j: nat, k: nat, m: nat)
    requires IsGrouped(groups, rows) && i < |groups| && j < |groups| && groups[i].first == groups[j].first
    requires k < m < |groups|
    ensures Swapped(groups, i, j)[k].first <= Swapped(groups, i, j)[m].first
    ensures Swapped(groups, i, j)[k].emoji != Swapped(groups, i, j)[m].emoji
  {
    SwappedAt(groups, i, j, k);
    SwappedAt(groups, i, j, m);
    assert groups[k].first <= groups[m].first;
    var p, q := Other(i, j, k), Other(i, j, m);
    if p < q {
      assert groups[p].emoji != groups[q].emoji;
    } else {
      assert groups[q].emoji != groups[p].emoji;
    }
  }

  /** Groups of equal first time may come the other way round. */
  lemma SwappedGroups(groups: seq<Group>, rows: set<Row>, i: nat, j: nat)
    requires IsGrouped(groups, rows) && i < |groups| && j < |groups| && groups[i].first == groups[j].first
    ensures IsGrouped(Swapped(groups, i, j), rows)
  {
    forall g ensures g in Swapped(groups, i, j) <==> g in groups {
      SameElements(groups, i, j, g);
    }
    forall k, m | 0 <= k < m < |groups|
      ensures Swapped(groups, i, j)[k].first <= Swapped(groups, i, j)[m].first
      ensures Swapped(groups, i, j)[k].emoji != Swapped(groups, i, j)[m].emoji
    {
      SwappedPair(groups, rows, i, j, k, m);
    }
  }

  /** Any two emojis that share a first time have a listing and an answer of the grouped query that differ. */
  lemma TiesPart(rows: set<Row>, e: Emoji, f: Emoji, t: int, user: Id, uuids: Uuids) returns (rs: seq<Row>, groups: seq<Group>)
    requires FirstIn(rows, e, t) && FirstIn(rows, f, t) && e != f
    ensures IsListing(rs, rows) && IsGrouped(groups, rows)
    ensures Modelled(groups, OwnKeys(rows, user, uuids), uuids) != Summarised(rs, user)
  {
    rs := ListingExists(rows);
    var natural := GroupsOf(rs);
    GroupsOfListing(rs, rows);
    var i := PlaceOf(rs, rows, e, t);
    var j := PlaceOf(rs, rows, f, t);
    groups := Swapped(natural, i, j);
    SwappedGroups(natural, rows, i, j);
    assert groups[i].emoji == f && Seen(rs)[i] == e;
    DifferentEntries(Modelled(groups, OwnKeys(rows, user, uuids), uuids), Summarised(rs, user), i);
  }

  lemma PlaceOf(rs: seq<Row>, rows: set<Row>, e: Emoji, t: int) returns (i: nat)
    requires IsListing(rs, rows) && FirstIn(rows, e, t)
    ensures i < |Seen(rs)| && Seen(rs)[i] == e && GroupsOf(rs)[i].first == t
  {
    var r :| r in rows && r.emoji == e && r.at == t;
    assert r in rs && e in Seen(rs);
    i :| 0 <= i < |Seen(rs)| && Seen(rs)[i] == e;
    FirstTimeInRows(rs, rows, e);
  }

  lemma DifferentEntries(a: seq<Summary>, b: seq<Summary>, i: nat)
    requires i < |a| && i < |b| && a[i].emoji != b[i].emoji
    ensures a != b
  {
  }

  /** Whatever order the database gives ties, both paths summarise the rows alike. */
  ghost predicate AlwaysAgree(rows: set<Row>, user: Id, uuids: Uuids) {
    forall rs, groups :: IsListing(rs, rows) && IsGrouped(groups, rows) ==>
      Modelled(groups, OwnKeys(rows, user, uuids), uuids) == Summarised(rs, user)
  }

  /**
    The two ways to summarise a message's reactions always give the same list (the same emojis in the same order, the
    same counts, the same Me flags) if and only if different emojis were first used at different times.
  */
  lemma SummariesAgreeIff(store: set<Row>, message: Id, user: Id, uuids: Uuids)
    requires Texts(uuids) && StoreOk(store)
    ensures AlwaysAgree(RowsOf(store, message), user, uuids) <==> DistinctFirsts(RowsOf(store, message))
  {
    var rows := RowsOf(store, message);
    assert forall r :: r in rows ==> Proper(r.emoji);
    if DistinctFirsts(rows) {
      forall rs, groups | IsListing(rs, rows) && IsGrouped(groups, rows)
        ensures Modelled(groups, OwnKeys(rows, user, uuids), uuids) == Summarised(rs, user)
      {
        SummariesAgree(rs, groups, rows, user, uuids);
      }
    } else {
      var e, f, t :| FirstIn(rows, e, t) && FirstIn(rows, f, t) && e != f;
      var rs, groups := TiesPart(rows, e, f, t, user, uuids);
    }
  }

  ghost predicate UsedBy(store: set<Row>, message: Id, e: Emoji, user: Id) {
    exists r :: r in store && r.message == message && r.emoji == e && r.user == user
  }

  ghost function UsersOf(store: set<Row>, message: Id, e: Emoji): set<Id> {
    set r | r in store && r.message == message && r.emoji == e :: r.user
  }

  /** The emoji was used before, or at the same time as, every use of the other one. */
  ghost predicate UsedFirst(store: set<Row>, message: Id, e: Emoji, f: Emoji) {
    exists r :: r in store && r.message == message && r.emoji == e
                && forall q :: q in store && q.message == message && q.emoji == f ==> r.at <= q.at
  }

  /**
    What a message's summaries say: one entry for every emoji used on it, and for no other, in the order of first use; the
    count is the number of users, and Me whether the asking user is one of them.
  */
  lemma SummariesAreExact(rs: seq<Row>, store: set<Row>, message: Id, user: Id)
    requires StoreOk(store) && IsListing(rs, RowsOf(store, message))
    ensures var ss := Summarised(rs, user);
            && (forall i, j :: 0 <= i < j < |ss| ==> ss[i].emoji != ss[j].emoji && UsedFirst(store, message, ss[i].emoji, ss[j].emoji))
            && (forall e, u :: UsedBy(store, message, e, u) ==> exists i :: 0 <= i < |ss| && ss[i].emoji == e)
            && (forall i :: 0 <= i < |ss| ==>
                  && ss[i].count == |UsersOf(store, message, ss[i].emoji)| > 0
                  && (ss[i].me <==> UsedBy(store, message, ss[i].emoji, user)))
  {
    var ss, rows := Summarised(rs, user), RowsOf(store, message);
    SeenInOrder(rs);
    forall i | 0 <= i < |ss|
      ensures ss[i].count == |UsersOf(store, message, ss[i].emoji)| > 0 && (ss[i].me <==> UsedBy(store, message, ss[i].emoji, user))
    {
      SummaryIsExact(rs, store, message, Seen(rs)[i], user);
    }
    forall i, j | 0 <= i < j < |ss| ensures UsedFirst(store, message, ss[i].emoji, ss[j].emoji) {
      FirstUse(rs, store, message, Seen(rs)[i], Seen(rs)[j]);
    }
    forall e, u | UsedBy(store, message, e, u) ensures exists i :: 0 <= i < |ss| && ss[i].emoji == e {
      var r :| r in store && r.message == message && r.emoji == e && r.user == u;
      assert r in rows && r in rs && e in Seen(rs);
      var i :| 0 <= i < |Seen(rs)| && Seen(rs)[i] == e;
      assert ss[i].emoji == e;
    }
  }

  lemma SummaryIsExact(rs: seq<Row>, store: set<Row>, message: Id, e: Emoji, user: Id)
    requires StoreOk(store) && IsListing(rs, RowsOf(store, message)) && e in Seen(rs)
    ensures Count(rs, e) == |UsersOf(store, message, e)| > 0
    ensures Reacted(rs, e, user) <==> UsedBy(store, message, e, user)
  {
    var rows := RowsOf(store, message);
    assert forall r :: r in rs <==> r in store && r.message == message by {
      assert forall r :: r in rs <==> r in rows;
    }
    CountIsUsers(rs, store, message, e);
    assert (set r | r in rs && r.emoji == e :: r.user) == UsersOf(store, message, e);
    var some :| some in rs && some.emoji == e;
    assert some.user in UsersOf(store, message, e);
  }

  lemma FirstUse(rs: seq<Row>, store: set<Row>, message: Id, e: Emoji, f: Emoji)
    requires IsListing(rs, RowsOf(store, message)) && e in Seen(rs) && f in Seen(rs) && FirstTime(rs, e) <= FirstTime(rs, f)
    ensures UsedFirst(store, message, e, f)
  {
    var rows := RowsOf(store, message);
    FirstTimeInRows(rs, rows, e);
    FirstTimeInRows(rs, rows, f);
    var r :| r in rows && r.emoji == e && r.at == FirstTime(rs, e);
    forall q | q in store && q.message == message && q.emoji == f ensures r.at <= q.at {
      assert q in rows;
    }
  }

  /** A user counts once per emoji: the count of a summary is the number of users who reacted. */
  lemma CountIsUsers(rs: seq<Row>, store: set<Row>, message: Id, e: Emoji)
    requires StoreOk(store) && IsListing(rs, RowsOf(store, message))
    ensures Count(rs, e) == |set r | r in rs && r.emoji == e :: r.user|
  {
    CountIsSetSize(rs, e);
    SameSize(With(rs, e), set r | r in rs && r.emoji == e :: r.user);
  }

  lemma {:induction false} SameSize(rows: set<Row>, users: set<Id>)
    requires forall r, q :: r in rows && q in rows && r.user == q.user ==> r == q
    requires users == set r | r in rows :: r.user
    ensures |rows| == |users|
    decreases |rows|
  {
    if rows != {} {
      var r := Member(rows);
      assert users - {r.user} == set q | q in rows - {r} :: q.user;
      SameSize(rows - {r}, users - {r.user});
    }
  }

  /** Without the guard on unicode emojis the two would part: a text "custom:x" would pass for the custom emoji x. */
  lemma UnguardedTextWouldClash(uuids: Uuids, id: Id)
    requires Texts(uuids)
    ensures var fake, custom := Emoji(None, Some(CUSTOM + uuids.text(id))), Emoji(Some(id), None);
            && !Proper(fake) && OwnKey(fake, uuids) == OwnKey(custom, uuids)
            && ParseEmojiParam(CUSTOM + uuids.text(id), uuids) != Some(fake)
  {
    var param := CUSTOM + uuids.text(id);
    assert HasPrefix(param, CUSTOM);
  }

  /** UUIDs read back as they were written. */
  ghost predicate ReadsBack(uuids: Uuids) {
    forall id: Id :: uuids.parse(uuids.text(id)) == Some(id)
  }

  /** The route parameter of a stored emoji is its lookup text, and parsing that text gives the emoji back. */
  lemma ParamRoundTrip(e: Emoji, uuids: Uuids)
    requires ReadsBack(uuids) && Proper(e)
    ensures ParseEmojiParam(OwnKey(e, uuids), uuids) == Some(e)
  {
    if e.id.Some? {
      var param := OwnKey(e, uuids);
      assert HasPrefix(param, CUSTOM) && param[|CUSTOM|..] == uuids.text(e.id.value);
    }
  }
}
