// Keyset pagination (mcps/e2e/src/records.ts:19-34, and ID's lists, apps/id/src/db/queries/lists.ts:35-53) while other
// callers insert, change and delete rows, and the loop that follows a list to its end
// (infra/ops/src/admin-api.ts:108-118).
module Records {
  import opened Options

  // A row by its place in the list's order. The records', oldest first, is the number its UUID's bytes write, as
  // PostgreSQL orders them; that of a row in ID's lists, newest first, is that number negated. Its columns are whatever
  // they are.
  datatype Row = Row(organisation: string, creator: string, title: string, createdAt: string, version: nat)
  type Table = map<int, Row>

  datatype Record = Record(id: int, organisation: string, creator: string, title: string, createdAt: string,
      version: nat)

  function RecordOf(id: int, row: Row): Record {
    Record(id, row.organisation, row.creator, row.title, row.createdAt, row.version)
  }

  // ---------- One page ----------

  predicate IsLeast(m: int, s: set<int>) {
    m in s && forall x :: x in s ==> m <= x
  }

  lemma SomeMember(s: set<int>)
    ensures s == {} || exists x :: x in s
  {
    if forall x :: x !in s {
      assert s == {};
    }
  }

  lemma {:induction false} LeastExists(s: set<int>)
    requires s != {}
    ensures exists m :: IsLeast(m, s)
  {
    SomeMember(s);
    var x :| x in s;
    var rest := s - {x};
    if rest == {} {
      assert s == {x};
      assert IsLeast(x, s);
    } else {
      LeastExists(rest);
      var m :| IsLeast(m, rest);
      LeastOfMore(s, x, m);
    }
  }

  lemma LeastOfMore(s: set<int>, x: int, m: int)
    requires x in s && IsLeast(m, s - {x})
    ensures IsLeast(if x < m then x else m, s)
  {
    forall y | y in s
      ensures x <= y || m <= y
    {
      assert y == x || y in s - {x};
    }
  }

  function Least(s: set<int>): (m: int)
    requires s != {}
    ensures m in s && forall x :: x in s ==> m <= x
  {
    LeastExists(s);
    var m :| IsLeast(m, s);
    m
  }

  // `order by id`.
  function Ordered(s: set<int>): seq<int> {
    if s == {} then [] else [Least(s)] + Ordered(s - {Least(s)})
  }

  // The caller's own rows past the cursor: the table's policy shows a caller their organisation's alone.
  function Past(t: Table, organisation: string, cursor: Option<int>): set<int> {
    set id | id in t && t[id].organisation == organisation && (cursor.Some? ==> cursor.value < id)
  }

  function RecordsOf(t: Table, ids: seq<int>): (r: seq<Record>)
    requires forall i :: 0 <= i < |ids| ==> ids[i] in t
    ensures |r| == |ids| && forall i :: 0 <= i < |ids| ==> r[i] == RecordOf(ids[i], t[ids[i]])
  {
    if ids == [] then [] else [RecordOf(ids[0], t[ids[0]])] + RecordsOf(t, ids[1..])
  }

  datatype Page = Page(items: seq<Record>, next: Option<int>, more: bool)
  datatype Answer = Listed(page: Page) | UnknownCursor | Unavailable

  // Whose rows, how many a page, and whether the cursor's own row must still be there: the records ask it
  // (mcps/e2e/src/records.ts:27-29), ID's lists do not (apps/id/src/db/queries/lists.ts:35-40).
  datatype Query = Query(organisation: string, limit: nat, strict: bool)

  // `getRecord` answering.
  predicate Known(t: Table, organisation: string, id: int) {
    id in t && t[id].organisation == organisation
  }

  function List(t: Table, q: Query, cursor: Option<int>): Answer
    requires q.limit >= 1
  {
    if q.strict && cursor.Some? && !Known(t, q.organisation, cursor.value) then UnknownCursor
    else
      var all := Ordered(Past(t, q.organisation, cursor));
      OrderedIs(Past(t, q.organisation, cursor));
      assert forall i :: 0 <= i < |all| ==> all[i] in all;
      var fetched := all[..if |all| < q.limit + 1 then |all| else q.limit + 1];
      var items := RecordsOf(t, fetched[..if |fetched| < q.limit then |fetched| else q.limit]);
      var more := |fetched| > q.limit;
      Listed(Page(items, if more then Some(items[|items| - 1].id) else None, more))
  }

  ghost predicate Ascending(s: seq<int>) {
    forall i, j :: 0 <= i < j < |s| ==> s[i] < s[j]
  }

  lemma NoneOrdered()
    ensures Ordered({}) == []
  {
  }

  lemma OrderedStep(s: set<int>)
    requires s != {}
    ensures Ordered(s) == [Least(s)] + Ordered(s - {Least(s)})
  {
  }

  lemma {:induction false} OrderedIs(s: set<int>)
    ensures Ascending(Ordered(s)) && |Ordered(s)| == |s| && forall x :: x in Ordered(s) <==> x in s
  {
    hide Ordered;
    NoneOrdered();
    if s != {} {
      var least := Least(s);
      var rest := Ordered(s - {least});
      OrderedStep(s);
      OrderedIs(s - {least});
      assert forall i :: 0 <= i < |rest| ==> rest[i] in rest;
      forall x
        ensures x in Ordered(s) <==> x in s
      {
        assert x in [least] + rest <==> x == least || x in rest;
      }
    }
  }

  // ---------- Following `next_cursor` ----------

  // One read of a list: what the table shows then, or no page.
  datatype Reading = Shown(table: Table) | Down

  function Answered(r: Reading, q: Query, cursor: Option<int>): Answer
    requires q.limit >= 1
  {
    if r.Down? then Unavailable else List(r.table, q, cursor)
  }

  // What a caller has when it stops: every item so far, how many pages were answered, and why it stopped.
  datatype End = Complete | Refused | Failed | Unanswered
  datatype Walk = Walk(items: seq<Record>, pages: nat, end: End)

  // The k-th page is read from `readings[k]`: between two reads the table may become any other.
  function Follow(readings: seq<Reading>, q: Query, cursor: Option<int>): Walk
    requires q.limit >= 1
    decreases |readings|
  {
    if readings == [] then Walk([], 0, Unanswered)
    else match Answered(readings[0], q, cursor)
      case UnknownCursor => Walk([], 0, Refused)
      case Unavailable => Walk([], 0, Failed)
      case Listed(page) =>
        if page.next.None? then Walk(page.items, 1, Complete)
        else
          var rest := Follow(readings[1..], q, page.next);
          Walk(page.items + rest.items, 1 + rest.pages, rest.end)
  }

  function Ids(items: seq<Record>): (ids: seq<int>)
    ensures |ids| == |items|
  {
    seq(|items|, i requires 0 <= i < |items| => items[i].id)
  }

  ghost predicate IsPast(ids: seq<int>, cursor: Option<int>) {
    cursor.Some? ==> forall i :: 0 <= i < |ids| ==> cursor.value < ids[i]
  }

  // A page's items are the first of the rows past the cursor; it has a next cursor when there are more.
  lemma PageItems(t: Table, q: Query, cursor: Option<int>)
    requires q.limit >= 1 && List(t, q, cursor).Listed?
    ensures var p, all := List(t, q, cursor).page, Ordered(Past(t, q.organisation, cursor));
            && |p.items| == (if |all| < q.limit then |all| else q.limit)
            && (forall i :: 0 <= i < |p.items| ==> all[i] in t && p.items[i] == RecordOf(all[i], t[all[i]]))
            && Ids(p.items) == all[..|p.items|] && p.more == (|all| > q.limit) && p.next == if |all| > q.limit
               then Some(all[q.limit - 1]) else None
  {
    hide Ordered;
    var all := Ordered(Past(t, q.organisation, cursor));
    OrderedIs(Past(t, q.organisation, cursor));
    assert forall i :: 0 <= i < |all| ==> all[i] in all;
  }

  lemma Prefix(all: seq<int>, n: nat)
    requires Ascending(all) && n <= |all|
    ensures Ascending(all[..n])
  {
  }

  // One page: ascending, past the cursor, of rows read.
  lemma PageAscends(t: Table, q: Query, cursor: Option<int>)
    requires q.limit >= 1 && List(t, q, cursor).Listed?
    ensures var p := List(t, q, cursor).page;
            && Ascending(Ids(p.items)) && IsPast(Ids(p.items), cursor)
            && (p.next.Some? ==> |p.items| == q.limit && p.next.value == p.items[q.limit - 1].id)
  {
    hide List, Ordered, Ascending;
    var all, p := Ordered(Past(t, q.organisation, cursor)), List(t, q, cursor).page;
    OrderedIs(Past(t, q.organisation, cursor));
    PageItems(t, q, cursor);
    Prefix(all, |p.items|);
    forall i | 0 <= i < |p.items|
      ensures Ids(p.items)[i] in Past(t, q.organisation, cursor)
    {
      assert Ids(p.items)[i] == all[i] && all[i] in all;
    }
    assert p.next.Some? ==> Ids(p.items)[q.limit - 1] == all[q.limit - 1];
  }

  lemma PageReads(t: Table, q: Query, cursor: Option<int>)
    requires q.limit >= 1 && List(t, q, cursor).Listed?
    ensures var p := List(t, q, cursor).page;
            forall i ::
              0 <= i < |p.items| ==>
                Known(t, q.organisation, p.items[i].id) && p.items[i] == RecordOf(p.items[i].id, t[p.items[i].id])
  {
    hide List, Ordered, Ascending, Ids;
    var all, p := Ordered(Past(t, q.organisation, cursor)), List(t, q, cursor).page;
    OrderedIs(Past(t, q.organisation, cursor));
    PageItems(t, q, cursor);
    forall i | 0 <= i < |p.items|
      ensures Known(t, q.organisation, p.items[i].id) && p.items[i] == RecordOf(p.items[i].id, t[p.items[i].id])
    {
      assert all[i] in all && p.items[i] == RecordOf(all[i], t[all[i]]);
    }
  }

  // What a page leaves out of the rows past its cursor lies past its last row, which is the next cursor.
  lemma PageLeaves(t: Table, q: Query, cursor: Option<int>, id: int)
    requires q.limit >= 1 && List(t, q, cursor).Listed? && id in Past(t, q.organisation, cursor)
    ensures var p := List(t, q, cursor).page; id in Ids(p.items) || (p.next.Some? && p.next.value < id)
  {
    var all, p := Ordered(Past(t, q.organisation, cursor)), List(t, q, cursor).page;
    OrderedIs(Past(t, q.organisation, cursor));
    PageItems(t, q, cursor);
    hide List, Ordered, Past;
    var k :| 0 <= k < |all| && all[k] == id;
    if k < q.limit {
      assert Ids(p.items)[k] == id;
    }
  }

  // However the table changes between pages, the ids come strictly ascending: none twice.
  lemma {:induction false} FollowAscends(readings: seq<Reading>, q: Query, cursor: Option<int>)
    requires q.limit >= 1
    ensures var ids := Ids(Follow(readings, q, cursor).items); Ascending(ids) && IsPast(ids, cursor)
    decreases |readings|
  {
    hide List;
    if readings != [] && Answered(readings[0], q, cursor).Listed? {
      PageAscends(readings[0].table, q, cursor);
      var page := Answered(readings[0], q, cursor).page;
      if page.next.Some? {
        FollowAscends(readings[1..], q, page.next);
        var rest := Follow(readings[1..], q, page.next);
        Joined(page.items, rest.items, cursor);
      }
    }
  }

  lemma Joined(a: seq<Record>, b: seq<Record>, cursor: Option<int>)
    requires Ascending(Ids(a)) && IsPast(Ids(a), cursor) && Ascending(Ids(b)) && a != []
             && IsPast(Ids(b), Some(a[|a| - 1].id))
    ensures Ids(a + b) == Ids(a) + Ids(b) && Ascending(Ids(a + b)) && IsPast(Ids(a + b), cursor)
  {
    var ids := Ids(a + b);
    assert forall i :: 0 <= i < |a| ==> Ids(a)[i] <= Ids(a)[|a| - 1];
    assert forall i :: 0 <= i < |b| ==> ids[|a| + i] == Ids(b)[i];
    assert forall i :: 0 <= i < |a| ==> ids[i] == Ids(a)[i];
  }

  // Each item is a row of the caller's organisation, as it stood in one of the tables read.
  lemma {:induction false} FollowReads(readings: seq<Reading>, q: Query, cursor: Option<int>, i: nat) returns (k: nat)
    requires q.limit >= 1 && i < |Follow(readings, q, cursor).items|
    ensures var w := Follow(readings, q, cursor); var id := w.items[i].id;
            k < w.pages <= |readings| && readings[k].Shown? && Known(readings[k].table, q.organisation, id)
            && var row := readings[k].table[id];
               w.items[i] == Record(id, row.organisation, row.creator, row.title, row.createdAt, row.version)
    decreases |readings|
  {
    hide List;
    PageReads(readings[0].table, q, cursor);
    var page := Answered(readings[0], q, cursor).page;
    k := 0;
    if page.next.Some? {
      PagesRead(readings[1..], q, page.next);
      if i >= |page.items| {
        k := FollowReads(readings[1..], q, page.next, i - |page.items|);
        k := k + 1;
      }
    }
  }

  lemma {:induction false} PagesRead(readings: seq<Reading>, q: Query, cursor: Option<int>)
    requires q.limit >= 1
    ensures Follow(readings, q, cursor).pages <= |readings|
    decreases |readings|
  {
    hide List;
    if readings != [] && Answered(readings[0], q, cursor).Listed? && Answered(readings[0], q, cursor).page.next.Some? {
      PagesRead(readings[1..], q, Answered(readings[0], q, cursor).page.next);
    }
  }

  // A traversal that completes returns every row of the caller's that was there throughout, and by `FollowAscends`
  // once.
  lemma {:induction false} CompleteHasThroughout(readings: seq<Reading>, q: Query, cursor: Option<int>, id: int)
    requires q.limit >= 1 && Follow(readings, q, cursor).end.Complete?
    requires Follow(readings, q, cursor).pages <= |readings|
    requires forall k ::
        0 <= k < Follow(readings, q, cursor).pages && readings[k].Shown? ==>
          id in Past(readings[k].table, q.organisation, cursor)
    ensures id in Ids(Follow(readings, q, cursor).items)
    decreases |readings|
  {
    hide List;
    assert id in Past(readings[0].table, q.organisation, cursor);
    PageLeaves(readings[0].table, q, cursor, id);
    var page := Answered(readings[0], q, cursor).page;
    if page.next.Some? {
      var w, rest := Follow(readings, q, cursor), Follow(readings[1..], q, page.next);
      assert Ids(w.items) == Ids(page.items) + Ids(rest.items);
      if id !in Ids(page.items) {
        forall k | 0 <= k < rest.pages && readings[1..][k].Shown?
          ensures id in Past(readings[1..][k].table, q.organisation, page.next)
        {
          assert readings[1..][k] == readings[k + 1];
          assert id in Past(readings[k + 1].table, q.organisation, cursor);
        }
        CompleteHasThroughout(readings[1..], q, page.next, id);
      }
    }
  }

  // The cursor after `items`: the last item's id, or the one the caller began with.
  function CursorAfter(items: seq<Record>, cursor: Option<int>): Option<int> {
    if items == [] then cursor else Some(items[|items| - 1].id)
  }

  // A traversal is refused exactly when the row of the cursor it sends is gone from the table that page is read from.
  lemma {:induction false} RefusedIff(readings: seq<Reading>, q: Query, cursor: Option<int>)
    requires q.limit >= 1
    ensures var w := Follow(readings, q, cursor);
            w.end.Refused? <==> && q.strict && !w.end.Complete? && w.pages < |readings| && readings[w.pages].Shown?
                                && CursorAfter(w.items, cursor).Some?
                                && !Known(readings[w.pages].table, q.organisation, CursorAfter(w.items, cursor).value)
    decreases |readings|
  {
    hide List;
    if readings != [] {
      if Answered(readings[0], q, cursor).Listed? {
        PageAscends(readings[0].table, q, cursor);
        var page := Answered(readings[0], q, cursor).page;
        if page.next.Some? {
          RefusedIff(readings[1..], q, page.next);
          var rest := Follow(readings[1..], q, page.next);
          assert CursorAfter(page.items + rest.items, cursor) == CursorAfter(rest.items, page.next);
        }
      } else if readings[0].Shown? {
        UnknownIs(readings[0].table, q, cursor);
      }
    }
  }

  lemma UnknownIs(t: Table, q: Query, cursor: Option<int>)
    requires q.limit >= 1
    ensures !List(t, q, cursor).Unavailable?
    ensures List(t, q, cursor).UnknownCursor? <==> q.strict && cursor.Some? && !Known(t, q.organisation, cursor.value)
  {
  }

  // ---------- A table nobody changes ----------

  function Above(s: set<int>, x: int): set<int> {
    set y | y in s && x < y
  }

  lemma {:induction false} PastSplits(s: set<int>, n: nat)
    requires n < |Ordered(s)|
    ensures Ordered(s)[n + 1..] == Ordered(Above(s, Ordered(s)[n]))
    decreases |s|
  {
    hide Ordered;
    NoneOrdered();
    var least, rest := Least(s), s - {Least(s)};
    OrderedStep(s);
    OrderedIs(rest);
    if n == 0 {
      assert rest == Above(s, least);
      assert Ordered(s)[1..] == Ordered(rest);
    } else {
      PastSplits(rest, n - 1);
      var x := Ordered(rest)[n - 1];
      assert Ordered(s)[n] == x && x in Ordered(rest);
      assert Above(rest, x) == Above(s, x);
      assert Ordered(s)[n + 1..] == Ordered(rest)[n..];
    }
  }

  // A page with no next one has every row past its cursor.
  lemma LastPage(t: Table, q: Query, cursor: Option<int>)
    requires q.limit >= 1 && List(t, q, cursor).Listed? && List(t, q, cursor).page.next.None?
    ensures Ids(List(t, q, cursor).page.items) == Ordered(Past(t, q.organisation, cursor))
  {
    PageItems(t, q, cursor);
  }

  lemma PastNext(t: Table, organisation: string, cursor: Option<int>, next: int)
    requires next in Past(t, organisation, cursor)
    ensures Past(t, organisation, Some(next)) == Above(Past(t, organisation, cursor), next)
            && Known(t, organisation, next)
  {
  }

  lemma OrderedSize(s: set<int>)
    ensures |Ordered(s)| == |s|
  {
    OrderedIs(s);
  }

  lemma OrderedHas(s: set<int>, i: nat)
    requires i < |Ordered(s)|
    ensures Ordered(s)[i] in s && |Ordered(s)| == |s|
  {
    OrderedIs(s);
    assert Ordered(s)[i] in Ordered(s);
  }

  lemma FirstAndRest(s: set<int>, n: nat)
    requires 0 < n <= |Ordered(s)|
    ensures var next := Ordered(s)[n - 1];
            next in s && Ordered(s)[..n] + Ordered(Above(s, next)) == Ordered(s) && |s| == n + |Above(s, next)|
            && |s| == |Ordered(s)|
  {
    hide *;
    PastSplits(s, n - 1);
    OrderedHas(s, n - 1);
    OrderedSize(Above(s, Ordered(s)[n - 1]));
    assert Ordered(s) == Ordered(s)[..n] + Ordered(s)[n..];
  }

  // A page with a next one has the first `limit`, and the rest are the rows past the next cursor.
  lemma NextPage(t: Table, q: Query, cursor: Option<int>, next: int)
    requires q.limit >= 1 && List(t, q, cursor).Listed? && List(t, q, cursor).page.next == Some(next)
    ensures Known(t, q.organisation, next)
            && |Past(t, q.organisation, Some(next))| + q.limit == |Past(t, q.organisation, cursor)| > q.limit
    ensures Ids(List(t, q, cursor).page.items) + Ordered(Past(t, q.organisation, Some(next)))
        == Ordered(Past(t, q.organisation, cursor))
  {
    hide *;
    PageItems(t, q, cursor);
    FirstAndRest(Past(t, q.organisation, cursor), q.limit);
    PastNext(t, q.organisation, cursor, next);
  }

  // What `n` pages hold.
  function Rows(limit: nat, n: nat): nat {
    if n == 0 then 0 else limit + Rows(limit, n - 1)
  }

  lemma FollowLast(readings: seq<Reading>, q: Query, cursor: Option<int>)
    requires q.limit >= 1 && readings != [] && Answered(readings[0], q, cursor).Listed?
    requires Answered(readings[0], q, cursor).page.next.None?
    ensures Follow(readings, q, cursor) == Walk(Answered(readings[0], q, cursor).page.items, 1, Complete)
  {
    hide List;
  }

  lemma FollowNext(readings: seq<Reading>, q: Query, cursor: Option<int>)
    requires q.limit >= 1 && readings != [] && Answered(readings[0], q, cursor).Listed?
    requires Answered(readings[0], q, cursor).page.next.Some?
    ensures var page, w := Answered(readings[0], q, cursor).page, Follow(readings, q, cursor);
            var rest := Follow(readings[1..], q, page.next);
            w.end == rest.end && Ids(w.items) == Ids(page.items) + Ids(rest.items)
  {
    hide List;
    var page := Answered(readings[0], q, cursor).page;
    var rest := Follow(readings[1..], q, page.next);
    assert Ids(page.items + rest.items) == Ids(page.items) + Ids(rest.items);
  }

  // On a table nobody changes, the pages joined are the caller's rows in order, whatever the q.limit, in as many pages
  // as that many rows fill.
  lemma {:induction false} FixedTable(readings: seq<Reading>, t: Table, q: Query, cursor: Option<int>)
    requires q.limit >= 1 && readings != [] && forall k :: 0 <= k < |readings| ==> readings[k] == Shown(t)
    requires (q.strict && cursor.Some? ==> Known(t, q.organisation, cursor.value))
             && |Past(t, q.organisation, cursor)| <= Rows(q.limit, |readings|)
    ensures var w := Follow(readings, q, cursor);
            w.end.Complete? && Ids(w.items) == Ordered(Past(t, q.organisation, cursor))
    decreases |readings|
  {
    hide List, Ordered, Past, Known, Follow, Ids;
    UnknownIs(t, q, cursor);
    var next := List(t, q, cursor).page.next;
    if next.None? {
      LastPage(t, q, cursor);
      FollowLast(readings, q, cursor);
    } else {
      NextPage(t, q, cursor, next.value);
      assert Rows(q.limit, 1) == q.limit + Rows(q.limit, 0);
      FollowNext(readings, q, cursor);
      FixedTable(readings[1..], t, q, next);
    }
  }

  // ---------- The loop ----------

  datatype Outcome = Items(items: seq<Record>) | Thrown

  // Every item of a list, page by page; any answer but a page throws.
  method ListAll(readings: seq<Reading>, q: Query) returns (r: Outcome)
    requires q.limit >= 1
    ensures var w := Follow(readings, q, None);
            r == if w.end.Complete? then Items(w.items) else Thrown
  {
    hide List;
    var items: seq<Record> := [];
    var cursor := None;
    var k := 0;
    while k < |readings|
      invariant k <= |readings|
      invariant var w, rest := Follow(readings, q, None), Follow(readings[k..], q, cursor);
                w.items == items + rest.items && w.end == rest.end
    {
      assert readings[k..][1..] == readings[k + 1..];
      var answer := Answered(readings[k], q, cursor);
      if !answer.Listed? {
        return Thrown;
      }
      items := items + answer.page.items;
      cursor := answer.page.next;
      if cursor.None? {
        return Items(items);
      }
      k := k + 1;
    }
    return Thrown;
  }
}
