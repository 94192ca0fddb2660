/** Keyset pagination of the chat library and the browser traces
    (db/services/chat-library.ts, db/services/browser-traces.ts). */
module Pagination {
  import opened Wrappers
  import LikePattern

  /** Instants in microseconds, as the database could hold them; session ids by their place in its collation. */
  datatype Row = Row(id: int, workspace: string, owner: string, archived: bool, pinned: bool, time: nat, title: string)
  {
    function Key(): Cursor { Cursor(pinned, time, id) }
  }

  datatype Cursor = Cursor(pinned: bool, time: nat, id: int)

  /** A table with its primary key. */
  type Table = set<Row>

  predicate Keyed(t: Table) { forall a, b | a in t && b in t && a.id == b.id :: a == b }

  /** `lt` on the three columns, false before true. */
  predicate Under(a: Cursor, b: Cursor) {
    (!a.pinned && b.pinned)
    || (a.pinned == b.pinned && (a.time < b.time || (a.time == b.time && a.id < b.id)))
  }

  /** A JavaScript Date, and so `toISOString`, stops at milliseconds. */
  function Millis(t: nat): nat { t - t % 1000 }

  predicate Aligned(t: Table) { forall r | r in t :: r.time % 1000 == 0 }

  function CursorAfter(r: Row): Cursor { Cursor(r.pinned, Millis(r.time), r.id) }

  // ---------------------------------------------------------------- ORDER BY

  lemma TopExists(s: Table)
    requires s != {} && Keyed(s)
    ensures exists m | m in s :: forall x | x in s :: x == m || Under(x.Key(), m.Key())
    decreases |s|
  {
    var a :| a in s;
    var rest := s - {a};
    if rest == {} {
      assert forall x | x in s :: x == a || x in rest;
    } else {
      TopExists(rest);
      var m :| m in rest && forall x | x in rest :: x == m || Under(x.Key(), m.Key());
      var top := if Under(m.Key(), a.Key()) then a else m;
      assert top in s;
      forall x | x in s ensures x == top || Under(x.Key(), top.Key()) {
        assert x == a || x in rest;
      }
    }
  }

  ghost function Top(s: Table): (m: Row)
    requires s != {} && Keyed(s)
    ensures m in s && forall x | x in s :: x == m || Under(x.Key(), m.Key())
  {
    TopExists(s);
    var m :| m in s && forall x | x in s :: x == m || Under(x.Key(), m.Key());
    m
  }

  /** The rows of a table in descending order of pinned, time, id. */
  ghost function Sorted(s: Table): seq<Row>
    requires Keyed(s)
    decreases |s|
  {
    if s == {} then [] else [Top(s)] + Sorted(s - {Top(s)})
  }

  predicate Descending(rows: seq<Row>) {
    forall i, j | 0 <= i < j < |rows| :: Under(rows[j].Key(), rows[i].Key())
  }

  lemma {:induction false} SortedFacts(s: Table)
    requires Keyed(s)
    ensures |Sorted(s)| == |s| && Descending(Sorted(s)) && forall r :: r in Sorted(s) <==> r in s
    decreases |s|
  {
    if s != {} {
      var m := Top(s);
      var rest := s - {m};
      SortedFacts(rest);
      AppendDescends([m], Sorted(rest));
    }
  }

  lemma AppendDescends(a: seq<Row>, b: seq<Row>)
    requires a != [] && Descending(a) && Descending(b)
    requires forall r | r in b :: Under(r.Key(), a[|a| - 1].Key())
    ensures Descending(a + b)
  {
    var all := a + b;
    forall i, j | 0 <= i < j < |all| ensures Under(all[j].Key(), all[i].Key()) {
      if i < |a| <= j {
        assert all[j] in b && (i < |a| - 1 ==> Under(a[|a| - 1].Key(), a[i].Key()));
      }
    }
  }

  function RowsUnder(s: Table, last: Row): Table { set r | r in s && Under(r.Key(), last.Key()) }

  /** Cutting a sorted table after its n-th row leaves the sorted rest below that row. */
  lemma {:induction false} SortedSplits(s: Table, n: nat)
    requires Keyed(s) && 0 < n <= |Sorted(s)|
    ensures Sorted(s) == Sorted(s)[..n] + Sorted(RowsUnder(s, Sorted(s)[n - 1]))
    decreases n
  {
    var m := Top(s);
    var tail := s - {m};
    if n == 1 {
      UnderTop(s);
    } else {
      var last := Sorted(tail)[n - 2];
      SortedFacts(tail);
      SortedSplits(tail, n - 1);
      assert last in Sorted(tail);
      UnderLower(s, last);
      ConsSplits(m, Sorted(tail), n, Sorted(RowsUnder(tail, last)));
    }
  }

  /** Putting an element in front moves a cut by one. */
  lemma ConsSplits<T>(m: T, tail: seq<T>, n: nat, rest: seq<T>)
    requires 1 < n <= |tail| + 1 && tail == tail[..n - 1] + rest
    ensures [m] + tail == ([m] + tail)[..n] + rest && ([m] + tail)[n - 1] == tail[n - 2]
  {
    var all := [m] + tail;
    assert all[..n] == [m] + tail[..n - 1];
  }

  /** Everything else is under the top row. */
  lemma UnderTop(s: Table)
    requires s != {} && Keyed(s)
    ensures RowsUnder(s, Top(s)) == s - {Top(s)}
  {
  }

  /** The top row is under no other. */
  lemma UnderLower(s: Table, last: Row)
    requires s != {} && Keyed(s) && last in s - {Top(s)}
    ensures RowsUnder(s, last) == RowsUnder(s - {Top(s)}, last)
  {
    assert Under(last.Key(), Top(s).Key());
  }

  // ---------------------------------------------------------------- one page

  datatype Page = Page(items: seq<Row>, next: Option<Cursor>)

  const CHAT_PAGE: nat := 30
  const TRACE_PAGE: nat := 25

  function Below(t: Table, visible: Row -> bool, cursor: Option<Cursor>): Table {
    set r | r in t && visible(r) && (cursor.Some? ==> Under(r.Key(), cursor.value))
  }

  ghost function ListPage(t: Table, visible: Row -> bool, size: nat, cursor: Option<Cursor>): Page
    requires Keyed(t) && size > 0
  {
    var all := Sorted(Below(t, visible, cursor));
    var rows := if |all| > size + 1 then all[..size + 1] else all;
    var items := if |rows| > size then rows[..size] else rows;
    Page(items, if |rows| > size then Some(CursorAfter(items[size - 1])) else None)
  }

  /** What a page holds, without its sorting: the first rows below the cursor, and whether any are left. */
  lemma PageFacts(t: Table, visible: Row -> bool, size: nat, cursor: Option<Cursor>)
    requires Keyed(t) && size > 0
    ensures var p := ListPage(t, visible, size, cursor);
            var below := Below(t, visible, cursor);
            && Descending(p.items) && |p.items| <= size
            && (forall r | r in p.items :: r in below)
            && (p.next.None? ==> forall r | r in below :: r in p.items)
            && (p.next.Some? ==>
                  && |p.items| == size && p.next.value == CursorAfter(p.items[size - 1])
                  && forall r | r in below :: r in p.items || Under(r.Key(), p.items[size - 1].Key()))
  {
    var below := Below(t, visible, cursor);
    var all := Sorted(below);
    SortedFacts(below);
    var p := ListPage(t, visible, size, cursor);
    assert p.items == if |all| > size then all[..size] else all;
    forall r | r in below && p.next.Some?
      ensures r in p.items || Under(r.Key(), p.items[size - 1].Key())
    {
      var i :| 0 <= i < |all| && all[i] == r;
      assert i < size ==> p.items[i] == r;
    }
  }

  // ---------------------------------------------------------------- following nextCursor over a changing table

  /** `tables[i]` is what the i-th request reads. */
  ghost function Listed(tables: seq<Table>, visible: Row -> bool, size: nat, cursor: Option<Cursor>): seq<Row>
    requires size > 0 && forall t | t in tables :: Keyed(t)
    decreases |tables|
  {
    if tables == [] then []
    else
      var p := ListPage(tables[0], visible, size, cursor);
      p.items + if p.next.Some? then Listed(tables[1..], visible, size, p.next) else []
  }

  ghost predicate Finished(tables: seq<Table>, visible: Row -> bool, size: nat, cursor: Option<Cursor>)
    requires size > 0 && forall t | t in tables :: Keyed(t)
    decreases |tables|
  {
    tables != []
    && var p := ListPage(tables[0], visible, size, cursor);
       p.next.None? || Finished(tables[1..], visible, size, p.next)
  }

  lemma {:induction false} ListedIsBelow(tables: seq<Table>, visible: Row -> bool, size: nat, cursor: Option<Cursor>, r: Row)
    requires size > 0 && forall t | t in tables :: Keyed(t) && Aligned(t)
    requires r in Listed(tables, visible, size, cursor)
    ensures visible(r) && (cursor.Some? ==> Under(r.Key(), cursor.value)) && exists t | t in tables :: r in t
    decreases |tables|
  {
    var p := ListPage(tables[0], visible, size, cursor);
    PageFacts(tables[0], visible, size, cursor);
    if r in p.items {
      assert r in tables[0];
    } else {
      ListedIsBelow(tables[1..], visible, size, p.next, r);
      var last := p.items[size - 1];
      assert last in p.items && last in tables[0];
      assert p.next.value == last.Key();
    }
  }

  /** The rows come out in strictly descending order of the keys they were read with. */
  lemma {:induction false} ListedDescends(tables: seq<Table>, visible: Row -> bool, size: nat, cursor: Option<Cursor>)
    requires size > 0 && forall t | t in tables :: Keyed(t) && Aligned(t)
    ensures Descending(Listed(tables, visible, size, cursor))
    decreases |tables|
  {
    if tables != [] {
      var p := ListPage(tables[0], visible, size, cursor);
      PageFacts(tables[0], visible, size, cursor);
      if p.next.Some? {
        var rest := Listed(tables[1..], visible, size, p.next);
        ListedDescends(tables[1..], visible, size, p.next);
        var last := p.items[size - 1];
        assert last in p.items && p.next.value == last.Key();
        forall r | r in rest ensures Under(r.Key(), last.Key()) {
          ListedIsBelow(tables[1..], visible, size, p.next, r);
        }
        AppendDescends(p.items, rest);
      }
    }
  }

  lemma {:induction false} UntouchedIsListed(tables: seq<Table>, visible: Row -> bool, size: nat, cursor: Option<Cursor>, r: Row)
    requires size > 0 && forall t | t in tables :: Keyed(t) && Aligned(t)
    requires Finished(tables, visible, size, cursor)
    requires visible(r) && (cursor.Some? ==> Under(r.Key(), cursor.value)) && forall t | t in tables :: r in t
    ensures r in Listed(tables, visible, size, cursor)
    decreases |tables|
  {
    var p := ListPage(tables[0], visible, size, cursor);
    PageFacts(tables[0], visible, size, cursor);
    assert r in Below(tables[0], visible, cursor);
    if r !in p.items {
      var last := p.items[size - 1];
      assert last in p.items && p.next.value == last.Key();
      UntouchedIsListed(tables[1..], visible, size, p.next, r);
    }
  }

  /** Whatever happens to other rows between pages, a row nobody touches is listed exactly once, in its place. */
  lemma UntouchedRowsAreListedOnce(tables: seq<Table>, visible: Row -> bool, size: nat, r: Row) returns (at: nat)
    requires size > 0 && (forall t | t in tables :: Keyed(t) && Aligned(t)) && Finished(tables, visible, size, None)
    requires visible(r) && forall t | t in tables :: r in t
    ensures var all := Listed(tables, visible, size, None);
            && Descending(all) && at < |all| && all[at] == r
            && forall k | 0 <= k < |all| && k != at :: all[k].id != r.id
  {
    var all := Listed(tables, visible, size, None);
    UntouchedIsListed(tables, visible, size, None, r);
    ListedDescends(tables, visible, size, None);
    at :| at < |all| && all[at] == r;
    forall k | 0 <= k < |all| && k != at ensures all[k].id != r.id {
      assert all[k] in all;
      ListedIsBelow(tables, visible, size, None, all[k]);
      var t :| t in tables && all[k] in t;
      assert r in t && Keyed(t);
      assert if k < at then Under(all[at].Key(), all[k].Key()) else Under(all[k].Key(), all[at].Key());
    }
  }

  // ---------------------------------------------------------------- frozen data

  function Copies(t: Table, n: nat): seq<Table> { seq(n, _ => t) }

  /** How many requests `n` rows take. */
  function Requests(n: nat, size: nat): (k: nat)
    requires size > 0
    ensures k > 0 && n <= k * size && (k > 1 ==> (k - 1) * size < n)
  {
    if n <= size then 1 else 1 + Requests(n - size, size)
  }

  lemma FullPage(t: Table, visible: Row -> bool, size: nat, cursor: Option<Cursor>)
    requires size > 0 && Keyed(t) && |Below(t, visible, cursor)| > size
    ensures var sorted := Sorted(Below(t, visible, cursor));
            && |sorted| > size && sorted[size - 1] in Below(t, visible, cursor)
            && ListPage(t, visible, size, cursor) == Page(sorted[..size], Some(CursorAfter(sorted[size - 1])))
  {
    SortedFacts(Below(t, visible, cursor));
    var sorted := Sorted(Below(t, visible, cursor));
    assert sorted[..size + 1][..size] == sorted[..size];
  }

  lemma FrozenStep(t: Table, visible: Row -> bool, size: nat, cursor: Option<Cursor>)
    requires size > 0 && Keyed(t) && Aligned(t) && |Below(t, visible, cursor)| > size
    ensures var p := ListPage(t, visible, size, cursor);
            var below := Below(t, visible, cursor);
            var rest := Below(t, visible, p.next);
            p.next.Some? && |rest| == |below| - size && Sorted(below) == p.items + Sorted(rest)
  {
    var below := Below(t, visible, cursor);
    FullPage(t, visible, size, cursor);
    var last := Sorted(below)[size - 1];
    SortedSplits(below, size);
    RowsUnderLast(t, visible, cursor, last);
    SortedFacts(below);
    SortedFacts(RowsUnder(below, last));
  }

  lemma RowsUnderLast(t: Table, visible: Row -> bool, cursor: Option<Cursor>, last: Row)
    requires last in Below(t, visible, cursor) && last.time % 1000 == 0
    ensures RowsUnder(Below(t, visible, cursor), last) == Below(t, visible, Some(CursorAfter(last)))
  {
    assert CursorAfter(last) == last.Key();
  }

  /** The first of `n` requests on frozen data, and the others. */
  lemma FirstRequest(t: Table, visible: Row -> bool, size: nat, cursor: Option<Cursor>, n: nat)
    requires size > 0 && Keyed(t) && n > 0
    ensures var p := ListPage(t, visible, size, cursor);
            && Listed(Copies(t, n), visible, size, cursor)
               == p.items + (if p.next.Some? then Listed(Copies(t, n - 1), visible, size, p.next) else [])
            && (Finished(Copies(t, n), visible, size, cursor)
                <==> p.next.None? || Finished(Copies(t, n - 1), visible, size, p.next))
  {
    assert Copies(t, n)[0] == t && Copies(t, n)[1..] == Copies(t, n - 1);
  }

  /** On frozen data the traversal ends, and its pages concatenate to the whole sorted, filtered table. */
  lemma {:induction false} FrozenTraversal(t: Table, visible: Row -> bool, size: nat, cursor: Option<Cursor>)
    requires size > 0 && Keyed(t) && Aligned(t)
    ensures var below := Below(t, visible, cursor);
            var requests := Copies(t, Requests(|below|, size));
            Finished(requests, visible, size, cursor) && Listed(requests, visible, size, cursor) == Sorted(below)
    decreases |Below(t, visible, cursor)|
  {
    var below := Below(t, visible, cursor);
    var p := ListPage(t, visible, size, cursor);
    FirstRequest(t, visible, size, cursor, Requests(|below|, size));
    if |below| > size {
      FrozenStep(t, visible, size, cursor);
      FrozenTraversal(t, visible, size, p.next);
    } else {
      SortedFacts(below);
      assert p.next == None && p.items == Sorted(below);
    }
  }

  // ---------------------------------------------------------------- why the columns keep milliseconds only

  /** Every frozen table whose timestamps are allowed is listed whole. */
  ghost predicate Complete(size: nat, allowed: nat -> bool)
    requires size > 0
  {
    forall t: Table, visible: Row -> bool, n: nat, r: Row |
      Keyed(t) && (forall x | x in t :: allowed(x.time)) && Finished(Copies(t, n), visible, size, None) && r in t && visible(r) ::
      r in Listed(Copies(t, n), visible, size, None)
  }

  function Block(n: nat, time: nat): Table { set i | 0 <= i < n :: Row(i, "", "", false, false, time, "") }

  lemma {:induction false} BlockSize(n: nat, time: nat)
    ensures |Block(n, time)| == n && Keyed(Block(n, time))
  {
    if n > 0 {
      BlockSize(n - 1, time);
      assert Block(n, time) == Block(n - 1, time) + {Row(n - 1, "", "", false, false, time, "")};
    }
  }

  /** One row more than a page, all at one instant finer than a millisecond: the last one is never listed. */
  lemma FinerInstantsLoseRows(size: nat, time: nat) returns (lost: Row)
    requires size > 0 && time % 1000 != 0
    ensures var t := Block(size + 1, time);
            var visible := (r: Row) => true;
            && Keyed(t) && lost in t && Finished(Copies(t, 2), visible, size, None)
            && lost !in Listed(Copies(t, 2), visible, size, None)
  {
    var t := Block(size + 1, time);
    var visible := (r: Row) => true;
    BlockSize(size + 1, time);
    assert Below(t, visible, None) == t;
    FullPage(t, visible, size, None);
    SortedFacts(t);
    var next := ListPage(t, visible, size, None).next;
    lost := Sorted(t)[size];
    assert lost in Sorted(t);
    assert lost !in Sorted(t)[..size];
    assert Below(t, visible, next) == {};
    assert ListPage(t, visible, size, next) == Page([], None);
    TwoPages(t, visible, size);
  }

  lemma TwoPages(t: Table, visible: Row -> bool, size: nat)
    requires size > 0 && Keyed(t) && ListPage(t, visible, size, None).next.Some?
    requires ListPage(t, visible, size, ListPage(t, visible, size, None).next) == Page([], None)
    ensures Finished(Copies(t, 2), visible, size, None)
    ensures Listed(Copies(t, 2), visible, size, None) == ListPage(t, visible, size, None).items
  {
    var p := ListPage(t, visible, size, None);
    FirstRequest(t, visible, size, None, 2);
    FirstRequest(t, visible, size, p.next, 1);
  }

  /** Paging loses nothing exactly when timestamps are whole milliseconds. */
  lemma CompleteIffMilliseconds(size: nat, allowed: nat -> bool)
    requires size > 0
    ensures Complete(size, allowed) <==> forall time: nat | allowed(time) :: time % 1000 == 0
  {
    if forall time: nat | allowed(time) :: time % 1000 == 0 {
      forall t: Table, visible: Row -> bool, n: nat, r: Row |
        Keyed(t) && (forall x | x in t :: allowed(x.time)) && Finished(Copies(t, n), visible, size, None) && r in t && visible(r)
        ensures r in Listed(Copies(t, n), visible, size, None)
      {
        assert Aligned(t);
        UntouchedIsListed(Copies(t, n), visible, size, None, r);
      }
    }
    if time: nat :| allowed(time) && time % 1000 != 0 {
      var _ := FinerInstantsLoseRows(size, time);
    }
  }

  // ---------------------------------------------------------------- the chat library and the traces

  function ChatFilter(fold: LikePattern.Fold, workspace: string, user: string, query: string, archived: bool): Row -> bool {
    (r: Row) => r.workspace == workspace && r.owner == user && r.archived == archived
                && (query == "" || LikePattern.Like(fold, LikePattern.Pattern(query), r.title))
  }

  function TraceFilter(workspace: string): Row -> bool {
    (r: Row) => r.workspace == workspace
  }

  /** Pinned rows come first, and among the pinned as among the others the newest, ties by descending id. */
  predicate PinnedThenNewest(rows: seq<Row>) {
    forall i, j | 0 <= i < j < |rows| ::
      && (rows[j].pinned ==> rows[i].pinned)
      && (rows[i].pinned == rows[j].pinned ==>
            rows[j].time < rows[i].time || (rows[j].time == rows[i].time && rows[j].id < rows[i].id))
  }

  /** The chat library lists exactly my chats whose title contains the query, each once and in order. */
  lemma ChatLibraryIsComplete(fold: LikePattern.Fold, t: Table, workspace: string, user: string, query: string, archived: bool)
    requires Keyed(t) && Aligned(t)
    ensures var filter := ChatFilter(fold, workspace, user, query, archived);
            var requests := Copies(t, Requests(|Below(t, filter, None)|, CHAT_PAGE));
            var all := Listed(requests, filter, CHAT_PAGE, None);
            && Finished(requests, filter, CHAT_PAGE, None) && Descending(all) && PinnedThenNewest(all)
            && forall r :: r in all <==> r in t && r.workspace == workspace && r.owner == user && r.archived == archived
                                         && LikePattern.Contains(fold, query, r.title)
  {
    var filter := ChatFilter(fold, workspace, user, query, archived);
    FrozenTraversal(t, filter, CHAT_PAGE, None);
    SortedFacts(Below(t, filter, None));
    forall r: Row ensures filter(r) <==> r.workspace == workspace && r.owner == user && r.archived == archived
                                         && LikePattern.Contains(fold, query, r.title)
    {
      LikePattern.PatternMeansContains(fold, query, r.title);
      LikePattern.EmptyQueryMatchesAll(fold, r.title);
    }
  }

  /** Traces have no pins; the two-column row comparison then lists a workspace newest first, whole. */
  lemma TraceListIsComplete(t: Table, workspace: string)
    requires Keyed(t) && Aligned(t) && forall r | r in t :: !r.pinned
    ensures var filter := TraceFilter(workspace);
            var requests := Copies(t, Requests(|Below(t, filter, None)|, TRACE_PAGE));
            var all := Listed(requests, filter, TRACE_PAGE, None);
            && Finished(requests, filter, TRACE_PAGE, None)
            && (forall r :: r in all <==> r in t && r.workspace == workspace)
            && (forall i, j | 0 <= i < j < |all| ::
                  all[j].time < all[i].time || (all[j].time == all[i].time && all[j].id < all[i].id))
  {
    var filter := TraceFilter(workspace);
    FrozenTraversal(t, filter, TRACE_PAGE, None);
    SortedFacts(Below(t, filter, None));
    var all := Sorted(Below(t, filter, None));
    forall i | 0 <= i < |all| ensures !all[i].pinned {
      assert all[i] in all;
    }
  }
}
