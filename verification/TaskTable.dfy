/** The tasks table as the list endpoint reads it: the query a filter is turned into and
    the pages a client gets by following next_cursor. */
module TaskTable {
  import opened Prelude
  import opened CacheKeys
  import opened Keyset

  datatype Row = Row(
    teamId: int,
    title: string,
    description: string,
    status: string,
    assignee: Option<int>,
    createdBy: int,
    createdAt: int,
    completedAt: Option<int>)

  datatype Task = Task(id: int, row: Row)

  type Table = map<int, Row>

  // --- what a filter asks for ---

  predicate Matches(row: Row, f: Filter) {
    && row.teamId == f.teamId
    && (f.status.Some? ==> row.status == f.status.value)
    && (f.assignee.Some? ==> row.assignee == f.assignee)
  }

  function Matching(table: Table, f: Filter): set<int> {
    set id | id in table && Matches(table[id], f)
  }

  /** What the filter names, on the rows' own columns. */
  lemma MatchingColumns(table: Table, f: Filter)
    ensures forall id :: id in Matching(table, f) <==>
      id in table && table[id].teamId == f.teamId
      && (f.status.Some? ==> table[id].status == f.status.value)
      && (f.assignee.Some? ==> table[id].assignee == Some(f.assignee.value))
  {
  }

  function ToTasks(table: Table, ids: seq<int>): (tasks: seq<Task>)
    requires forall i :: 0 <= i < |ids| ==> ids[i] in table
    ensures |tasks| == |ids|
    ensures forall i :: 0 <= i < |ids| ==> tasks[i] == Task(ids[i], table[ids[i]])
  {
    seq(|ids|, i requires 0 <= i < |ids| => Task(ids[i], table[ids[i]]))
  }

  lemma PageInTable(table: Table, f: Filter)
    requires f.limit >= 0
    ensures forall i :: 0 <= i < |Page(Matching(table, f), f.afterId, f.limit)| ==>
      Page(Matching(table, f), f.afterId, f.limit)[i] in table
  {
    PageRows(Matching(table, f), f.afterId, f.limit);
    var page := Page(Matching(table, f), f.afterId, f.limit);
    assert forall i :: 0 <= i < |page| ==> page[i] in page;
  }

  /** The matching tasks above the cursor, in id order, at most limit of them. */
  function Query(table: Table, f: Filter): seq<Task>
    requires f.limit >= 0
  {
    PageInTable(table, f);
    ToTasks(table, Page(Matching(table, f), f.afterId, f.limit))
  }

  // The page by position.
  lemma PagePlaces(ids: set<int>, after: int, limit: nat)
    ensures var page := Page(ids, after, limit);
      && (forall i, j :: 0 <= i < j < |page| ==> page[i] < page[j])
      && (forall i :: 0 <= i < |page| ==> page[i] in ids && page[i] > after)
      && (forall id :: id in ids && id > after ==>
           (exists i :: 0 <= i < |page| && page[i] == id) ||
           (|page| == limit && forall i :: 0 <= i < |page| ==> page[i] < id))
  {
    PageRows(ids, after, limit);
    hide Page;
    var page := Page(ids, after, limit);
    assert forall i :: 0 <= i < |page| ==> page[i] in page;
  }

  lemma QueryRows(table: Table, f: Filter, tasks: seq<Task>)
    requires f.limit >= 0 && tasks == Query(table, f)
    ensures |tasks| <= f.limit && forall i, j :: 0 <= i < j < |tasks| ==> tasks[i].id < tasks[j].id
    ensures forall i :: 0 <= i < |tasks| ==>
      tasks[i].id in Matching(table, f) && tasks[i].id > f.afterId
      && tasks[i].id in table && tasks[i].row == table[tasks[i].id]
    ensures forall id :: id in Matching(table, f) && id > f.afterId ==>
      (exists i :: 0 <= i < |tasks| && tasks[i].id == id) ||
      (|tasks| == f.limit && forall i :: 0 <= i < |tasks| ==> tasks[i].id < id)
  {
    hide Page, Matching, Matches, ToTasks;
    var ids := Matching(table, f);
    var page := Page(ids, f.afterId, f.limit);
    PageInTable(table, f);
    assert tasks == ToTasks(table, page);
    hide Query;
    PagePlaces(ids, f.afterId, f.limit);
    forall id | id in ids && id > f.afterId
      ensures (exists i :: 0 <= i < |tasks| && tasks[i].id == id) ||
              (|tasks| == f.limit && forall i :: 0 <= i < |tasks| ==> tasks[i].id < id)
    {
      if i :| 0 <= i < |page| && page[i] == id {
        assert tasks[i].id == id;
      }
    }
  }

  /** The page, on the rows' own columns: each task has what the filter names, ids ascend,
      and a row with all of it is left out only when the page is full with smaller ids. */
  lemma QueryColumns(table: Table, f: Filter, tasks: seq<Task>)
    requires f.limit >= 0 && tasks == Query(table, f)
    ensures |tasks| <= f.limit && forall i, j :: 0 <= i < j < |tasks| ==> tasks[i].id < tasks[j].id
    ensures forall i :: 0 <= i < |tasks| ==>
      var t := tasks[i];
      && t.id in table && t.row == table[t.id] && t.id > f.afterId && t.row.teamId == f.teamId
      && (f.status.Some? ==> t.row.status == f.status.value)
      && (f.assignee.Some? ==> t.row.assignee == Some(f.assignee.value))
    ensures forall id ::
      id in table && id > f.afterId && table[id].teamId == f.teamId
      && (f.status.Some? ==> table[id].status == f.status.value)
      && (f.assignee.Some? ==> table[id].assignee == Some(f.assignee.value)) ==>
        (exists i :: 0 <= i < |tasks| && tasks[i].id == id) ||
        (|tasks| == f.limit && forall i :: 0 <= i < |tasks| ==> tasks[i].id < id)
  {
    hide Query, Matching, Matches;
    QueryRows(table, f, tasks);
    MatchingColumns(table, f);
  }

  // --- the statement List builds ---

  datatype Cond = TeamIs(team: int) | StatusIs(status: string) | AssigneeIs(user: int) | IdAbove(id: int)

  predicate Holds(c: Cond, id: int, row: Row) {
    match c
    case TeamIs(team) => row.teamId == team
    case StatusIs(status) => row.status == status
    case AssigneeIs(user) => row.assignee == Some(user)
    case IdAbove(after) => id > after
  }

  predicate AllHold(conds: seq<Cond>, id: int, row: Row) {
    forall i :: 0 <= i < |conds| ==> Holds(conds[i], id, row)
  }

  lemma AllHoldAppend(conds: seq<Cond>, c: Cond)
    ensures forall id, row :: AllHold(conds + [c], id, row) <==> AllHold(conds, id, row) && Holds(c, id, row)
  {
    var more := conds + [c];
    forall id, row
      ensures AllHold(more, id, row) <==> AllHold(conds, id, row) && Holds(c, id, row)
    {
      assert more[|conds|] == c;
      assert forall i :: 0 <= i < |conds| ==> more[i] == conds[i];
    }
  }

  lemma NothingAsked()
    ensures forall id, row :: AllHold([], id, row)
  {
  }

  function Selected(table: Table, conds: seq<Cond>): set<int> {
    set id | id in table && AllHold(conds, id, table[id])
  }

  /** WHERE all of conds ORDER BY id LIMIT limit. */
  function Select(table: Table, conds: seq<Cond>, limit: nat): (ids: seq<int>)
    ensures forall i :: 0 <= i < |ids| ==> ids[i] in table
  {
    var all := SortedOf(Selected(table, conds));
    assert forall i :: 0 <= i < |all| ==> all[i] in all;
    if |all| <= limit then all else all[..limit]
  }

  /** Auto-increment ids start at 1. */
  predicate PositiveIds(table: Table) {
    forall id :: id in table ==> id >= 1
  }

  method List(table: Table, f: Filter) returns (tasks: seq<Task>)
    requires PositiveIds(table) && f.limit >= 0 && f.afterId >= 0
    ensures tasks == Query(table, f)
    ensures |tasks| <= f.limit && forall i, j :: 0 <= i < j < |tasks| ==> tasks[i].id < tasks[j].id
    ensures forall i :: 0 <= i < |tasks| ==>
      var t := tasks[i];
      && t.id in table && t.row == table[t.id] && t.id > f.afterId && t.row.teamId == f.teamId
      && (f.status.Some? ==> t.row.status == f.status.value)
      && (f.assignee.Some? ==> t.row.assignee == Some(f.assignee.value))
    ensures forall id ::
      id in table && id > f.afterId && table[id].teamId == f.teamId
      && (f.status.Some? ==> table[id].status == f.status.value)
      && (f.assignee.Some? ==> table[id].assignee == Some(f.assignee.value)) ==>
        (exists i :: 0 <= i < |tasks| && tasks[i].id == id) ||
        (|tasks| == f.limit && forall i :: 0 <= i < |tasks| ==> tasks[i].id < id)
  {
    tasks := Scan(table, f);
    hide Query;
    QueryColumns(table, f, tasks);
  }

  // Builds the statement, runs it and reads its rows.
  method Scan(table: Table, f: Filter) returns (tasks: seq<Task>)
    requires PositiveIds(table) && f.limit >= 0 && f.afterId >= 0
    ensures tasks == Query(table, f)
  {
    hide SortedOf, AllHold;
    var conds := [];
    NothingAsked();
    AllHoldAppend(conds, TeamIs(f.teamId));
    conds := conds + [TeamIs(f.teamId)];
    if f.status.Some? {
      AllHoldAppend(conds, StatusIs(f.status.value));
      conds := conds + [StatusIs(f.status.value)];
    }
    if f.assignee.Some? {
      AllHoldAppend(conds, AssigneeIs(f.assignee.value));
      conds := conds + [AssigneeIs(f.assignee.value)];
    }
    if f.afterId > 0 {
      AllHoldAppend(conds, IdAbove(f.afterId));
      conds := conds + [IdAbove(f.afterId)];
    }
    assert Selected(table, conds) == After(Matching(table, f), f.afterId);
    var rows := Select(table, conds, f.limit);
    tasks := [];
    for i := 0 to |rows|
      invariant tasks == ToTasks(table, rows[..i])
    {
      tasks := tasks + [Task(rows[i], table[rows[i]])];
    }
    assert rows[..|rows|] == rows;
  }

  // --- the handler's page ---

  function NextOf(tasks: seq<Task>, limit: int): Option<int> {
    if |tasks| == limit && tasks != [] then Some(tasks[|tasks| - 1].id) else None
  }

  lemma CursorOfPage(table: Table, f: Filter)
    requires f.limit >= 1
    ensures var tasks := Query(table, f);
      var next := NextOf(tasks, f.limit);
      && (next.Some? ==> next.value > f.afterId)
      && (next.None? ==> forall id :: id in Matching(table, f) && id > f.afterId ==> Task(id, table[id]) in tasks)
  {
    hide Page, Matches;
    var ids, tasks := Matching(table, f), Query(table, f);
    var page := Page(ids, f.afterId, f.limit);
    PageRows(ids, f.afterId, f.limit);
    assert forall i :: 0 <= i < |page| ==> page[i] in page && tasks[i].id == page[i];
    forall id | NextOf(tasks, f.limit).None? && id in ids && id > f.afterId
      ensures Task(id, table[id]) in tasks
    {
      var k :| 0 <= k < |page| && page[k] == id;
      assert tasks[k] == Task(id, table[id]);
    }
  }

  method ListPage(table: Table, f: Filter) returns (items: seq<Task>, nextCursor: Option<int>)
    requires PositiveIds(table) && ValidFilter(f)
    ensures items == Query(table, f)
    ensures nextCursor == NextOf(items, f.limit)
    ensures |items| <= f.limit && forall i, j :: 0 <= i < j < |items| ==> items[i].id < items[j].id
    ensures forall i :: 0 <= i < |items| ==>
      var t := items[i];
      && t.id in table && t.row == table[t.id] && t.id > f.afterId && t.row.teamId == f.teamId
      && (f.status.Some? ==> t.row.status == f.status.value)
      && (f.assignee.Some? ==> t.row.assignee == Some(f.assignee.value))
    ensures forall id ::
      id in table && id > f.afterId && table[id].teamId == f.teamId
      && (f.status.Some? ==> table[id].status == f.status.value)
      && (f.assignee.Some? ==> table[id].assignee == Some(f.assignee.value)) ==>
        (exists i :: 0 <= i < |items| && items[i].id == id) ||
        (|items| == f.limit && forall i :: 0 <= i < |items| ==> items[i].id < id)
    ensures nextCursor == if |items| == f.limit then Some(items[|items| - 1].id) else None
    ensures nextCursor.Some? ==> nextCursor.value > f.afterId
    ensures nextCursor.None? ==> forall id :: id in Matching(table, f) && id > f.afterId ==> Task(id, table[id]) in items
  {
    hide Query, Matching;
    var tasks := List(table, f);
    items, nextCursor := [], None;
    for i := 0 to |tasks|
      invariant items == tasks[..i]
    {
      items := items + [tasks[i]];
    }
    if |tasks| == f.limit {
      nextCursor := Some(tasks[|tasks| - 1].id);
    }
    CursorOfPage(table, f);
  }

  // --- following the cursors ---

  /** The pages of a client that keeps sending back the cursor it got, when request i
      finds the table as tables[i]. */
  function Browse(tables: seq<Table>, f: Filter): (pages: seq<seq<Task>>)
    requires f.limit >= 1
    ensures |pages| <= |tables|
  {
    if tables == [] then [] else
      var tasks := Query(tables[0], f);
      var next := NextOf(tasks, f.limit);
      [tasks] + (if next.Some? then Browse(tables[1..], f.(afterId := next.value)) else [])
  }

  predicate Finished(pages: seq<seq<Task>>, limit: int) {
    pages != [] && NextOf(pages[|pages| - 1], limit).None?
  }

  function TaskIds(tasks: seq<Task>): (ids: seq<int>)
    ensures |ids| == |tasks| && forall i :: 0 <= i < |ids| ==> ids[i] == tasks[i].id
  {
    seq(|tasks|, i requires 0 <= i < |tasks| => tasks[i].id)
  }

  function PageIds(pages: seq<seq<Task>>): (ids: seq<seq<int>>)
    ensures |ids| == |pages| && forall i :: 0 <= i < |ids| ==> ids[i] == TaskIds(pages[i])
  {
    seq(|pages|, i requires 0 <= i < |pages| => TaskIds(pages[i]))
  }

  function MatchingIn(tables: seq<Table>, f: Filter): (ids: seq<set<int>>)
    ensures |ids| == |tables| && forall i :: 0 <= i < |ids| ==> ids[i] == Matching(tables[i], f)
  {
    seq(|tables|, i requires 0 <= i < |tables| => Matching(tables[i], f))
  }

  lemma {:induction false} FlattenIds(pages: seq<seq<Task>>)
    ensures TaskIds(Flatten(pages)) == Flatten(PageIds(pages))
  {
    if pages != [] {
      var n := |pages| - 1;
      FlattenIds(pages[..n]);
      assert PageIds(pages)[..n] == PageIds(pages[..n]);
      assert TaskIds(Flatten(pages[..n]) + pages[n]) == TaskIds(Flatten(pages[..n])) + TaskIds(pages[n]);
    }
  }

  lemma QueryIds(table: Table, f: Filter)
    requires f.limit >= 1
    ensures TaskIds(Query(table, f)) == Page(Matching(table, f), f.afterId, f.limit)
    ensures NextOf(Query(table, f), f.limit) == NextCursor(Page(Matching(table, f), f.afterId, f.limit), f.limit)
  {
    PageInTable(table, f);
  }

  lemma BrowseUnrolls(tables: seq<Table>, f: Filter)
    requires f.limit >= 1 && tables != []
    ensures var page := Page(Matching(tables[0], f), f.afterId, f.limit);
      var next := NextCursor(page, f.limit);
      var rest := if next.Some? then Browse(tables[1..], f.(afterId := next.value)) else [];
      PageIds(Browse(tables, f)) == [page] + PageIds(rest)
  {
    hide Page, Matching, Query;
    QueryIds(tables[0], f);
    var pages := Browse(tables, f);
    assert PageIds(pages) == [TaskIds(pages[0])] + PageIds(pages[1..]);
  }

  lemma {:induction false} BrowseIsWalk(tables: seq<Table>, f: Filter)
    requires f.limit >= 1
    ensures PageIds(Browse(tables, f)) == Walk(MatchingIn(tables, f), f.afterId, f.limit)
    decreases |tables|
  {
    hide Page, Matching, Query, Browse, NextCursor;
    if tables == [] {
      NoTables(f);
    } else {
      BrowseUnrolls(tables, f);
      var next := NextCursor(Page(Matching(tables[0], f), f.afterId, f.limit), f.limit);
      if next.Some? {
        var g := f.(afterId := next.value);
        BrowseIsWalk(tables[1..], g);
        SameMatching(tables, f, g);
      }
    }
  }

  lemma NoTables(f: Filter)
    requires f.limit >= 1
    ensures Browse([], f) == []
  {
  }

  lemma FinishedIsComplete(pages: seq<seq<Task>>, limit: nat)
    requires limit >= 1
    ensures Finished(pages, limit) <==> Complete(PageIds(pages), limit)
  {
  }

  lemma SameMatching(tables: seq<Table>, f: Filter, g: Filter)
    requires tables != [] && g == f.(afterId := g.afterId)
    ensures MatchingIn(tables, f)[1..] == MatchingIn(tables[1..], g)
  {
    assert forall row :: Matches(row, f) <==> Matches(row, g);
    forall i | 0 <= i < |tables| - 1
      ensures MatchingIn(tables, f)[1..][i] == MatchingIn(tables[1..], g)[i]
    {
      assert Matching(tables[i + 1], f) == Matching(tables[i + 1], g);
    }
  }

  function Unchanged(table: Table, requests: nat): (tables: seq<Table>)
    ensures |tables| == requests && forall i :: 0 <= i < requests ==> tables[i] == table
  {
    seq(requests, _ => table)
  }

  /** Over an unchanging table the pages are the whole filtered list, in id order, cut
      into floor(n / limit) + 1 requests. */
  lemma {:induction false} BrowseWholeList(table: Table, f: Filter, requests: nat)
    requires f.limit >= 1
    requires requests >= Requests(|After(Matching(table, f), f.afterId)|, f.limit)
    ensures var pages := Browse(Unchanged(table, requests), f);
      && Finished(pages, f.limit)
      && |pages| == Requests(|After(Matching(table, f), f.afterId)|, f.limit)
      && TaskIds(Flatten(pages)) == SortedOf(After(Matching(table, f), f.afterId))
  {
    hide SortedOf, Matching, After, Browse, Walk, Finished, Complete;
    var tables := Unchanged(table, requests);
    BrowseIsWalk(tables, f);
    FinishedIsComplete(Browse(tables, f), f.limit);
    assert MatchingIn(tables, f) == Repeat(Matching(table, f), requests);
    WalkFixed(Matching(table, f), f.afterId, f.limit, requests);
    FlattenIds(Browse(tables, f));
  }

  /** Over a table that changes between the requests, a task that matches at every request
      of a finished walk is listed exactly once, and no task is listed twice. */
  lemma {:induction false} BrowseMovingTable(tables: seq<Table>, f: Filter, id: int)
    requires f.limit >= 1
    ensures var pages := Browse(tables, f);
      && Increasing(TaskIds(Flatten(pages)))
      && (id in TaskIds(Flatten(pages)) ==> id > f.afterId)
      && (Finished(pages, f.limit) && id > f.afterId && (forall k :: 0 <= k < |pages| ==> id in Matching(tables[k], f))
          ==> id in TaskIds(Flatten(pages)))
  {
    hide Matching, Browse, Walk, Finished, Complete;
    var pages := Browse(tables, f);
    BrowseIsWalk(tables, f);
    FinishedIsComplete(pages, f.limit);
    FlattenIds(pages);
    WalkIncreasing(MatchingIn(tables, f), f.afterId, f.limit);
    if Finished(pages, f.limit) && id > f.afterId && forall k :: 0 <= k < |pages| ==> id in Matching(tables[k], f) {
      WalkMissesNothing(MatchingIn(tables, f), f.afterId, f.limit, id);
    }
  }

  predicate Shows(tasks: seq<Task>, table: Table, f: Filter) {
    forall i :: 0 <= i < |tasks| ==>
      tasks[i].id in table && tasks[i].row == table[tasks[i].id] && Matches(tasks[i].row, f)
  }

  lemma QueryShows(table: Table, f: Filter)
    requires f.limit >= 1
    ensures Shows(Query(table, f), table, f)
  {
    hide Page, Matches;
    PageInTable(table, f);
    PageRows(Matching(table, f), f.afterId, f.limit);
    var page := Page(Matching(table, f), f.afterId, f.limit);
    assert forall i :: 0 <= i < |page| ==> page[i] in page;
  }

  /** What a page shows of a task is the task as the table had it then. */
  lemma {:induction false} BrowseShowsRows(tables: seq<Table>, f: Filter)
    requires f.limit >= 1
    ensures var pages := Browse(tables, f);
      forall k :: 0 <= k < |pages| ==> Shows(pages[k], tables[k], f)
  {
    hide Query;
    if tables != [] {
      QueryShows(tables[0], f);
      var next := NextOf(Query(tables[0], f), f.limit);
      if next.Some? {
        var g := f.(afterId := next.value);
        BrowseShowsRows(tables[1..], g);
        assert forall row :: Matches(row, f) <==> Matches(row, g);
      }
    }
  }
}
