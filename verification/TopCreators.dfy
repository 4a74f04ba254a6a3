/** The top-creators report: a page of active teams, each with its at most three best
    creators of the last month, and the cursor the handler works out from the rows alone. */
module TopCreators {
  import opened Prelude
  import opened Decimal
  import opened CacheKeys
  import opened TaskTable
  import opened Keyset

  const TOP: nat := 3

  datatype Creator = Creator(teamId: int, userId: int, tasksCreated: nat, rank: nat)

  // --- request parameters ---

  datatype Paging = Paging(afterId: int, limit: int) | BadPaging(error: string)

  function ParseCursorLimit(limitText: string, cursorText: string): Paging {
    var limit, cursor := ParseInt(limitText), ParseInt(cursorText);
    if limitText != "" && !(Positive(limit) && limit.value <= MAX_LIMIT) then BadPaging("limit must be 1..100")
    else if cursorText != "" && !Positive(cursor) then BadPaging("invalid cursor")
    else Paging(if cursorText == "" then 0 else cursor.value,
                if limitText == "" then DEFAULT_LIMIT else limit.value)
  }

  /** Which requests are refused, and what the others ask for. */
  lemma PagingDecides(limitText: string, cursorText: string)
    ensures var limit, cursor, r := ParseInt(limitText), ParseInt(cursorText), ParseCursorLimit(limitText, cursorText);
      && (r.Paging? <==>
            && (limitText == "" || (limit.Some? && 1 <= limit.value <= 100))
            && (cursorText == "" || (cursor.Some? && cursor.value >= 1)))
      && (r.Paging? ==>
            && r.limit == (if limitText == "" then 20 else limit.value)
            && r.afterId == (if cursorText == "" then 0 else cursor.value))
  {
    hide ParseInt;
  }

  /** A cursor the handler hands out is accepted when it comes back. */
  lemma CursorComesBack(limit: int, cursor: int)
    requires 1 <= limit <= MAX_LIMIT && Int64(cursor) && cursor >= 1
    ensures ParseCursorLimit(FormatInt(limit), FormatInt(cursor)) == Paging(cursor, limit)
  {
    RoundTrip(limit);
    RoundTrip(cursor);
    FormatIntChars(limit);
    FormatIntChars(cursor);
  }

  // --- grouping and ranking ---

  function ActiveTeams(table: Table, since: int): set<int> {
    set id | id in table && table[id].createdAt >= since :: table[id].teamId
  }

  /** The rows COUNT(*) counts for one team and author. */
  function CreatedBy(table: Table, since: int, team: int, user: int): set<int> {
    set id | id in table && table[id].createdAt >= since && table[id].teamId == team && table[id].createdBy == user
  }

  function CreatorIds(table: Table, since: int, team: int): set<int> {
    set id | id in table && table[id].createdAt >= since && table[id].teamId == team :: table[id].createdBy
  }

  function Counts(table: Table, since: int, team: int): map<int, nat> {
    map user | user in CreatorIds(table, since, team) :: |CreatedBy(table, since, team, user)|
  }

  /** ORDER BY cnt DESC, created_by. */
  predicate Outranks(counts: map<int, nat>, a: int, b: int)
    requires a in counts && b in counts
  {
    counts[a] > counts[b] || (counts[a] == counts[b] && a < b)
  }

  lemma {:induction false} BestExists(counts: map<int, nat>)
    requires counts.Keys != {}
    ensures exists best :: best in counts && forall u :: u in counts && u != best ==> Outranks(counts, best, u)
    decreases |counts.Keys|
  {
    Inhabited(counts.Keys);
    var x :| x in counts.Keys;
    var rest := counts - {x};
    assert rest.Keys == counts.Keys - {x};
    if rest.Keys == {} {
      assert forall u :: u in counts && u != x ==> u in rest.Keys;
    } else {
      BestExists(rest);
      var b :| b in rest && forall u :: u in rest && u != b ==> Outranks(rest, b, u);
      var best := if Outranks(counts, b, x) then b else x;
      forall u | u in counts && u != best
        ensures Outranks(counts, best, u)
      {
        if u != x && u != b {
          assert u in rest && Outranks(rest, b, u);
        }
      }
    }
  }

  function Best(counts: map<int, nat>): (best: int)
    requires counts.Keys != {}
    ensures best in counts && forall u :: u in counts && u != best ==> Outranks(counts, best, u)
  {
    BestExists(counts);
    BestUnique(counts);
    var best :| best in counts && forall u :: u in counts && u != best ==> Outranks(counts, best, u);
    best
  }

  lemma BestUnique(counts: map<int, nat>)
    ensures forall a, b :: a in counts && b in counts && Outranks(counts, a, b) ==> !Outranks(counts, b, a)
  {
  }

  /** ROW_NUMBER() OVER one team: its creators, best first. */
  function Ranked(counts: map<int, nat>): (users: seq<int>)
    ensures forall i :: 0 <= i < |users| ==> users[i] in counts
    ensures |users| == |counts.Keys|
    decreases |counts.Keys|
  {
    if counts.Keys == {} then [] else
      var best := Best(counts);
      var rest := counts - {best};
      assert rest.Keys == counts.Keys - {best};
      [best] + Ranked(rest)
  }

  lemma {:induction false} RankedInOrder(counts: map<int, nat>)
    ensures var users := Ranked(counts);
      && (forall i, j :: 0 <= i < j < |users| ==> Outranks(counts, users[i], users[j]))
      && (forall u :: u in counts ==> u in users)
    decreases |counts.Keys|
  {
    if counts.Keys != {} {
      var best := Best(counts);
      var rest := counts - {best};
      assert rest.Keys == counts.Keys - {best};
      RankedInOrder(rest);
      var users, others := Ranked(counts), Ranked(rest);
      assert users == [best] + others;
      forall i, j | 0 <= i < j < |users|
        ensures Outranks(counts, users[i], users[j])
      {
        assert users[j] == others[j - 1];
        if i > 0 {
          assert users[i] == others[i - 1] && Outranks(rest, others[i - 1], others[j - 1]);
        }
      }
      forall u | u in counts
        ensures u in users
      {
        assert u == best || u in rest;
      }
    }
  }

  function TeamRows(table: Table, since: int, team: int): (rows: seq<Creator>)
    ensures forall i :: 0 <= i < |rows| ==> rows[i].teamId == team
    ensures |rows| <= TOP
  {
    var counts := Counts(table, since, team);
    var users := Ranked(counts);
    seq(if |users| < TOP then |users| else TOP, i requires 0 <= i < |users| =>
      Creator(team, users[i], counts[users[i]], i + 1))
  }

  // The first three of a ranking, and who is behind them.
  lemma TopOfRanking(rows: seq<Creator>, users: seq<int>, counts: map<int, nat>)
    requires forall i :: 0 <= i < |users| ==> users[i] in counts
    requires forall i, j :: 0 <= i < j < |users| ==> Outranks(counts, users[i], users[j])
    requires forall u :: u in counts ==> u in users
    requires |rows| == if |users| < TOP then |users| else TOP
    requires forall i :: 0 <= i < |rows| ==> rows[i].userId == users[i]
    ensures forall i :: 0 <= i < |rows| ==> rows[i].userId in counts
    ensures forall i, j :: 0 <= i < j < |rows| ==> Outranks(counts, rows[i].userId, rows[j].userId)
    ensures forall u :: u in counts ==>
      (exists i :: 0 <= i < |rows| && rows[i].userId == u) ||
      (|rows| == TOP && forall i :: 0 <= i < |rows| ==> Outranks(counts, rows[i].userId, u))
  {
    hide Outranks;
    forall u | u in counts
      ensures (exists i :: 0 <= i < |rows| && rows[i].userId == u) ||
              (|rows| == TOP && forall i :: 0 <= i < |rows| ==> Outranks(counts, rows[i].userId, u))
    {
      var k :| 0 <= k < |users| && users[k] == u;
      if k < |rows| {
        assert rows[k].userId == u;
      }
    }
  }

  lemma TeamRowsCount(table: Table, since: int, team: int)
    ensures var rows, counts := TeamRows(table, since, team), Counts(table, since, team);
      && (forall i :: 0 <= i < |rows| ==>
           rows[i].userId in counts && rows[i].rank == i + 1 &&
           rows[i].tasksCreated == |CreatedBy(table, since, team, rows[i].userId)| > 0)
      && (rows == [] <==> team !in ActiveTeams(table, since))
  {
    hide Ranked, CreatedBy, ActiveTeams, Outranks;
    var rows := TeamRows(table, since, team);
    ActiveHasCreator(table, since, team);
    forall i | 0 <= i < |rows|
      ensures |CreatedBy(table, since, team, rows[i].userId)| > 0
    {
      CountedOnce(table, since, team, rows[i].userId);
    }
  }

  /** The rows of one team: its creators of the month in rank order, each with the number
      of tasks created; someone is left out only behind three who rank higher. */
  lemma TeamRowsAreBest(table: Table, since: int, team: int)
    ensures var rows, counts := TeamRows(table, since, team), Counts(table, since, team);
      && (forall i :: 0 <= i < |rows| ==>
           rows[i].userId in counts && rows[i].rank == i + 1 &&
           rows[i].tasksCreated == |CreatedBy(table, since, team, rows[i].userId)| > 0)
      && (forall i, j :: 0 <= i < j < |rows| ==> Outranks(counts, rows[i].userId, rows[j].userId))
      && (forall u :: u in counts ==>
           (exists i :: 0 <= i < |rows| && rows[i].userId == u) ||
           (|rows| == TOP && forall i :: 0 <= i < |rows| ==> Outranks(counts, rows[i].userId, u)))
      && (rows == [] <==> team !in ActiveTeams(table, since))
  {
    hide Ranked, CreatedBy, Outranks, ActiveTeams, Counts;
    TeamRowsCount(table, since, team);
    var counts := Counts(table, since, team);
    RankedInOrder(counts);
    TopOfRanking(TeamRows(table, since, team), Ranked(counts), counts);
  }

  lemma CountedOnce(table: Table, since: int, team: int, user: int)
    requires user in CreatorIds(table, since, team)
    ensures |CreatedBy(table, since, team, user)| > 0
  {
    var id :| id in table && table[id].createdAt >= since && table[id].teamId == team && table[id].createdBy == user;
    assert id in CreatedBy(table, since, team, user);
  }

  lemma ActiveHasCreator(table: Table, since: int, team: int)
    ensures Counts(table, since, team).Keys == {} <==> team !in ActiveTeams(table, since)
  {
    if team in ActiveTeams(table, since) {
      var id :| id in table && table[id].createdAt >= since && table[id].teamId == team;
      assert table[id].createdBy in Counts(table, since, team).Keys;
    } else {
      assert forall u :: u !in CreatorIds(table, since, team);
      assert Counts(table, since, team).Keys == {};
    }
  }

  // --- a page ---

  function RowsOf(table: Table, since: int, teams: seq<int>): seq<Creator> {
    if teams == [] then [] else
      RowsOf(table, since, teams[..|teams| - 1]) + TeamRows(table, since, teams[|teams| - 1])
  }

  function PageTeams(table: Table, since: int, afterId: int, limit: nat): seq<int> {
    Page(ActiveTeams(table, since), afterId, limit)
  }

  /** The rows of the query: ORDER BY team_id, rn. */
  function Report(table: Table, since: int, afterId: int, limit: nat): seq<Creator> {
    RowsOf(table, since, PageTeams(table, since, afterId, limit))
  }

  /** The handler's count of teams in the rows so far, and the last of them. */
  function Tally(rows: seq<Creator>): (t: (nat, int)) {
    if rows == [] then (0, 0) else
      var t, team := Tally(rows[..|rows| - 1]), rows[|rows| - 1].teamId;
      if team != t.1 then (t.0 + 1, team) else t
  }

  lemma {:induction false} TallyBlock(rows: seq<Creator>, block: seq<Creator>, team: int)
    requires block != [] && Tally(rows).1 != team
    requires forall i :: 0 <= i < |block| ==> block[i].teamId == team
    ensures Tally(rows + block) == (Tally(rows).0 + 1, team)
    decreases |block|
  {
    var n := |block| - 1;
    assert (rows + block)[..|rows| + n] == rows + block[..n];
    if n > 0 {
      TallyBlock(rows, block[..n], team);
    } else {
      assert rows + block[..n] == rows;
    }
  }

  lemma {:induction false} TallyCountsTeams(table: Table, since: int, teams: seq<int>)
    requires Increasing(teams)
    requires forall i :: 0 <= i < |teams| ==> teams[i] >= 1 && teams[i] in ActiveTeams(table, since)
    ensures Tally(RowsOf(table, since, teams)) == (|teams|, if teams == [] then 0 else teams[|teams| - 1])
  {
    hide ActiveTeams, TeamRows;
    if teams != [] {
      var n := |teams| - 1;
      TallyCountsTeams(table, since, teams[..n]);
      TeamRowsAreBest(table, since, teams[n]);
      TallyBlock(RowsOf(table, since, teams[..n]), TeamRows(table, since, teams[n]), teams[n]);
    }
  }

  predicate PositiveTeams(table: Table) {
    forall id :: id in table ==> table[id].teamId >= 1
  }

  function NextTeam(rows: seq<Creator>, limit: nat): Option<int> {
    var t := Tally(rows);
    if t.0 == limit then Some(t.1) else None
  }

  /** Counting changes of the team id from row to row counts the teams of the page, so
      the handler's cursor is that of the page of teams. */
  lemma CursorIsTeamCursor(table: Table, since: int, afterId: int, limit: nat)
    requires PositiveTeams(table) && limit >= 1
    ensures NextTeam(Report(table, since, afterId, limit), limit) ==
            NextCursor(PageTeams(table, since, afterId, limit), limit)
  {
    hide Page, Tally, RowsOf;
    PageRows(ActiveTeams(table, since), afterId, limit);
    var teams := PageTeams(table, since, afterId, limit);
    assert forall i :: 0 <= i < |teams| ==> teams[i] in teams;
    TallyCountsTeams(table, since, teams);
  }

  /** The count is that of the month's rows of the team and author, and it is a ranked one. */
  ghost predicate Counted(table: Table, since: int, c: Creator) {
    && c.tasksCreated == |set id | id in table && table[id].createdAt >= since
                                   && table[id].teamId == c.teamId && table[id].createdBy == c.userId| > 0
    && 1 <= c.rank <= 3
  }

  /** By team; within one by falling number of tasks, then by user, as the ranks say. */
  predicate Precedes(a: Creator, b: Creator) {
    a.teamId < b.teamId ||
    (&& a.teamId == b.teamId && a.rank < b.rank
     && (a.tasksCreated > b.tasksCreated || (a.tasksCreated == b.tasksCreated && a.userId < b.userId)))
  }

  lemma SameCount(table: Table, since: int, team: int, user: int)
    ensures CreatedBy(table, since, team, user) ==
      set id | id in table && table[id].createdAt >= since && table[id].teamId == team && table[id].createdBy == user
  {
  }

  lemma OrderedConcat(front: seq<Creator>, last: seq<Creator>, team: int)
    requires forall i, j :: 0 <= i < j < |front| ==> Precedes(front[i], front[j])
    requires forall i, j :: 0 <= i < j < |last| ==> Precedes(last[i], last[j])
    requires forall i :: 0 <= i < |front| ==> front[i].teamId < team
    requires forall i :: 0 <= i < |last| ==> last[i].teamId == team
    ensures forall i, j :: 0 <= i < j < |front + last| ==> Precedes((front + last)[i], (front + last)[j])
  {
    var rows := front + last;
    forall i, j | 0 <= i < j < |rows|
      ensures Precedes(rows[i], rows[j])
    {
      if i < |front| && j >= |front| {
        assert rows[i] == front[i] && rows[j] == last[j - |front|];
      }
    }
  }

  ghost predicate Sorted(table: Table, since: int, rows: seq<Creator>, teams: seq<int>) {
    && (forall i :: 0 <= i < |rows| ==> Counted(table, since, rows[i]))
    && (forall i :: 0 <= i < |rows| ==> rows[i].teamId in teams)
    && (forall i, j :: 0 <= i < j < |rows| ==> Precedes(rows[i], rows[j]))
  }

  lemma TeamRowsOrdered(table: Table, since: int, team: int)
    ensures Sorted(table, since, TeamRows(table, since, team), [team])
  {
    TeamRowsAreBest(table, since, team);
    hide TeamRows, ActiveTeams, Ranked;
    var rows, counts := TeamRows(table, since, team), Counts(table, since, team);
    forall i | 0 <= i < |rows|
      ensures Counted(table, since, rows[i]) && counts[rows[i].userId] == rows[i].tasksCreated
    {
      SameCount(table, since, rows[i].teamId, rows[i].userId);
    }
  }

  lemma SortedConcat(table: Table, since: int, front: seq<Creator>, teams: seq<int>, last: seq<Creator>, team: int)
    requires Sorted(table, since, front, teams) && Sorted(table, since, last, [team])
    requires forall x :: x in teams ==> x < team
    ensures Sorted(table, since, front + last, teams + [team])
  {
    hide Precedes, Counted;
    OrderedConcat(front, last, team);
  }

  lemma {:induction false} RowsOrdered(table: Table, since: int, teams: seq<int>)
    requires Increasing(teams)
    ensures Sorted(table, since, RowsOf(table, since, teams), teams)
  {
    hide TeamRows, Sorted;
    if teams == [] {
      NothingSorted(table, since);
    } else {
      var n := |teams| - 1;
      RowsOrdered(table, since, teams[..n]);
      TeamRowsOrdered(table, since, teams[n]);
      assert teams[..n] + [teams[n]] == teams;
      SortedConcat(table, since, RowsOf(table, since, teams[..n]), teams[..n], TeamRows(table, since, teams[n]), teams[n]);
    }
  }

  lemma NothingSorted(table: Table, since: int)
    ensures Sorted(table, since, [], [])
  {
  }

  // Where the rows of one team are.
  lemma {:induction false} BlockOf(table: Table, since: int, teams: seq<int>, k: nat) returns (o: nat)
    requires k < |teams|
    ensures var rows, block := RowsOf(table, since, teams), TeamRows(table, since, teams[k]);
      o + |block| <= |rows| && rows[o..o + |block|] == block
    decreases |teams|
  {
    hide TeamRows;
    var n := |teams| - 1;
    if k == n {
      o := |RowsOf(table, since, teams[..n])|;
    } else {
      o := BlockOf(table, since, teams[..n], k);
    }
  }

  /** Rows i, i + 1 and i + 2 are of the team and rank before this author. */
  predicate ThreeBefore(rows: seq<Creator>, i: int, team: int, count: nat, user: int) {
    0 <= i && i + 3 <= |rows| && forall j :: i <= j < i + 3 ==>
      rows[j].teamId == team &&
      (rows[j].tasksCreated > count || (rows[j].tasksCreated == count && rows[j].userId < user))
  }

  /** Someone who created a task of the team in the month is in the rows, or behind three
      of that team who are. */
  ghost predicate Represented(table: Table, since: int, rows: seq<Creator>, team: int, user: int) {
    var count := |set id | id in table && table[id].createdAt >= since
                           && table[id].teamId == team && table[id].createdBy == user|;
    || (exists i :: 0 <= i < |rows| && rows[i].teamId == team && rows[i].userId == user)
    || (exists i :: ThreeBefore(rows, i, team, count, user))
  }

  // The block of the team inside the rows.
  lemma BlockRepresents(rows: seq<Creator>, o: nat, block: seq<Creator>, counts: map<int, nat>, team: int, user: int)
    requires o + |block| <= |rows| && rows[o..o + |block|] == block && user in counts
    requires forall i :: 0 <= i < |block| ==>
      block[i].teamId == team && block[i].userId in counts && block[i].tasksCreated == counts[block[i].userId]
    requires (exists i :: 0 <= i < |block| && block[i].userId == user) ||
             (|block| == TOP && forall i :: 0 <= i < |block| ==> Outranks(counts, block[i].userId, user))
    ensures (exists i :: 0 <= i < |rows| && rows[i].teamId == team && rows[i].userId == user) ||
            (exists i :: ThreeBefore(rows, i, team, counts[user], user))
  {
    assert forall i :: 0 <= i < |block| ==> rows[o + i] == block[i];
    if i :| 0 <= i < |block| && block[i].userId == user {
      assert rows[o + i].userId == user;
    } else {
      forall j | o <= j < o + 3
        ensures rows[j].teamId == team &&
          (rows[j].tasksCreated > counts[user] || (rows[j].tasksCreated == counts[user] && rows[j].userId < user))
      {
        assert rows[j] == block[j - o];
      }
      assert ThreeBefore(rows, o, team, counts[user], user);
    }
  }

  lemma CountsAre(table: Table, since: int, team: int)
    ensures forall u :: u in CreatorIds(table, since, team) <==> u in Counts(table, since, team)
    ensures forall u | u in Counts(table, since, team) ::
      Counts(table, since, team)[u] ==
      |set id | id in table && table[id].createdAt >= since && table[id].teamId == team && table[id].createdBy == u|
    ensures forall i :: 0 <= i < |TeamRows(table, since, team)| ==>
      var c := TeamRows(table, since, team)[i];
      c.userId in Counts(table, since, team) && c.tasksCreated == Counts(table, since, team)[c.userId]
  {
    hide CreatorIds, Ranked;
    forall u
      ensures CreatedBy(table, since, team, u) ==
        set id | id in table && table[id].createdAt >= since && table[id].teamId == team && table[id].createdBy == u
    {
      SameCount(table, since, team, u);
    }
  }

  lemma PageRepresents(table: Table, since: int, teams: seq<int>, k: nat, user: int)
    requires k < |teams| && user in CreatorIds(table, since, teams[k])
    ensures Represented(table, since, RowsOf(table, since, teams), teams[k], user)
  {
    hide RowsOf, TeamRows, ActiveTeams, CreatorIds, Counts, CreatedBy, Outranks, ThreeBefore;
    var team := teams[k];
    var o := BlockOf(table, since, teams, k);
    TeamRowsAreBest(table, since, team);
    CountsAre(table, since, team);
    BlockRepresents(RowsOf(table, since, teams), o, TeamRows(table, since, team), Counts(table, since, team), team, user);
  }

  /** A page, on the table's own columns. */
  ghost predicate PageOf(table: Table, since: int, afterId: int, rows: seq<Creator>, next: Option<int>) {
    && (forall i :: 0 <= i < |rows| ==> rows[i].teamId > afterId && Counted(table, since, rows[i]))
    && (forall i, j :: 0 <= i < j < |rows| ==> Precedes(rows[i], rows[j]))
    && (forall id :: id in table && table[id].createdAt >= since && table[id].teamId > afterId ==>
         || Represented(table, since, rows, table[id].teamId, table[id].createdBy)
         || (next.Some? && next.value < table[id].teamId))
  }

  lemma TeamsOnPage(table: Table, since: int, afterId: int, limit: nat, id: int)
    requires limit >= 1 && id in table && table[id].createdAt >= since && table[id].teamId > afterId
    ensures var teams := PageTeams(table, since, afterId, limit);
      var next := NextCursor(teams, limit);
      || Represented(table, since, RowsOf(table, since, teams), table[id].teamId, table[id].createdBy)
      || (next.Some? && next.value < table[id].teamId)
  {
    hide RowsOf, Page, Represented;
    var teams, team := PageTeams(table, since, afterId, limit), table[id].teamId;
    PageRows(ActiveTeams(table, since), afterId, limit);
    assert team in ActiveTeams(table, since);
    if team in teams {
      var k :| 0 <= k < |teams| && teams[k] == team;
      PageRepresents(table, since, teams, k, table[id].createdBy);
    } else {
      assert teams[limit - 1] in teams;
    }
  }

  lemma ReportColumns(table: Table, since: int, afterId: int, limit: nat)
    requires limit >= 1
    ensures PageOf(table, since, afterId, Report(table, since, afterId, limit),
                   NextCursor(PageTeams(table, since, afterId, limit), limit))
  {
    hide RowsOf, Page, Counted, Precedes, Represented, NextCursor;
    var teams := PageTeams(table, since, afterId, limit);
    PageRows(ActiveTeams(table, since), afterId, limit);
    RowsOrdered(table, since, teams);
    forall id | id in table && table[id].createdAt >= since && table[id].teamId > afterId
      ensures || Represented(table, since, Report(table, since, afterId, limit), table[id].teamId, table[id].createdBy)
              || (NextCursor(teams, limit).Some? && NextCursor(teams, limit).value < table[id].teamId)
    {
      TeamsOnPage(table, since, afterId, limit, id);
    }
  }

  method ReportPage(table: Table, since: int, afterId: int, limit: nat)
    returns (items: seq<Creator>, nextCursor: Option<int>)
    requires PositiveTeams(table) && limit >= 1
    ensures items == Report(table, since, afterId, limit)
    ensures nextCursor == NextCursor(PageTeams(table, since, afterId, limit), limit)
    ensures PageOf(table, since, afterId, items, nextCursor)
    ensures nextCursor.Some? ==> items != [] && nextCursor.value == items[|items| - 1].teamId
  {
    ReportColumns(table, since, afterId, limit);
    hide Report, PageTeams, PageOf;
    var creators := Report(table, since, afterId, limit);
    var teams, lastTeam;
    items, teams, lastTeam := CountTeams(creators);
    nextCursor := None;
    if teams == limit {
      nextCursor := Some(lastTeam);
    }
    LastTeam(creators);
    hide Tally;
    CursorIsTeamCursor(table, since, afterId, limit);
  }

  // The handler's loop over the rows.
  method CountTeams(creators: seq<Creator>) returns (items: seq<Creator>, teams: nat, lastTeam: int)
    ensures items == creators && (teams, lastTeam) == Tally(creators)
  {
    items, teams, lastTeam := [], 0, 0;
    for i := 0 to |creators|
      invariant items == creators[..i]
      invariant (teams, lastTeam) == Tally(creators[..i])
    {
      assert creators[..i + 1][..i] == creators[..i];
      if creators[i].teamId != lastTeam {
        teams := teams + 1;
        lastTeam := creators[i].teamId;
      }
      items := items + [creators[i]];
    }
    assert creators[..|creators|] == creators;
  }

  lemma {:induction false} LastTeam(rows: seq<Creator>)
    ensures Tally(rows).1 == if rows == [] then 0 else rows[|rows| - 1].teamId
    ensures Tally(rows).0 > 0 ==> rows != []
  {
  }

  // --- the whole report ---

  function Browse(table: Table, since: int, afterId: int, limit: nat, requests: nat): (pages: seq<seq<Creator>>)
    requires limit >= 1
    decreases requests
  {
    if requests == 0 then [] else
      var rows := Report(table, since, afterId, limit);
      var next := NextTeam(rows, limit);
      [rows] + (if next.Some? then Browse(table, since, next.value, limit, requests - 1) else [])
  }

  lemma {:induction false} RowsOfConcat(table: Table, since: int, a: seq<int>, b: seq<int>)
    ensures RowsOf(table, since, a + b) == RowsOf(table, since, a) + RowsOf(table, since, b)
    decreases |b|
  {
    hide TeamRows;
    if b == [] {
      assert a + b == a;
    } else {
      var n := |b| - 1;
      assert (a + b)[..|a| + n] == a + b[..n];
      RowsOfConcat(table, since, a, b[..n]);
    }
  }

  lemma {:induction false} BrowseIsWalk(table: Table, since: int, afterId: int, limit: nat, requests: nat)
    requires PositiveTeams(table) && limit >= 1
    ensures var pages := Browse(table, since, afterId, limit, requests);
      var walk := Walk(Repeat(ActiveTeams(table, since), requests), afterId, limit);
      && |pages| == |walk|
      && (forall k :: 0 <= k < |pages| ==> pages[k] == RowsOf(table, since, walk[k]))
      && Flatten(pages) == RowsOf(table, since, Flatten(walk))
    decreases requests
  {
    hide Page, ActiveTeams, RowsOf, NextTeam, Walk, NextCursor;
    if requests > 0 {
      var teams := PageTeams(table, since, afterId, limit);
      var rows := Report(table, since, afterId, limit);
      WalkUnrolls(ActiveTeams(table, since), afterId, limit, requests);
      CursorIsTeamCursor(table, since, afterId, limit);
      var next := NextTeam(rows, limit);
      var rest: seq<seq<Creator>>, walk: seq<seq<int>> := [], [];
      if next.Some? {
        BrowseIsWalk(table, since, next.value, limit, requests - 1);
        rest := Browse(table, since, next.value, limit, requests - 1);
        walk := Walk(Repeat(ActiveTeams(table, since), requests - 1), next.value, limit);
      } else {
        NoRows(table, since);
      }
      FlattenFront(rows, rest);
      FlattenFront(teams, walk);
      RowsOfConcat(table, since, teams, Flatten(walk));
    } else {
      NoRows(table, since);
      EmptyWalk(ActiveTeams(table, since), afterId, limit);
    }
  }

  lemma NoRows(table: Table, since: int)
    ensures RowsOf(table, since, Flatten([])) == []
    ensures Flatten<Creator>([]) == []
  {
  }

  lemma EmptyWalk(ids: set<int>, after: int, limit: nat)
    ensures Walk(Repeat(ids, 0), after, limit) == []
  {
  }

  /** Following the cursors over an unchanging table lists every active team above the
      first cursor exactly once, in id order, with all its rows on one page, and takes
      floor(n / limit) + 1 requests for n teams. */
  lemma {:induction false} ReportListsEveryTeam(table: Table, since: int, afterId: int, limit: nat, requests: nat)
    requires PositiveTeams(table) && limit >= 1
    requires requests >= Requests(|After(ActiveTeams(table, since), afterId)|, limit)
    ensures var pages := Browse(table, since, afterId, limit, requests);
      var teams := Walk(Repeat(ActiveTeams(table, since), requests), afterId, limit);
      && Flatten(teams) == SortedOf(After(ActiveTeams(table, since), afterId))
      && |pages| == |teams| && (forall k :: 0 <= k < |pages| ==> pages[k] == RowsOf(table, since, teams[k]))
      && |pages| == Requests(|After(ActiveTeams(table, since), afterId)|, limit)
      && Flatten(pages) == RowsOf(table, since, SortedOf(After(ActiveTeams(table, since), afterId)))
  {
    hide Browse, Walk, SortedOf, After, RowsOf, ActiveTeams;
    BrowseIsWalk(table, since, afterId, limit, requests);
    WalkFixed(ActiveTeams(table, since), afterId, limit, requests);
  }
}
