/** The task repository over its tables and the service's transactions on top of it, one
    session at a time; TaskRuns has many sessions interleave. */
module TaskService {
  import opened Prelude
  import opened CacheKeys
  import opened TaskTable
  import opened TaskAudit
  import opened ListCache

  datatype Error = NotFound | Forbidden | NotTeamMember | Failed

  datatype Result<+T> = Ok(value: T) | Err(error: Error)

  /** The row takes the four fields of the input and keeps the rest; it is completed now
      when it turns done, as long ago as it was when it stays done, and else not. */
  predicate TakesInput(before: Row, after: Row, input: Input, now: int) {
    && after.title == input.title && after.description == input.description
    && after.status == input.status && after.assignee == input.assignee
    && after.teamId == before.teamId && after.createdBy == before.createdBy && after.createdAt == before.createdAt
    && (after.status != DONE ==> after.completedAt == None)
    && (after.status == DONE && before.status != DONE ==> after.completedAt == Some(now))
    && (after.status == DONE && before.status == DONE ==> after.completedAt == before.completedAt)
  }

  /** The entries are those of the task, all of them, as the rows under these ascending ids. */
  predicate InIdOrder(history: History, task: int, ids: seq<int>, entries: seq<Entry>) {
    && |ids| == |entries| && (forall i, j :: 0 <= i < j < |ids| ==> ids[i] < ids[j])
    && (forall i :: 0 <= i < |ids| ==> ids[i] in history && entries[i] == history[ids[i]] && entries[i].taskId == task)
    && (forall h :: h in history && history[h].taskId == task ==> h in ids)
  }

  class TaskRepo {
    var tasks: Table
    var history: History
    var members: Members
    var nextTask: int
    var nextChange: int
    var up: nat   // how many more statements the connection answers

    /** Auto-increment hands out ids above all those in use. */
    ghost predicate Counters()
      reads this
    {
      && (forall id :: id in tasks ==> id < nextTask)
      && (forall h :: h in history ==> h < nextChange && history[h].taskId in tasks)
    }

    /** One statement; false when it fails. */
    method Exec() returns (ok: bool)
      modifies this`up
      ensures ok <==> old(up) > 0
      ensures up == if ok then old(up) - 1 else 0
    {
      ok := up > 0;
      if ok {
        up := up - 1;
      }
    }

    method ById(id: int) returns (r: Result<Row>)
      modifies this`up
      ensures old(up) > 0 ==> up == old(up) - 1 && r == if id in tasks then Ok(tasks[id]) else Err(NotFound)
      ensures old(up) == 0 ==> r == Err(Failed)
    {
      var ok := Exec();
      if !ok {
        return Err(Failed);
      }
      r := if id in tasks then Ok(tasks[id]) else Err(NotFound);
    }

    method Insert(task: int, actor: int, group: string, changes: seq<FieldChange>) returns (ok: bool)
      requires forall h :: h in history ==> h < nextChange
      modifies this`history, this`nextChange, this`up
      ensures ok <==> old(up) >= |changes|
      ensures ok ==> up == old(up) - |changes| && nextChange == old(nextChange) + |changes|
      ensures ok ==> history == WithEntries(old(history), Numbered(old(nextChange), task, actor, group, changes))
      ensures nextChange >= old(nextChange)
    {
      ghost var from, was := nextChange, history;
      assert Numbered(from, task, actor, group, changes[..0]) == [];
      for i := 0 to |changes|
        invariant nextChange == from + i && up == old(up) - i
        invariant history == WithEntries(was, Numbered(from, task, actor, group, changes[..i]))
      {
        ok := Exec();
        if !ok {
          return false;
        }
        OneMore(was, from, task, actor, group, changes, i);
        history := history[nextChange := Entry(task, actor, group, changes[i])];
        nextChange := nextChange + 1;
      }
      assert changes[..|changes|] == changes;
      ok := true;
    }

    method Create(team: int, input: Input, actor: int, now: int, group: string, referenced: bool)
      returns (r: Result<int>)
      requires Counters()
      modifies this
      ensures r.Ok? <==> referenced && old(up) >= 2
      ensures old(up) > 0 && !referenced ==> r == Err(NotFound)
      ensures members == old(members) && nextTask >= old(nextTask) && nextChange >= old(nextChange)
      ensures r.Ok? ==>
        && r.value == old(nextTask) && r.value !in old(tasks) && nextTask == r.value + 1 && up == old(up) - 2
        && tasks == old(tasks)[r.value := NewRow(team, input, actor, now)]
        && history == WithEntries(old(history), Numbered(old(nextChange), r.value, actor, group, [CREATED_EVENT]))
        && nextChange == old(nextChange) + 1
    {
      var ok := Exec();
      if !ok {
        return Err(Failed);
      }
      if !referenced {
        return Err(NotFound);   // the team, the assignee or the author is not there: a foreign key
      }
      var id := nextTask;
      nextTask := nextTask + 1;
      tasks := tasks[id := NewRow(team, input, actor, now)];
      ok := Insert(id, actor, group, [CREATED_EVENT]);
      if !ok {
        return Err(Failed);
      }
      r := Ok(id);
    }

    method Update(actor: int, id: int, input: Input, now: int, group: string) returns (r: Result<Row>)
      requires Counters()
      modifies this
      ensures members == old(members) && nextTask == old(nextTask) && nextChange >= old(nextChange)
      ensures old(up) > 0 && id !in old(tasks) ==> r == Err(NotFound)
      ensures r.Ok? <==> id in old(tasks) && old(up) >= |Diff(old(tasks)[id], Edited(old(tasks)[id], input, now))| + 3
      ensures r.Ok? ==>
        var row := Edited(old(tasks)[id], input, now);
        var changes := Diff(old(tasks)[id], row);
        && r.value == row
        && tasks == old(tasks)[id := row]
        && history == WithEntries(old(history), Numbered(old(nextChange), id, actor, group, changes))
        && nextChange == old(nextChange) + |changes| && up == old(up) - |changes| - 3
    {
      var ok := Exec();
      if !ok {
        return Err(Failed);
      }
      if id !in tasks {
        return Err(NotFound);
      }
      var was := tasks[id];

      var completedAt := None;
      if input.status == DONE && was.status == DONE {
        completedAt := was.completedAt;
      } else if input.status == DONE {
        completedAt := Some(now);
      }
      ok := Exec();
      if !ok {
        return Err(Failed);
      }
      tasks := tasks[id := was.(title := input.title, description := input.description, status := input.status,
                                assignee := input.assignee, completedAt := completedAt)];

      var changes := [];
      changes := AddChange(changes, TITLE, was.title, input.title);
      changes := AddChange(changes, DESCRIPTION, was.description, input.description);
      changes := AddChange(changes, STATUS, was.status, input.status);
      changes := AddChange(changes, ASSIGNEE, FormatId(was.assignee), FormatId(input.assignee));
      ok := Insert(id, actor, group, changes);
      if !ok {
        return Err(Failed);
      }
      r := ById(id);
    }

    /** The task's rows in id order, each with its change, its author and its group. */
    method History(task: int) returns (r: Result<seq<Entry>>)
      modifies this`up
      ensures r.Ok? <==> old(up) > 0
      ensures r.Err? ==> r.error == Failed
      ensures r.Ok? ==>
        && |r.value| == |HistoryOf(history, task)|
        && forall i :: 0 <= i < |r.value| ==>
             && r.value[i].taskId == task && r.value[i].change == HistoryOf(history, task)[i]
             && r.value[i] == history[OrderedIds(history, task)[i]]
      ensures r.Ok? ==> exists ids :: InIdOrder(history, task, ids, r.value)
    {
      hide OrderedIds;
      var ok := Exec();
      if !ok {
        return Err(Failed);
      }
      var ids := OrderedIds(history, task);
      var entries := [];
      for i := 0 to |ids|
        invariant |entries| == i && forall j :: 0 <= j < i ==> entries[j] == history[ids[j]]
      {
        entries := entries + [history[ids[i]]];
      }
      assert InIdOrder(history, task, ids, entries);
      r := Ok(entries);
    }
  }

  class Tasks {
    const repo: TaskRepo
    const cache: TaskCache

    constructor (repo: TaskRepo, cache: TaskCache)
      ensures this.repo == repo && this.cache == cache
    {
      this.repo, this.cache := repo, cache;
    }

    method RequireAssigneeIsMember(team: int, assignee: Option<int>) returns (error: Option<Error>)
      modifies repo`up
      ensures assignee.None? ==> error.None? && repo.up == old(repo.up)
      ensures assignee.Some? && old(repo.up) > 0 ==>
        repo.up == old(repo.up) - 1 &&
        error == if (team, assignee.value) in repo.members then None else Some(NotTeamMember)
      ensures assignee.Some? && old(repo.up) == 0 ==> error == Some(Failed)
    {
      if assignee.None? {
        return None;
      }
      var ok := repo.Exec();
      if !ok {
        return Some(Failed);
      }
      error := if (team, assignee.value) in repo.members then None else Some(NotTeamMember);
    }

    /** Everything or nothing, as for an update; the new task starts its own history. */
    method Create(actor: int, team: int, input: Input, auth: Option<Error>, now: int, group: string,
                  referenced: bool, redisUp: bool)
      returns (r: Result<Row>)
      requires repo.Counters()
      modifies repo, cache
      ensures repo.Counters() && repo.members == old(repo.members)
      ensures r.Ok? <==>
        && auth.None? && referenced
        && (input.assignee.Some? ==> (team, input.assignee.value) in repo.members)
        && old(repo.up) >= 3 + (if input.assignee.Some? then 1 else 0)
      ensures r.Err? ==>
        repo.tasks == old(repo.tasks) && repo.history == old(repo.history) && cache.keys == old(cache.keys)
      ensures r.Ok? ==>
        var id := old(repo.nextTask);
        && r.value.teamId == team && r.value.createdBy == actor && r.value.createdAt == now
        && r.value.title == input.title && r.value.description == input.description
        && r.value.status == (if input.status == "" then TODO else input.status) && r.value.assignee == input.assignee
        && r.value.completedAt == (if input.status == DONE then Some(now) else None)
        && id !in old(repo.tasks) && repo.tasks == old(repo.tasks)[id := r.value]
        && HistoryOf(repo.history, id) == [CREATED_EVENT]
        && (forall h :: h in repo.history <==> h in old(repo.history) || h == old(repo.nextChange))
        && (forall h :: h in old(repo.history) ==> repo.history[h] == old(repo.history)[h])
        && repo.history[old(repo.nextChange)] == Entry(id, actor, group, FieldChange("created", "", ""))
        && (forall other :: other != id ==> HistoryOf(repo.history, other) == old(HistoryOf(repo.history, other)))
        && cache.keys == if redisUp then Bumped(old(cache.keys), team) else old(cache.keys)
    {
      hide WithEntries, Numbered, HistoryOf;
      if auth.Some? {
        return Err(auth.value);
      }
      var error := RequireAssigneeIsMember(team, input.assignee);
      if error.Some? {
        return Err(error.value);
      }
      var tasks, history := repo.tasks, repo.history;
      ghost var from := repo.nextChange;
      var id := repo.Create(team, input, actor, now, group, referenced);
      if id.Ok? {
        r := repo.ById(id.value);
      } else {
        r := Err(id.error);
      }
      if r.Err? {
        repo.tasks, repo.history := tasks, history;   // rollback
        return;
      }
      Begun(history, from, id.value, actor, group);
      cache.InvalidateTeam(team, redisUp);
    }

    /** The statements a successful update runs. */
    ghost function UpdateCost(was: Row, input: Input, now: int): nat {
      4 + (if input.assignee.Some? then 1 else 0) + |Diff(was, Edited(was, input, now))|
    }

    /** Everything or nothing: a failed update leaves the tables and the cache version as
        they were, a successful one writes the row, appends its changes to that task's
        history and to no other, and bumps the team's version afterwards. */
    method Update(actor: int, id: int, input: Input, auth: Option<Error>, now: int, group: string, redisUp: bool)
      returns (r: Result<Row>)
      requires repo.Counters()
      modifies repo, cache
      ensures r.Ok? ==> id in old(repo.tasks)
      // the new history rows: of this task, by this actor, in this group, one a moved field
      ensures r.Ok? ==>
        var was, from := old(repo.tasks)[id], old(repo.nextChange);
        var moved := (if was.title != input.title then 1 else 0) + (if was.description != input.description then 1 else 0)
                     + (if was.status != input.status then 1 else 0) + (if was.assignee != input.assignee then 1 else 0);
        && (forall h :: h in repo.history <==> h in old(repo.history) || from <= h < from + moved)
        && (forall h :: h in old(repo.history) ==> repo.history[h] == old(repo.history)[h])
        && (forall h :: from <= h < from + moved ==>
             repo.history[h].taskId == id && repo.history[h].changedBy == actor && repo.history[h].groupId == group)
        && (was.title != input.title ==>
             exists h :: from <= h < from + moved && repo.history[h].change == FieldChange("title", was.title, input.title))
        && (was.description != input.description ==>
             exists h :: from <= h < from + moved &&
               repo.history[h].change == FieldChange("description", was.description, input.description))
        && (was.status != input.status ==>
             exists h :: from <= h < from + moved && repo.history[h].change == FieldChange("status", was.status, input.status))
        && (was.assignee != input.assignee ==>
             exists h :: from <= h < from + moved &&
               repo.history[h].change == FieldChange("assignee_id", FormatId(was.assignee), FormatId(input.assignee)))
      ensures repo.Counters() && repo.members == old(repo.members)
      ensures r.Ok? <==>
        && id in old(repo.tasks) && auth.None?
        && (input.assignee.Some? ==> (old(repo.tasks)[id].teamId, input.assignee.value) in repo.members)
        && old(repo.up) >= UpdateCost(old(repo.tasks)[id], input, now)
      ensures r.Err? ==>
        repo.tasks == old(repo.tasks) && repo.history == old(repo.history) && cache.keys == old(cache.keys)
      ensures r.Ok? ==>
        var was := old(repo.tasks)[id];
        && TakesInput(was, r.value, input, now)
        && repo.tasks == old(repo.tasks)[id := r.value]
        && HistoryOf(repo.history, id) == old(HistoryOf(repo.history, id)) + Diff(was, r.value)
        && (forall other :: other != id ==> HistoryOf(repo.history, other) == old(HistoryOf(repo.history, other)))
        && cache.keys == if redisUp then Bumped(old(cache.keys), was.teamId) else old(cache.keys)
      ensures old(repo.up) > 0 && id !in old(repo.tasks) ==> r == Err(NotFound)
      ensures old(repo.up) > 0 && id in old(repo.tasks) && auth.Some? ==> r == Err(auth.value)
    {
      var tasks, history := repo.tasks, repo.history;
      r := UpdateInTx(actor, id, input, auth, now, group);
      if r.Err? {
        repo.tasks, repo.history := tasks, history;   // rollback
        return;
      }
      cache.InvalidateTeam(r.value.teamId, redisUp);
    }

    method UpdateInTx(actor: int, id: int, input: Input, auth: Option<Error>, now: int, group: string)
      returns (r: Result<Row>)
      requires repo.Counters()
      modifies repo
      ensures repo.members == old(repo.members) && repo.nextTask == old(repo.nextTask)
      ensures repo.nextChange >= old(repo.nextChange)
      ensures r.Ok? <==>
        && id in old(repo.tasks) && auth.None?
        && (input.assignee.Some? ==> (old(repo.tasks)[id].teamId, input.assignee.value) in repo.members)
        && old(repo.up) >= UpdateCost(old(repo.tasks)[id], input, now)
      ensures r.Ok? ==>
        var was := old(repo.tasks)[id];
        && r.value == Edited(was, input, now)
        && repo.tasks == old(repo.tasks)[id := r.value]
        && HistoryOf(repo.history, id) == old(HistoryOf(repo.history, id)) + Diff(was, r.value)
        && (forall other :: other != id ==> HistoryOf(repo.history, other) == old(HistoryOf(repo.history, other)))
        && repo.Counters()
      ensures r.Ok? ==>
        Records(old(repo.history), repo.history, old(repo.nextChange), id, actor, group, old(repo.tasks)[id], input)
      ensures old(repo.up) > 0 && id !in old(repo.tasks) ==> r == Err(NotFound)
      ensures old(repo.up) > 0 && id in old(repo.tasks) && auth.Some? ==> r == Err(auth.value)
    {
      hide Diff, Edited, WithEntries, Numbered, HistoryOf, Records;
      var current := repo.ById(id);
      if current.Err? {
        return current;
      }
      if auth.Some? {
        return Err(auth.value);
      }
      var error := RequireAssigneeIsMember(current.value.teamId, input.assignee);
      if error.Some? {
        return Err(error.value);
      }
      ghost var was, from := repo.history, repo.nextChange;
      r := repo.Update(actor, id, input, now, group);
      if r.Ok? {
        Recorded(was, from, id, actor, group, current.value, input, now);
        AfterInsert(was, from, id, actor, group, Diff(current.value, r.value));
        CountersAfter(was, from, id, actor, group, Diff(current.value, r.value));
      }
    }
  }

  function Moved(was: Row, input: Input): nat {
    (if was.title != input.title then 1 else 0) + (if was.description != input.description then 1 else 0)
    + (if was.status != input.status then 1 else 0) + (if was.assignee != input.assignee then 1 else 0)
  }

  /** The history has the rows it had, and one new one for each field that moved. */
  ghost predicate Records(before: History, after: History, from: int, id: int, actor: int, group: string, was: Row, input: Input) {
    var to := from + Moved(was, input);
    && (forall h :: h in after <==> h in before || from <= h < to)
    && (forall h :: h in before ==> after[h] == before[h])
    && (forall h :: from <= h < to ==> after[h].taskId == id && after[h].changedBy == actor && after[h].groupId == group)
    && (was.title != input.title ==>
          exists h :: from <= h < to && after[h].change == FieldChange("title", was.title, input.title))
    && (was.description != input.description ==>
          exists h :: from <= h < to && after[h].change == FieldChange("description", was.description, input.description))
    && (was.status != input.status ==>
          exists h :: from <= h < to && after[h].change == FieldChange("status", was.status, input.status))
    && (was.assignee != input.assignee ==>
          exists h :: from <= h < to &&
            after[h].change == FieldChange("assignee_id", FormatId(was.assignee), FormatId(input.assignee)))
  }

  lemma ChangeIsThere(after: History, from: int, changes: seq<FieldChange>, change: FieldChange)
    requires forall i :: 0 <= i < |changes| ==> from + i in after && after[from + i].change == changes[i]
    requires change in changes
    ensures exists h :: from <= h < from + |changes| && h in after && after[h].change == change
  {
    var i :| 0 <= i < |changes| && changes[i] == change;
    assert after[from + i].change == change;
  }

  lemma ChangesAreThere(before: History, from: int, id: int, actor: int, group: string, changes: seq<FieldChange>)
    requires forall h :: h in before ==> h < from
    ensures var after := WithEntries(before, Numbered(from, id, actor, group, changes));
      && (forall h | from <= h < from + |changes| ::
           h in after && after[h].taskId == id && after[h].changedBy == actor && after[h].groupId == group)
      && (forall change :: change in changes ==>
           exists h :: from <= h < from + |changes| && h in after && after[h].change == change)
  {
    hide WithEntries, Numbered;
    var after := WithEntries(before, Numbered(from, id, actor, group, changes));
    InsertedRows(before, from, id, actor, group, changes);
    forall h | from <= h < from + |changes|
      ensures h in after && after[h] == Entry(id, actor, group, changes[h - from])
    {
      var i := h - from;
      assert after[from + i] == Entry(id, actor, group, changes[i]);
    }
    forall change | change in changes
      ensures exists h :: from <= h < from + |changes| && h in after && after[h].change == change
    {
      ChangeIsThere(after, from, changes, change);
    }
  }

  lemma Recorded(before: History, from: int, id: int, actor: int, group: string, was: Row, input: Input, now: int)
    requires forall h :: h in before ==> h < from
    ensures var changes := Diff(was, Edited(was, input, now));
      Records(before, WithEntries(before, Numbered(from, id, actor, group, changes)), from, id, actor, group, was, input)
  {
    var row := Edited(was, input, now);
    var changes := Diff(was, row);
    DiffMoves(was, row);
    assert |changes| == Moved(was, input);
    hide Diff, WithEntries, Numbered, FormatId, Edited, Moved;
    InsertedRows(before, from, id, actor, group, changes);
    ChangesAreThere(before, from, id, actor, group, changes);
  }

  /** A history begins with the one row of the creation. */
  lemma Begun(history: History, from: int, task: int, actor: int, group: string)
    requires forall h :: h in history ==> h < from && history[h].taskId != task
    ensures var more := WithEntries(history, Numbered(from, task, actor, group, [CREATED_EVENT]));
      && HistoryOf(more, task) == [CREATED_EVENT]
      && (forall other :: other != task ==> HistoryOf(more, other) == HistoryOf(history, other))
      && (forall h :: h in more <==> h in history || h == from)
      && (forall h :: h in history ==> more[h] == history[h])
      && from in more && more[from] == Entry(task, actor, group, CREATED_EVENT)
  {
    hide WithEntries, Numbered, HistoryOf;
    var more := WithEntries(history, Numbered(from, task, actor, group, [CREATED_EVENT]));
    InsertedRows(history, from, task, actor, group, [CREATED_EVENT]);
    var i := 0;
    assert from + i in more && more[from + i] == Entry(task, actor, group, [CREATED_EVENT][i]);
    AfterInsert(history, from, task, actor, group, [CREATED_EVENT]);
    NoHistory(history, task);
    assert [] + [CREATED_EVENT] == [CREATED_EVENT];
  }

  lemma NoHistory(history: History, task: int)
    requires forall h :: h in history ==> history[h].taskId != task
    ensures HistoryOf(history, task) == []
  {
    assert forall h :: h !in EntryIds(history, task);
    assert EntryIds(history, task) == {};
  }

  lemma AfterInsert(history: History, from: int, task: int, actor: int, group: string, changes: seq<FieldChange>)
    requires forall h :: h in history ==> h < from
    ensures var more := WithEntries(history, Numbered(from, task, actor, group, changes));
      && HistoryOf(more, task) == HistoryOf(history, task) + changes
      && forall other :: other != task ==> HistoryOf(more, other) == HistoryOf(history, other)
  {
    hide WithEntries, HistoryOf;
    var entries := Numbered(from, task, actor, group, changes);
    NumberedFresh(history, from, task, actor, group, changes);
    HistoryAppends(history, entries, task);
    forall other | other != task
      ensures HistoryOf(WithEntries(history, entries), other) == HistoryOf(history, other)
    {
      HistoryElsewhere(history, entries, task, other);
    }
  }

  lemma CountersAfter(history: History, from: int, task: int, actor: int, group: string, changes: seq<FieldChange>)
    requires forall h :: h in history ==> h < from
    ensures var more := WithEntries(history, Numbered(from, task, actor, group, changes));
      forall h :: h in more ==> h < from + |changes| && (if h in history then more[h] == history[h] else more[h].taskId == task)
  {
    hide WithEntries;
    var entries := Numbered(from, task, actor, group, changes);
    NumberedFresh(history, from, task, actor, group, changes);
    forall h | h in WithEntries(history, entries)
      ensures h < from + |changes|
      ensures if h in history then WithEntries(history, entries)[h] == history[h]
              else WithEntries(history, entries)[h].taskId == task
    {
      if h in history {
        EntriesKeep(history, entries, task, h);
      } else {
        EntriesAddNoMore(history, entries, h);
        var i :| 0 <= i < |entries| && IdsOfEntries(entries)[i] == h;
        EntriesAdd(history, entries, task, i);
      }
    }
  }
}
