/** Tasks and their audit trail: an update locks the row, writes it and appends one
    history row per field that moved, all in one transaction. */
module TaskAudit {
  import opened Prelude
  import opened Decimal
  import opened CacheKeys
  import opened TaskTable
  import opened Keyset

  const CREATED := "created"
  const TITLE := "title"
  const DESCRIPTION := "description"
  const STATUS := "status"
  const ASSIGNEE := "assignee_id"

  datatype Input = Input(title: string, description: string, status: string, assignee: Option<int>)

  datatype FieldChange = FieldChange(field: string, oldValue: string, newValue: string)

  /** A row of task_history; its NULLs read as "". */
  datatype Entry = Entry(taskId: int, changedBy: int, groupId: string, change: FieldChange)

  type History = map<int, Entry>

  type Members = set<(int, int)>   // (team, user)

  // --- what an update does to the row ---

  function FormatId(id: Option<int>): string {
    if id.None? then "" else FormatInt(id.value)
  }

  lemma FormatIdInjective(a: Option<int>, b: Option<int>)
    requires FormatId(a) == FormatId(b)
    ensures a == b
  {
    if a.Some? { FormatIntChars(a.value); }
    if b.Some? { FormatIntChars(b.value); }
    if a.Some? && b.Some? {
      FormatIntInjective(a.value, b.value);
    }
  }

  function CompletedAt(before: Row, status: string, now: int): Option<int> {
    if status == DONE && before.status == DONE then before.completedAt
    else if status == DONE then Some(now)
    else None
  }

  function Edited(before: Row, input: Input, now: int): Row {
    before.(title := input.title, description := input.description, status := input.status,
         assignee := input.assignee, completedAt := CompletedAt(before, input.status, now))
  }

  function NewRow(team: int, input: Input, actor: int, now: int): Row {
    var status := if input.status == "" then TODO else input.status;
    Row(team, input.title, input.description, status, input.assignee, actor, now,
        if status == DONE then Some(now) else None)
  }

  function AddChange(changes: seq<FieldChange>, field: string, oldV: string, newV: string): seq<FieldChange> {
    if oldV == newV then changes else changes + [FieldChange(field, oldV, newV)]
  }

  function Diff(before: Row, after: Row): seq<FieldChange> {
    var c1 := AddChange([], TITLE, before.title, after.title);
    var c2 := AddChange(c1, DESCRIPTION, before.description, after.description);
    var c3 := AddChange(c2, STATUS, before.status, after.status);
    AddChange(c3, ASSIGNEE, FormatId(before.assignee), FormatId(after.assignee))
  }

  /** One change for each field that moved, with the values it moved between. */
  lemma DiffMoves(before: Row, after: Row)
    ensures var changes := Diff(before, after);
      && |changes| == (if before.title != after.title then 1 else 0)
                      + (if before.description != after.description then 1 else 0)
                      + (if before.status != after.status then 1 else 0)
                      + (if before.assignee != after.assignee then 1 else 0)
      && (before.title != after.title ==> FieldChange("title", before.title, after.title) in changes)
      && (before.description != after.description ==>
            FieldChange("description", before.description, after.description) in changes)
      && (before.status != after.status ==> FieldChange("status", before.status, after.status) in changes)
      && (before.assignee != after.assignee ==>
            FieldChange("assignee_id", FormatId(before.assignee), FormatId(after.assignee)) in changes)
  {
    hide FormatId;
    if FormatId(before.assignee) == FormatId(after.assignee) {
      FormatIdInjective(before.assignee, after.assignee);
    }
  }

  const CREATED_EVENT := FieldChange(CREATED, "", "")

  // --- reading a history as a chain of edits ---

  /** The fields the history follows, as the texts it writes. */
  datatype Fields = Fields(title: string, description: string, status: string, assignee: string)

  function FieldsOf(row: Row): Fields {
    Fields(row.title, row.description, row.status, FormatId(row.assignee))
  }

  predicate Known(field: string) {
    field == TITLE || field == DESCRIPTION || field == STATUS || field == ASSIGNEE
  }

  function Get(f: Fields, field: string): string {
    if field == TITLE then f.title
    else if field == DESCRIPTION then f.description
    else if field == STATUS then f.status
    else f.assignee
  }

  function Set(f: Fields, field: string, text: string): Fields {
    if field == TITLE then f.(title := text)
    else if field == DESCRIPTION then f.(description := text)
    else if field == STATUS then f.(status := text)
    else f.(assignee := text)
  }

  /** Every change starts from the value the field has at that moment, moves it, and the
      changes together lead from `from` to `to`. */
  predicate Leads(from: Fields, changes: seq<FieldChange>, to: Fields)
    decreases changes
  {
    if changes == [] then from == to else
      var c := changes[0];
      && Known(c.field)
      && c.oldValue == Get(from, c.field)
      && c.newValue != c.oldValue
      && Leads(Set(from, c.field, c.newValue), changes[1..], to)
  }

  /** Taking the changes back, the latest first. */
  function UndoAll(f: Fields, changes: seq<FieldChange>): Fields {
    if changes == [] then f else
      Set(UndoAll(f, changes[1..]), changes[0].field, changes[0].oldValue)
  }

  lemma {:induction false} UndoInverts(from: Fields, changes: seq<FieldChange>, to: Fields)
    requires Leads(from, changes, to)
    ensures UndoAll(to, changes) == from
    decreases changes
  {
    if changes != [] {
      UndoInverts(Set(from, changes[0].field, changes[0].newValue), changes[1..], to);
    }
  }

  lemma {:induction false} LeadsAppend(a: Fields, xs: seq<FieldChange>, b: Fields, ys: seq<FieldChange>, c: Fields)
    requires Leads(a, xs, b) && Leads(b, ys, c)
    ensures Leads(a, xs + ys, c)
    decreases xs
  {
    if xs == [] {
      assert xs + ys == ys;
    } else {
      LeadsAppend(Set(a, xs[0].field, xs[0].newValue), xs[1..], b, ys, c);
      assert (xs + ys)[1..] == xs[1..] + ys;
    }
  }

  lemma AddChangeLeads(a: Fields, changes: seq<FieldChange>, b: Fields, field: string, newV: string)
    requires Leads(a, changes, b) && Known(field)
    ensures Leads(a, AddChange(changes, field, Get(b, field), newV), Set(b, field, newV))
  {
    if Get(b, field) != newV {
      var c := FieldChange(field, Get(b, field), newV);
      assert [c][1..] == [];
      assert Leads(b, [c], Set(b, field, newV));
      LeadsAppend(a, changes, b, [c], Set(b, field, newV));
    }
  }

  lemma DiffLeads(before: Row, after: Row)
    ensures Leads(FieldsOf(before), Diff(before, after), FieldsOf(after))
  {
    hide Leads, AddChange, FormatId;
    var f0 := FieldsOf(before);
    NoChanges(f0);
    var c1 := AddChange([], TITLE, before.title, after.title);
    AddChangeLeads(f0, [], f0, TITLE, after.title);
    var f1 := Set(f0, TITLE, after.title);
    var c2 := AddChange(c1, DESCRIPTION, before.description, after.description);
    AddChangeLeads(f0, c1, f1, DESCRIPTION, after.description);
    var f2 := Set(f1, DESCRIPTION, after.description);
    var c3 := AddChange(c2, STATUS, before.status, after.status);
    AddChangeLeads(f0, c2, f2, STATUS, after.status);
    var f3 := Set(f2, STATUS, after.status);
    AddChangeLeads(f0, c3, f3, ASSIGNEE, FormatId(after.assignee));
  }

  lemma NoChanges(f: Fields)
    ensures Leads(f, [], f)
  {
  }

  /** The changes behind a list of successive rows of one task. */
  function Script(versions: seq<Row>): seq<FieldChange>
    requires versions != []
  {
    if |versions| == 1 then [CREATED_EVENT] else
      var n := |versions| - 1;
      Script(versions[..n]) + Diff(versions[n - 1], versions[n])
  }

  lemma {:induction false} ScriptLeads(versions: seq<Row>)
    requires versions != []
    ensures Script(versions) != [] && Script(versions)[0] == CREATED_EVENT
    ensures Leads(FieldsOf(versions[0]), Script(versions)[1..], FieldsOf(versions[|versions| - 1]))
  {
    hide Leads, Diff, FieldsOf;
    var n := |versions| - 1;
    if n == 0 {
      NoChanges(FieldsOf(versions[0]));
      assert Script(versions)[1..] == [];
    } else {
      ScriptLeads(versions[..n]);
      DiffLeads(versions[n - 1], versions[n]);
      var before := Script(versions[..n]);
      LeadsAppend(FieldsOf(versions[0]), before[1..], FieldsOf(versions[n - 1]), Diff(versions[n - 1], versions[n]),
                  FieldsOf(versions[n]));
      assert Script(versions)[1..] == before[1..] + Diff(versions[n - 1], versions[n]);
    }
  }

  /** The changes after version k. */
  lemma {:induction false} ScriptSplits(versions: seq<Row>, k: nat)
    requires k < |versions|
    ensures |Script(versions[..k + 1])| <= |Script(versions)|
    ensures var rest := Script(versions)[|Script(versions[..k + 1])|..];
      Leads(FieldsOf(versions[k]), rest, FieldsOf(versions[|versions| - 1]))
    decreases |versions|
  {
    hide Leads, Diff, FieldsOf;
    var n := |versions| - 1;
    if k == n {
      assert versions[..k + 1] == versions;
      NoChanges(FieldsOf(versions[k]));
      assert Script(versions)[|Script(versions)|..] == [];
    } else {
      ScriptSplits(versions[..n], k);
      assert versions[..n][..k + 1] == versions[..k + 1];
      var done, before, last := |Script(versions[..k + 1])|, Script(versions[..n]), Diff(versions[n - 1], versions[n]);
      assert Script(versions) == before + last;
      hide Script;
      DiffLeads(versions[n - 1], versions[n]);
      LeadsAppend(FieldsOf(versions[k]), before[done..], FieldsOf(versions[n - 1]), last, FieldsOf(versions[n]));
      assert (before + last)[done..] == before[done..] + last;
    }
  }

  // --- what a chain says of two consecutive changes of one field ---

  lemma {:induction false} FirstChangeOf(from: Fields, changes: seq<FieldChange>, to: Fields, field: string, j: nat)
    requires Leads(from, changes, to) && j < |changes| && changes[j].field == field
    requires forall m :: 0 <= m < j ==> changes[m].field != field
    ensures Known(field) && changes[j].oldValue == Get(from, field)
    decreases j
  {
    if j > 0 {
      assert forall m :: 0 <= m < j - 1 ==> changes[1..][m].field != field;
      FirstChangeOf(Set(from, changes[0].field, changes[0].newValue), changes[1..], to, field, j - 1);
    }
  }

  lemma {:induction false} NoChangeOf(from: Fields, changes: seq<FieldChange>, to: Fields, field: string)
    requires Leads(from, changes, to) && Known(field)
    requires forall m :: 0 <= m < |changes| ==> changes[m].field != field
    ensures Get(to, field) == Get(from, field)
    decreases changes
  {
    if changes != [] {
      assert forall m :: 0 <= m < |changes| - 1 ==> changes[1..][m].field != field;
      NoChangeOf(Set(from, changes[0].field, changes[0].newValue), changes[1..], to, field);
    }
  }

  /** The fields as change i left them. */
  lemma {:induction false} LeadsFrom(from: Fields, changes: seq<FieldChange>, to: Fields, i: nat) returns (mid: Fields)
    requires Leads(from, changes, to) && i < |changes|
    ensures Known(changes[i].field) && changes[i].newValue != changes[i].oldValue
    ensures Leads(mid, changes[i + 1..], to) && Get(mid, changes[i].field) == changes[i].newValue
    decreases i
  {
    mid := Set(from, changes[0].field, changes[0].newValue);
    if i > 0 {
      assert changes[1..][i..] == changes[i + 1..];
      mid := LeadsFrom(mid, changes[1..], to, i - 1);
    } else {
      assert changes[i + 1..] == changes[1..];
    }
  }

  /** Each change picks up where the previous change of its field left off. */
  lemma ChangesChain(from: Fields, changes: seq<FieldChange>, to: Fields, i: nat, j: nat)
    requires Leads(from, changes, to) && i < j < |changes|
    requires changes[i].field == changes[j].field
    requires forall m :: i < m < j ==> changes[m].field != changes[i].field
    ensures changes[j].oldValue == changes[i].newValue
  {
    hide Leads;
    var mid := LeadsFrom(from, changes, to, i);
    FirstChangeOf(mid, changes[i + 1..], to, changes[i].field, j - i - 1);
  }

  /** The last change of a field is the value the row holds. */
  lemma LastChangeStands(from: Fields, changes: seq<FieldChange>, to: Fields, i: nat)
    requires Leads(from, changes, to) && i < |changes|
    requires forall m :: i < m < |changes| ==> changes[m].field != changes[i].field
    ensures Get(to, changes[i].field) == changes[i].newValue
  {
    hide Leads;
    var mid := LeadsFrom(from, changes, to, i);
    NoChangeOf(mid, changes[i + 1..], to, changes[i].field);
  }

  // --- the history table ---

  function EntryIds(history: History, task: int): set<int> {
    set h | h in history && history[h].taskId == task
  }

  function ChangesAt(history: History, ids: seq<int>): (changes: seq<FieldChange>)
    requires forall i :: 0 <= i < |ids| ==> ids[i] in history
    ensures |changes| == |ids|
    ensures forall i :: 0 <= i < |ids| ==> changes[i] == history[ids[i]].change
  {
    seq(|ids|, i requires 0 <= i < |ids| => history[ids[i]].change)
  }

  /** SELECT id .. WHERE task_id = ? ORDER BY id. */
  function OrderedIds(history: History, task: int): (ids: seq<int>)
    ensures Increasing(ids)
    ensures forall h :: h in ids <==> h in EntryIds(history, task)
    ensures forall i :: 0 <= i < |ids| ==> ids[i] in history && history[ids[i]].taskId == task
  {
    var ids := SortedOf(EntryIds(history, task));
    assert forall i :: 0 <= i < |ids| ==> ids[i] in ids;
    ids
  }

  function HistoryOf(history: History, task: int): seq<FieldChange> {
    ChangesAt(history, OrderedIds(history, task))
  }

  /** The table with rows added under the ids auto-increment gave them. */
  function WithEntries(history: History, entries: seq<(int, Entry)>): History {
    if entries == [] then history else
      var n := |entries| - 1;
      WithEntries(history, entries[..n])[entries[n].0 := entries[n].1]
  }

  function ChangesOf(entries: seq<(int, Entry)>): (changes: seq<FieldChange>)
    ensures |changes| == |entries|
    ensures forall i :: 0 <= i < |entries| ==> changes[i] == entries[i].1.change
  {
    seq(|entries|, i requires 0 <= i < |entries| => entries[i].1.change)
  }

  /** Rows of one task with increasing ids, above all the task has in the table. */
  predicate Fresh(history: History, entries: seq<(int, Entry)>, task: int) {
    && (forall i :: 0 <= i < |entries| ==> entries[i].0 !in history && entries[i].1.taskId == task)
    && (forall i, j :: 0 <= i < j < |entries| ==> entries[i].0 < entries[j].0)
    && (forall i, h :: 0 <= i < |entries| && h in history && history[h].taskId == task ==> h < entries[i].0)
  }

  function IdsOfEntries(entries: seq<(int, Entry)>): (ids: seq<int>)
    ensures |ids| == |entries| && forall i :: 0 <= i < |ids| ==> ids[i] == entries[i].0
  {
    seq(|entries|, i requires 0 <= i < |entries| => entries[i].0)
  }

  lemma {:induction false} EntriesKeep(history: History, entries: seq<(int, Entry)>, task: int, h: int)
    requires Fresh(history, entries, task) && h in history
    ensures h in WithEntries(history, entries) && WithEntries(history, entries)[h] == history[h]
  {
    if entries != [] {
      EntriesKeep(history, entries[..|entries| - 1], task, h);
    }
  }

  lemma {:induction false} EntriesAdd(history: History, entries: seq<(int, Entry)>, task: int, i: nat)
    requires Fresh(history, entries, task) && i < |entries|
    ensures entries[i].0 in WithEntries(history, entries)
    ensures WithEntries(history, entries)[entries[i].0] == entries[i].1
    decreases |entries|
  {
    var n := |entries| - 1;
    if i < n {
      EntriesAdd(history, entries[..n], task, i);
    }
  }

  lemma {:induction false} EntriesAddNoMore(history: History, entries: seq<(int, Entry)>, h: int)
    requires h in WithEntries(history, entries) && h !in history
    ensures h in IdsOfEntries(entries)
  {
    var n := |entries| - 1;
    if h != entries[n].0 {
      EntriesAddNoMore(history, entries[..n], h);
      var i :| 0 <= i < n && IdsOfEntries(entries[..n])[i] == h;
      assert IdsOfEntries(entries)[i] == h;
    } else {
      assert IdsOfEntries(entries)[n] == h;
    }
  }

  lemma EntryIdsAfter(history: History, entries: seq<(int, Entry)>, task: int, h: int)
    requires Fresh(history, entries, task)
    ensures h in EntryIds(WithEntries(history, entries), task) <==>
            h in EntryIds(history, task) || h in IdsOfEntries(entries)
  {
    hide WithEntries;
    if h in history {
      EntriesKeep(history, entries, task, h);
    } else if h in WithEntries(history, entries) {
      EntriesAddNoMore(history, entries, h);
    }
    if h in IdsOfEntries(entries) {
      var i :| 0 <= i < |entries| && IdsOfEntries(entries)[i] == h;
      EntriesAdd(history, entries, task, i);
    }
  }

  lemma FreshConcat(history: History, entries: seq<(int, Entry)>, task: int)
    requires Fresh(history, entries, task)
    ensures Increasing(OrderedIds(history, task) + IdsOfEntries(entries))
  {
    hide EntryIds;
    var was, ids := OrderedIds(history, task), IdsOfEntries(entries);
    var all := was + ids;
    forall i, j | 0 <= i < j < |all|
      ensures all[i] < all[j]
    {
      if i < |was| && j >= |was| {
        assert all[i] == was[i] && was[i] in history;
        assert all[j] == entries[j - |was|].0;
      }
    }
  }

  lemma OrderedAfter(history: History, entries: seq<(int, Entry)>, task: int)
    requires Fresh(history, entries, task)
    ensures OrderedIds(WithEntries(history, entries), task) == OrderedIds(history, task) + IdsOfEntries(entries)
  {
    hide WithEntries, EntryIds, Fresh, OrderedIds;
    var was, ids := OrderedIds(history, task), IdsOfEntries(entries);
    FreshConcat(history, entries, task);
    forall h
      ensures h in was + ids <==> h in OrderedIds(WithEntries(history, entries), task)
    {
      EntryIdsAfter(history, entries, task, h);
    }
    IncreasingUnique(OrderedIds(WithEntries(history, entries), task), was + ids);
  }

  /** New rows of the task come last in its history ... */
  lemma {:induction false} HistoryAppends(history: History, entries: seq<(int, Entry)>, task: int)
    requires Fresh(history, entries, task)
    ensures HistoryOf(WithEntries(history, entries), task) == HistoryOf(history, task) + ChangesOf(entries)
  {
    hide WithEntries, EntryIds, OrderedIds;
    OrderedAfter(history, entries, task);
    var was, more := OrderedIds(history, task), WithEntries(history, entries);
    var left, right := HistoryOf(more, task), HistoryOf(history, task) + ChangesOf(entries);
    forall i | 0 <= i < |left|
      ensures left[i] == right[i]
    {
      if i < |was| {
        EntriesKeep(history, entries, task, was[i]);
      } else {
        EntriesAdd(history, entries, task, i - |was|);
      }
    }
  }

  /** ... and leave every other task's history alone. */
  lemma HistoryElsewhere(history: History, entries: seq<(int, Entry)>, task: int, other: int)
    requires Fresh(history, entries, task) && other != task
    ensures HistoryOf(WithEntries(history, entries), other) == HistoryOf(history, other)
  {
    hide WithEntries, OrderedIds;
    var more := WithEntries(history, entries);
    var was := OrderedIds(history, other);
    forall h
      ensures h in EntryIds(more, other) <==> h in EntryIds(history, other)
      ensures h in EntryIds(history, other) ==> more[h] == history[h]
    {
      if h in history {
        EntriesKeep(history, entries, task, h);
      } else if h in more {
        EntriesAddNoMore(history, entries, h);
        var i :| 0 <= i < |entries| && IdsOfEntries(entries)[i] == h;
        EntriesAdd(history, entries, task, i);
      }
    }
    IncreasingUnique(OrderedIds(more, other), was);
    assert forall i :: 0 <= i < |was| ==> was[i] in was;
  }

  /** The rows an update or a creation inserts, under consecutive ids. */
  function Numbered(from: int, task: int, actor: int, group: string, changes: seq<FieldChange>): (entries: seq<(int, Entry)>)
    ensures |entries| == |changes|
  {
    seq(|changes|, i requires 0 <= i < |changes| => (from + i, Entry(task, actor, group, changes[i])))
  }

  lemma NumberedFresh(history: History, from: int, task: int, actor: int, group: string, changes: seq<FieldChange>)
    requires forall h :: h in history ==> h < from
    ensures Fresh(history, Numbered(from, task, actor, group, changes), task)
    ensures ChangesOf(Numbered(from, task, actor, group, changes)) == changes
  {
  }

  lemma OneMore(history: History, from: int, task: int, actor: int, group: string, changes: seq<FieldChange>, i: nat)
    requires i < |changes|
    ensures WithEntries(history, Numbered(from, task, actor, group, changes[..i + 1])) ==
            WithEntries(history, Numbered(from, task, actor, group, changes[..i]))
              [from + i := Entry(task, actor, group, changes[i])]
  {
    var more := Numbered(from, task, actor, group, changes[..i + 1]);
    assert more[..i] == Numbered(from, task, actor, group, changes[..i]);
  }

  /** The rows an insert of consecutive ids adds, each by its task, author and group, and
      no others. */
  lemma InsertedRows(history: History, from: int, task: int, actor: int, group: string, changes: seq<FieldChange>)
    requires forall h :: h in history ==> h < from
    ensures var more := WithEntries(history, Numbered(from, task, actor, group, changes));
      && (forall h :: h in more <==> h in history || from <= h < from + |changes|)
      && (forall h :: h in history ==> more[h] == history[h])
      && (forall i :: 0 <= i < |changes| ==> more[from + i] == Entry(task, actor, group, changes[i]))
  {
    hide WithEntries;
    var entries := Numbered(from, task, actor, group, changes);
    var more := WithEntries(history, entries);
    NumberedFresh(history, from, task, actor, group, changes);
    forall h
      ensures h in more <==> h in history || from <= h < from + |changes|
      ensures h in history ==> more[h] == history[h]
    {
      if h in history {
        EntriesKeep(history, entries, task, h);
      } else if h in more {
        EntriesAddNoMore(history, entries, h);
        var i :| 0 <= i < |entries| && IdsOfEntries(entries)[i] == h;
      } else if from <= h < from + |changes| {
        EntriesAdd(history, entries, task, h - from);
      }
    }
    forall i | 0 <= i < |changes|
      ensures more[from + i] == Entry(task, actor, group, changes[i])
    {
      EntriesAdd(history, entries, task, i);
    }
  }
}
