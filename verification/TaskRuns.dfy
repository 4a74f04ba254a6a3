/** Any number of transactions creating and updating tasks at once. Each holds the row it
    locked until it ends, its writes are seen by nobody before it commits, and the ids its
    history rows get come from one counter shared by all. */
module TaskRuns {
  import opened Prelude
  import opened CacheKeys
  import opened TaskTable
  import opened TaskAudit
  import opened Keyset
  import ListCache

  datatype Tx =
    | Creating(id: int, row: Row, entries: seq<(int, Entry)>)
    | Checked(actor: int, id: int, input: Input)
    | Locked(actor: int, id: int, input: Input, was: Row)
    | Written(actor: int, id: int, group: string, was: Row, row: Row, entries: seq<(int, Entry)>, left: seq<FieldChange>)

  /** versions: the rows each task has had, one per commit; it only serves the statements. */
  datatype State = State(
    tasks: Table,
    history: History,
    members: Members,
    nextTask: int,
    nextChange: int,
    txs: map<int, Tx>,
    versions: map<int, seq<Row>>)

  datatype Step =
    | AddMember(team: int, user: int)
    | Insert(t: int, team: int, input: Input, actor: int, now: int)
    | InsertEvent(t: int, group: string)
    | Check(t: int, actor: int, id: int, input: Input)
    | Lock(t: int)
    | Write(t: int, group: string, now: int)
    | Append(t: int)
    | Commit(t: int)
    | Rollback(t: int)

  predicate AssigneeOk(members: Members, team: int, assignee: Option<int>) {
    assignee.Some? ==> (team, assignee.value) in members
  }

  /** The transaction holds the row. */
  predicate Owns(tx: Tx) {
    !tx.Checked?
  }

  function EntriesOf(tx: Tx): seq<(int, Entry)> {
    if tx.Creating? || tx.Written? then tx.entries else []
  }

  predicate Unlocked(s: State, id: int) {
    forall t :: t in s.txs && Owns(s.txs[t]) ==> s.txs[t].id != id
  }

  predicate Done(tx: Tx) {
    (tx.Creating? && |tx.entries| == 1) || (tx.Written? && tx.left == [])
  }

  predicate Enabled(s: State, step: Step) {
    match step
    case AddMember(_, _) => true
    case Insert(t, team, input, _, _) => t !in s.txs && AssigneeOk(s.members, team, input.assignee)
    case InsertEvent(t, _) => t in s.txs && s.txs[t].Creating? && s.txs[t].entries == []
    case Check(t, _, id, input) =>
      t !in s.txs && id in s.tasks && AssigneeOk(s.members, s.tasks[id].teamId, input.assignee)
    case Lock(t) => t in s.txs && s.txs[t].Checked? && s.txs[t].id in s.tasks && Unlocked(s, s.txs[t].id)
    case Write(t, _, _) => t in s.txs && s.txs[t].Locked?
    case Append(t) => t in s.txs && s.txs[t].Written? && s.txs[t].left != []
    case Commit(t) => t in s.txs && Done(s.txs[t])
    case Rollback(t) => t in s.txs
  }

  function WithTx(s: State, t: int, tx: Tx): State {
    s.(txs := s.txs[t := tx])
  }

  function Appended(s: State, tx: Tx): Tx
    requires tx.Written? && tx.left != []
  {
    var entry := Entry(tx.id, tx.actor, tx.group, tx.left[0]);
    tx.(entries := tx.entries + [(s.nextChange, entry)], left := tx.left[1..])
  }

  function Committed(s: State, t: int): State
    requires t in s.txs && Done(s.txs[t])
  {
    var tx := s.txs[t];
    var rows := if tx.id in s.versions then s.versions[tx.id] else [];
    s.(tasks := s.tasks[tx.id := tx.row],
       history := WithEntries(s.history, tx.entries),
       versions := s.versions[tx.id := rows + [tx.row]],
       txs := s.txs - {t})
  }

  function Next(s: State, step: Step): State
    requires Enabled(s, step)
  {
    match step
    case AddMember(team, user) => s.(members := s.members + {(team, user)})
    case Insert(t, team, input, actor, now) =>
      WithTx(s, t, Creating(s.nextTask, NewRow(team, input, actor, now), [])).(nextTask := s.nextTask + 1)
    case InsertEvent(t, group) =>
      var tx := s.txs[t];
      var entry := Entry(tx.id, tx.row.createdBy, group, CREATED_EVENT);
      WithTx(s, t, Creating(tx.id, tx.row, [(s.nextChange, entry)])).(nextChange := s.nextChange + 1)
    case Check(t, actor, id, input) => WithTx(s, t, Checked(actor, id, input))
    case Lock(t) =>
      var tx := s.txs[t];
      WithTx(s, t, Locked(tx.actor, tx.id, tx.input, s.tasks[tx.id]))
    case Write(t, group, now) =>
      var tx := s.txs[t];
      var row := Edited(tx.was, tx.input, now);
      WithTx(s, t, Written(tx.actor, tx.id, group, tx.was, row, [], Diff(tx.was, row)))
    case Append(t) => WithTx(s, t, Appended(s, s.txs[t])).(nextChange := s.nextChange + 1)
    case Commit(t) => Committed(s, t)
    case Rollback(t) => s.(txs := s.txs - {t})
  }

  // --- the invariant ---

  predicate RowGood(members: Members, row: Row) {
    && (row.completedAt.Some? <==> row.status == DONE)
    && AssigneeOk(members, row.teamId, row.assignee)
  }

  /** What an update may not change, and the completion time while the task stays done. */
  predicate Succeeds(before: Row, after: Row) {
    && after.teamId == before.teamId && after.createdBy == before.createdBy && after.createdAt == before.createdAt
    && (before.status == DONE && after.status == DONE ==> after.completedAt == before.completedAt)
  }

  predicate VersionsGood(members: Members, versions: seq<Row>) {
    && (forall i :: 0 <= i < |versions| ==> RowGood(members, versions[i]))
    && (forall i :: 0 < i < |versions| ==> Succeeds(versions[i - 1], versions[i]))
  }

  predicate TaskGood(s: State, id: int) {
    && id in s.tasks && id in s.versions && s.versions[id] != []
    && s.versions[id][|s.versions[id]| - 1] == s.tasks[id]
    && HistoryOf(s.history, id) == Script(s.versions[id])
    && VersionsGood(s.members, s.versions[id])
  }

  predicate EntriesGood(s: State, entries: seq<(int, Entry)>, task: int) {
    && Fresh(s.history, entries, task)
    && forall i :: 0 <= i < |entries| ==> entries[i].0 < s.nextChange
  }

  predicate TxGood(s: State, tx: Tx) {
    match tx
    case Creating(id, row, entries) =>
      && id < s.nextTask && id !in s.tasks
      && RowGood(s.members, row)
      && EntriesGood(s, entries, id)
      && |entries| <= 1 && (entries != [] ==> ChangesOf(entries) == [CREATED_EVENT])
    case Checked(_, id, input) =>
      id in s.tasks && AssigneeOk(s.members, s.tasks[id].teamId, input.assignee)
    case Locked(_, id, input, was) =>
      id in s.tasks && s.tasks[id] == was && AssigneeOk(s.members, was.teamId, input.assignee)
    case Written(_, id, _, was, row, entries, left) =>
      && id in s.tasks && s.tasks[id] == was
      && RowGood(s.members, row) && Succeeds(was, row)
      && EntriesGood(s, entries, id)
      && ChangesOf(entries) + left == Diff(was, row)
  }

  predicate Apart(a: Tx, b: Tx) {
    && (Owns(a) && Owns(b) ==> a.id != b.id)
    && forall i, j :: 0 <= i < |EntriesOf(a)| && 0 <= j < |EntriesOf(b)| ==> EntriesOf(a)[i].0 != EntriesOf(b)[j].0
  }

  predicate TableGood(s: State) {
    && s.versions.Keys == s.tasks.Keys
    && (forall id :: id in s.tasks ==> TaskGood(s, id) && id < s.nextTask)
    && (forall h :: h in s.history ==> s.history[h].taskId in s.tasks && h < s.nextChange)
  }

  predicate TxsGood(s: State) {
    && (forall t :: t in s.txs ==> TxGood(s, s.txs[t]))
    && (forall t, u :: t in s.txs && u in s.txs && t != u ==> Apart(s.txs[t], s.txs[u]))
  }

  predicate Inv(s: State) {
    TableGood(s) && TxsGood(s)
  }

  // --- steps of one transaction that nobody else sees ---

  lemma TableStays(s: State, s': State)
    requires TableGood(s)
    requires s'.tasks == s.tasks && s'.history == s.history && s'.versions == s.versions && s.members <= s'.members
    requires s.nextTask <= s'.nextTask && s.nextChange <= s'.nextChange
    ensures TableGood(s')
  {
    hide HistoryOf, Script, Succeeds;
    forall id | id in s.tasks
      ensures TaskGood(s', id)
    {
      assert TaskGood(s, id);
    }
  }

  lemma TxStays(s: State, s': State, tx: Tx)
    requires TxGood(s, tx)
    requires s'.tasks == s.tasks && s'.history == s.history && s.members <= s'.members
    requires s.nextTask <= s'.nextTask && s.nextChange <= s'.nextChange
    ensures TxGood(s', tx)
  {
    hide Fresh, Diff, Succeeds;
  }

  lemma LocalStep(s: State, t: int, tx: Tx, nextTask: int, nextChange: int)
    requires Inv(s) && s.nextTask <= nextTask && s.nextChange <= nextChange
    requires TxGood(s.(nextTask := nextTask, nextChange := nextChange), tx)
    requires forall u :: u in s.txs && u != t ==> Apart(tx, s.txs[u])
    ensures Inv(WithTx(s, t, tx).(nextTask := nextTask, nextChange := nextChange))
  {
    hide TableGood, TxGood, Apart;
    var s' := WithTx(s, t, tx).(nextTask := nextTask, nextChange := nextChange);
    TableStays(s, s');
    TxStays(s.(nextTask := nextTask, nextChange := nextChange), s', tx);
    forall u | u in s'.txs
      ensures TxGood(s', s'.txs[u])
    {
      if u != t {
        TxStays(s, s', s.txs[u]);
      }
    }
    forall u, v | u in s'.txs && v in s'.txs && u != v
      ensures Apart(s'.txs[u], s'.txs[v])
    {
      if v == t {
        ApartBack(tx, s.txs[u]);
      }
    }
  }

  lemma ApartBack(a: Tx, b: Tx)
    requires Apart(a, b)
    ensures Apart(b, a)
  {
  }

  lemma RollbackKeeps(s: State, t: int)
    requires Inv(s) && t in s.txs
    ensures Inv(s.(txs := s.txs - {t}))
  {
    hide TableGood, TxGood, Apart;
    var s' := s.(txs := s.txs - {t});
    TableStays(s, s');
    forall u | u in s'.txs
      ensures TxGood(s', s'.txs[u])
    {
      TxStays(s, s', s.txs[u]);
    }
  }

  lemma AddMemberKeeps(s: State, team: int, user: int)
    requires Inv(s)
    ensures Inv(s.(members := s.members + {(team, user)}))
  {
    hide TableGood, TxGood, Apart;
    var s' := s.(members := s.members + {(team, user)});
    TableStays(s, s');
    forall u | u in s'.txs
      ensures TxGood(s', s'.txs[u])
    {
      TxStays(s, s', s.txs[u]);
    }
  }

  lemma InsertKeeps(s: State, step: Step)
    requires Inv(s) && Enabled(s, step) && step.Insert?
    ensures Inv(Next(s, step))
  {
    hide TableGood;
    var tx := Creating(s.nextTask, NewRow(step.team, step.input, step.actor, step.now), []);
    NextTaskUnused(s);
    forall u | u in s.txs
      ensures Apart(tx, s.txs[u])
    {
      assert TxGood(s, s.txs[u]);
    }
    LocalStep(s, step.t, tx, s.nextTask + 1, s.nextChange);
  }

  lemma NextTaskUnused(s: State)
    requires TableGood(s)
    ensures s.nextTask !in s.tasks
    ensures forall id :: id in s.tasks ==> id < s.nextTask
  {
    hide TaskGood;
  }

  lemma CheckKeeps(s: State, step: Step)
    requires Inv(s) && Enabled(s, step) && step.Check?
    ensures Inv(Next(s, step))
  {
    hide TableGood;
    LocalStep(s, step.t, Checked(step.actor, step.id, step.input), s.nextTask, s.nextChange);
  }

  lemma LockKeeps(s: State, t: int)
    requires Inv(s) && Enabled(s, Lock(t))
    ensures Inv(Next(s, Lock(t)))
  {
    hide TableGood;
    var tx := s.txs[t];
    assert TxGood(s, tx);
    LocalStep(s, t, Locked(tx.actor, tx.id, tx.input, s.tasks[tx.id]), s.nextTask, s.nextChange);
  }

  lemma WrittenGood(s: State, tx: Tx, group: string, now: int)
    requires TxGood(s, tx) && tx.Locked? && RowGood(s.members, tx.was)
    ensures var row := Edited(tx.was, tx.input, now);
      TxGood(s, Written(tx.actor, tx.id, group, tx.was, row, [], Diff(tx.was, row)))
  {
    hide Diff;
    var left := Diff(tx.was, Edited(tx.was, tx.input, now));
    assert ChangesOf([]) + left == left;
  }

  lemma WriteKeeps(s: State, t: int, group: string, now: int)
    requires Inv(s) && Enabled(s, Write(t, group, now))
    ensures Inv(Next(s, Write(t, group, now)))
  {
    hide Diff, Edited, HistoryOf, Script, Fresh;
    var tx := s.txs[t];
    assert TxGood(s, tx) && TaskGood(s, tx.id);
    assert RowGood(s.members, s.versions[tx.id][|s.versions[tx.id]| - 1]);
    var row := Edited(tx.was, tx.input, now);
    var written := Written(tx.actor, tx.id, group, tx.was, row, [], Diff(tx.was, row));
    forall u | u in s.txs && u != t
      ensures Apart(written, s.txs[u])
    {
      assert Apart(tx, s.txs[u]);
    }
    WrittenGood(s, tx, group, now);
    LocalStep(s, t, written, s.nextTask, s.nextChange);
  }

  /** A new history row gets an id above everything there is. */
  lemma NextEntryFresh(s: State, entries: seq<(int, Entry)>, entry: Entry)
    requires TableGood(s) && EntriesGood(s, entries, entry.taskId)
    ensures EntriesGood(s.(nextChange := s.nextChange + 1), entries + [(s.nextChange, entry)], entry.taskId)
  {
    hide TaskGood;
    var more := entries + [(s.nextChange, entry)];
    assert forall i :: 0 <= i < |entries| ==> more[i] == entries[i];
  }

  lemma NextEntryApart(s: State, a: Tx, more: Tx, b: Tx, entry: Entry)
    requires Apart(a, b) && TxGood(s, b) && more.id == a.id && Owns(a) && Owns(more)
    requires EntriesOf(more) == EntriesOf(a) + [(s.nextChange, entry)]
    ensures Apart(more, b)
  {
    hide Fresh, Diff, RowGood, Succeeds;
    var n := |EntriesOf(a)|;
    forall i, j | 0 <= i < |EntriesOf(more)| && 0 <= j < |EntriesOf(b)|
      ensures EntriesOf(more)[i].0 != EntriesOf(b)[j].0
    {
      if i < n {
        assert EntriesOf(more)[i] == EntriesOf(a)[i];
      } else {
        assert EntriesOf(b)[j].0 < s.nextChange;
      }
    }
  }

  lemma InsertEventKeeps(s: State, t: int, group: string)
    requires Inv(s) && Enabled(s, InsertEvent(t, group))
    ensures Inv(Next(s, InsertEvent(t, group)))
  {
    hide TableGood, Fresh, Apart, RowGood;
    var tx := s.txs[t];
    assert TxGood(s, tx);
    var entry := Entry(tx.id, tx.row.createdBy, group, CREATED_EVENT);
    NextEntryFresh(s, [], entry);
    assert [] + [(s.nextChange, entry)] == [(s.nextChange, entry)];
    var more := Creating(tx.id, tx.row, [(s.nextChange, entry)]);
    assert ChangesOf(more.entries) == [CREATED_EVENT];
    forall u | u in s.txs && u != t
      ensures Apart(more, s.txs[u])
    {
      assert Apart(tx, s.txs[u]) && TxGood(s, s.txs[u]);
      NextEntryApart(s, tx, more, s.txs[u], entry);
    }
    LocalStep(s, t, more, s.nextTask, s.nextChange + 1);
  }

  lemma AppendKeeps(s: State, t: int)
    requires Inv(s) && Enabled(s, Append(t))
    ensures Inv(Next(s, Append(t)))
  {
    hide TableGood, Fresh, Apart, RowGood, Diff, Succeeds;
    var tx := s.txs[t];
    assert TxGood(s, tx);
    var entry := Entry(tx.id, tx.actor, tx.group, tx.left[0]);
    NextEntryFresh(s, tx.entries, entry);
    var more := Appended(s, tx);
    assert ChangesOf(more.entries) + more.left == ChangesOf(tx.entries) + tx.left;
    forall u | u in s.txs && u != t
      ensures Apart(more, s.txs[u])
    {
      assert Apart(tx, s.txs[u]) && TxGood(s, s.txs[u]);
      NextEntryApart(s, tx, more, s.txs[u], entry);
    }
    LocalStep(s, t, more, s.nextTask, s.nextChange + 1);
  }

  // --- commit ---

  lemma ScriptAppends(versions: seq<Row>, row: Row)
    ensures Script(versions + [row]) ==
      if versions == [] then [CREATED_EVENT] else Script(versions) + Diff(versions[|versions| - 1], row)
  {
    hide Diff;
    var all, n := versions + [row], |versions|;
    assert all[..n] == versions && all[n] == row;
    if n > 0 {
      assert all[n - 1] == versions[n - 1];
      assert Script(all) == Script(all[..n]) + Diff(all[n - 1], all[n]);
    }
  }

  lemma VersionsGrow(members: Members, versions: seq<Row>, row: Row)
    requires VersionsGood(members, versions) && RowGood(members, row)
    requires versions != [] ==> Succeeds(versions[|versions| - 1], row)
    ensures VersionsGood(members, versions + [row])
  {
    hide RowGood, Succeeds;
  }

  lemma NoHistoryYet(s: State, id: int)
    requires TableGood(s) && id !in s.tasks
    ensures HistoryOf(s.history, id) == [] && id !in s.versions
  {
    hide TaskGood;
    assert forall h :: h in s.history ==> s.history[h].taskId != id;
    assert EntryIds(s.history, id) == {};
  }

  lemma CommittedTask(s: State, t: int)
    requires Inv(s) && Enabled(s, Commit(t))
    ensures TaskGood(Committed(s, t), s.txs[t].id)
  {
    hide HistoryOf, Script, Diff, WithEntries, RowGood, Succeeds, Fresh, Apart, VersionsGood;
    var tx, s' := s.txs[t], Committed(s, t);
    assert TxGood(s, tx);
    var rows := if tx.id in s.versions then s.versions[tx.id] else [];
    HistoryAppends(s.history, tx.entries, tx.id);
    ScriptAppends(rows, tx.row);
    if tx.Creating? {
      NoHistoryYet(s, tx.id);
      assert [] + [CREATED_EVENT] == [CREATED_EVENT];
      FirstVersion(s.members, tx.row);
      assert [] + [tx.row] == [tx.row];
    } else {
      assert TaskGood(s, tx.id);
      assert ChangesOf(tx.entries) + [] == ChangesOf(tx.entries);
      VersionsGrow(s.members, rows, tx.row);
    }
  }

  lemma FirstVersion(members: Members, row: Row)
    requires RowGood(members, row)
    ensures VersionsGood(members, [row])
  {
  }

  lemma OtherTask(s: State, t: int, id: int)
    requires Inv(s) && Enabled(s, Commit(t)) && id in s.tasks && id != s.txs[t].id
    ensures TaskGood(Committed(s, t), id)
  {
    hide HistoryOf, Script, Diff, WithEntries, RowGood, Succeeds, Fresh, Apart, VersionsGood;
    var tx := s.txs[t];
    assert TxGood(s, tx) && TaskGood(s, id);
    HistoryElsewhere(s.history, tx.entries, tx.id, id);
  }

  lemma CommitTable(s: State, t: int)
    requires Inv(s) && Enabled(s, Commit(t))
    ensures TableGood(Committed(s, t))
  {
    hide TaskGood, WithEntries, Fresh, Apart, RowGood, Succeeds, Diff;
    var tx, s' := s.txs[t], Committed(s, t);
    assert TxGood(s, tx);
    if tx.id in s.tasks {
      assert tx.id < s.nextTask;
    }
    forall id | id in s'.tasks
      ensures TaskGood(s', id)
    {
      if id == tx.id {
        CommittedTask(s, t);
      } else {
        OtherTask(s, t, id);
      }
    }
    forall h | h in s'.history
      ensures s'.history[h].taskId in s'.tasks && h < s'.nextChange
    {
      CommittedEntry(s, tx, h);
    }
  }

  /** A history row after the commit is an old one or one of the transaction's. */
  lemma CommittedEntry(s: State, tx: Tx, h: int)
    requires EntriesGood(s, EntriesOf(tx), tx.id) && h in WithEntries(s.history, EntriesOf(tx))
    ensures var more := WithEntries(s.history, EntriesOf(tx));
      if h in s.history then more[h] == s.history[h]
      else more[h].taskId == tx.id && h < s.nextChange &&
           exists i :: 0 <= i < |EntriesOf(tx)| && EntriesOf(tx)[i].0 == h
  {
    hide WithEntries;
    var entries := EntriesOf(tx);
    if h in s.history {
      EntriesKeep(s.history, entries, tx.id, h);
    } else {
      EntriesAddNoMore(s.history, entries, h);
      var i :| 0 <= i < |entries| && IdsOfEntries(entries)[i] == h;
      EntriesAdd(s.history, entries, tx.id, i);
      assert entries[i].0 == h;
    }
  }

  lemma OtherEntries(s: State, tx: Tx, other: Tx)
    requires EntriesGood(s, EntriesOf(tx), tx.id) && EntriesGood(s, EntriesOf(other), other.id)
    requires Apart(tx, other) && Owns(tx) && Owns(other)
    ensures Fresh(WithEntries(s.history, EntriesOf(tx)), EntriesOf(other), other.id)
  {
    hide WithEntries;
    var more, mine := WithEntries(s.history, EntriesOf(tx)), EntriesOf(other);
    forall i | 0 <= i < |mine|
      ensures mine[i].0 !in more
    {
      if mine[i].0 in more {
        CommittedEntry(s, tx, mine[i].0);
      }
    }
    forall i, h | 0 <= i < |mine| && h in more && more[h].taskId == other.id
      ensures h < mine[i].0
    {
      CommittedEntry(s, tx, h);
    }
  }

  lemma OtherTx(s: State, t: int, u: int)
    requires Inv(s) && Enabled(s, Commit(t)) && u in s.txs && u != t
    ensures TxGood(Committed(s, t), s.txs[u])
  {
    hide TableGood, WithEntries, Fresh, RowGood, Diff;
    var tx, other := s.txs[t], s.txs[u];
    assert TxGood(s, tx) && TxGood(s, other) && Apart(tx, other);
    if Owns(other) {
      if !other.Locked? {
        OtherEntries(s, tx, other);
      }
    } else if other.id == tx.id {
      assert tx.Written? ==> tx.row.teamId == tx.was.teamId;
    }
  }

  lemma CommitKeeps(s: State, t: int)
    requires Inv(s) && Enabled(s, Commit(t))
    ensures Inv(Committed(s, t))
  {
    hide TableGood, TxGood, Apart, WithEntries;
    CommitTable(s, t);
    var s' := Committed(s, t);
    forall u | u in s'.txs
      ensures TxGood(s', s'.txs[u])
    {
      OtherTx(s, t, u);
    }
  }

  lemma {:induction false} StepKeeps(s: State, step: Step)
    requires Inv(s) && Enabled(s, step)
    ensures Inv(Next(s, step))
  {
    hide Inv, Committed, Appended, Unlocked, Done, Diff, Edited;
    match step
    case AddMember(team, user) => AddMemberKeeps(s, team, user);
    case Insert(_, _, _, _, _) => InsertKeeps(s, step);
    case InsertEvent(t, group) => InsertEventKeeps(s, t, group);
    case Check(_, _, _, _) => CheckKeeps(s, step);
    case Lock(t) => LockKeeps(s, t);
    case Write(t, group, now) => WriteKeeps(s, t, group, now);
    case Append(t) => AppendKeeps(s, t);
    case Commit(t) => CommitKeeps(s, t);
    case Rollback(t) => RollbackKeeps(s, t);
  }

  // --- runs ---

  predicate Initial(s: State) {
    s.tasks == map[] && s.history == map[] && s.txs == map[] && s.versions == map[]
  }

  function Run(s: State, steps: seq<Step>): State
    requires Legal(s, steps)
    decreases |steps|, 1
  {
    if steps == [] then s else Next(Run(s, steps[..|steps| - 1]), steps[|steps| - 1])
  }

  predicate Legal(s: State, steps: seq<Step>)
    decreases |steps|, 0
  {
    steps == [] ||
    (Legal(s, steps[..|steps| - 1]) && Enabled(Run(s, steps[..|steps| - 1]), steps[|steps| - 1]))
  }

  lemma {:induction false} RunKeeps(s: State, steps: seq<Step>)
    requires Initial(s) && Legal(s, steps)
    ensures Inv(Run(s, steps))
  {
    hide Next, Enabled;
    if steps != [] {
      RunKeeps(s, steps[..|steps| - 1]);
      StepKeeps(Run(s, steps[..|steps| - 1]), steps[|steps| - 1]);
    }
  }

  predicate SameFields(a: Row, b: Row) {
    a.title == b.title && a.description == b.description && a.status == b.status && a.assignee == b.assignee
  }

  /** Equal texts are equal fields: the history loses nothing by writing the assignee as text. */
  lemma FieldsDetermineRow(a: Row, b: Row)
    requires FieldsOf(a) == FieldsOf(b)
    ensures SameFields(a, b)
  {
    FormatIdInjective(a.assignee, b.assignee);
  }

  /** Read by id, a task's history starts with its creation and then leads through every
      row it ever had: taking back the changes after version k gives version k,
      assignee included, though the history holds its text. */
  lemma HistoryIsFaithful(s: State, steps: seq<Step>, id: int, k: nat)
    requires Initial(s) && Legal(s, steps) && id in Run(s, steps).tasks
    requires id in Run(s, steps).versions && k < |Run(s, steps).versions[id]|
    ensures var t := Run(s, steps);
      var versions, changes := t.versions[id], HistoryOf(t.history, id);
      && changes != [] && changes[0] == CREATED_EVENT
      && versions[|versions| - 1] == t.tasks[id]
      && Leads(FieldsOf(versions[0]), changes[1..], FieldsOf(t.tasks[id]))
      && |Script(versions[..k + 1])| <= |changes|
      && UndoAll(FieldsOf(t.tasks[id]), changes[|Script(versions[..k + 1])|..]) == FieldsOf(versions[k])
      && (forall row :: FieldsOf(row) == UndoAll(FieldsOf(t.tasks[id]), changes[|Script(versions[..k + 1])|..]) ==>
           SameFields(row, versions[k]))
  {
    hide Legal, Run, HistoryOf, Leads, UndoAll, Script, TxsGood;
    RunKeeps(s, steps);
    var t := Run(s, steps);
    assert TaskGood(t, id);
    ScriptLeads(t.versions[id]);
    ScriptSplits(t.versions[id], k);
    UndoInverts(FieldsOf(t.versions[id][k]), HistoryOf(t.history, id)[|Script(t.versions[id][..k + 1])|..],
                FieldsOf(t.tasks[id]));
    forall row: Row | FieldsOf(row) == FieldsOf(t.versions[id][k])
      ensures SameFields(row, t.versions[id][k])
    {
      FieldsDetermineRow(row, t.versions[id][k]);
    }
  }

  /** In the history of one task, consecutive changes of a field meet, and the last one
      ends at the value the row holds. */
  lemma {:induction false} HistoryChains(s: State, steps: seq<Step>, id: int, i: nat)
    requires Initial(s) && Legal(s, steps) && id in Run(s, steps).tasks
    requires 1 <= i < |HistoryOf(Run(s, steps).history, id)|
    ensures var t := Run(s, steps);
      var changes := HistoryOf(t.history, id);
      && Known(changes[i].field) && changes[i].oldValue != changes[i].newValue
      && (forall j :: i < j < |changes| && changes[j].field == changes[i].field &&
           (forall m :: i < m < j ==> changes[m].field != changes[i].field)
           ==> changes[j].oldValue == changes[i].newValue)
      && ((forall m :: i < m < |changes| ==> changes[m].field != changes[i].field)
           ==> Get(FieldsOf(t.tasks[id]), changes[i].field) == changes[i].newValue)
  {
    hide Legal, Run, HistoryOf, Leads, UndoAll, Script, TxsGood, Inv;
    RunKeeps(s, steps);
    var t := Run(s, steps);
    HistoryLeads(t, id);
    var changes, from, to := HistoryOf(t.history, id), FirstFields(t, id), FieldsOf(t.tasks[id]);
    var rest := changes[1..];
    var mid := LeadsFrom(from, rest, to, i - 1);
    forall j | i < j < |changes| && changes[j].field == changes[i].field &&
               forall m :: i < m < j ==> changes[m].field != changes[i].field
      ensures changes[j].oldValue == changes[i].newValue
    {
      assert forall m :: i - 1 < m < j - 1 ==> rest[m] == changes[m + 1];
      ChangesChain(from, rest, to, i - 1, j - 1);
    }
    if forall m :: i < m < |changes| ==> changes[m].field != changes[i].field {
      assert forall m :: i - 1 < m < |rest| ==> rest[m] == changes[m + 1];
      LastChangeStands(from, rest, to, i - 1);
    }
  }

  function FirstFields(s: State, id: int): Fields
    requires id in s.versions && s.versions[id] != []
  {
    FieldsOf(s.versions[id][0])
  }

  lemma HistoryLeads(t: State, id: int)
    requires Inv(t) && id in t.tasks
    ensures id in t.versions && t.versions[id] != []
    ensures HistoryOf(t.history, id) != []
    ensures Leads(FirstFields(t, id), HistoryOf(t.history, id)[1..], FieldsOf(t.tasks[id]))
  {
    hide HistoryOf, Leads, Script, TxsGood;
    assert TaskGood(t, id);
    ScriptLeads(t.versions[id]);
  }

  /** Every row a task ever had: completed exactly when done, assigned to a member if to
      anyone, in the team and by the author of its first row; and while it stays done its
      completion time does not move. */
  lemma RowsStayGood(s: State, steps: seq<Step>, id: int, i: nat, j: nat)
    requires Initial(s) && Legal(s, steps) && id in Run(s, steps).versions
    requires i <= j < |Run(s, steps).versions[id]|
    ensures var t := Run(s, steps);
      var versions := t.versions[id];
      && (versions[j].completedAt.Some? <==> versions[j].status == DONE)
      && AssigneeOk(t.members, versions[j].teamId, versions[j].assignee)
      && versions[j].teamId == versions[i].teamId && versions[j].createdBy == versions[i].createdBy
      && ((forall k :: i <= k <= j ==> versions[k].status == DONE) ==> versions[j].completedAt == versions[i].completedAt)
  {
    hide Legal, Run, HistoryOf, Script, TxsGood;
    RunKeeps(s, steps);
    var t := Run(s, steps);
    assert TaskGood(t, id);
    assert RowGood(t.members, t.versions[id][j]);
    SucceedsTo(t.members, t.versions[id], i, j);
  }

  lemma {:induction false} SucceedsTo(members: Members, versions: seq<Row>, i: nat, j: nat)
    requires VersionsGood(members, versions) && i <= j < |versions|
    ensures versions[j].teamId == versions[i].teamId && versions[j].createdBy == versions[i].createdBy
    ensures (forall k :: i <= k <= j ==> versions[k].status == DONE) ==>
      versions[j].completedAt == versions[i].completedAt
    decreases j - i
  {
    if i < j {
      SucceedsTo(members, versions, i, j - 1);
      assert Succeeds(versions[j - 1], versions[j]);
    }
  }

  /** Only a commit changes the tasks others see, and only those of one team: the team
      whose cached lists the service invalidates next. */
  lemma StepWritesOneTeam(s: State, step: Step)
    requires Inv(s) && Enabled(s, step)
    ensures !step.Commit? ==> Next(s, step).tasks == s.tasks
    ensures step.Commit? ==> ListCache.OnlyTeam(s.tasks, Next(s, step).tasks, s.txs[step.t].row.teamId)
  {
    hide TaskGood, Fresh, Diff, HistoryOf, WithEntries;
    if step.Commit? {
      assert TxGood(s, s.txs[step.t]);
    }
  }

  // --- the service's update is a run ---

  lemma Extend(s: State, steps: seq<Step>, step: Step)
    requires Legal(s, steps) && Enabled(Run(s, steps), step)
    ensures Legal(s, steps + [step]) && Run(s, steps + [step]) == Next(Run(s, steps), step)
  {
    hide Enabled, Next;
    assert (steps + [step])[..|steps|] == steps;
  }

  /** With the first i changes inserted. */
  function Inserting(s: State, t: int, actor: int, id: int, group: string, row: Row, i: nat): State
    requires id in s.tasks && i <= |Diff(s.tasks[id], row)|
  {
    var changes := Diff(s.tasks[id], row);
    WithTx(s, t, Written(actor, id, group, s.tasks[id], row,
                         Numbered(s.nextChange, id, actor, group, changes[..i]), changes[i..]))
      .(nextChange := s.nextChange + i)
  }

  lemma InsertingNext(s: State, t: int, actor: int, id: int, group: string, row: Row, i: nat)
    requires id in s.tasks && i < |Diff(s.tasks[id], row)|
    ensures Enabled(Inserting(s, t, actor, id, group, row, i), Append(t))
    ensures Next(Inserting(s, t, actor, id, group, row, i), Append(t)) == Inserting(s, t, actor, id, group, row, i + 1)
  {
    hide Diff;
    var changes := Diff(s.tasks[id], row);
    assert Numbered(s.nextChange, id, actor, group, changes[..i + 1]) ==
           Numbered(s.nextChange, id, actor, group, changes[..i]) +
           [(s.nextChange + i, Entry(id, actor, group, changes[i]))];
    assert changes[i..][1..] == changes[i + 1..];
  }

  lemma OpeningSteps(s: State, t: int, actor: int, id: int, input: Input, group: string, now: int)
    requires t !in s.txs && id in s.tasks && AssigneeOk(s.members, s.tasks[id].teamId, input.assignee) && Unlocked(s, id)
    ensures var steps := [Check(t, actor, id, input), Lock(t), Write(t, group, now)];
      && Legal(s, steps)
      && Run(s, steps) == Inserting(s, t, actor, id, group, Edited(s.tasks[id], input, now), 0)
  {
    hide Diff, Edited;
    var check, lock, write := Check(t, actor, id, input), Lock(t), Write(t, group, now);
    Extend(s, [], check);
    assert [] + [check] == [check];
    var s1 := Next(s, check);
    assert Unlocked(s1, id);
    Extend(s, [check], lock);
    assert [check] + [lock] == [check, lock];
    Extend(s, [check, lock], write);
    assert [check, lock] + [write] == [check, lock, write];
    var changes := Diff(s.tasks[id], Edited(s.tasks[id], input, now));
    assert changes[0..] == changes && Numbered(s.nextChange, id, actor, group, changes[..0]) == [];
  }

  /** What the service's Update writes in one go is what the steps of one transaction write
      when no other comes between them. */
  lemma UpdateIsARun(s: State, t: int, actor: int, id: int, input: Input, group: string, now: int)
    returns (steps: seq<Step>)
    requires t !in s.txs && id in s.tasks && AssigneeOk(s.members, s.tasks[id].teamId, input.assignee) && Unlocked(s, id)
    ensures Legal(s, steps)
    ensures var row := Edited(s.tasks[id], input, now);
      var changes, s' := Diff(s.tasks[id], row), Run(s, steps);
      && s'.tasks == s.tasks[id := row] && s'.txs == s.txs
      && s'.history == WithEntries(s.history, Numbered(s.nextChange, id, actor, group, changes))
      && s'.nextChange == s.nextChange + |changes|
  {
    hide Diff, Edited, WithEntries, Run, Legal, Enabled, Next, Inserting, Numbered;
    var row := Edited(s.tasks[id], input, now);
    var changes := Diff(s.tasks[id], row);
    steps := [Check(t, actor, id, input), Lock(t), Write(t, group, now)];
    OpeningSteps(s, t, actor, id, input, group, now);
    for i := 0 to |changes|
      invariant Legal(s, steps) && Run(s, steps) == Inserting(s, t, actor, id, group, row, i)
    {
      InsertingNext(s, t, actor, id, group, row, i);
      Extend(s, steps, Append(t));
      steps := steps + [Append(t)];
    }
    Inserted(s, t, actor, id, group, row);
    Extend(s, steps, Commit(t));
    steps := steps + [Commit(t)];
  }

  lemma Inserted(s: State, t: int, actor: int, id: int, group: string, row: Row)
    requires t !in s.txs && id in s.tasks
    ensures var changes := Diff(s.tasks[id], row);
      var done := Inserting(s, t, actor, id, group, row, |changes|);
      && Enabled(done, Commit(t))
      && var s' := Next(done, Commit(t));
      && s'.tasks == s.tasks[id := row] && s'.txs == s.txs
      && s'.history == WithEntries(s.history, Numbered(s.nextChange, id, actor, group, changes))
      && s'.nextChange == s.nextChange + |changes|
  {
    hide Diff, WithEntries;
    var changes := Diff(s.tasks[id], row);
    assert changes[..|changes|] == changes;
  }

  // --- the integrity report ---

  /** Tasks whose assignee has no membership row in the task's team. */
  function Orphans(s: State): set<int> {
    set id | id in s.tasks && s.tasks[id].assignee.Some? && (s.tasks[id].teamId, s.tasks[id].assignee.value) !in s.members
  }

  /** No page of the report ever lists anything. */
  lemma {:induction false} NoOrphans(s: State, steps: seq<Step>, afterId: int, limit: nat)
    requires Initial(s) && Legal(s, steps)
    ensures Page(Orphans(Run(s, steps)), afterId, limit) == []
    ensures var t := Run(s, steps);
      forall id :: id in t.tasks && t.tasks[id].assignee.Some? ==> (t.tasks[id].teamId, t.tasks[id].assignee.value) in t.members
  {
    hide Legal, Run, HistoryOf, Script, TxsGood;
    RunKeeps(s, steps);
    var t := Run(s, steps);
    forall id | id in t.tasks
      ensures AssigneeOk(t.members, t.tasks[id].teamId, t.tasks[id].assignee)
    {
      assert TaskGood(t, id);
      assert RowGood(t.members, t.versions[id][|t.versions[id]| - 1]);
    }
    assert After(Orphans(t), afterId) == {};
  }
}
