/** The email_outbox table and the statements the repository runs on it. The batched
    UPDATEs are built as a statement text with placeholders and a flat argument list;
    Exec reads such a statement back, argument by argument, the way the server does. */
module OutboxStore {
  import opened Prelude
  import opened Utf8
  import opened Outbox

  const MAX_ERR_LEN: nat := 1024

  datatype Status = Pending | Failed

  // Times are microseconds of the database clock; None is NULL.
  datatype Row = Row(
    message: Message,
    status: Status,
    attempts: nat,
    nextRetryAt: Option<int>,
    lastError: Option<Text>)

  type Rows = map<int, Row>

  // --- claiming ---

  predicate Due(row: Row, now: int) {
    row.status.Pending? && (row.nextRetryAt.None? || row.nextRetryAt.value <= now)
  }

  function Eligible(rows: Rows, locked: set<int>, now: int): set<int> {
    set id | id in rows && Due(rows[id], now) && id !in locked
  }

  /** What ORDER BY id LIMIT batch FOR UPDATE SKIP LOCKED selects. */
  function ClaimIds(rows: Rows, locked: set<int>, now: int, batch: nat): (ids: seq<int>)
    ensures forall i :: 0 <= i < |ids| ==> ids[i] in Eligible(rows, locked, now)
    ensures NoDup(ids)
  {
    var all := SortedOf(Eligible(rows, locked, now));
    assert forall i :: 0 <= i < |all| ==> all[i] in all;
    if |all| <= batch then all else all[..batch]
  }

  function ToClaimed(rows: Rows, ids: seq<int>): (claimed: seq<Claimed>)
    requires forall i :: 0 <= i < |ids| ==> ids[i] in rows
    ensures |claimed| == |ids|
    ensures forall i :: 0 <= i < |ids| ==> claimed[i] == Claimed(rows[ids[i]].message, ids[i], rows[ids[i]].attempts)
  {
    if ids == [] then [] else
      var n := |ids| - 1;
      ToClaimed(rows, ids[..n]) + [Claimed(rows[ids[n]].message, ids[n], rows[ids[n]].attempts)]
  }

  /** The claim takes the oldest due unlocked rows and leaves one out only when the
      batch is full with older ones. */
  lemma ClaimTakesOldest(rows: Rows, locked: set<int>, now: int, batch: nat, id: int)
    requires id in Eligible(rows, locked, now)
    ensures var ids := ClaimIds(rows, locked, now, batch);
            id in ids || (|ids| == batch && forall x :: x in ids ==> x < id)
  {
    var all := SortedOf(Eligible(rows, locked, now));
    var k :| 0 <= k < |all| && all[k] == id;
    if k >= batch {
      forall x | x in all[..batch]
        ensures x < id
      {
        var j :| 0 <= j < batch && all[..batch][j] == x;
        assert all[j] == x;
      }
    } else if |all| > batch {
      assert all[..batch][k] == id;
    }
  }

  // --- what the statements mean, row by row ---

  function RetryIds(items: seq<Retry>): set<int> {
    set it | it in items :: it.id
  }

  function FailureIds(items: seq<Failure>): set<int> {
    set it | it in items :: it.id
  }

  function FirstRetry(items: seq<Retry>, id: int): (it: Retry)
    requires id in RetryIds(items)
    ensures it in items && it.id == id
  {
    if items[0].id == id then items[0] else
      assert forall it :: it in items ==> it == items[0] || it in items[1..];
      FirstRetry(items[1..], id)
  }

  function FirstFailure(items: seq<Failure>, id: int): (it: Failure)
    requires id in FailureIds(items)
    ensures it in items && it.id == id
  {
    if items[0].id == id then items[0] else
      assert forall it :: it in items ==> it == items[0] || it in items[1..];
      FirstFailure(items[1..], id)
  }

  // Duration.Microseconds drops the fraction of a microsecond, toward zero.
  function Micros(delay: int): int {
    if delay >= 0 then delay / MICROSECOND else -(-delay / MICROSECOND)
  }

  /** A time in the table, in microseconds, is this delay in nanoseconds after now, but for
      the fraction of a microsecond. */
  predicate Waits(now: int, at: int, delay: int) {
    if delay >= 0 then 1000 * (at - now) <= delay < 1000 * (at - now) + 1000
    else 1000 * (at - now) - 1000 < delay <= 1000 * (at - now)
  }

  lemma MicrosWait(now: int, delay: int)
    ensures Waits(now, now + Micros(delay), delay)
  {
  }

  /** What a statement leaves of a row it put off: pending again, one attempt more, due
      after the delay, the text of the error cut to 1024 bytes. */
  predicate PutOff(before: Row, after: Row, it: Retry, now: int) {
    && after.message == before.message && after.status == Pending && after.attempts == before.attempts + 1
    && after.nextRetryAt.Some? && Waits(now, after.nextRetryAt.value, it.delay)
    && after.lastError == Some(Truncated(it.lastErr, 1024))
  }

  /** What a statement leaves of a row it gave up. */
  predicate GivenUp(before: Row, after: Row, it: Failure) {
    && after.message == before.message && after.status == Failed && after.attempts == before.attempts + 1
    && after.nextRetryAt == before.nextRetryAt
    && after.lastError == Some(Truncated(it.lastErr, 1024))
  }

  function RetriedRow(row: Row, it: Retry, now: int): Row {
    row.(status := Pending, attempts := row.attempts + 1,
         nextRetryAt := Some(now + Micros(it.delay)),
         lastError := Some(Truncated(it.lastErr, MAX_ERR_LEN)))
  }

  function FailedRow(row: Row, it: Failure): Row {
    row.(status := Failed, attempts := row.attempts + 1,
         lastError := Some(Truncated(it.lastErr, MAX_ERR_LEN)))
  }

  function Deleted(rows: Rows, ids: seq<int>): Rows {
    rows - Elems(ids)
  }

  function Rescheduled(rows: Rows, items: seq<Retry>, now: int): Rows {
    map id | id in rows ::
      if id in RetryIds(items) then RetriedRow(rows[id], FirstRetry(items, id), now) else rows[id]
  }

  function MarkedFailed(rows: Rows, items: seq<Failure>): Rows {
    map id | id in rows ::
      if id in FailureIds(items) then FailedRow(rows[id], FirstFailure(items, id)) else rows[id]
  }

  // --- statements ---

  /** The pieces the builders write. WhenThen carries two placeholders, Mark one. */
  datatype Frag =
    | DeleteWhereIn
    | PendingCase       // UPDATE .. 'pending', attempts + 1, next_retry_at = NOW + (CASE id
    | FailedCase        // UPDATE .. 'failed', attempts + 1, last_error = CASE id
    | WhenThen
    | EndThenErrorCase  // END) MICROSECOND), last_error = CASE id
    | EndWhereIn
    | Open | Comma | Mark | Close

  datatype Arg = IdArg(id: int) | MicrosArg(micros: int) | TextArg(text: Text)

  function Placeholders(sql: seq<Frag>): nat {
    if sql == [] then 0 else
      (match sql[0] case WhenThen => 2 case Mark => 1 case _ => 0) + Placeholders(sql[1..])
  }

  function Whens(n: nat): seq<Frag> {
    if n == 0 then [] else [WhenThen] + Whens(n - 1)
  }

  // The marks of an IN list after its first one, with the closing parenthesis.
  function MoreMarks(n: nat): seq<Frag> {
    if n == 0 then [Close] else [Comma, Mark] + MoreMarks(n - 1)
  }

  function InList(n: nat): seq<Frag> {
    if n == 0 then [Open, Close] else [Open, Mark] + MoreMarks(n - 1)
  }

  function IdArgs(ids: seq<int>): (args: seq<Arg>)
    ensures |args| == |ids|
  {
    if ids == [] then [] else [IdArg(ids[0])] + IdArgs(ids[1..])
  }

  function DelayArgs(items: seq<Retry>): (args: seq<Arg>)
    ensures |args| == 2 * |items|
  {
    if items == [] then [] else [IdArg(items[0].id), MicrosArg(Micros(items[0].delay))] + DelayArgs(items[1..])
  }

  /** What there is to say of each row: its id and error. */
  function ErrorsOf(items: seq<Retry>): (errors: seq<Failure>)
    ensures |errors| == |items|
    ensures forall i :: 0 <= i < |items| ==> errors[i] == Failure(items[i].lastErr, items[i].id)
  {
    seq(|items|, i requires 0 <= i < |items| => Failure(items[i].lastErr, items[i].id))
  }

  function ErrArgs(items: seq<Failure>): (args: seq<Arg>)
    ensures |args| == 2 * |items|
  {
    if items == [] then [] else
      [IdArg(items[0].id), TextArg(Truncated(items[0].lastErr, MAX_ERR_LEN))] + ErrArgs(items[1..])
  }

  function FailureIdSeq(items: seq<Failure>): (ids: seq<int>)
    ensures |ids| == |items| && forall i :: 0 <= i < |items| ==> ids[i] == items[i].id
  {
    seq(|items|, i requires 0 <= i < |items| => items[i].id)
  }

  function RetryIdSeq(items: seq<Retry>): (ids: seq<int>)
    ensures |ids| == |items| && forall i :: 0 <= i < |items| ==> ids[i] == items[i].id
  {
    FailureIdSeq(ErrorsOf(items))
  }

  function RescheduleSql(n: nat): seq<Frag> {
    [PendingCase] + (Whens(n) + ([EndThenErrorCase] + (Whens(n) + ([EndWhereIn] + InList(n)))))
  }

  function RescheduleArgs(items: seq<Retry>): seq<Arg> {
    DelayArgs(items) + (ErrArgs(ErrorsOf(items)) + IdArgs(RetryIdSeq(items)))
  }

  function MarkFailedSql(n: nat): seq<Frag> {
    [FailedCase] + (Whens(n) + ([EndWhereIn] + InList(n)))
  }

  function MarkFailedArgs(items: seq<Failure>): seq<Arg> {
    ErrArgs(items) + IdArgs(FailureIdSeq(items))
  }

  // --- the server's reading of a statement ---

  datatype Arm = Arm(key: Arg, value: Arg)

  datatype Parsed<T> = Parsed(result: T, sql: seq<Frag>, args: seq<Arg>)

  // The CASE arms at the front, each taking the next two arguments.
  function ReadArms(sql: seq<Frag>, args: seq<Arg>): Option<Parsed<seq<Arm>>> {
    if sql == [] || sql[0] != WhenThen then Some(Parsed([], sql, args))
    else if |args| < 2 then None
    else match ReadArms(sql[1..], args[2..])
      case None => None
      case Some(p) => Some(Parsed([Arm(args[0], args[1])] + p.result, p.sql, p.args))
  }

  // The rest of an IN list: ", ?" each taking one argument, up to the parenthesis.
  function ReadMore(sql: seq<Frag>, args: seq<Arg>): Option<Parsed<set<Arg>>>
    decreases |sql|
  {
    if sql == [] then None
    else if sql[0] == Close then Some(Parsed({}, sql[1..], args))
    else if |sql| >= 2 && sql[0] == Comma && sql[1] == Mark && args != [] then
      match ReadMore(sql[2..], args[1..])
      case None => None
      case Some(p) => Some(Parsed({args[0]} + p.result, p.sql, p.args))
    else None
  }

  // "(?, ?, ..)": an empty list is a syntax error.
  function ReadIn(sql: seq<Frag>, args: seq<Arg>): Option<set<Arg>> {
    if |sql| >= 2 && sql[0] == Open && sql[1] == Mark && args != [] then
      match ReadMore(sql[2..], args[1..])
      case None => None
      case Some(p) => if p.sql == [] && p.args == [] then Some({args[0]} + p.result) else None
    else None
  }

  // CASE id WHEN .. THEN ..: the first arm whose key equals the id, NULL when none does.
  function CaseOf(arms: seq<Arm>, id: int): Option<Arg> {
    if arms == [] then None
    else if arms[0].key == IdArg(id) then Some(arms[0].value)
    else CaseOf(arms[1..], id)
  }

  datatype Statement =
    | DeleteRows(ids: set<Arg>)
    | RetryRows(delays: seq<Arm>, errors: seq<Arm>, ids: set<Arg>)
    | FailRows(errors: seq<Arm>, ids: set<Arg>)

  function ReadErrorsAndIds(sql: seq<Frag>, args: seq<Arg>): Option<(seq<Arm>, set<Arg>)> {
    match ReadArms(sql, args)
    case None => None
    case Some(e) =>
      if e.sql == [] || e.sql[0] != EndWhereIn then None
      else match ReadIn(e.sql[1..], e.args)
        case None => None
        case Some(ids) => Some((e.result, ids))
  }

  function Read(sql: seq<Frag>, args: seq<Arg>): Option<Statement> {
    if sql == [] then None
    else match sql[0]
      case DeleteWhereIn =>
        (match ReadIn(sql[1..], args)
         case None => None
         case Some(ids) => Some(DeleteRows(ids)))
      case PendingCase =>
        (match ReadArms(sql[1..], args)
         case None => None
         case Some(d) =>
           if d.sql == [] || d.sql[0] != EndThenErrorCase then None
           else match ReadErrorsAndIds(d.sql[1..], d.args)
             case None => None
             case Some(p) => Some(RetryRows(d.result, p.0, p.1)))
      case FailedCase =>
        (match ReadErrorsAndIds(sql[1..], args)
         case None => None
         case Some(p) => Some(FailRows(p.0, p.1)))
      case _ => None
  }

  function AsTime(v: Option<Arg>, now: int): Option<int> {
    if v.Some? && v.value.MicrosArg? then Some(now + v.value.micros) else None
  }

  function AsText(v: Option<Arg>): Option<Text> {
    if v.Some? && v.value.TextArg? then Some(v.value.text) else None
  }

  function SetPending(row: Row, delay: Option<Arg>, error: Option<Arg>, now: int): Row {
    row.(status := Pending, attempts := row.attempts + 1,
         nextRetryAt := AsTime(delay, now), lastError := AsText(error))
  }

  function SetFailed(row: Row, error: Option<Arg>): Row {
    row.(status := Failed, attempts := row.attempts + 1, lastError := AsText(error))
  }

  function Meaning(st: Statement, rows: Rows, now: int): Rows {
    match st
    case DeleteRows(ids) => map id | id in rows && IdArg(id) !in ids :: rows[id]
    case RetryRows(delays, errors, ids) =>
      map id | id in rows ::
        if IdArg(id) in ids then SetPending(rows[id], CaseOf(delays, id), CaseOf(errors, id), now) else rows[id]
    case FailRows(errors, ids) =>
      map id | id in rows ::
        if IdArg(id) in ids then SetFailed(rows[id], CaseOf(errors, id)) else rows[id]
  }

  /** The table after the statement; None when the server refuses it. */
  function Exec(sql: seq<Frag>, args: seq<Arg>, rows: Rows, now: int): Option<Rows> {
    match Read(sql, args)
    case None => None
    case Some(st) => Some(Meaning(st, rows, now))
  }

  function IdKeys(ids: seq<int>): (keys: set<Arg>)
    ensures forall id :: IdArg(id) in keys <==> id in ids
  {
    set id | id in ids :: IdArg(id)
  }

  // --- the builders are a correct compiler ---

  lemma {:induction false} PlaceholdersConcat(a: seq<Frag>, b: seq<Frag>)
    ensures Placeholders(a + b) == Placeholders(a) + Placeholders(b)
  {
    if a == [] {
      assert a + b == b;
    } else {
      assert (a + b)[1..] == a[1..] + b;
      PlaceholdersConcat(a[1..], b);
    }
  }

  lemma {:induction false} PlaceholdersOfWhens(n: nat)
    ensures Placeholders(Whens(n)) == 2 * n
  {
    if n > 0 {
      assert Whens(n)[1..] == Whens(n - 1);
      PlaceholdersOfWhens(n - 1);
    }
  }

  lemma {:induction false} PlaceholdersOfMarks(n: nat)
    ensures Placeholders(MoreMarks(n)) == n
  {
    if n > 0 {
      var rest := MoreMarks(n - 1);
      PlaceholdersOfMarks(n - 1);
      PlaceholdersConcat([Comma, Mark], rest);
      assert [Comma, Mark][1..] == [Mark] && [Mark][1..] == [];
    }
  }

  lemma PlaceholdersOfIn(n: nat)
    ensures Placeholders(InList(n)) == n
  {
    if n > 0 {
      PlaceholdersOfMarks(n - 1);
      PlaceholdersConcat([Open, Mark], MoreMarks(n - 1));
      assert [Open, Mark][1..] == [Mark] && [Mark][1..] == [];
    } else {
      assert [Open, Close][1..] == [Close] && [Close][1..] == [];
    }
  }

  /** As many placeholders as arguments: five an item for Reschedule, three for MarkFailed. */
  lemma PlaceholdersMatchArgs(retries: seq<Retry>, failures: seq<Failure>)
    ensures Placeholders(RescheduleSql(|retries|)) == |RescheduleArgs(retries)| == 5 * |retries|
    ensures Placeholders(MarkFailedSql(|failures|)) == |MarkFailedArgs(failures)| == 3 * |failures|
  {
    var n, m := |retries|, |failures|;
    PlaceholdersOfWhens(n);
    PlaceholdersOfWhens(m);
    PlaceholdersOfIn(n);
    PlaceholdersOfIn(m);
    PlaceholdersConcat(Whens(n), [EndThenErrorCase] + (Whens(n) + ([EndWhereIn] + InList(n))));
    PlaceholdersConcat(Whens(n), [EndWhereIn] + InList(n));
    PlaceholdersConcat(Whens(m), [EndWhereIn] + InList(m));
  }

  function ArmsOf(args: seq<Arg>): seq<Arm> {
    if |args| < 2 then [] else [Arm(args[0], args[1])] + ArmsOf(args[2..])
  }

  lemma {:induction false} ReadArmsOfWhens(n: nat, args: seq<Arg>, rest: seq<Frag>, more: seq<Arg>)
    requires |args| == 2 * n && rest != [] && rest[0] != WhenThen
    ensures ReadArms(Whens(n) + rest, args + more) == Some(Parsed(ArmsOf(args), rest, more))
  {
    if n == 0 {
      assert Whens(n) + rest == rest && args + more == more;
    } else {
      assert (Whens(n) + rest)[1..] == Whens(n - 1) + rest;
      assert (args + more)[2..] == args[2..] + more;
      ReadArmsOfWhens(n - 1, args[2..], rest, more);
    }
  }

  lemma IdKeysFront(ids: seq<int>)
    requires ids != []
    ensures IdKeys(ids) == {IdArg(ids[0])} + IdKeys(ids[1..])
  {
    assert forall id :: id in ids <==> id == ids[0] || id in ids[1..];
    forall k | k in IdKeys(ids)
      ensures k in {IdArg(ids[0])} + IdKeys(ids[1..])
    {
      assert IdArg(k.id) in IdKeys(ids);
    }
  }

  lemma {:induction false} ReadMoreOfMarks(ids: seq<int>)
    ensures ReadMore(MoreMarks(|ids|), IdArgs(ids)) == Some(Parsed(IdKeys(ids), [], []))
  {
    if ids == [] {
      assert [Close][1..] == [] && IdArgs(ids) == [] && IdKeys(ids) == {};
    } else {
      assert MoreMarks(|ids|)[2..] == MoreMarks(|ids| - 1);
      assert IdArgs(ids)[1..] == IdArgs(ids[1..]);
      ReadMoreOfMarks(ids[1..]);
      IdKeysFront(ids);
    }
  }

  lemma ReadInShape(sql: seq<Frag>, args: seq<Arg>, keys: set<Arg>)
    requires |sql| >= 2 && sql[0] == Open && sql[1] == Mark && args != []
    requires ReadMore(sql[2..], args[1..]) == Some(Parsed(keys, [], []))
    ensures ReadIn(sql, args) == Some({args[0]} + keys)
  {
  }

  lemma ReadInOfList(ids: seq<int>)
    requires ids != []
    ensures ReadIn(InList(|ids|), IdArgs(ids)) == Some(IdKeys(ids))
  {
    var sql, args := InList(|ids|), IdArgs(ids);
    assert sql[2..] == MoreMarks(|ids[1..]|);
    assert args[1..] == IdArgs(ids[1..]) && args[0] == IdArg(ids[0]);
    ReadMoreOfMarks(ids[1..]);
    ReadInShape(sql, args, IdKeys(ids[1..]));
    IdKeysFront(ids);
  }

  lemma ReadErrorsOfList(errs: seq<Arg>, ids: seq<int>)
    requires ids != [] && |errs| == 2 * |ids|
    ensures ReadErrorsAndIds(Whens(|ids|) + ([EndWhereIn] + InList(|ids|)), errs + IdArgs(ids)) ==
            Some((ArmsOf(errs), IdKeys(ids)))
  {
    var tail := [EndWhereIn] + InList(|ids|);
    ReadArmsOfWhens(|ids|, errs, tail, IdArgs(ids));
    assert tail[1..] == InList(|ids|);
    ReadInOfList(ids);
  }

  lemma {:induction false} CaseOfFailures(items: seq<Failure>, id: int)
    requires id in FailureIds(items)
    ensures CaseOf(ArmsOf(ErrArgs(items)), id) ==
            Some(TextArg(Truncated(FirstFailure(items, id).lastErr, MAX_ERR_LEN)))
  {
    assert ErrArgs(items)[2..] == ErrArgs(items[1..]);
    if items[0].id != id {
      assert forall it :: it in items ==> it == items[0] || it in items[1..];
      CaseOfFailures(items[1..], id);
    }
  }

  lemma {:induction false} FirstError(items: seq<Retry>, id: int)
    requires id in RetryIds(items)
    ensures id in FailureIds(ErrorsOf(items))
    ensures FirstFailure(ErrorsOf(items), id).lastErr == FirstRetry(items, id).lastErr
  {
    var errors := ErrorsOf(items);
    assert forall it :: it in items ==> it == items[0] || it in items[1..];
    assert errors[0] in errors;
    if items[0].id != id {
      assert errors[1..] == ErrorsOf(items[1..]);
      FirstError(items[1..], id);
      assert forall it :: it in errors[1..] ==> it in errors;
    }
  }

  lemma {:induction false} CaseOfRetries(items: seq<Retry>, id: int)
    requires id in RetryIds(items)
    ensures CaseOf(ArmsOf(DelayArgs(items)), id) == Some(MicrosArg(Micros(FirstRetry(items, id).delay)))
  {
    assert DelayArgs(items)[2..] == DelayArgs(items[1..]);
    if items[0].id != id {
      assert forall it :: it in items ==> it == items[0] || it in items[1..];
      CaseOfRetries(items[1..], id);
    }
  }

  lemma ReadRetryShape(first: seq<Frag>, second: seq<Frag>, args: seq<Arg>, more: seq<Arg>,
                       delays: seq<Arm>, e: (seq<Arm>, set<Arg>))
    requires ReadArms(first, args) == Some(Parsed(delays, [EndThenErrorCase] + second, more))
    requires ReadErrorsAndIds(second, more) == Some(e)
    ensures Read([PendingCase] + first, args) == Some(RetryRows(delays, e.0, e.1))
  {
    assert ([PendingCase] + first)[1..] == first;
    assert ([EndThenErrorCase] + second)[1..] == second;
  }

  lemma ReadFailShape(first: seq<Frag>, args: seq<Arg>, e: (seq<Arm>, set<Arg>))
    requires ReadErrorsAndIds(first, args) == Some(e)
    ensures Read([FailedCase] + first, args) == Some(FailRows(e.0, e.1))
  {
    assert ([FailedCase] + first)[1..] == first;
  }

  lemma ReadReschedule(items: seq<Retry>)
    requires items != []
    ensures Read(RescheduleSql(|items|), DelayArgs(items) + (ErrArgs(ErrorsOf(items)) + IdArgs(RetryIdSeq(items)))) ==
            Some(RetryRows(ArmsOf(DelayArgs(items)), ArmsOf(ErrArgs(ErrorsOf(items))), IdKeys(RetryIdSeq(items))))
  {
    hide *;
    ReadRetryParts(|items|, DelayArgs(items), ErrArgs(ErrorsOf(items)), RetryIdSeq(items));
  }

  lemma ReadRetryParts(n: nat, delays: seq<Arg>, errs: seq<Arg>, ids: seq<int>)
    requires n > 0 && |delays| == 2 * n && |errs| == 2 * n && |ids| == n
    ensures Read(RescheduleSql(n), delays + (errs + IdArgs(ids))) ==
            Some(RetryRows(ArmsOf(delays), ArmsOf(errs), IdKeys(ids)))
  {
    hide Read, ReadArms, ReadErrorsAndIds, ReadIn, ReadMore, Whens, InList, ArmsOf, IdArgs;
    var second := Whens(n) + ([EndWhereIn] + InList(n));
    var tail := [EndThenErrorCase] + second;
    var more := errs + IdArgs(ids);
    ReadArmsOfWhens(n, delays, tail, more);
    ReadErrorsOfList(errs, ids);
    ReadRetryShape(Whens(n) + tail, second, delays + more, more, ArmsOf(delays), (ArmsOf(errs), IdKeys(ids)));
  }

  lemma ReadMarkFailed(items: seq<Failure>)
    requires items != []
    ensures Read(MarkFailedSql(|items|), MarkFailedArgs(items)) ==
            Some(FailRows(ArmsOf(ErrArgs(items)), IdKeys(FailureIdSeq(items))))
  {
    ReadFailParts(|items|, ErrArgs(items), FailureIdSeq(items));
  }

  lemma ReadFailParts(n: nat, errs: seq<Arg>, ids: seq<int>)
    requires n > 0 && |errs| == 2 * n && |ids| == n
    ensures Read(MarkFailedSql(n), errs + IdArgs(ids)) == Some(FailRows(ArmsOf(errs), IdKeys(ids)))
  {
    ReadErrorsOfList(errs, ids);
    ReadFailShape(Whens(n) + ([EndWhereIn] + InList(n)), errs + IdArgs(ids), (ArmsOf(errs), IdKeys(ids)));
  }

  lemma IdsOfItems(retries: seq<Retry>, failures: seq<Failure>)
    ensures forall id :: id in RetryIdSeq(retries) <==> id in RetryIds(retries)
    ensures forall id :: id in FailureIdSeq(failures) <==> id in FailureIds(failures)
  {
    forall id | id in RetryIds(retries)
      ensures id in RetryIdSeq(retries)
    {
      var k :| 0 <= k < |retries| && retries[k].id == id;
      assert RetryIdSeq(retries)[k] == id;
    }
    forall id | id in FailureIds(failures)
      ensures id in FailureIdSeq(failures)
    {
      var k :| 0 <= k < |failures| && failures[k].id == id;
      assert FailureIdSeq(failures)[k] == id;
    }
  }

  lemma RetryRowMeaning(items: seq<Retry>, id: int, row: Row, now: int)
    requires id in RetryIds(items)
    ensures SetPending(row, CaseOf(ArmsOf(DelayArgs(items)), id), CaseOf(ArmsOf(ErrArgs(ErrorsOf(items))), id), now) ==
            RetriedRow(row, FirstRetry(items, id), now)
  {
    CaseOfRetries(items, id);
    FirstError(items, id);
    CaseOfFailures(ErrorsOf(items), id);
    hide ArmsOf, DelayArgs, ErrArgs, CaseOf, FirstRetry, FirstFailure;
  }

  lemma RetryMeaning(items: seq<Retry>, rows: Rows, now: int)
    ensures Meaning(RetryRows(ArmsOf(DelayArgs(items)), ArmsOf(ErrArgs(ErrorsOf(items))), IdKeys(RetryIdSeq(items))),
                    rows, now) == Rescheduled(rows, items, now)
  {
    IdsOfItems(items, []);
    hide ArmsOf, DelayArgs, ErrArgs, CaseOf, FirstRetry, SetPending, RetriedRow;
    forall id | id in rows && id in RetryIds(items) {
      RetryRowMeaning(items, id, rows[id], now);
    }
  }

  lemma FailMeaning(items: seq<Failure>, rows: Rows, now: int)
    ensures Meaning(FailRows(ArmsOf(ErrArgs(items)), IdKeys(FailureIdSeq(items))), rows, now) ==
            MarkedFailed(rows, items)
  {
    IdsOfItems([], items);
    forall id | id in FailureIds(items) {
      CaseOfFailures(items, id);
    }
  }

  /** The compiled Reschedule, read positionally, updates exactly the listed rows, once
      each, with the delay and error of the first item that names them. */
  lemma RescheduleCompiles(items: seq<Retry>, rows: Rows, now: int)
    requires items != []
    ensures Exec(RescheduleSql(|items|), RescheduleArgs(items), rows, now) == Some(Rescheduled(rows, items, now))
  {
    ReadReschedule(items);
    RetryMeaning(items, rows, now);
  }

  lemma MarkFailedCompiles(items: seq<Failure>, rows: Rows, now: int)
    requires items != []
    ensures Exec(MarkFailedSql(|items|), MarkFailedArgs(items), rows, now) == Some(MarkedFailed(rows, items))
  {
    ReadMarkFailed(items);
    FailMeaning(items, rows, now);
  }

  lemma ReadDelete(ids: seq<int>)
    requires ids != []
    ensures Read([DeleteWhereIn] + InList(|ids|), IdArgs(ids)) == Some(DeleteRows(IdKeys(ids)))
  {
    ReadInOfList(ids);
    hide InList, IdArgs, ReadIn, Read;
    ReadDeleteShape(InList(|ids|), IdArgs(ids), IdKeys(ids));
  }

  lemma ReadDeleteShape(first: seq<Frag>, args: seq<Arg>, keys: set<Arg>)
    requires ReadIn(first, args) == Some(keys)
    ensures Read([DeleteWhereIn] + first, args) == Some(DeleteRows(keys))
  {
    assert ([DeleteWhereIn] + first)[1..] == first;
    hide ReadIn, ReadMore;
  }

  lemma DeleteMeaning(ids: seq<int>, rows: Rows, now: int)
    ensures Meaning(DeleteRows(IdKeys(ids)), rows, now) == Deleted(rows, ids)
  {
    hide IdKeys;
  }

  lemma {:induction false} DeleteCompiles(ids: seq<int>, rows: Rows, now: int)
    requires ids != []
    ensures Exec([DeleteWhereIn] + InList(|ids|), IdArgs(ids), rows, now) == Some(Deleted(rows, ids))
  {
    ReadDelete(ids);
    DeleteMeaning(ids, rows, now);
    hide Read, InList, IdArgs, Meaning, Deleted, IdKeys;
  }

  // --- one statement for the batch against one statement a row ---

  function RescheduledOneByOne(rows: Rows, items: seq<Retry>, now: int): Rows {
    if items == [] then rows
    else
      var it := items[0];
      RescheduledOneByOne(
        if it.id in rows then rows[it.id := RetriedRow(rows[it.id], it, now)] else rows, items[1..], now)
  }

  /** When no id is named twice, the batch does what one UPDATE an item would. */
  lemma {:induction false} BatchEqualsOneByOne(rows: Rows, items: seq<Retry>, now: int)
    requires NoDup(RetryIdSeq(items))
    ensures Rescheduled(rows, items, now) == RescheduledOneByOne(rows, items, now)
  {
    if items == [] {
    } else {
      var it, rest := items[0], items[1..];
      var first := if it.id in rows then rows[it.id := RetriedRow(rows[it.id], it, now)] else rows;
      forall i, j | 0 <= i < j < |rest|
        ensures RetryIdSeq(rest)[i] != RetryIdSeq(rest)[j]
      {
        assert RetryIdSeq(items)[i + 1] != RetryIdSeq(items)[j + 1];
      }
      BatchEqualsOneByOne(first, rest, now);
      forall k | 0 <= k < |rest|
        ensures rest[k].id != it.id
      {
        assert RetryIdSeq(items)[0] != RetryIdSeq(items)[k + 1];
      }
      assert RetryIds(items) == {it.id} + RetryIds(rest) by {
        assert forall x :: x in items <==> x == it || x in rest;
      }
    }
  }

  function MarkedOneByOne(rows: Rows, items: seq<Failure>): Rows {
    if items == [] then rows
    else
      var it := items[0];
      MarkedOneByOne(if it.id in rows then rows[it.id := FailedRow(rows[it.id], it)] else rows, items[1..])
  }

  lemma {:induction false} FailuresEqualOneByOne(rows: Rows, items: seq<Failure>)
    requires NoDup(FailureIdSeq(items))
    ensures MarkedFailed(rows, items) == MarkedOneByOne(rows, items)
  {
    hide FailedRow;
    if items == [] {
    } else {
      var it, rest := items[0], items[1..];
      var first := if it.id in rows then rows[it.id := FailedRow(rows[it.id], it)] else rows;
      forall i, j | 0 <= i < j < |rest|
        ensures FailureIdSeq(rest)[i] != FailureIdSeq(rest)[j]
      {
        assert FailureIdSeq(items)[i + 1] != FailureIdSeq(items)[j + 1];
      }
      FailuresEqualOneByOne(first, rest);
      forall k | 0 <= k < |rest|
        ensures rest[k].id != it.id
      {
        assert FailureIdSeq(items)[0] != FailureIdSeq(items)[k + 1];
      }
      assert FailureIds(items) == {it.id} + FailureIds(rest) by {
        assert forall x :: x in items <==> x == it || x in rest;
      }
    }
  }

  // --- the new table, on the rows' own columns ---

  lemma {:induction false} FirstRetryIs(items: seq<Retry>, i: nat)
    requires i < |items| && forall j :: 0 <= j < i ==> items[j].id != items[i].id
    ensures items[i].id in RetryIds(items) && FirstRetry(items, items[i].id) == items[i]
  {
    assert items[i] in items;
    if i > 0 {
      assert items[1..][i - 1] == items[i];
      assert forall j :: 0 <= j < i - 1 ==> items[1..][j] == items[j + 1];
      FirstRetryIs(items[1..], i - 1);
    }
  }

  lemma {:induction false} FirstFailureIs(items: seq<Failure>, i: nat)
    requires i < |items| && forall j :: 0 <= j < i ==> items[j].id != items[i].id
    ensures items[i].id in FailureIds(items) && FirstFailure(items, items[i].id) == items[i]
  {
    assert items[i] in items;
    if i > 0 {
      assert items[1..][i - 1] == items[i];
      assert forall j :: 0 <= j < i - 1 ==> items[1..][j] == items[j + 1];
      FirstFailureIs(items[1..], i - 1);
    }
  }

  /** The first item that names a row puts it off; rows no item names stay. */
  ghost predicate PutsOff(before: Rows, after: Rows, items: seq<Retry>, now: int) {
    && after.Keys == before.Keys
    && (forall i :: 0 <= i < |items| && items[i].id in before && (forall j :: 0 <= j < i ==> items[j].id != items[i].id)
         ==> PutOff(before[items[i].id], after[items[i].id], items[i], now))
    && (forall id :: id in before && (forall i :: 0 <= i < |items| ==> items[i].id != id) ==> after[id] == before[id])
  }

  ghost predicate GivesUp(before: Rows, after: Rows, items: seq<Failure>) {
    && after.Keys == before.Keys
    && (forall i :: 0 <= i < |items| && items[i].id in before && (forall j :: 0 <= j < i ==> items[j].id != items[i].id)
         ==> GivenUp(before[items[i].id], after[items[i].id], items[i]))
    && (forall id :: id in before && (forall i :: 0 <= i < |items| ==> items[i].id != id) ==> after[id] == before[id])
  }

  lemma RowPutOff(row: Row, it: Retry, now: int)
    ensures PutOff(row, RetriedRow(row, it, now), it, now)
  {
    hide Truncated, Micros, Waits;
    MicrosWait(now, it.delay);
  }

  lemma RescheduledPutsOff(rows: Rows, items: seq<Retry>, now: int)
    ensures PutsOff(rows, Rescheduled(rows, items, now), items, now)
  {
    hide FirstRetry, RetriedRow, PutOff;
    forall i | 0 <= i < |items| && items[i].id in rows && forall j :: 0 <= j < i ==> items[j].id != items[i].id
      ensures PutOff(rows[items[i].id], Rescheduled(rows, items, now)[items[i].id], items[i], now)
    {
      FirstRetryIs(items, i);
      RowPutOff(rows[items[i].id], items[i], now);
    }
  }

  lemma MarkedGivesUp(rows: Rows, items: seq<Failure>)
    ensures GivesUp(rows, MarkedFailed(rows, items), items)
  {
    hide FirstFailure, Truncated;
    forall i | 0 <= i < |items| && items[i].id in rows && forall j :: 0 <= j < i ==> items[j].id != items[i].id
      ensures GivenUp(rows[items[i].id], MarkedFailed(rows, items)[items[i].id], items[i])
    {
      FirstFailureIs(items, i);
    }
  }

  /** What the claim may take of a row. */
  predicate Claimable(rows: Rows, locked: set<int>, now: int, id: int) {
    && id in rows && id !in locked && rows[id].status == Pending
    && (rows[id].nextRetryAt == None || rows[id].nextRetryAt.value <= now)
  }

  /** The claimed rows, oldest first, at most a batch; a row that may be claimed is left
      out only when the batch is full with older ones. */
  ghost predicate Claims(rows: Rows, locked: set<int>, now: int, batch: nat, claimed: seq<Claimed>) {
    && |claimed| <= batch
    && (forall i :: 0 <= i < |claimed| ==> TakenFrom(rows, locked, now, claimed[i]))
    && (forall i, j :: 0 <= i < j < |claimed| ==> claimed[i].id < claimed[j].id)
    && (forall id :: Claimable(rows, locked, now, id) ==>
         (exists i :: 0 <= i < |claimed| && claimed[i].id == id) ||
         (|claimed| == batch && forall i :: 0 <= i < batch ==> claimed[i].id < id))
  }

  predicate TakenFrom(rows: Rows, locked: set<int>, now: int, c: Claimed) {
    && Claimable(rows, locked, now, c.id)
    && c.message == rows[c.id].message && c.attempts == rows[c.id].attempts
  }

  lemma EligibleIsClaimable(rows: Rows, locked: set<int>, now: int, id: int)
    ensures id in Eligible(rows, locked, now) <==> Claimable(rows, locked, now, id)
  {
  }

  lemma LeftOutOfClaim(rows: Rows, locked: set<int>, now: int, batch: nat, id: int)
    requires Claimable(rows, locked, now, id)
    ensures var ids := ClaimIds(rows, locked, now, batch);
      (exists i :: 0 <= i < |ids| && ids[i] == id) || (|ids| == batch && forall i :: 0 <= i < |ids| ==> ids[i] < id)
  {
    hide ClaimIds, Eligible, Claimable;
    EligibleIsClaimable(rows, locked, now, id);
    ClaimTakesOldest(rows, locked, now, batch, id);
    var ids := ClaimIds(rows, locked, now, batch);
    assert forall i :: 0 <= i < |ids| ==> ids[i] in ids;
  }

  lemma ClaimIdsOrdered(rows: Rows, locked: set<int>, now: int, batch: nat)
    ensures var ids := ClaimIds(rows, locked, now, batch);
      && |ids| <= batch && (forall i, j :: 0 <= i < j < |ids| ==> ids[i] < ids[j])
      && forall i :: 0 <= i < |ids| ==> ids[i] in rows && Claimable(rows, locked, now, ids[i])
  {
    var ids := ClaimIds(rows, locked, now, batch);
    assert |ids| <= batch && forall i, j :: 0 <= i < j < |ids| ==> ids[i] < ids[j];
    hide ClaimIds, Eligible, Claimable;
    forall i | 0 <= i < |ids|
      ensures Claimable(rows, locked, now, ids[i]) && ids[i] in rows
    {
      EligibleIsClaimable(rows, locked, now, ids[i]);
      ClaimableIsThere(rows, locked, now, ids[i]);
    }
  }

  lemma ClaimIdsClaim(rows: Rows, locked: set<int>, now: int, batch: nat)
    ensures var ids := ClaimIds(rows, locked, now, batch);
      && (forall i :: 0 <= i < |ids| ==> ids[i] in rows)
      && Claims(rows, locked, now, batch, ToClaimed(rows, ids))
  {
    hide ClaimIds, Eligible, Claimable, ToClaimed;
    var ids := ClaimIds(rows, locked, now, batch);
    ClaimIdsOrdered(rows, locked, now, batch);
    var claimed := ToClaimed(rows, ids);
    forall id | Claimable(rows, locked, now, id)
      ensures (exists i :: 0 <= i < |claimed| && claimed[i].id == id) ||
              (|claimed| == batch && forall i :: 0 <= i < batch ==> claimed[i].id < id)
    {
      LeftOutOfClaim(rows, locked, now, batch, id);
      if i :| 0 <= i < |ids| && ids[i] == id {
        assert claimed[i].id == id;
      }
    }
  }

  lemma ClaimableIsThere(rows: Rows, locked: set<int>, now: int, id: int)
    requires Claimable(rows, locked, now, id)
    ensures id in rows
  {
  }

  lemma ClaimColumns(rows: Rows, locked: set<int>, now: int, batch: nat, claimed: seq<Claimed>)
    requires Claims(rows, locked, now, batch, claimed)
    ensures |claimed| <= batch && forall i, j :: 0 <= i < j < |claimed| ==> claimed[i].id < claimed[j].id
    ensures forall i :: 0 <= i < |claimed| ==>
      var id := claimed[i].id;
      && id in rows && id !in locked && rows[id].status == Pending
      && (rows[id].nextRetryAt == None || rows[id].nextRetryAt.value <= now)
      && claimed[i].message == rows[id].message && claimed[i].attempts == rows[id].attempts
    ensures forall id ::
      id in rows && id !in locked && rows[id].status == Pending
      && (rows[id].nextRetryAt == None || rows[id].nextRetryAt.value <= now) ==>
        (exists i :: 0 <= i < |claimed| && claimed[i].id == id) ||
        (|claimed| == batch && forall i :: 0 <= i < batch ==> claimed[i].id < id)
  {
    assert forall i :: 0 <= i < |claimed| ==> TakenFrom(rows, locked, now, claimed[i]);
    forall id | id in rows && id !in locked && rows[id].status == Pending
                && (rows[id].nextRetryAt == None || rows[id].nextRetryAt.value <= now)
      ensures (exists i :: 0 <= i < |claimed| && claimed[i].id == id) ||
              (|claimed| == batch && forall i :: 0 <= i < batch ==> claimed[i].id < id)
    {
      assert Claimable(rows, locked, now, id);
    }
  }

  // --- the repository ---

  class OutboxRepo {
    var rows: Rows
    var next: int   // AUTO_INCREMENT

    ghost predicate Valid()
      reads this
    {
      1 <= next && forall id :: id in rows ==> 1 <= id < next
    }

    constructor ()
      ensures Valid() && rows == map[]
    {
      rows, next := map[], 1;
    }

    method Enqueue(msg: Message) returns (id: int)
      requires Valid()
      modifies this
      ensures Valid()
      ensures id == old(next) && id !in old(rows) && next == id + 1
      ensures rows == old(rows)[id := Row(msg, Pending, 0, None, None)]
    {
      id := next;
      rows := rows[id := Row(msg, Pending, 0, None, None)];
      next := next + 1;
    }

    method Claim(batch: nat, locked: set<int>, now: int) returns (claimed: seq<Claimed>)
      ensures var ids := ClaimIds(rows, locked, now, batch);
              (forall i :: 0 <= i < |ids| ==> ids[i] in rows) && claimed == ToClaimed(rows, ids)
      ensures |claimed| <= batch && forall i, j :: 0 <= i < j < |claimed| ==> claimed[i].id < claimed[j].id
      ensures forall i :: 0 <= i < |claimed| ==>
        var id := claimed[i].id;
        && id in rows && id !in locked && rows[id].status == Pending
        && (rows[id].nextRetryAt == None || rows[id].nextRetryAt.value <= now)
        && claimed[i].message == rows[id].message && claimed[i].attempts == rows[id].attempts
      ensures forall id ::
        id in rows && id !in locked && rows[id].status == Pending
        && (rows[id].nextRetryAt == None || rows[id].nextRetryAt.value <= now) ==>
          (exists i :: 0 <= i < |claimed| && claimed[i].id == id) ||
          (|claimed| == batch && forall i :: 0 <= i < batch ==> claimed[i].id < id)
    {
      claimed := Scan(batch, locked, now);
      hide ClaimIds, ToClaimed, Claims;
      ClaimIdsClaim(rows, locked, now, batch);
      ClaimColumns(rows, locked, now, batch, claimed);
    }

    // Runs the query and reads its rows.
    method Scan(batch: nat, locked: set<int>, now: int) returns (claimed: seq<Claimed>)
      ensures var ids := ClaimIds(rows, locked, now, batch);
              (forall i :: 0 <= i < |ids| ==> ids[i] in rows) && claimed == ToClaimed(rows, ids)
    {
      var ids := ClaimIds(rows, locked, now, batch);
      claimed := [];
      for i := 0 to |ids|
        invariant |claimed| == i
        invariant forall j :: 0 <= j < i ==>
          claimed[j] == Claimed(rows[ids[j]].message, ids[j], rows[ids[j]].attempts)
      {
        var row := rows[ids[i]];
        claimed := claimed + [Claimed(row.message, ids[i], row.attempts)];
      }
    }

    static method InClause(prefix: seq<Frag>, ids: seq<int>) returns (sql: seq<Frag>, args: seq<Arg>)
      ensures sql == prefix + InList(|ids|)
      ensures args == IdArgs(ids)
    {
      sql, args := prefix + [Open], [];
      for i := 0 to |ids|
        invariant args + IdArgs(ids[i..]) == IdArgs(ids)
        invariant i == 0 ==> sql == prefix + [Open]
        invariant i > 0 ==> sql + MoreMarks(|ids| - i) == prefix + InList(|ids|)
      {
        ghost var was := sql;
        if i > 0 {
          sql := sql + [Comma];
        }
        sql := sql + [Mark];
        args := args + [IdArg(ids[i])];
        if i > 0 {
          assert sql + MoreMarks(|ids| - i - 1) == was + ([Comma, Mark] + MoreMarks(|ids| - i - 1));
        } else {
          assert sql + MoreMarks(|ids| - 1) == prefix + ([Open, Mark] + MoreMarks(|ids| - 1));
        }
        assert ids[i..][1..] == ids[i + 1..];
      }
      assert args + IdArgs([]) == args;
      sql := sql + [Close];
    }

    method Delete(ids: seq<int>)
      modifies this`rows
      ensures rows == Deleted(old(rows), ids)
      ensures forall id :: id in rows <==> id in old(rows) && id !in ids
      ensures forall id :: id in rows ==> rows[id] == old(rows)[id]
    {
      if |ids| == 0 {
        return;
      }
      var sql, args := InClause([DeleteWhereIn], ids);
      DeleteCompiles(ids, rows, 0);
      rows := Exec(sql, args, rows, 0).value;
    }

    // The first CASE of Reschedule: " WHEN ? THEN ?" an item, its id and delay.
    static method DelayArms(prefix: seq<Frag>, items: seq<Retry>) returns (sql: seq<Frag>, args: seq<Arg>)
      ensures sql == prefix + Whens(|items|)
      ensures args == DelayArgs(items)
    {
      sql, args := prefix, [];
      for i := 0 to |items|
        invariant sql + Whens(|items| - i) == prefix + Whens(|items|)
        invariant args + DelayArgs(items[i..]) == DelayArgs(items)
      {
        ghost var wasSql, wasArgs := sql, args;
        var it := items[i];
        sql := sql + [WhenThen];
        args := args + [IdArg(it.id), MicrosArg(Micros(it.delay))];
        assert sql + Whens(|items| - i - 1) == wasSql + ([WhenThen] + Whens(|items| - i - 1));
        assert items[i..][1..] == items[i + 1..];
        assert args + DelayArgs(items[i + 1..]) == wasArgs + DelayArgs(items[i..]);
      }
    }

    // The second CASE of Reschedule and the one of MarkFailed: each item's id and error.
    static method ErrorArms(prefix: seq<Frag>, items: seq<Failure>) returns (sql: seq<Frag>, args: seq<Arg>)
      ensures sql == prefix + Whens(|items|)
      ensures args == ErrArgs(items)
    {
      sql, args := prefix, [];
      for i := 0 to |items|
        invariant sql + Whens(|items| - i) == prefix + Whens(|items|)
        invariant args + ErrArgs(items[i..]) == ErrArgs(items)
      {
        ghost var wasSql, wasArgs := sql, args;
        var it := items[i];
        var text := Truncate(it.lastErr, MAX_ERR_LEN);
        sql := sql + [WhenThen];
        args := args + [IdArg(it.id), TextArg(text)];
        assert sql + Whens(|items| - i - 1) == wasSql + ([WhenThen] + Whens(|items| - i - 1));
        assert items[i..][1..] == items[i + 1..];
        assert args + ErrArgs(items[i + 1..]) == wasArgs + ErrArgs(items[i..]);
      }
    }

    static method BuildReschedule(items: seq<Retry>) returns (query: seq<Frag>, args: seq<Arg>)
      ensures query == RescheduleSql(|items|)
      ensures args == RescheduleArgs(items)
    {
      hide Whens, InList, DelayArgs, ErrArgs, IdArgs;
      var sql, delays := DelayArms([PendingCase], items);
      var sql', errors := ErrorArms(sql + [EndThenErrorCase], ErrorsOf(items));
      var ids;
      query, ids := InClause(sql' + [EndWhereIn], RetryIdSeq(items));
      args := delays + (errors + ids);
    }

    method Reschedule(items: seq<Retry>, now: int)
      modifies this`rows
      ensures rows == Rescheduled(old(rows), items, now)
      ensures rows.Keys == old(rows).Keys
      ensures forall i :: 0 <= i < |items| && items[i].id in old(rows)
                          && (forall j :: 0 <= j < i ==> items[j].id != items[i].id) ==>
        var before, after, delay := old(rows)[items[i].id], rows[items[i].id], items[i].delay;
        && after.message == before.message && after.status == Pending && after.attempts == before.attempts + 1
        && after.lastError == Some(Truncated(items[i].lastErr, 1024))
        && after.nextRetryAt.Some?
        && (delay >= 0 ==>
              1000 * (after.nextRetryAt.value - now) <= delay < 1000 * (after.nextRetryAt.value - now) + 1000)
        && (delay < 0 ==>
              1000 * (after.nextRetryAt.value - now) - 1000 < delay <= 1000 * (after.nextRetryAt.value - now))
      ensures forall id :: id in old(rows) && (forall i :: 0 <= i < |items| ==> items[i].id != id) ==>
        rows[id] == old(rows)[id]
    {
      hide Truncated;
      RescheduledPutsOff(rows, items, now);
      if |items| == 0 {
        return;
      }
      var query, args := BuildReschedule(items);
      RescheduleCompiles(items, rows, now);
      hide Exec, Rescheduled, RescheduleSql, RescheduleArgs;
      rows := Exec(query, args, rows, now).value;
    }

    static method BuildMarkFailed(items: seq<Failure>) returns (query: seq<Frag>, args: seq<Arg>)
      ensures query == MarkFailedSql(|items|)
      ensures args == MarkFailedArgs(items)
    {
      hide Whens, InList, ErrArgs, IdArgs;
      var sql, errors := ErrorArms([FailedCase], items);
      var ids;
      query, ids := InClause(sql + [EndWhereIn], FailureIdSeq(items));
      args := errors + ids;
    }

    method MarkFailed(items: seq<Failure>)
      modifies this`rows
      ensures rows == MarkedFailed(old(rows), items)
      ensures rows.Keys == old(rows).Keys
      ensures forall i :: 0 <= i < |items| && items[i].id in old(rows)
                          && (forall j :: 0 <= j < i ==> items[j].id != items[i].id) ==>
        var before, after := old(rows)[items[i].id], rows[items[i].id];
        && after.message == before.message && after.status == Failed && after.attempts == before.attempts + 1
        && after.nextRetryAt == before.nextRetryAt
        && after.lastError == Some(Truncated(items[i].lastErr, 1024))
      ensures forall id :: id in old(rows) && (forall i :: 0 <= i < |items| ==> items[i].id != id) ==>
        rows[id] == old(rows)[id]
    {
      hide Truncated;
      MarkedGivesUp(rows, items);
      if |items| == 0 {
        return;
      }
      var query, args := BuildMarkFailed(items);
      MarkFailedCompiles(items, rows, 0);
      hide Exec, MarkedFailed, MarkFailedSql, MarkFailedArgs;
      rows := Exec(query, args, rows, 0).value;
    }
  }
}
