/** The Redis keys of the task-list cache, and which request parameters become a filter. */
module CacheKeys {
  import opened Prelude
  import opened Decimal

  const TODO := "todo"
  const IN_PROGRESS := "in_progress"
  const DONE := "done"

  const DEFAULT_LIMIT: int := 20
  const MAX_LIMIT: int := 100

  datatype Filter = Filter(teamId: int, status: Option<string>, assignee: Option<int>, afterId: int, limit: int)

  predicate KnownStatus(s: string) {
    s == TODO || s == IN_PROGRESS || s == DONE
  }

  /** What parseListFilter lets through. */
  predicate ValidFilter(f: Filter) {
    && Int64(f.teamId) && f.teamId >= 1
    && (f.status.Some? ==> KnownStatus(f.status.value))
    && (f.assignee.Some? ==> Int64(f.assignee.value) && f.assignee.value >= 1)
    && Int64(f.afterId) && f.afterId >= 0
    && 1 <= f.limit <= MAX_LIMIT
  }

  type ListFilter = f: Filter | ValidFilter(f) witness Filter(1, None, None, 0, DEFAULT_LIMIT)

  // --- query parameters; an absent one reads as "" ---

  datatype Params = Params(teamId: string, status: string, assigneeId: string, limit: string, cursor: string)

  datatype Parsed = Accepted(filter: Filter) | Rejected(error: string)

  predicate Positive(n: Option<int>) {
    n.Some? && n.value >= 1
  }

  function ParseListFilter(q: Params): Parsed {
    var team, assignee, limit, cursor :=
      ParseInt(q.teamId), ParseInt(q.assigneeId), ParseInt(q.limit), ParseInt(q.cursor);
    if !Positive(team) then Rejected("team_id is required")
    else if q.status != "" && !KnownStatus(q.status) then Rejected("invalid status")
    else if q.assigneeId != "" && !Positive(assignee) then Rejected("invalid assignee_id")
    else if q.limit != "" && !(Positive(limit) && limit.value <= MAX_LIMIT) then Rejected("limit must be 1..100")
    else if q.cursor != "" && !Positive(cursor) then Rejected("invalid cursor")
    else Accepted(Filter(
      team.value,
      if q.status == "" then None else Some(q.status),
      if q.assigneeId == "" then None else Some(assignee.value),
      if q.cursor == "" then 0 else cursor.value,
      if q.limit == "" then DEFAULT_LIMIT else limit.value))
  }

  /** The parameters a client sends to ask for the filter. */
  function ParamsOf(f: Filter): Params {
    Params(
      FormatInt(f.teamId),
      if f.status.Some? then f.status.value else "",
      if f.assignee.Some? then FormatInt(f.assignee.value) else "",
      FormatInt(f.limit),
      if f.afterId == 0 then "" else FormatInt(f.afterId))
  }

  /** A valid filter sent as parameters comes back as itself. */
  lemma ParseRoundTrip(f: Filter)
    requires ValidFilter(f)
    ensures ParseListFilter(ParamsOf(f)) == Accepted(f)
  {
    hide ParseInt, FormatInt;
    RoundTrip(f.teamId);
    RoundTrip(f.limit);
    RoundTrip(f.afterId);
    FormatIntChars(f.limit);
    FormatIntChars(f.afterId);
    if f.assignee.Some? {
      RoundTrip(f.assignee.value);
      FormatIntChars(f.assignee.value);
    }
  }

  /** The valid filters are exactly those some request produces, and a request that names
      only the team asks for the first twenty of all its tasks. */
  lemma ParseListFilterIff(f: Filter)
    ensures ValidFilter(f) <==> exists p :: ParseListFilter(p) == Accepted(f)
    ensures ValidFilter(f) ==>
      ParseListFilter(Params(FormatInt(f.teamId), "", "", "", "")) == Accepted(Filter(f.teamId, None, None, 0, 20))
  {
    hide FormatInt, ParseInt;
    if ValidFilter(f) {
      ParseRoundTrip(f);
      RoundTrip(f.teamId);
    } else if p :| ParseListFilter(p) == Accepted(f) {
      ParsedIsValid(p);
    }
  }

  /** Which requests are refused, parameter by parameter, and what the others ask for. */
  lemma ParseDecides(p: Params)
    ensures var team, assignee, limit, cursor :=
        ParseInt(p.teamId), ParseInt(p.assigneeId), ParseInt(p.limit), ParseInt(p.cursor);
      var r := ParseListFilter(p);
      && (r.Accepted? <==>
            && team.Some? && team.value >= 1
            && p.status in ["", "todo", "in_progress", "done"]
            && (p.assigneeId == "" || (assignee.Some? && assignee.value >= 1))
            && (p.limit == "" || (limit.Some? && 1 <= limit.value <= 100))
            && (p.cursor == "" || (cursor.Some? && cursor.value >= 1)))
      && (r.Accepted? ==>
            && r.filter.teamId == team.value
            && r.filter.status == (if p.status == "" then None else Some(p.status))
            && r.filter.assignee == (if p.assigneeId == "" then None else assignee)
            && r.filter.limit == (if p.limit == "" then 20 else limit.value)
            && r.filter.afterId == (if p.cursor == "" then 0 else cursor.value))
  {
    hide ParseInt;
  }

  lemma ParsedIsValid(p: Params)
    ensures var r := ParseListFilter(p); r.Accepted? ==> ValidFilter(r.filter)
  {
    hide ParseInt;
  }

  // --- keys ---

  /** The fields of a format string, separated by ':'. */
  function Joined(fields: seq<string>): string
    requires fields != []
  {
    if |fields| == 1 then fields[0] else fields[0] + ":" + Joined(fields[1..])
  }

  function StatusText(f: Filter): string {
    if f.status.Some? then f.status.value else ""
  }

  function AssigneeNumber(f: Filter): int {
    if f.assignee.Some? then f.assignee.value else 0
  }

  function ListFields(f: Filter, version: int): seq<string> {
    ["tasks", FormatInt(f.teamId), FormatInt(version), StatusText(f),
     FormatInt(AssigneeNumber(f)), FormatInt(f.afterId), FormatInt(f.limit)]
  }

  function ListKey(f: Filter, version: int): string {
    Joined(ListFields(f, version))
  }

  function VersionKey(teamId: int): string {
    Joined(["tasks", "ver", FormatInt(teamId)])
  }

  predicate NoColon(s: string) {
    ':' !in s
  }

  lemma FirstColon(a: string, x: string)
    requires NoColon(a)
    ensures var s := a + ":" + x;
      s[|a|] == ':' && (forall i :: 0 <= i < |a| ==> s[i] != ':') && s[..|a|] == a && s[|a| + 1..] == x
  {
    var s := a + ":" + x;
    assert forall i :: 0 <= i < |a| ==> s[i] == a[i];
  }

  lemma SplitFirst(a: string, x: string, b: string, y: string)
    requires NoColon(a) && NoColon(b)
    requires a + ":" + x == b + ":" + y
    ensures a == b && x == y
  {
    FirstColon(a, x);
    FirstColon(b, y);
    var s := a + ":" + x;
    assert s[|a|] == ':' && s[|b|] == ':';
    assert |a| == |b|;
  }

  /** Fields free of the separator can be read back. */
  lemma {:induction false} JoinedInjective(a: seq<string>, b: seq<string>)
    requires |a| == |b| > 0
    requires forall i :: 0 <= i < |a| ==> NoColon(a[i]) && NoColon(b[i])
    requires Joined(a) == Joined(b)
    ensures a == b
  {
    if |a| > 1 {
      SplitFirst(a[0], Joined(a[1..]), b[0], Joined(b[1..]));
      JoinedInjective(a[1..], b[1..]);
      assert a == [a[0]] + a[1..] && b == [b[0]] + b[1..];
    } else {
      assert a == [a[0]] && b == [b[0]];
    }
  }

  lemma FormatIntNoColon(n: int)
    ensures NoColon(FormatInt(n))
  {
    FormatIntChars(n);
  }

  lemma ListFieldsNoColon(f: Filter, version: int)
    requires NoColon(StatusText(f))
    ensures forall i :: 0 <= i < 7 ==> NoColon(ListFields(f, version)[i])
  {
    FormatIntNoColon(f.teamId);
    FormatIntNoColon(version);
    FormatIntNoColon(AssigneeNumber(f));
    FormatIntNoColon(f.afterId);
    FormatIntNoColon(f.limit);
  }

  /** One key, one version and one filter: nothing is lost by writing an absent status
      as "" and an absent assignee as 0. */
  lemma ListKeyInjective(f: Filter, v: int, g: Filter, w: int)
    requires ValidFilter(f) && ValidFilter(g)
    requires ListKey(f, v) == ListKey(g, w)
    ensures f == g && v == w
  {
    var a, b := ListFields(f, v), ListFields(g, w);
    ListFieldsNoColon(f, v);
    ListFieldsNoColon(g, w);
    JoinedInjective(a, b);
    assert a[1] == b[1] && a[2] == b[2] && a[3] == b[3] && a[4] == b[4] && a[5] == b[5] && a[6] == b[6];
    FormatIntInjective(f.teamId, g.teamId);
    FormatIntInjective(v, w);
    FormatIntInjective(AssigneeNumber(f), AssigneeNumber(g));
    FormatIntInjective(f.afterId, g.afterId);
    FormatIntInjective(f.limit, g.limit);
  }

  lemma VersionKeyShape(team: int)
    ensures VersionKey(team) == "tasks" + ":" + ("ver" + ":" + FormatInt(team))
  {
    var s := ["tasks", "ver", FormatInt(team)];
    assert s[1..] == ["ver", FormatInt(team)];
    assert s[1..][1..] == [FormatInt(team)];
    assert Joined(s[1..][1..]) == FormatInt(team);
    assert Joined(s[1..]) == "ver" + ":" + FormatInt(team);
  }

  lemma NotVer(n: int)
    ensures FormatInt(n) != "ver"
  {
    FormatIntChars(n);
    assert "ver"[0] == 'v';
  }

  /** The list key of any filter differs from every version key. */
  lemma ListKeyIsNoVersionKey(f: Filter, v: int, team: int)
    ensures ListKey(f, v) != VersionKey(team)
  {
    var s := ListFields(f, v);
    if ListKey(f, v) == VersionKey(team) {
      VersionKeyShape(team);
      FormatIntNoColon(f.teamId);
      NotVer(f.teamId);
      var rest := Joined(s[1..]);
      SplitFirst("tasks", rest, "tasks", "ver" + ":" + FormatInt(team));
      SplitFirst(FormatInt(f.teamId), Joined(s[1..][1..]), "ver", FormatInt(team));
    }
  }

  lemma VersionKeyInjective(a: int, b: int)
    requires VersionKey(a) == VersionKey(b)
    ensures a == b
  {
    VersionKeyShape(a);
    VersionKeyShape(b);
    SplitFirst("tasks", "ver" + ":" + FormatInt(a), "tasks", "ver" + ":" + FormatInt(b));
    SplitFirst("ver", FormatInt(a), "ver", FormatInt(b));
    FormatIntInjective(a, b);
  }

  // --- the dedup marks live beside them ---

  function MarkKey(id: int): string {
    "outbox:sent:" + FormatInt(id)
  }

  lemma MarkKeyInjective(a: int, b: int)
    requires MarkKey(a) == MarkKey(b)
    ensures a == b
  {
    assert MarkKey(a)[12..] == FormatInt(a);
    assert MarkKey(b)[12..] == FormatInt(b);
    FormatIntInjective(a, b);
  }

  lemma MarkKeyApart(id: int, f: Filter, v: int, team: int)
    ensures MarkKey(id) != ListKey(f, v) && MarkKey(id) != VersionKey(team)
  {
    assert MarkKey(id)[0] == 'o';
    assert ListKey(f, v)[0] == 't' by {
      assert ListFields(f, v)[0] == "tasks";
    }
    VersionKeyShape(team);
    assert VersionKey(team)[0] == 't';
  }
}
