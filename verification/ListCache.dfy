/** The versioned task-list cache. Readers take the team's version, look a list up under
    it, and on a miss query the database and fill under the version they took. Writers
    commit first and then bump the version. The steps of any number of readers and
    writers interleave freely, and Redis may fail or drop a list at any of them. */
module ListCache {
  import opened Prelude
  import opened CacheKeys
  import opened TaskTable
  import opened Keyset

  const VERSION_UNKNOWN: int := -1

  datatype Value = Counter(n: int) | Cached(tasks: seq<Task>)

  type Keyspace = map<string, Value>

  // --- what each Redis command does to the keyspace ---

  /** GET of the version key; None is a value that is no integer. */
  function VersionOf(keys: Keyspace, team: int): Option<int> {
    var key := VersionKey(team);
    if key !in keys then Some(0)
    else if keys[key].Counter? then Some(keys[key].n)
    else None
  }

  /** GET of the list key; None is a miss or an entry that cannot be decoded. */
  function Lookup(keys: Keyspace, f: Filter, version: int): Option<seq<Task>> {
    var key := ListKey(f, version);
    if key in keys && keys[key].Cached? then Some(keys[key].tasks) else None
  }

  function Filled(keys: Keyspace, f: Filter, version: int, tasks: seq<Task>): Keyspace {
    if version < 0 then keys else keys[ListKey(f, version) := Cached(tasks)]
  }

  /** INCR starts a missing key at 0 and refuses one that is no integer. */
  function Bumped(keys: Keyspace, team: int): Keyspace {
    var v := VersionOf(keys, team);
    if v.None? then keys else keys[VersionKey(team) := Counter(v.value + 1)]
  }

  // --- the cache and the service on top of it; each flag says Redis answers that call ---

  class TaskCache {
    var keys: Keyspace

    constructor ()
      ensures keys == map[]
    {
      keys := map[];
    }

    method GetList(f: Filter, versionUp: bool, listUp: bool)
      returns (tasks: seq<Task>, version: int, ok: bool)
      ensures !versionUp || VersionOf(keys, f.teamId).None? ==> version == VERSION_UNKNOWN && !ok
      ensures versionUp && VersionOf(keys, f.teamId).Some? ==>
        version == VersionOf(keys, f.teamId).value && (ok <==> listUp && Lookup(keys, f, version).Some?)
      ensures ok ==> Lookup(keys, f, version) == Some(tasks)
      ensures versionUp && VersionKey(f.teamId) !in keys ==> version == 0
      ensures ok ==> ListKey(f, version) in keys && keys[ListKey(f, version)] == Cached(tasks)
    {
      var v := VersionOf(keys, f.teamId);
      if !versionUp || v.None? {
        return [], VERSION_UNKNOWN, false;
      }
      var raw := Lookup(keys, f, v.value);
      if !listUp || raw.None? {
        return [], v.value, false;
      }
      return raw.value, v.value, true;
    }

    /** Fills the one list under the one version, and nothing else that anyone looks up;
        under an unknown version, or when Redis does not answer, nothing at all. */
    method SetList(f: Filter, version: int, tasks: seq<Task>, up: bool)
      modifies this
      ensures keys == if up then Filled(old(keys), f, version, tasks) else old(keys)
      ensures up && version >= 0 ==> Lookup(keys, f, version) == Some(tasks)
      ensures !up || version < 0 ==> keys == old(keys)
      ensures forall team :: VersionOf(keys, team) == VersionOf(old(keys), team)
      ensures ValidFilter(f) ==>
        forall g: ListFilter, w :: (g, w) != (f, version) ==> Lookup(keys, g, w) == Lookup(old(keys), g, w)
    {
      if version < 0 {
        return;
      }
      if up {
        FilledElsewhere(keys, f, version, tasks);
        keys := keys[ListKey(f, version) := Cached(tasks)];
      }
    }

    /** The team's version goes up by one; every other team's version and every list that
        anyone looks up stay as they are. */
    method InvalidateTeam(team: int, up: bool)
      modifies this
      ensures keys == if up then Bumped(old(keys), team) else old(keys)
      ensures var v := VersionOf(old(keys), team);
        VersionOf(keys, team) == if up && v.Some? then Some(v.value + 1) else v
      ensures forall other :: other != team ==> VersionOf(keys, other) == VersionOf(old(keys), other)
      ensures forall f, w :: Lookup(keys, f, w) == Lookup(old(keys), f, w)
    {
      var v := VersionOf(keys, team);
      if up && v.Some? {
        BumpedElsewhere(keys, team);
        keys := keys[VersionKey(team) := Counter(v.value + 1)];
      }
    }

    /** The service's List when nothing comes between its steps. An actor who may not gets
        no answer; else it is the cached list, or the table's if the query goes through,
        and only a miss under a known version writes. */
    method List(table: Table, f: Filter, allowed: bool, queryUp: bool, versionUp: bool, listUp: bool, fillUp: bool)
      returns (answer: Option<seq<Task>>)
      requires PositiveIds(table) && ValidFilter(f)
      modifies this
      ensures var v := VersionOf(old(keys), f.teamId);
        var known := versionUp && v.Some?;
        var hit := if known && listUp then Lookup(old(keys), f, v.value) else None;
        && answer == (if !allowed then None
                      else if hit.Some? then hit
                      else if queryUp then Some(Query(table, f)) else None)
        && keys == (if allowed && known && hit.None? && queryUp && fillUp
                    then Filled(old(keys), f, v.value, Query(table, f)) else old(keys))
    {
      if !allowed {
        return None;
      }
      var cached, version, ok := GetList(f, versionUp, listUp);
      if ok {
        return Some(cached);
      }
      if !queryUp {
        return None;
      }
      var tasks := TaskTable.List(table, f);
      SetList(f, version, tasks, fillUp);
      answer := Some(tasks);
    }
  }

  lemma FilledElsewhere(keys: Keyspace, f: Filter, version: int, tasks: seq<Task>)
    requires version >= 0
    ensures var filled := Filled(keys, f, version, tasks);
      && (forall team :: VersionOf(filled, team) == VersionOf(keys, team))
      && (ValidFilter(f) ==>
            forall g: ListFilter, w :: (g, w) != (f, version) ==> Lookup(filled, g, w) == Lookup(keys, g, w))
  {
    hide ListKey, VersionKey;
    var filled := Filled(keys, f, version, tasks);
    forall team
      ensures VersionOf(filled, team) == VersionOf(keys, team)
    {
      ListKeyIsNoVersionKey(f, version, team);
    }
    forall g: ListFilter, w | ValidFilter(f) && (g, w) != (f, version)
      ensures Lookup(filled, g, w) == Lookup(keys, g, w)
    {
      if ListKey(g, w) == ListKey(f, version) {
        ListKeyInjective(g, w, f, version);
      }
    }
  }

  lemma BumpedElsewhere(keys: Keyspace, team: int)
    ensures var bumped := Bumped(keys, team);
      && (forall other :: other != team ==> VersionOf(bumped, other) == VersionOf(keys, other))
      && (forall f, w :: Lookup(bumped, f, w) == Lookup(keys, f, w))
  {
    hide ListKey, VersionKey;
    var bumped := Bumped(keys, team);
    forall other | other != team
      ensures VersionOf(bumped, other) == VersionOf(keys, other)
    {
      if VersionKey(other) == VersionKey(team) {
        VersionKeyInjective(other, team);
      }
    }
    forall f, w
      ensures Lookup(bumped, f, w) == Lookup(keys, f, w)
    {
      ListKeyIsNoVersionKey(f, w, team);
    }
  }

  // --- interleaved runs ---

  /** A transaction that created or updated a task of the team, and the table it left. */
  datatype Commit = Commit(team: int, table: Table)

  /** must: the team's commits already invalidated when the version was read.
      at: how many commits the list takes into account. */
  datatype Reader =
    | Versioned(f: ListFilter, must: set<nat>, version: int)
    | Missed(f: ListFilter, must: set<nat>, version: int)
    | Loaded(f: ListFilter, must: set<nat>, version: int, at: nat, tasks: seq<Task>)
    | Returned(f: ListFilter, must: set<nat>, at: nat, tasks: seq<Task>)

  /** floors[team][v]: the newest invalidated commit when the version became v.
      asOf[key]: the commit the entry was queried at. Both only serve the proof. */
  datatype State = State(
    keys: Keyspace,
    log: seq<Commit>,
    invalidated: set<nat>,
    readers: map<int, Reader>,
    floors: map<int, seq<nat>>,
    asOf: map<string, nat>)

  datatype Step =
    | Write(team: int, table: Table)
    | Invalidate(commit: nat)
    | Expire(key: string)
    | ReadVersion(reader: int, f: ListFilter, up: bool)
    | ReadList(reader: int, up: bool)
    | QueryTasks(reader: int)
    | Fill(reader: int, up: bool)

  /** Only rows of one team differ. */
  predicate OnlyTeam(before: Table, after: Table, team: int) {
    && (forall id :: id in before && before[id].teamId != team ==> id in after && after[id] == before[id])
    && (forall id :: id in after && after[id].teamId != team ==> id in before && before[id] == after[id])
  }

  function Latest(s: State): Table
    requires s.log != []
  {
    s.log[|s.log| - 1].table
  }

  function FloorsOf(s: State, team: int): seq<nat> {
    if team in s.floors then s.floors[team] else [0]
  }

  function MustSee(s: State, team: int): set<nat> {
    set c | c in s.invalidated && c < |s.log| && s.log[c].team == team
  }

  predicate Enabled(s: State, step: Step) {
    s.log != [] &&
    match step
    case Write(team, table) => OnlyTeam(Latest(s), table, team)
    case Invalidate(c) => c < |s.log|
    case Expire(key) => key in s.keys && s.keys[key].Cached?   // version keys have no TTL
    case ReadVersion(r, _, _) => r !in s.readers
    case ReadList(r, _) => r in s.readers && s.readers[r].Versioned?
    case QueryTasks(r) => r in s.readers && s.readers[r].Missed?
    case Fill(r, _) => r in s.readers && s.readers[r].Loaded?
  }

  function AfterInvalidate(s: State, c: nat): State
    requires c < |s.log|
  {
    var team := s.log[c].team;
    var floors := FloorsOf(s, team);
    var last := if floors == [] then 0 else floors[|floors| - 1];
    s.(keys := Bumped(s.keys, team),
       invalidated := s.invalidated + {c},
       floors := s.floors[team := floors + [if last < c then c else last]])
  }

  function AfterReadList(s: State, r: int, up: bool): State
    requires r in s.readers && s.readers[r].Versioned?
  {
    var reader := s.readers[r];
    var key := ListKey(reader.f, reader.version);
    var hit := if up && reader.version != VERSION_UNKNOWN then Lookup(s.keys, reader.f, reader.version) else None;
    var next :=
      if hit.None? then Missed(reader.f, reader.must, reader.version)
      else Returned(reader.f, reader.must, if key in s.asOf then s.asOf[key] else 0, hit.value);
    s.(readers := s.readers[r := next])
  }

  function AfterQuery(s: State, r: int): State
    requires s.log != [] && r in s.readers && s.readers[r].Missed?
  {
    var reader := s.readers[r];
    var tasks := Query(Latest(s), reader.f);
    s.(readers := s.readers[r := Loaded(reader.f, reader.must, reader.version, |s.log| - 1, tasks)])
  }

  function AfterFill(s: State, r: int, up: bool): State
    requires r in s.readers && s.readers[r].Loaded?
  {
    var reader := s.readers[r];
    var filled := s.(readers := s.readers[r := Returned(reader.f, reader.must, reader.at, reader.tasks)]);
    if up && reader.version >= 0 then
      filled.(keys := Filled(s.keys, reader.f, reader.version, reader.tasks),
              asOf := s.asOf[ListKey(reader.f, reader.version) := reader.at])
    else
      filled
  }

  function AfterReadVersion(s: State, r: int, f: ListFilter, up: bool): State {
    var v := VersionOf(s.keys, f.teamId);
    var version := if up && v.Some? then v.value else VERSION_UNKNOWN;
    s.(readers := s.readers[r := Versioned(f, MustSee(s, f.teamId), version)])
  }

  function Next(s: State, step: Step): State
    requires Enabled(s, step)
  {
    match step
    case Write(team, table) => s.(log := s.log + [Commit(team, table)])
    case Invalidate(c) => AfterInvalidate(s, c)
    case Expire(key) => s.(keys := s.keys - {key})
    case ReadVersion(r, f, up) => AfterReadVersion(s, r, f, up)
    case ReadList(r, up) => AfterReadList(s, r, up)
    case QueryTasks(r) => AfterQuery(s, r)
    case Fill(r, up) => AfterFill(s, r, up)
  }

  // --- the invariant ---

  predicate FloorsGood(s: State, team: int) {
    var floors := FloorsOf(s, team);
    && floors != []
    && (forall i :: 0 <= i < |floors| ==> floors[i] < |s.log|)
    && (VersionKey(team) in s.keys ==> s.keys[VersionKey(team)] == Counter(|floors| - 1))
    && (VersionKey(team) !in s.keys ==> |floors| == 1)
  }

  predicate InvalidatedGood(s: State) {
    forall c :: c in s.invalidated ==>
      c < |s.log| && FloorsOf(s, s.log[c].team) != [] &&
      c <= FloorsOf(s, s.log[c].team)[|FloorsOf(s, s.log[c].team)| - 1]
  }

  /** A list queried at commit `at` is no older than the version it belongs to. */
  predicate FromCommit(s: State, f: ListFilter, version: int, at: nat, tasks: seq<Task>) {
    && at < |s.log|
    && tasks == Query(s.log[at].table, f)
    && (version >= 0 ==> version < |FloorsOf(s, f.teamId)| && FloorsOf(s, f.teamId)[version] <= at)
  }

  predicate EntryGood(s: State, f: ListFilter, version: int) {
    var key := ListKey(f, version);
    key in s.keys ==>
      s.keys[key].Cached? && key in s.asOf && FromCommit(s, f, version, s.asOf[key], s.keys[key].tasks)
  }

  ghost predicate EntriesGood(s: State) {
    forall f: ListFilter, version :: version >= 0 ==> EntryGood(s, f, version)
  }

  predicate VersionGood(s: State, f: ListFilter, must: set<nat>, version: int) {
    && version >= VERSION_UNKNOWN
    && (forall c :: c in must ==> c < |s.log|)
    && (version >= 0 ==>
          version < |FloorsOf(s, f.teamId)| && forall c :: c in must ==> c <= FloorsOf(s, f.teamId)[version])
  }

  predicate CoversMust(must: set<nat>, at: nat) {
    forall c :: c in must ==> c <= at
  }

  predicate ReaderGood(s: State, reader: Reader) {
    match reader
    case Versioned(f, must, version) => VersionGood(s, f, must, version)
    case Missed(f, must, version) => VersionGood(s, f, must, version)
    case Loaded(f, must, version, at, tasks) => FromCommit(s, f, version, at, tasks) && CoversMust(must, at)
    case Returned(f, must, at, tasks) => FromCommit(s, f, VERSION_UNKNOWN, at, tasks) && CoversMust(must, at)
  }

  ghost predicate Inv(s: State) {
    && s.log != []
    && (forall team :: FloorsGood(s, team))
    && InvalidatedGood(s)
    && EntriesGood(s)
    && (forall r :: r in s.readers ==> ReaderGood(s, s.readers[r]))
  }

  // --- every step keeps it ---

  /** What a later state still knows: commits and floors only grow. */
  ghost predicate Grows(s: State, t: State) {
    && |s.log| <= |t.log|
    && (forall i :: 0 <= i < |s.log| ==> t.log[i] == s.log[i])
    && (forall team :: FloorsOf(s, team) <= FloorsOf(t, team))
  }

  lemma GrowsKeepsReader(s: State, t: State, reader: Reader)
    requires Grows(s, t) && ReaderGood(s, reader)
    ensures ReaderGood(t, reader)
  {
    hide Query, FloorsOf;
    assert FloorsOf(s, reader.f.teamId) <= FloorsOf(t, reader.f.teamId);
  }

  lemma GrowsKeepsList(s: State, t: State, f: ListFilter, version: int, at: nat, tasks: seq<Task>)
    requires Grows(s, t) && FromCommit(s, f, version, at, tasks)
    ensures FromCommit(t, f, version, at, tasks)
  {
    hide Query, FloorsOf;
    assert FloorsOf(s, f.teamId) <= FloorsOf(t, f.teamId);
  }

  lemma GrowsKeepsEntries(s: State, t: State)
    requires Grows(s, t) && EntriesGood(s)
    requires t.asOf == s.asOf
    requires forall f: ListFilter, version :: version >= 0 && ListKey(f, version) in t.keys ==>
      ListKey(f, version) in s.keys && t.keys[ListKey(f, version)] == s.keys[ListKey(f, version)]
    ensures EntriesGood(t)
  {
    hide Query, FloorsOf, ListKey, FromCommit, Grows;
    forall f: ListFilter, version | version >= 0
      ensures EntryGood(t, f, version)
    {
      assert EntryGood(s, f, version);
      var key := ListKey(f, version);
      if key in t.keys {
        GrowsKeepsList(s, t, f, version, s.asOf[key], s.keys[key].tasks);
      }
    }
  }

  lemma WriteKeeps(s: State, team: int, table: Table)
    requires Inv(s)
    ensures Inv(s.(log := s.log + [Commit(team, table)]))
  {
    hide Query, ListKey, VersionKey, ReaderGood, EntriesGood;
    var t := s.(log := s.log + [Commit(team, table)]);
    assert forall x :: FloorsOf(t, x) == FloorsOf(s, x);
    forall x
      ensures FloorsGood(t, x)
    {
      assert FloorsGood(s, x);
    }
    GrowsKeepsEntries(s, t);
    forall r | r in t.readers
      ensures ReaderGood(t, t.readers[r])
    {
      GrowsKeepsReader(s, t, s.readers[r]);
    }
  }

  lemma ExpireKeeps(s: State, key: string)
    requires Inv(s) && key in s.keys && s.keys[key].Cached?
    ensures Inv(s.(keys := s.keys - {key}))
  {
    hide Query, ListKey, VersionKey, ReaderGood, EntriesGood;
    var t := s.(keys := s.keys - {key});
    assert forall x :: FloorsOf(t, x) == FloorsOf(s, x);
    forall x
      ensures FloorsGood(t, x)
    {
      assert FloorsGood(s, x);
    }
    GrowsKeepsEntries(s, t);
    forall r | r in t.readers
      ensures ReaderGood(t, t.readers[r])
    {
      GrowsKeepsReader(s, t, s.readers[r]);
    }
  }

  lemma VersionReads(s: State, team: int)
    requires FloorsGood(s, team)
    ensures VersionOf(s.keys, team) == Some(|FloorsOf(s, team)| - 1)
  {
    hide VersionKey;
  }

  lemma InvalidateFloors(s: State, c: nat, x: int)
    requires c < |s.log| && FloorsGood(s, x) && FloorsGood(s, s.log[c].team)
    ensures FloorsGood(AfterInvalidate(s, c), x)
    ensures FloorsOf(s, x) <= FloorsOf(AfterInvalidate(s, c), x)
    ensures x == s.log[c].team ==> c <= FloorsOf(AfterInvalidate(s, c), x)[|FloorsOf(s, x)|]
  {
    hide VersionKey;
    var team := s.log[c].team;
    VersionReads(s, team);
    if x != team && VersionKey(x) == VersionKey(team) {
      VersionKeyInjective(x, team);
    }
  }

  lemma LastFloorGrows(s: State, c: nat, d: nat)
    requires Inv(s) && c < |s.log| && d in s.invalidated + {c}
    ensures var t := AfterInvalidate(s, c);
      d < |s.log| && FloorsOf(t, s.log[d].team) != [] &&
      d <= FloorsOf(t, s.log[d].team)[|FloorsOf(t, s.log[d].team)| - 1]
  {
    hide Query, ListKey, VersionKey, ReaderGood, EntriesGood;
    assert FloorsGood(s, s.log[c].team);
  }

  lemma InvalidateKeeps(s: State, c: nat)
    requires Inv(s) && c < |s.log|
    ensures Inv(AfterInvalidate(s, c))
  {
    hide Query, ListKey, VersionKey, ReaderGood, EntriesGood, FloorsGood, FloorsOf;
    var t := AfterInvalidate(s, c);
    forall x
      ensures FloorsGood(t, x) && FloorsOf(s, x) <= FloorsOf(t, x)
    {
      assert FloorsGood(s, x) && FloorsGood(s, s.log[c].team);
      InvalidateFloors(s, c, x);
    }
    assert Grows(s, t);
    forall d | d in t.invalidated
      ensures d < |t.log| && FloorsOf(t, t.log[d].team) != [] &&
        d <= FloorsOf(t, t.log[d].team)[|FloorsOf(t, t.log[d].team)| - 1]
    {
      LastFloorGrows(s, c, d);
    }
    forall f: ListFilter, version | version >= 0 && ListKey(f, version) in t.keys
      ensures ListKey(f, version) in s.keys && t.keys[ListKey(f, version)] == s.keys[ListKey(f, version)]
    {
      ListKeyIsNoVersionKey(f, version, s.log[c].team);
    }
    GrowsKeepsEntries(s, t);
    forall r | r in t.readers
      ensures ReaderGood(t, t.readers[r])
    {
      GrowsKeepsReader(s, t, s.readers[r]);
    }
  }

  /** A step that only touches one reader. */
  lemma ReaderStepKeeps(s: State, r: int, reader: Reader)
    requires Inv(s) && ReaderGood(s, reader)
    ensures Inv(s.(readers := s.readers[r := reader]))
  {
    hide Query, ListKey, VersionKey, ReaderGood;
    var t := s.(readers := s.readers[r := reader]);
    assert forall x :: FloorsOf(t, x) == FloorsOf(s, x);
    forall x
      ensures FloorsGood(t, x)
    {
      assert FloorsGood(s, x);
    }
    GrowsKeepsEntries(s, t);
    forall q | q in t.readers
      ensures ReaderGood(t, t.readers[q])
    {
      GrowsKeepsReader(s, t, t.readers[q]);
    }
  }

  lemma ReadVersionKeeps(s: State, r: int, f: ListFilter, up: bool)
    requires Inv(s)
    ensures Inv(AfterReadVersion(s, r, f, up))
  {
    hide Query, ListKey, VersionKey, EntriesGood;
    assert FloorsGood(s, f.teamId);
    VersionReads(s, f.teamId);
    var version := if up then |FloorsOf(s, f.teamId)| - 1 else VERSION_UNKNOWN;
    assert VersionGood(s, f, MustSee(s, f.teamId), version);
    ReaderStepKeeps(s, r, Versioned(f, MustSee(s, f.teamId), version));
  }

  lemma ReadListKeeps(s: State, r: int, up: bool)
    requires Inv(s) && r in s.readers && s.readers[r].Versioned?
    ensures Inv(AfterReadList(s, r, up))
  {
    hide Query, ListKey, VersionKey, FloorsOf;
    var reader := s.readers[r];
    assert ReaderGood(s, reader);
    var t := AfterReadList(s, r, up);
    if t.readers[r].Returned? {
      assert EntryGood(s, reader.f, reader.version);
    }
    ReaderStepKeeps(s, r, t.readers[r]);
  }

  lemma QueryKeeps(s: State, r: int)
    requires Inv(s) && r in s.readers && s.readers[r].Missed?
    ensures Inv(AfterQuery(s, r))
  {
    hide Query, ListKey, VersionKey;
    var reader := s.readers[r];
    assert ReaderGood(s, reader);
    assert FloorsGood(s, reader.f.teamId);
    ReaderStepKeeps(s, r, AfterQuery(s, r).readers[r]);
  }

  lemma FillEntries(s: State, f: ListFilter, version: int, at: nat, tasks: seq<Task>)
    requires Inv(s) && version >= 0 && FromCommit(s, f, version, at, tasks)
    ensures Inv(s.(keys := Filled(s.keys, f, version, tasks), asOf := s.asOf[ListKey(f, version) := at]))
  {
    hide Query, ListKey, VersionKey, ReaderGood, FromCommit;
    var t := s.(keys := Filled(s.keys, f, version, tasks), asOf := s.asOf[ListKey(f, version) := at]);
    assert forall x :: FloorsOf(t, x) == FloorsOf(s, x);
    forall x
      ensures FloorsGood(t, x)
    {
      assert FloorsGood(s, x);
      ListKeyIsNoVersionKey(f, version, x);
    }
    forall g: ListFilter, w | w >= 0
      ensures EntryGood(t, g, w)
    {
      FillEntry(s, t, f, version, at, tasks, g, w);
    }
    forall r | r in t.readers
      ensures ReaderGood(t, t.readers[r])
    {
      GrowsKeepsReader(s, t, s.readers[r]);
    }
  }

  lemma FillEntry(s: State, t: State, f: ListFilter, version: int, at: nat, tasks: seq<Task>, g: ListFilter, w: int)
    requires EntriesGood(s) && version >= 0 && FromCommit(s, f, version, at, tasks)
    requires t == s.(keys := Filled(s.keys, f, version, tasks), asOf := s.asOf[ListKey(f, version) := at])
    requires w >= 0
    ensures EntryGood(t, g, w)
  {
    hide Query, ListKey;
    assert EntryGood(s, g, w);
    if ListKey(g, w) == ListKey(f, version) {
      ListKeyInjective(g, w, f, version);
    }
  }

  lemma FillKeeps(s: State, r: int, up: bool)
    requires Inv(s) && r in s.readers && s.readers[r].Loaded?
    ensures Inv(AfterFill(s, r, up))
  {
    hide Query, ListKey, VersionKey, FloorsOf, FloorsGood, EntriesGood;
    var reader := s.readers[r];
    assert ReaderGood(s, reader);
    var t := s.(readers := s.readers[r := Returned(reader.f, reader.must, reader.at, reader.tasks)]);
    ReaderStepKeeps(s, r, t.readers[r]);
    if up && reader.version >= 0 {
      GrowsKeepsList(s, t, reader.f, reader.version, reader.at, reader.tasks) by {
        SameFloors(s, t);
      }
      FillEntries(t, reader.f, reader.version, reader.at, reader.tasks);
    }
  }

  lemma SameFloors(s: State, t: State)
    requires s.log == t.log && s.floors == t.floors
    ensures Grows(s, t)
  {
  }

  lemma StepKeeps(s: State, step: Step)
    requires Inv(s) && Enabled(s, step)
    ensures Inv(Next(s, step))
  {
    hide Inv, AfterReadVersion, AfterReadList, AfterQuery, AfterFill, AfterInvalidate, OnlyTeam;
    match step
    case Write(team, table) => WriteKeeps(s, team, table);
    case Invalidate(c) => InvalidateKeeps(s, c);
    case Expire(key) => ExpireKeeps(s, key);
    case ReadVersion(r, f, up) => ReadVersionKeeps(s, r, f, up);
    case ReadList(r, up) => ReadListKeeps(s, r, up);
    case QueryTasks(r) => QueryKeeps(s, r);
    case Fill(r, up) => FillKeeps(s, r, up);
  }

  // --- runs ---

  /** Nothing cached, nothing read, one table to start from. */
  predicate Initial(s: State) {
    && |s.log| == 1
    && s.keys == map[] && s.invalidated == {} && s.readers == map[] && s.floors == map[] && s.asOf == map[]
  }

  function Run(s: State, steps: seq<Step>): State
    requires Legal(s, steps)
    decreases |steps|, 1
  {
    if steps == [] then s else Next(Run(s, steps[..|steps| - 1]), steps[|steps| - 1])
  }

  predicate Legal(s: State, steps: seq<Step>)
    decreases |steps|, 0
  {
    steps == [] ||
    (Legal(s, steps[..|steps| - 1]) && Enabled(Run(s, steps[..|steps| - 1]), steps[|steps| - 1]))
  }

  predicate LogGood(s: State) {
    forall i :: 0 < i < |s.log| ==> OnlyTeam(s.log[i - 1].table, s.log[i].table, s.log[i].team)
  }

  lemma {:induction false} RunKeeps(s: State, steps: seq<Step>)
    requires Initial(s) && Legal(s, steps)
    ensures Inv(Run(s, steps)) && LogGood(Run(s, steps))
  {
    if steps == [] {
      InitialGood(s);
    } else {
      var front, step := steps[..|steps| - 1], steps[|steps| - 1];
      RunKeeps(s, front);
      StepKeeps(Run(s, front), step);
      StepKeepsLog(Run(s, front), step);
    }
  }

  lemma InitialGood(s: State)
    requires Initial(s)
    ensures Inv(s) && LogGood(s)
  {
    hide ListKey, VersionKey, Query;
  }

  lemma StepKeepsLog(s: State, step: Step)
    requires LogGood(s) && Enabled(s, step)
    ensures LogGood(Next(s, step))
  {
    hide OnlyTeam, Query, ListKey, VersionKey;
  }

  predicate Remembers(s: State, r: int, f: Filter, must: set<nat>) {
    r in s.readers && s.readers[r].f == f && s.readers[r].must == must
  }

  lemma StepRemembers(s: State, step: Step, r: int, f: Filter, must: set<nat>)
    requires Enabled(s, step) && Remembers(s, r, f, must)
    ensures Remembers(Next(s, step), r, f, must)
  {
    hide OnlyTeam, Query, ListKey, VersionKey, VersionOf, MustSee, Lookup, Filled, Bumped, FloorsOf;
  }

  /** What a reader asked for and must see is settled when it reads the version. */
  lemma {:induction false} ReaderRemembers(s: State, steps: seq<Step>, k: nat)
    requires Legal(s, steps) && k < |steps| && steps[k].ReadVersion?
    ensures Legal(s, steps[..k])
    ensures Remembers(Run(s, steps), steps[k].reader, steps[k].f, MustSee(Run(s, steps[..k]), steps[k].f.teamId))
    decreases |steps|
  {
    hide OnlyTeam, Query, VersionOf, MustSee;
    var front := steps[..|steps| - 1];
    if k == |steps| - 1 {
      assert steps[..k] == front;
    } else {
      hide Next, Remembers, Enabled;
      ReaderRemembers(s, front, k);
      assert front[..k] == steps[..k];
      StepRemembers(Run(s, front), steps[|steps| - 1], steps[k].reader, steps[k].f,
                    MustSee(Run(s, steps[..k]), steps[k].f.teamId));
    }
  }

  lemma {:induction false} InvalidationsLast(s: State, steps: seq<Step>, c: nat)
    requires Legal(s, steps) && Invalidate(c) in steps
    ensures c in Run(s, steps).invalidated && c < |Run(s, steps).log|
  {
    hide OnlyTeam, Query, ListKey, VersionKey, VersionOf;
    var front := steps[..|steps| - 1];
    if steps[|steps| - 1] != Invalidate(c) {
      assert Invalidate(c) in front;
      InvalidationsLast(s, front, c);
    }
  }

  /** The answer to a list request is what the database would have answered at some commit,
      and that commit is no older than any write of the team whose InvalidateTeam went
      through before the request read the version. */
  lemma ReadsAreFresh(s: State, steps: seq<Step>, k: nat)
    requires Initial(s) && Legal(s, steps) && k < |steps| && steps[k].ReadVersion?
    requires steps[k].reader in Run(s, steps).readers && Run(s, steps).readers[steps[k].reader].Returned?
    ensures Legal(s, steps[..k])
    ensures var f, t := steps[k].f, Run(s, steps);
      var answer := t.readers[steps[k].reader];
      && answer.at < |t.log|
      && answer.tasks == Query(t.log[answer.at].table, f)
      && forall c: nat :: Invalidate(c) in steps[..k] && c < |t.log| && t.log[c].team == f.teamId ==> c <= answer.at
  {
    hide Query, Legal, Enabled, Run;
    var f, t := steps[k].f, Run(s, steps);
    RunKeeps(s, steps);
    ReaderRemembers(s, steps, k);
    var answer := t.readers[steps[k].reader];
    assert ReaderGood(t, answer);
    forall c: nat | Invalidate(c) in steps[..k] && c < |t.log| && t.log[c].team == f.teamId
      ensures c <= answer.at
    {
      InvalidationsLast(s, steps[..k], c);
      LogOnlyGrows(s, steps, k);
      assert c in MustSee(Run(s, steps[..k]), f.teamId);
    }
  }

  lemma StepGrowsLog(s: State, step: Step)
    requires Enabled(s, step)
    ensures s.log <= Next(s, step).log
  {
    hide OnlyTeam, Query, ListKey, VersionKey, VersionOf, MustSee, Lookup, Filled, Bumped, FloorsOf;
  }

  lemma {:induction false} LogOnlyGrows(s: State, steps: seq<Step>, k: nat)
    requires Legal(s, steps) && k <= |steps|
    ensures Legal(s, steps[..k]) && Run(s, steps[..k]).log <= Run(s, steps).log
    decreases |steps|
  {
    hide Next, Enabled;
    if k == |steps| {
      assert steps[..k] == steps;
    } else {
      var front := steps[..|steps| - 1];
      LogOnlyGrows(s, front, k);
      assert front[..k] == steps[..k];
      StepGrowsLog(Run(s, front), steps[|steps| - 1]);
    }
  }

  /** No cached list, whoever filled it and when, is older than its version. */
  lemma EntriesAreFresh(s: State, steps: seq<Step>, f: ListFilter, version: nat)
    requires Initial(s) && Legal(s, steps)
    requires ListKey(f, version) in Run(s, steps).keys
    ensures var t := Run(s, steps);
      && version < |FloorsOf(t, f.teamId)|
      && exists at :: FloorsOf(t, f.teamId)[version] <= at < |t.log| &&
           t.keys[ListKey(f, version)] == Cached(Query(t.log[at].table, f))
  {
    hide Query, ListKey, VersionKey, Legal, Run;
    RunKeeps(s, steps);
    assert EntryGood(Run(s, steps), f, version);
  }

  // --- a team nobody is writing to ---

  lemma OtherTeamSameList(before: Table, after: Table, team: int, f: ListFilter)
    requires OnlyTeam(before, after, team) && f.teamId != team
    ensures Query(before, f) == Query(after, f)
  {
    forall id
      ensures id in Matching(before, f) <==> id in Matching(after, f)
    {
    }
    assert Matching(before, f) == Matching(after, f);
    PageInTable(before, f);
    PageRows(Matching(before, f), f.afterId, f.limit);
    var page := Page(Matching(before, f), f.afterId, f.limit);
    assert forall i :: 0 <= i < |page| ==> page[i] in page;
  }

  lemma {:induction false} SameListSince(s: State, f: ListFilter, at: nat)
    requires LogGood(s) && at < |s.log|
    requires forall c :: at < c < |s.log| ==> s.log[c].team != f.teamId
    ensures Query(s.log[at].table, f) == Query(Latest(s), f)
    decreases |s.log| - at
  {
    hide Query, OnlyTeam;
    if at < |s.log| - 1 {
      OtherTeamSameList(s.log[at].table, s.log[at + 1].table, s.log[at + 1].team, f);
      SameListSince(s, f, at + 1);
    }
  }

  /** When every write of the team was invalidated before the request read the version,
      the answer is exactly what the database answers now. */
  lemma {:induction false} QuietTeamReadsCurrent(s: State, steps: seq<Step>, k: nat)
    requires Initial(s) && Legal(s, steps) && k < |steps| && steps[k].ReadVersion?
    requires steps[k].reader in Run(s, steps).readers && Run(s, steps).readers[steps[k].reader].Returned?
    requires forall c: nat :: 1 <= c < |Run(s, steps).log| && Run(s, steps).log[c].team == steps[k].f.teamId ==>
      Invalidate(c) in steps[..k]
    ensures Run(s, steps).log != []
    ensures Run(s, steps).readers[steps[k].reader].tasks == Query(Latest(Run(s, steps)), steps[k].f)
  {
    hide Query, Legal, Enabled, Run;
    ReadsAreFresh(s, steps, k);
    RunKeeps(s, steps);
    var t := Run(s, steps);
    SameListSince(t, steps[k].f, t.readers[steps[k].reader].at);
  }

  /** The invalidation is what freshness rests on: until it goes through, a write changes
      nothing for readers of a cached list. */
  lemma StaleUntilInvalidated(s: State, f: ListFilter, team: int, table: Table, r: int, v: int)
    requires s.log != [] && OnlyTeam(Latest(s), table, team) && r !in s.readers
    requires VersionOf(s.keys, f.teamId) == Some(v) && v >= 0 && Lookup(s.keys, f, v).Some?
    ensures var steps := [Write(team, table), ReadVersion(r, f, true), ReadList(r, true)];
      && Legal(s, steps)
      && r in Run(s, steps).readers && Run(s, steps).readers[r].Returned?
      && Run(s, steps).readers[r].tasks == Lookup(s.keys, f, v).value
      && Latest(Run(s, steps)) == table
  {
    hide OnlyTeam, ListKey, VersionKey, VersionOf, MustSee, Lookup, Run, Legal;
    var write, version, list := Write(team, table), ReadVersion(r, f, true), ReadList(r, true);
    NoSteps(s);
    Extend(s, [], write);
    assert [] + [write] == [write];
    Extend(s, [write], version);
    assert [write] + [version] == [write, version];
    Extend(s, [write, version], list);
    assert [write, version] + [list] == [write, version, list];
  }

  lemma NoSteps(s: State)
    ensures Legal(s, []) && Run(s, []) == s
  {
  }

  lemma Extend(s: State, steps: seq<Step>, step: Step)
    requires Legal(s, steps) && Enabled(Run(s, steps), step)
    ensures Legal(s, steps + [step]) && Run(s, steps + [step]) == Next(Run(s, steps), step)
  {
    hide Enabled, Next;
    assert (steps + [step])[..|steps|] == steps;
  }

  // --- a client that pages through the cached lists ---

  /** What the request that read its version at step k was answered. */
  ghost predicate Answered(s: State, steps: seq<Step>, k: nat)
    requires Legal(s, steps)
  {
    && k < |steps| && steps[k].ReadVersion?
    && steps[k].reader in Run(s, steps).readers && Run(s, steps).readers[steps[k].reader].Returned?
  }

  ghost function AnswerTo(s: State, steps: seq<Step>, k: nat): (answer: Reader)
    requires Legal(s, steps) && Answered(s, steps, k)
    ensures answer.Returned?
  {
    Run(s, steps).readers[steps[k].reader]
  }

  /** Requests for f, each but the first with the cursor the one before it got. */
  ghost predicate Session(s: State, steps: seq<Step>, f: Filter, asked: seq<nat>)
    requires Legal(s, steps)
    decreases |asked|
  {
    asked == [] ||
    (&& Answered(s, steps, asked[0]) && steps[asked[0]].f == f
     && var next := NextOf(AnswerTo(s, steps, asked[0]).tasks, f.limit);
        if next.None? then asked[1..] == [] else Session(s, steps, f.(afterId := next.value), asked[1..]))
  }

  ghost function Pages(s: State, steps: seq<Step>, f: Filter, asked: seq<nat>): (pages: seq<seq<Task>>)
    requires Legal(s, steps) && Session(s, steps, f, asked)
    ensures |pages| == |asked|
    decreases |asked|
  {
    if asked == [] then [] else
      var tasks := AnswerTo(s, steps, asked[0]).tasks;
      var next := NextOf(tasks, f.limit);
      [tasks] + (if next.None? then [] else Pages(s, steps, f.(afterId := next.value), asked[1..]))
  }

  /** The tables the answers are taken from. */
  ghost function Sources(s: State, steps: seq<Step>, f: Filter, asked: seq<nat>): (tables: seq<Table>)
    requires Legal(s, steps) && Session(s, steps, f, asked)
    ensures |tables| == |asked|
    decreases |asked|
  {
    if asked == [] then [] else
      var answer, t := AnswerTo(s, steps, asked[0]), Run(s, steps);
      var table := if answer.at < |t.log| then t.log[answer.at].table else map[];
      var next := NextOf(answer.tasks, f.limit);
      [table] + (if next.None? then [] else Sources(s, steps, f.(afterId := next.value), asked[1..]))
  }

  lemma {:induction false} SessionIsBrowse(s: State, steps: seq<Step>, f: Filter, asked: seq<nat>)
    requires Initial(s) && Legal(s, steps) && f.limit >= 1 && Session(s, steps, f, asked)
    ensures Pages(s, steps, f, asked) == Browse(Sources(s, steps, f, asked), f)
    decreases |asked|
  {
    hide Legal, Run, Query, Answered;
    if asked != [] {
      assert Answered(s, steps, asked[0]);
      AnswerIsQuery(s, steps, asked[0]);
      var next := NextOf(AnswerTo(s, steps, asked[0]).tasks, f.limit);
      if next.Some? {
        SessionIsBrowse(s, steps, f.(afterId := next.value), asked[1..]);
      }
    }
  }

  lemma AnswerIsQuery(s: State, steps: seq<Step>, k: nat)
    requires Initial(s) && Legal(s, steps) && Answered(s, steps, k)
    ensures var answer, t := AnswerTo(s, steps, k), Run(s, steps);
      answer.at < |t.log| && answer.tasks == Query(t.log[answer.at].table, steps[k].f)
  {
    hide Legal, Run, Query;
    ReadsAreFresh(s, steps, k);
  }

  /** Paging through the cache, whatever is written, filled, dropped and invalidated in
      between: the pages are those of tables the database had, each as fresh as
      ReadsAreFresh says; so no task is listed twice, and one that matches in all of them
      is listed when the client gets to the end. */
  lemma CachedBrowseListsOnce(s: State, steps: seq<Step>, f: Filter, asked: seq<nat>, id: int)
    requires Initial(s) && Legal(s, steps) && f.limit >= 1 && Session(s, steps, f, asked)
    ensures var pages, tables := Pages(s, steps, f, asked), Sources(s, steps, f, asked);
      && Increasing(TaskIds(Flatten(pages)))
      && (Finished(pages, f.limit) && id > f.afterId && (forall k :: 0 <= k < |pages| ==> id in Matching(tables[k], f))
          ==> id in TaskIds(Flatten(pages)))
  {
    hide Legal, Run, Session, Pages, Sources, Browse, Finished, Matching, TaskIds, Flatten;
    SessionIsBrowse(s, steps, f, asked);
    BrowseMovingTable(Sources(s, steps, f, asked), f, id);
  }
}
