/** When a message is delivered again: what a crash leaves behind, and exactly which rows
    can then be sent once more without any further fault. */
module RelayResend {
  import opened Prelude
  import opened Outbox
  import opened OutboxStore
  import opened Sharding
  import opened RetryDelay
  import opened Shard
  import opened Relay
  import opened RelayProtocol
  import opened RelayRuns

  // --- a marked message stays as often delivered as it is ---

  /** The id is marked, or its row is gone, and no shard that holds its lock is about to
      send it. */
  ghost predicate Guarded(s: State, id: int) {
    && (id in s.marks || id in s.deleted)
    && forall t, k: nat :: IsShard(s, t, k) && s.ticks[t].live ==> !Unsent(s.ticks[t].shards[k], id)
  }

  ghost predicate Unsent(sh: ShardState, id: int) {
    (sh.pc.Checking? || sh.pc.Sending?) && id in ClaimedIds(sh.pending)
  }

  lemma FaultsGrow(s: State, step: Step, maxAttempts: int)
    requires StepEnabled(s, step)
    ensures s.faults <= Apply(s, step, maxAttempts).faults
  {
    hide Charge, Settled, Collected, Opened, Next;
  }

  // A shard that holds an id whose row is gone would hold a row that is not there.
  lemma LiveHasRow(s: State, t: int, k: nat, c: Claimed, maxAttempts: int)
    requires Inv(s, maxAttempts) && IsShard(s, t, k) && s.ticks[t].live && c in s.ticks[t].shards[k].items
    ensures c.id in s.rows && c.id !in s.deleted && c.id in s.locks && s.locks[c.id] == Owner(t, k)
  {
    assert LiveShardOk(s, t, k, s.ticks[t].shards[k]);
    assert Holds(s, t, k, c);
  }

  lemma GuardedWork(s: State, step: Step, maxAttempts: int, id: int)
    requires step.Work? && StepEnabled(s, step) && Inv(s, maxAttempts) && Guarded(s, id)
    requires Apply(s, step, maxAttempts).faults[id] == s.faults[id]
    ensures Guarded(Apply(s, step, maxAttempts), id) && Apply(s, step, maxAttempts).accepted[id] == s.accepted[id]
  {
    var t, k, s' := step.t, step.k, Apply(s, step, maxAttempts);
    var sh := s.ticks[t].shards[k];
    assert IsShard(s, t, k) && Accounted(sh);
    WorkShape(s, step, maxAttempts);
    WorkCounts(s, step, maxAttempts);
    NextAdds(sh, step.e);
    if s.ticks[t].live {
      LiveGuarded(s, step, maxAttempts, id);
    }
    hide Apply, Next, Inv, StepEnabled, WorkCharge, Accounted, Unsent;
    forall x, j: nat | IsShard(s', x, j) && s'.ticks[x].live
      ensures !Unsent(s'.ticks[x].shards[j], id)
    {
      assert IsShard(s, x, j);
    }
  }

  lemma LiveGuarded(s: State, step: Step, maxAttempts: int, id: int)
    requires step.Work? && StepEnabled(s, step) && Inv(s, maxAttempts) && Guarded(s, id) && s.ticks[step.t].live
    requires Apply(s, step, maxAttempts).faults[id] == s.faults[id]
    ensures id !in step.took && !Unsent(Next(s.ticks[step.t].shards[step.k], step.e), id)
  {
    var t, k := step.t, step.k;
    var sh := s.ticks[t].shards[k];
    assert IsShard(s, t, k) && Accounted(sh) && !Unsent(sh, id);
    WorkCounts(s, step, maxAttempts);
    assert id !in WorkCharge(sh, s.marks, step.e, step.took, step.written);
    NextAdds(sh, step.e);
    if Unsent(Next(sh, step.e), id) {
      var c :| c in Next(sh, step.e).pending && c.id == id;
      hide Apply, Inv, Accounted, LocksOk, TableOk, DeliveriesOk;
      if c !in sh.pending {
        assert c in sh.items;
        LiveHasRow(s, t, k, c, maxAttempts);
      }
    }
  }

  // A step that starts no shard and moves none.
  lemma GuardedElsewhere(s: State, s': State, id: int)
    requires Guarded(s, id) && (id in s'.marks || id in s'.deleted)
    requires forall t, k: nat :: IsShard(s', t, k) && s'.ticks[t].live ==>
      (IsShard(s, t, k) && s.ticks[t].live && s'.ticks[t].shards[k] == s.ticks[t].shards[k])
      || (s'.ticks[t].shards[k].pc.Entry?)
    ensures Guarded(s', id)
  {
    hide ClaimedIds;
  }

  lemma GuardedOpen(s: State, step: Step, maxAttempts: int, id: int)
    requires step.Open? && StepEnabled(s, step) && Guarded(s, id)
    ensures Guarded(Apply(s, step, maxAttempts), id)
    ensures Apply(s, step, maxAttempts).accepted == s.accepted
  {
    OpenApplies(s, step, maxAttempts);
    hide Apply, StepEnabled, Claim, Shards, Guarded;
    OpenedFrame(s, step.t, step.batch, step.workers);
    OpenedShape(s, step.t, step.batch, step.workers);
    GuardedElsewhere(s, Apply(s, step, maxAttempts), id);
  }

  lemma GuardedCommit(s: State, step: Step, maxAttempts: int, id: int)
    requires step.Commit? && StepEnabled(s, step) && Guarded(s, id)
    ensures Guarded(Apply(s, step, maxAttempts), id)
    ensures Apply(s, step, maxAttempts).accepted == s.accepted
  {
    CommitFrame(s, step, maxAttempts);
    hide Apply, StepEnabled, AllSent, OutsOf, Guarded;
    GuardedElsewhere(s, Apply(s, step, maxAttempts), id) by {
      assert id in s.marks || id in s.deleted;
    }
  }

  lemma GuardedEnd(s: State, step: Step, maxAttempts: int, id: int)
    requires (step.Crash? || step.LoseLocks? || step.Rollback?) && StepEnabled(s, step) && Guarded(s, id)
    requires Apply(s, step, maxAttempts).faults[id] == s.faults[id]
    ensures Guarded(Apply(s, step, maxAttempts), id)
    ensures Apply(s, step, maxAttempts).accepted[id] == s.accepted[id]
  {
    if step.Crash? {
      CrashFrame(s, step, maxAttempts);
    }
    hide AwaitingIn, Unlocked, Unsent;
  }

  /** No step delivers a guarded message again, or takes its guard away, without charging it. */
  lemma GuardedStep(s: State, step: Step, maxAttempts: int, id: int)
    requires Inv(s, maxAttempts) && StepEnabled(s, step) && Guarded(s, id)
    requires Apply(s, step, maxAttempts).faults[id] == s.faults[id]
    ensures Guarded(Apply(s, step, maxAttempts), id) && Apply(s, step, maxAttempts).accepted[id] == s.accepted[id]
  {
    match step
    case Work(_, _, _, _, _) => GuardedWork(s, step, maxAttempts, id);
    case Open(_, _, _) => GuardedOpen(s, step, maxAttempts, id);
    case Commit(_, _) => GuardedCommit(s, step, maxAttempts, id);
    case Crash(_, _) => GuardedEnd(s, step, maxAttempts, id);
    case LoseLocks(_) => GuardedEnd(s, step, maxAttempts, id);
    case Rollback(_) => GuardedEnd(s, step, maxAttempts, id);
    case Enqueue(_, _) => GuardedOther(s, step, maxAttempts, id);
    case Advance(_) => GuardedOther(s, step, maxAttempts, id);
    case Expire(_) => GuardedOther(s, step, maxAttempts, id);
  }

  lemma GuardedOther(s: State, step: Step, maxAttempts: int, id: int)
    requires (step.Enqueue? || step.Advance? || step.Expire?) && StepEnabled(s, step) && Guarded(s, id)
    requires Apply(s, step, maxAttempts).faults[id] == s.faults[id]
    ensures Guarded(Apply(s, step, maxAttempts), id) && Apply(s, step, maxAttempts).accepted[id] == s.accepted[id]
  {
    hide Unsent;
  }

  lemma {:induction false} GuardedRun(s: State, steps: seq<Step>, s': State, maxAttempts: int, id: int)
    requires Inv(s, maxAttempts) && Guarded(s, id) && Run(s, steps, s', maxAttempts) && maxAttempts >= 1
    ensures Inv(s', maxAttempts) && s.faults <= s'.faults
    ensures s'.faults[id] == s.faults[id] ==> Guarded(s', id) && s'.accepted[id] == s.accepted[id]
    decreases |steps|
  {
    hide Inv, Guarded, StepEnabled, Apply;
    if steps != [] {
      var n := |steps| - 1;
      var mid: State :| Run(s, steps[..n], mid, maxAttempts) && StepEnabled(mid, steps[n])
                        && s' == Apply(mid, steps[n], maxAttempts);
      GuardedRun(s, steps[..n], mid, maxAttempts, id);
      FaultsGrow(mid, steps[n], maxAttempts);
      StepKeeps(mid, steps[n], maxAttempts);
      if s'.faults[id] == s.faults[id] {
        assert s.faults[id] <= mid.faults[id] <= s'.faults[id];
        GuardedStep(mid, steps[n], maxAttempts, id);
      }
    }
  }

  // --- an unmarked message that nobody holds can go out again ---

  /** The moves of a one-shard tick up to the provider's report: every check misses, the
      provider accepts only `id` and reports what `results` says. */
  ghost function DeliverySteps(t: int, n: nat, results: seq<SendResult>, id: int): seq<Step> {
    [Work(t, 0, Entered, {}, false)] + CheckSteps(t, n) + [Work(t, 0, Replied(results), {id}, false)]
  }

  ghost function CheckSteps(t: int, n: nat): seq<Step> {
    if n == 0 then [] else CheckSteps(t, n - 1) + [Work(t, 0, Checked(false), {}, false)]
  }

  ghost function Alone(sh: ShardState): Tick {
    Tick([sh], true)
  }

  /** Everything but tick t, and but what is counted of other ids, is as in s. */
  ghost predicate SameFor(s: State, s': State, t: int, id: int) {
    && s'.rows == s.rows && s'.locks == s.locks && s'.marks == s.marks && s'.now == s.now
    && s'.enqueued == s.enqueued && s'.deleted == s.deleted
    && s'.ticks.Keys == s.ticks.Keys && (forall x :: x in s.ticks && x != t ==> s'.ticks[x] == s.ticks[x])
    && s'.accepted[id] == s.accepted[id] && s'.faults[id] == s.faults[id]
  }

  lemma AloneMoves(s: State, t: int, sh: ShardState, e: ShardEvent, id: int, maxAttempts: int)
    requires t in s.ticks && s.ticks[t] == Alone(sh) && Enabled(sh, e)
    requires e.Entered? || (e == Checked(false) && (sh.items[sh.i].id == id ==> id !in s.marks))
    ensures var step := Work(t, 0, e, {}, false);
      && StepEnabled(s, step)
      && var s' := Apply(s, step, maxAttempts);
      SameFor(s, s', t, id) && s'.ticks[t] == Alone(Next(sh, e))
  {
    hide Next, Enabled;
    assert IsShard(s, t, 0);
    assert [sh][0 := Next(sh, e)] == [Next(sh, e)];
  }

  lemma EnterShard(items: seq<Claimed>)
    requires items != []
    ensures Enabled(Start(items), Entered) && Next(Start(items), Entered) == CheckAt(items, 0, [], EMPTY_OUTCOME)
  {
  }

  lemma MissOne(items: seq<Claimed>, i: nat)
    requires i < |items|
    ensures var sh := CheckAt(items, i, items[..i], EMPTY_OUTCOME);
      && Enabled(sh, Checked(false)) && sh.items[sh.i] == items[i]
      && Next(sh, Checked(false)) == CheckAt(items, i + 1, items[..i + 1], EMPTY_OUTCOME)
  {
    assert items[..i] + [items[i]] == items[..i + 1];
  }

  lemma {:induction false} ChecksMiss(s: State, t: int, items: seq<Claimed>, n: nat, id: int, maxAttempts: int) returns (s': State)
    requires t in s.ticks && s.ticks[t] == Alone(CheckAt(items, 0, [], EMPTY_OUTCOME))
    requires n <= |items| && id !in s.marks
    ensures Run(s, CheckSteps(t, n), s', maxAttempts)
    ensures SameFor(s, s', t, id) && t in s'.ticks && s'.ticks[t] == Alone(CheckAt(items, n, items[..n], EMPTY_OUTCOME))
  {
    hide CheckAt, Alone, Run, Apply, StepEnabled, Enabled, Next;
    s' := s;
    if n == 0 {
      NoStepsRun(s, maxAttempts);
    } else {
      var mid := ChecksMiss(s, t, items, n - 1, id, maxAttempts);
      var step := Work(t, 0, Checked(false), {}, false);
      MissOne(items, n - 1);
      AloneMoves(mid, t, CheckAt(items, n - 1, items[..n - 1], EMPTY_OUTCOME), Checked(false), id, maxAttempts);
      RunOne(mid, step, maxAttempts);
      s' := Apply(mid, step, maxAttempts);
      RunConcat(s, CheckSteps(t, n - 1), mid, [step], s', maxAttempts);
    }
  }

  lemma NoStepsRun(s: State, maxAttempts: int)
    ensures Run(s, [], s, maxAttempts)
  {
  }

  /** A report that delivers the messages of `id` and refuses the others. */
  function ReportFor(items: seq<Claimed>, id: int): (results: seq<SendResult>)
    ensures |results| == |items|
    ensures forall j :: 0 <= j < |items| ==> results[j] == if items[j].id == id then Delivered else Refused([])
  {
    seq(|items|, j requires 0 <= j < |items| => if items[j].id == id then Delivered else Refused([]))
  }

  lemma ReportAwaits(items: seq<Claimed>, id: int)
    requires id in ClaimedIds(items)
    ensures var sh, e := CheckAt(items, |items|, items, EMPTY_OUTCOME), Replied(ReportFor(items, id));
      Enabled(sh, e) && sh.pending == items && sh.pc.Sending? && AwaitIds(Next(sh, e)) == {id}
  {
    var c :| c in items && c.id == id;
    var j :| 0 <= j < |items| && items[j] == c;
    var sh := Next(CheckAt(items, |items|, items, EMPTY_OUTCOME), Replied(ReportFor(items, id)));
    assert sh.pending == items && sh.results == ReportFor(items, id) && sh.i == 0;
    assert sh.results[j].Delivered? && sh.pending[j].id == id;
  }

  lemma AloneReports(s: State, t: int, items: seq<Claimed>, id: int, maxAttempts: int)
    requires t in s.ticks && s.ticks[t] == Alone(CheckAt(items, |items|, items, EMPTY_OUTCOME)) && id in ClaimedIds(items)
    ensures var step := Work(t, 0, Replied(ReportFor(items, id)), {id}, false);
      && StepEnabled(s, step)
      && var s' := Apply(s, step, maxAttempts);
      && s'.rows == s.rows && s'.locks == s.locks && s'.marks == s.marks && s'.now == s.now
      && s'.enqueued == s.enqueued && s'.deleted == s.deleted && s'.ticks.Keys == s.ticks.Keys
      && s'.accepted[id] == s.accepted[id] + 1 && s'.faults[id] == s.faults[id]
      && IsShard(s', t, 0) && s'.ticks[t].live && AwaitIds(s'.ticks[t].shards[0]) == {id}
  {
    ReportAwaits(items, id);
    hide CheckAt, Next, Enabled, AwaitIds, ReportFor;
    assert IsShard(s, t, 0);
  }

  /** The run of DeliverySteps: one more delivery of `id`, charged nothing, its mark awaited. */
  lemma Delivers(s: State, t: int, items: seq<Claimed>, id: int, maxAttempts: int) returns (s': State)
    requires t in s.ticks && s.ticks[t] == Alone(Start(items)) && id in ClaimedIds(items) && id !in s.marks
    ensures Run(s, DeliverySteps(t, |items|, ReportFor(items, id), id), s', maxAttempts)
    ensures s'.rows == s.rows && s'.locks == s.locks && s'.marks == s.marks && s'.now == s.now
    ensures s'.enqueued == s.enqueued && s'.deleted == s.deleted && s'.ticks.Keys == s.ticks.Keys
    ensures s'.accepted[id] == s.accepted[id] + 1 && s'.faults[id] == s.faults[id]
    ensures IsShard(s', t, 0) && s'.ticks[t].live && AwaitIds(s'.ticks[t].shards[0]) == {id}
  {
    hide CheckAt, Alone, Run, Apply, StepEnabled, Enabled, Next, Start, AwaitIds, ReportFor;
    var enter, reply := Work(t, 0, Entered, {}, false), Work(t, 0, Replied(ReportFor(items, id)), {id}, false);
    EnterShard(items) by { var c :| c in items && c.id == id; }
    AloneMoves(s, t, Start(items), Entered, id, maxAttempts);
    RunOne(s, enter, maxAttempts);
    var s1 := Apply(s, enter, maxAttempts);
    var s2 := ChecksMiss(s1, t, items, |items|, id, maxAttempts);
    assert items[..|items|] == items;
    AloneReports(s2, t, items, id, maxAttempts);
    RunOne(s2, reply, maxAttempts);
    s' := Apply(s2, reply, maxAttempts);
    RunConcat(s, [enter], s1, CheckSteps(t, |items|), s2, maxAttempts);
    RunConcat(s, [enter] + CheckSteps(t, |items|), s2, [reply], s', maxAttempts);
  }

  lemma FreshTick(ticks: set<int>) returns (t: int)
    ensures t !in ticks
  {
    t := 0;
    if ticks != {} {
      var sorted := SortedOf(ticks);
      t := sorted[|sorted| - 1] + 1;
      assert forall x :: x in ticks ==> x in sorted;
    }
  }

  lemma OneShard(claimed: seq<Claimed>)
    requires claimed != []
    ensures Shards(claimed, 1) == [claimed]
  {
    assert ShardWorkers(|claimed|, 1) == 1;
    assert ShardSize(|claimed|, 1) == |claimed|;
  }

  // A claim as large as what is due takes every due row.
  lemma ClaimsAll(s: State, id: int)
    requires id in Eligible(s.rows, s.locks.Keys, s.now)
    ensures var claimed := Claim(s, |Eligible(s.rows, s.locks.Keys, s.now)|);
      claimed != [] && id in ClaimedIds(claimed)
  {
    var n := |Eligible(s.rows, s.locks.Keys, s.now)|;
    var ids, claimed := ClaimIds(s.rows, s.locks.Keys, s.now, n), Claim(s, n);
    ClaimTakesOldest(s.rows, s.locks.Keys, s.now, n, id);
    assert ids == SortedOf(Eligible(s.rows, s.locks.Keys, s.now));
    var i :| 0 <= i < |ids| && ids[i] == id;
    assert claimed[i].id == id;
  }

  lemma OpensAlone(s: State, t: int, claimed: seq<Claimed>, batch: nat, maxAttempts: int)
    requires t !in s.ticks && claimed == Claim(s, batch) && claimed != []
    ensures StepEnabled(s, Step.Open(t, batch, 1))
    ensures var s' := Apply(s, Step.Open(t, batch, 1), maxAttempts);
      && t in s'.ticks && s'.ticks[t] == Alone(Start(claimed)) && s'.ticks.Keys == s.ticks.Keys + {t}
      && s'.locks == s.locks + LocksOf(t, [claimed])
      && s'.rows == s.rows && s'.marks == s.marks && s'.now == s.now
      && s'.enqueued == s.enqueued && s'.deleted == s.deleted && s'.accepted == s.accepted && s'.faults == s.faults
  {
    var step := Step.Open(t, batch, 1);
    hide Apply, Claim, Shards, LocksOf, Start, Opened, StartAll, Charge;
    assert StepEnabled(s, step);
    hide StepEnabled;
    OneShard(claimed);
    OpenApplies(s, step, maxAttempts);
    OpenedShape(s, t, batch, 1);
    OpenedFrame(s, t, batch, 1);
    assert StartAll([claimed]) == [Start(claimed)];
    var s' := Opened(s, t, batch, 1);
    forall x
      ensures x in s'.ticks.Keys <==> x in s.ticks.Keys + {t}
    {
      assert x in s'.ticks <==> x in s.ticks || x == t;
    }
    assert s'.ticks.Keys == s.ticks.Keys + {t};
  }

  /** There is a run that delivers the message once more and charges it nothing. */
  ghost predicate CanResend(s: State, id: int, maxAttempts: int) {
    exists steps, s': State :: Run(s, steps, s', maxAttempts) && s'.accepted[id] > s.accepted[id] && s'.faults[id] == s.faults[id]
  }

  // Time passes until the row is due.
  lemma WaitsUntilDue(s: State, id: int, maxAttempts: int) returns (wait: Step, s': State)
    requires id in s.rows && s.rows[id].status.Pending?
    ensures Run(s, [wait], s', maxAttempts) && s' == s.(now := s'.now) && Due(s'.rows[id], s'.now)
  {
    hide Run;
    var next := s.rows[id].nextRetryAt;
    wait := Advance(if next.Some? && next.value > s.now then next.value else s.now);
    RunOne(s, wait, maxAttempts);
    s' := Apply(s, wait, maxAttempts);
    assert s'.faults == s.faults;
  }

  /** Whatever else is going on: once the row is due, a tick claims it, misses no mark as
      there is none, and sends it. */
  lemma UnmarkedResends(s: State, id: int, maxAttempts: int)
    requires id in s.rows && s.rows[id].status.Pending? && id !in s.locks && id !in s.marks
    ensures CanResend(s, id, maxAttempts)
  {
    hide Run, Apply, StepEnabled, Alone, Start, Claim, ClaimedIds, LocksOf, DeliverySteps, ReportFor, AwaitIds, IsShard;
    var wait, s1 := WaitsUntilDue(s, id, maxAttempts);
    var t := FreshTick(s1.ticks.Keys);
    var batch := |Eligible(s1.rows, s1.locks.Keys, s1.now)|;
    ClaimsAll(s1, id);
    hide Eligible, Due;
    var claimed := Claim(s1, batch);
    OpensAlone(s1, t, claimed, batch, maxAttempts);
    var open := Step.Open(t, batch, 1);
    RunOne(s1, open, maxAttempts);
    var s2 := Apply(s1, open, maxAttempts);
    var s' := Delivers(s2, t, claimed, id, maxAttempts);
    RunConcat(s, [wait], s1, [open], s2, maxAttempts);
    RunConcat(s, [wait] + [open], s2, DeliverySteps(t, |claimed|, ReportFor(claimed, id), id), s', maxAttempts);
  }

  lemma FreeMarkedGuarded(s: State, id: int, maxAttempts: int)
    requires Inv(s, maxAttempts) && id in s.marks && id !in s.locks
    ensures Guarded(s, id)
  {
    forall t, k: nat | IsShard(s, t, k) && s.ticks[t].live
      ensures !Unsent(s.ticks[t].shards[k], id)
    {
      var sh := s.ticks[t].shards[k];
      assert Accounted(sh);
      forall c | c in sh.items
        ensures c.id != id
      {
        LiveHasRow(s, t, k, c, maxAttempts);
      }
    }
  }

  /** In every reachable state: a pending row that no tick holds can be delivered once more
      without any further fault exactly when its mark is not there. */
  lemma ResendIff(steps: seq<Step>, s: State, maxAttempts: int, id: int)
    requires Run(Init(), steps, s, maxAttempts) && maxAttempts >= 1
    requires id in s.rows && s.rows[id].status.Pending? && id !in s.locks
    ensures CanResend(s, id, maxAttempts) <==> id !in s.marks
  {
    hide Inv, Guarded, Run;
    RunKeeps(steps, s, maxAttempts);
    if id !in s.marks {
      UnmarkedResends(s, id, maxAttempts);
    } else {
      FreeMarkedGuarded(s, id, maxAttempts);
      forall more, s': State | Run(s, more, s', maxAttempts) && s'.faults[id] == s.faults[id]
        ensures s'.accepted[id] == s.accepted[id]
      {
        GuardedRun(s, more, s', maxAttempts, id);
      }
    }
  }

  /** After a process crashed, whatever its shards were doing: a message its tick held can
      be delivered again, with no fault but the crash, exactly when its mark is not there. */
  lemma CrashedResendsIff(steps: seq<Step>, s: State, t: int, took: set<int>, maxAttempts: int, id: int)
    requires Run(Init(), steps, s, maxAttempts) && maxAttempts >= 1
    requires StepEnabled(s, Crash(t, took)) && id in s.locks && s.locks[id].tick == t
    ensures var after := Apply(s, Crash(t, took), maxAttempts);
      && id in after.rows && after.rows[id].status.Pending? && after.marks == s.marks
      && (CanResend(after, id, maxAttempts) <==> id !in s.marks)
  {
    var crash := Crash(t, took);
    var after := Apply(s, crash, maxAttempts);
    RunKeeps(steps, s, maxAttempts);
    HeldIsPending(s, id, maxAttempts);
    CrashFrame(s, crash, maxAttempts);
    hide Inv, Run, Apply, StepEnabled, CanResend;
    RunOne(s, crash, maxAttempts);
    RunConcat(Init(), steps, s, [crash], after, maxAttempts);
    ResendIff(steps + [crash], after, maxAttempts, id);
  }

  lemma HeldIsPending(s: State, id: int, maxAttempts: int)
    requires Inv(s, maxAttempts) && id in s.locks
    ensures id in s.rows && s.rows[id].status.Pending?
  {
    var t, k := s.locks[id].tick, s.locks[id].shard;
    assert IsShard(s, t, k) && s.ticks[t].live;
    var c :| c in s.ticks[t].shards[k].items && c.id == id;
    assert LiveShardOk(s, t, k, s.ticks[t].shards[k]);
    assert Holds(s, t, k, c);
  }

  // --- the message that goes out twice ---

  ghost function TwiceSteps(id: int, message: Message): seq<Step> {
    [Enqueue(id, message), Step.Open(1, 1, 1)] + DeliverySteps(1, 1, [Delivered], id) +
    [Crash(1, {}), Step.Open(2, 1, 1)] + DeliverySteps(2, 1, [Delivered], id)
  }

  lemma ClaimsTheRow(s: State, id: int, row: Row)
    requires s.rows == map[id := row] && s.locks == map[] && Due(row, s.now)
    ensures Claim(s, 1) == [Claimed(row.message, id, row.attempts)]
  {
    var due := Eligible(s.rows, s.locks.Keys, s.now);
    assert due == {id};
    var ids := SortedOf(due);
    assert ids[0] in ids;
    assert ids == [id] && ClaimIds(s.rows, s.locks.Keys, s.now, 1) == [id];
  }

  lemma OneRowLocked(t: int, c: Claimed)
    ensures LocksOf(t, [[c]]).Keys == {c.id} && LocksOf(t, [[c]])[c.id] == Owner(t, 0)
  {
    var locks := LocksOf(t, [[c]]);
    assert c in [[c]][0];
    assert c.id in ClaimedIds([[c]][0]);
    forall id | id in locks
      ensures id == c.id
    {
      assert id in ClaimedIds([[c]][0]);
    }
  }

  // A table of one row: a tick opens on it and has it delivered.
  lemma TickDelivers(s: State, t: int, id: int, row: Row, maxAttempts: int) returns (s': State)
    requires s.rows == map[id := row] && s.locks == map[] && s.ticks == map[] && id !in s.marks && Due(row, s.now)
    ensures Run(s, [Step.Open(t, 1, 1)] + DeliverySteps(t, 1, [Delivered], id), s', maxAttempts)
    ensures s'.rows == s.rows && s'.marks == s.marks && s'.now == s.now && s'.ticks.Keys == {t}
    ensures s'.accepted[id] == s.accepted[id] + 1 && s'.faults[id] == s.faults[id]
    ensures s'.locks == map[id := Owner(t, 0)] && AwaitsMark(s', id)
  {
    hide Run, Apply, StepEnabled, Alone, Start, LocksOf, Claim, AwaitIds, DeliverySteps, Due, Eligible;
    var c := Claimed(row.message, id, row.attempts);
    var open := Step.Open(t, 1, 1);
    ClaimsTheRow(s, id, row);
    OpensAlone(s, t, [c], 1, maxAttempts);
    OneRowLocked(t, c);
    RunOne(s, open, maxAttempts);
    var s1 := Apply(s, open, maxAttempts);
    assert c in [c] && ReportFor([c], id) == [Delivered];
    s' := Delivers(s1, t, [c], id, maxAttempts);
    RunConcat(s, [open], s1, DeliverySteps(t, 1, [Delivered], id), s', maxAttempts);
  }

  lemma CrashLetsGo(s: State, t: int, id: int, maxAttempts: int)
    requires s.ticks.Keys == {t} && s.locks == map[id := Owner(t, 0)] && AwaitsMark(s, id)
    ensures StepEnabled(s, Crash(t, {}))
    ensures var s' := Apply(s, Crash(t, {}), maxAttempts);
      && s'.rows == s.rows && s'.marks == s.marks && s'.now == s.now && s'.locks == map[] && s'.ticks == map[]
      && s'.accepted == s.accepted && s'.faults[id] == s.faults[id] + 1
  {
    hide AwaitsMark;
    CrashFrame(s, Crash(t, {}), maxAttempts);
    assert AwaitingIn(s, t) == {id};
  }

  lemma EnqueuedFirst(id: int, message: Message, maxAttempts: int)
    ensures StepEnabled(Init(), Enqueue(id, message))
    ensures var s := Apply(Init(), Enqueue(id, message), maxAttempts);
      s == Init().(rows := map[id := Row(message, Pending, 0, None, None)], enqueued := {id})
  {
  }

  /** The service's documentation says that a crash between send and commit does not send
      again. It does when it comes before the mark: enqueued, claimed, accepted and reported
      delivered, crashed; claimed again, accepted again. One crash, two deliveries. */
  lemma CrashSendsTwice(id: int, message: Message, maxAttempts: int) returns (s: State)
    ensures Run(Init(), TwiceSteps(id, message), s, maxAttempts)
    ensures s.accepted[id] == 2 && s.faults[id] == 1
  {
    hide DeliverySteps, Run, Apply, StepEnabled, AwaitsMark;
    var row := Row(message, Pending, 0, None, None);
    var enqueue, crash := Enqueue(id, message), Crash(1, {});
    EnqueuedFirst(id, message, maxAttempts);
    RunOne(Init(), enqueue, maxAttempts);
    var s1 := Apply(Init(), enqueue, maxAttempts);
    var s2 := TickDelivers(s1, 1, id, row, maxAttempts);
    CrashLetsGo(s2, 1, id, maxAttempts);
    RunOne(s2, crash, maxAttempts);
    var s3 := Apply(s2, crash, maxAttempts);
    s := TickDelivers(s3, 2, id, row, maxAttempts);
    var first := [Step.Open(1, 1, 1)] + DeliverySteps(1, 1, [Delivered], id);
    var second := [Step.Open(2, 1, 1)] + DeliverySteps(2, 1, [Delivered], id);
    RunConcat(Init(), [enqueue], s1, first, s2, maxAttempts);
    RunConcat(Init(), [enqueue] + first, s2, [crash], s3, maxAttempts);
    RunConcat(Init(), [enqueue] + first + [crash], s3, second, s, maxAttempts);
    assert [enqueue] + first + [crash] + second == TwiceSteps(id, message);
  }
}
