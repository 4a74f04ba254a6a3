/** What whole runs of the protocol contain: every tick of the Relay class is one, and
    every letter that is sent is one that was enqueued. */
module RelayRuns {
  import opened Prelude
  import opened Outbox
  import opened OutboxStore
  import opened Sharding
  import opened RetryDelay
  import opened Shard
  import opened Relay
  import opened RelayProtocol

  // --- runs one after another ---

  lemma RunOne(s: State, step: Step, maxAttempts: int)
    requires StepEnabled(s, step)
    ensures Run(s, [step], Apply(s, step, maxAttempts), maxAttempts)
  {
    hide StepEnabled, Apply;
    assert [step][..0] == [];
    assert Run(s, [step][..0], s, maxAttempts);
  }

  lemma RunSnoc(s: State, xs: seq<Step>, mid: State, step: Step, maxAttempts: int)
    requires Run(s, xs, mid, maxAttempts) && StepEnabled(mid, step)
    ensures Run(s, xs + [step], Apply(mid, step, maxAttempts), maxAttempts)
  {
    hide StepEnabled, Apply;
    var all := xs + [step];
    assert all[..|xs|] == xs;
  }

  lemma {:induction false} RunConcat(s: State, xs: seq<Step>, mid: State, ys: seq<Step>, s': State, maxAttempts: int)
    requires Run(s, xs, mid, maxAttempts) && Run(mid, ys, s', maxAttempts)
    ensures Run(s, xs + ys, s', maxAttempts)
    decreases |ys|
  {
    hide StepEnabled, Apply;
    if ys == [] {
      assert xs + ys == xs;
    } else {
      var n := |ys| - 1;
      var last: State :| Run(mid, ys[..n], last, maxAttempts) && StepEnabled(last, ys[n])
                         && s' == Apply(last, ys[n], maxAttempts);
      RunConcat(s, xs, mid, ys[..n], last, maxAttempts);
      RunSnoc(s, xs + ys[..n], last, ys[n], maxAttempts);
      assert xs + ys == (xs + ys[..n]) + [ys[n]];
    }
  }

  // --- a tick of the Relay class ---

  /** The first n shards have run to their end, the others have not begun. */
  ghost predicate FirstDone(s: State, t: int, shards: seq<seq<Claimed>>, envs: nat -> ShardEnv, n: nat) {
    && t in s.ticks && s.ticks[t].live && |s.ticks[t].shards| == |shards|
    && forall k :: 0 <= k < |shards| ==>
         s.ticks[t].shards[k] == if k < n then Finished(Start(shards[k]), envs(k)) else Start(shards[k])
  }

  /** The dedup store says "sent" only of marked ids. */
  ghost predicate HitsAreMarked(shards: seq<seq<Claimed>>, envs: nat -> ShardEnv, marks: set<int>) {
    forall k, j: nat :: 0 <= k < |shards| && j < |shards[k]| && envs(k).check(j).Hit? ==> shards[k][j].id in marks
  }

  /** The tick's shards have moved, and marks may have been added. */
  ghost predicate OnlyTick(s: State, s': State, t: int) {
    && s'.rows == s.rows && s'.now == s.now && s'.locks == s.locks && s.marks <= s'.marks
    && t in s'.ticks && s'.ticks - {t} == s.ticks - {t}
  }

  lemma OnlyShardInTick(s: State, mid: State, s': State, t: int, k: nat)
    requires OnlyTick(s, mid, t) && IsShard(mid, t, k) && OnlyShard(mid, s', t, k)
    ensures OnlyTick(s, s', t)
  {
    assert s'.ticks - {t} == mid.ticks - {t};
  }

  lemma NextDone(mid: State, s': State, t: int, shards: seq<seq<Claimed>>, envs: nat -> ShardEnv, n: nat)
    requires FirstDone(mid, t, shards, envs, n) && n < |shards| && IsShard(mid, t, n) && OnlyShard(mid, s', t, n)
    requires s'.ticks[t].shards[n] == Finished(mid.ticks[t].shards[n], envs(n))
    ensures FirstDone(s', t, shards, envs, n + 1)
  {
    hide Finished, Start;
  }

  lemma {:induction false} ShardsAreARun(s: State, t: int, shards: seq<seq<Claimed>>, envs: nat -> ShardEnv, n: nat, maxAttempts: int)
    returns (steps: seq<Step>, s': State)
    requires FirstDone(s, t, shards, envs, 0) && n <= |shards| && HitsAreMarked(shards, envs, s.marks)
    ensures Run(s, steps, s', maxAttempts) && FirstDone(s', t, shards, envs, n) && OnlyTick(s, s', t)
  {
    hide Finished, Run, HitsAreMarked, FirstDone, OnlyTick, OnlyShard;
    if n == 0 {
      steps, s' := [], s;
      EmptyRun(s, maxAttempts);
      OnlyTickSame(s, t, shards, envs);
    } else {
      var front, mid := ShardsAreARun(s, t, shards, envs, n - 1, maxAttempts);
      ReadyShard(s, mid, t, shards, envs, n - 1);
      var more;
      more, s' := ShardIsARun(mid, t, n - 1, envs(n - 1), maxAttempts);
      RunConcat(s, front, mid, more, s', maxAttempts);
      NextDone(mid, s', t, shards, envs, n - 1);
      OnlyShardInTick(s, mid, s', t, n - 1);
      steps := front + more;
    }
  }

  lemma EmptyRun(s: State, maxAttempts: int)
    ensures Run(s, [], s, maxAttempts)
  {
  }

  lemma OnlyTickSame(s: State, t: int, shards: seq<seq<Claimed>>, envs: nat -> ShardEnv)
    requires FirstDone(s, t, shards, envs, 0)
    ensures OnlyTick(s, s, t)
  {
  }

  lemma ReadyShard(s: State, mid: State, t: int, shards: seq<seq<Claimed>>, envs: nat -> ShardEnv, n: nat)
    requires FirstDone(mid, t, shards, envs, n) && n < |shards| && OnlyTick(s, mid, t) && HitsAreMarked(shards, envs, s.marks)
    ensures IsShard(mid, t, n) && mid.ticks[t].shards[n] == Start(shards[n]) && Wf(mid.ticks[t].shards[n])
    ensures forall j: nat :: j < |mid.ticks[t].shards[n].items| && envs(n).check(j).Hit? ==>
      mid.ticks[t].shards[n].items[j].id in mid.marks
  {
    hide Finished;
  }

  lemma TickOpens(s: State, t: int, batch: nat, workers: int, envs: nat -> ShardEnv, maxAttempts: int)
    requires t !in s.ticks && Claim(s, batch) != []
    ensures StepEnabled(s, Step.Open(t, batch, workers))
    ensures var s' := Apply(s, Step.Open(t, batch, workers), maxAttempts);
      && FirstDone(s', t, Shards(Claim(s, batch), workers), envs, 0)
      && s'.rows == s.rows && s'.now == s.now && s'.marks == s.marks && s'.ticks - {t} == s.ticks
  {
    var step := Step.Open(t, batch, workers);
    hide Apply, Claim, Shards, LocksOf, Start, Opened, Charge, Finished;
    assert StepEnabled(s, step);
    hide StepEnabled;
    OpenApplies(s, step, maxAttempts);
    OpenedShape(s, t, batch, workers);
    OpenedFrame(s, t, batch, workers);
    var s' := Opened(s, t, batch, workers);
    forall x
      ensures x in s'.ticks - {t} <==> x in s.ticks
      ensures x in s.ticks ==> s'.ticks[x] == s.ticks[x]
    {
      assert x in s'.ticks <==> x in s.ticks || x == t;
    }
    assert s'.ticks - {t} == s.ticks;
  }

  lemma TickCloses(s: State, t: int, claimed: seq<Claimed>, workers: int, envs: nat -> ShardEnv, draw: nat -> Unit, maxAttempts: int)
    requires FirstDone(s, t, Shards(claimed, workers), envs, |Shards(claimed, workers)|)
    ensures StepEnabled(s, Commit(t, draw)) && StepEnabled(s, Rollback(t))
    ensures Apply(s, Commit(t, draw), maxAttempts).rows ==
            Settled(s.rows, Collected(Outcomes(claimed, workers, envs), maxAttempts, draw), s.now)
    ensures Apply(s, Rollback(t), maxAttempts).rows == s.rows
    ensures Apply(s, Commit(t, draw), maxAttempts).ticks == s.ticks - {t} == Apply(s, Rollback(t), maxAttempts).ticks
  {
    hide Finished, Shards, Collected, Settled;
    assert AllDone(s.ticks[t]);
    assert OutsOf(s.ticks[t]) == Outcomes(claimed, workers, envs);
  }

  /** A tick that claims something is a run: it opens, its shards run one after another
      with any surroundings, and it commits, leaving the table Relay.Tick leaves, or rolls
      back, leaving it as it was. */
  lemma TickIsARun(s: State, t: int, batch: nat, workers: int, envs: nat -> ShardEnv, draw: nat -> Unit, ok: bool, maxAttempts: int)
    returns (steps: seq<Step>, s': State)
    requires t !in s.ticks && Claim(s, batch) != []
    requires HitsAreMarked(Shards(Claim(s, batch), workers), envs, s.marks)
    ensures Run(s, steps, s', maxAttempts) && s'.ticks == s.ticks
    ensures Claim(s, batch) == ToClaimed(s.rows, ClaimIds(s.rows, s.locks.Keys, s.now, batch))
    ensures s'.rows == if ok then Settled(s.rows, Collected(Outcomes(Claim(s, batch), workers, envs), maxAttempts, draw), s.now)
                       else s.rows
  {
    hide Finished, Run, HitsAreMarked, FirstDone, Apply, StepEnabled, Shards, Collected, Settled, Outcomes;
    var claimed, open := Claim(s, batch), Step.Open(t, batch, workers);
    var shards: seq<seq<Claimed>> := Shards(claimed, workers);
    TickOpens(s, t, batch, workers, envs, maxAttempts);
    RunOne(s, open, maxAttempts);
    var s1 := Apply(s, open, maxAttempts);
    var more, s2 := ShardsAreARun(s1, t, shards, envs, |shards|, maxAttempts);
    RunConcat(s, [open], s1, more, s2, maxAttempts);
    TickCloses(s2, t, claimed, workers, envs, draw, maxAttempts);
    var close := if ok then Commit(t, draw) else Rollback(t);
    RunSnoc(s, [open] + more, s2, close, maxAttempts);
    steps, s' := [open] + more + [close], Apply(s2, close, maxAttempts);
  }

  // --- what is sent is what was enqueued ---

  /** Every row, and every message a shard works on, is as the run enqueued it. */
  ghost predicate MessagesFrom(s: State, steps: seq<Step>) {
    && (forall id :: id in s.rows ==> Enqueue(id, s.rows[id].message) in steps)
    && (forall t, k: nat, c | IsShard(s, t, k) && c in s.ticks[t].shards[k].items :: Enqueue(c.id, c.message) in steps)
  }

  lemma SettledMessages(rows: Rows, s: Settlement, now: int, id: int)
    requires id in Settled(rows, s, now)
    ensures id in rows && Settled(rows, s, now)[id].message == rows[id].message
  {
    hide FirstRetry, FirstFailure;
  }

  // A step that brings no row and no shard.
  lemma MessagesCarry(s: State, s': State, steps: seq<Step>, step: Step)
    requires MessagesFrom(s, steps)
    requires forall id :: id in s'.rows ==> id in s.rows && s'.rows[id].message == s.rows[id].message
    requires forall t, k: nat :: IsShard(s', t, k) ==> IsShard(s, t, k) && s'.ticks[t].shards[k].items == s.ticks[t].shards[k].items
    ensures MessagesFrom(s', steps + [step])
  {
    assert forall x :: x in steps ==> x in steps + [step];
    forall t, k: nat, c | IsShard(s', t, k) && c in s'.ticks[t].shards[k].items
      ensures Enqueue(c.id, c.message) in steps + [step]
    {
      assert IsShard(s, t, k) && c in s.ticks[t].shards[k].items;
    }
  }

  lemma EnqueueMessages(s: State, steps: seq<Step>, step: Step, maxAttempts: int)
    requires step.Enqueue? && StepEnabled(s, step) && MessagesFrom(s, steps)
    ensures MessagesFrom(Apply(s, step, maxAttempts), steps + [step])
  {
    var s' := Apply(s, step, maxAttempts);
    assert s'.ticks == s.ticks && s'.rows == s.rows[step.id := Row(step.msg, Pending, 0, None, None)];
    hide Apply, StepEnabled;
    assert (steps + [step])[|steps|] == step;
    assert forall x :: x in steps ==> x in steps + [step];
    forall t, k: nat, c | IsShard(s', t, k) && c in s'.ticks[t].shards[k].items
      ensures Enqueue(c.id, c.message) in steps + [step]
    {
      assert IsShard(s, t, k);
    }
  }

  // What the shards of a new tick work on was claimed.
  lemma OpenedItems(s: State, t: int, batch: nat, workers: int, k: nat, c: Claimed)
    requires IsShard(Opened(s, t, batch, workers), t, k) && c in Opened(s, t, batch, workers).ticks[t].shards[k].items
    ensures c in Claim(s, batch)
  {
    hide Claim, Shards, Opened;
    var claimed := Claim(s, batch);
    var shards: seq<seq<Claimed>> := Shards(claimed, workers);
    OpenedShape(s, t, batch, workers);
    ShardsCover(claimed, workers);
    assert c in shards[k];
    FlattenMember(shards, c);
  }

  lemma OpenMessages(s: State, steps: seq<Step>, step: Step, maxAttempts: int)
    requires step.Open? && StepEnabled(s, step) && MessagesFrom(s, steps)
    ensures MessagesFrom(Apply(s, step, maxAttempts), steps + [step])
  {
    hide Apply, StepEnabled, Claim, Shards, Opened, LocksOf, StartAll;
    OpenApplies(s, step, maxAttempts);
    var s' := Opened(s, step.t, step.batch, step.workers);
    OpenedShape(s, step.t, step.batch, step.workers);
    OpenedFrame(s, step.t, step.batch, step.workers);
    ClaimMessages(s, step.batch);
    assert forall x :: x in steps ==> x in steps + [step];
    forall t, k: nat, c | IsShard(s', t, k) && c in s'.ticks[t].shards[k].items
      ensures Enqueue(c.id, c.message) in steps + [step]
    {
      if t == step.t {
        OpenedItems(s, t, step.batch, step.workers, k, c);
      } else {
        assert IsShard(s, t, k);
      }
    }
  }

  lemma ClaimMessages(s: State, batch: nat)
    ensures forall c :: c in Claim(s, batch) ==> c.id in s.rows && c.message == s.rows[c.id].message
  {
    var ids := ClaimIds(s.rows, s.locks.Keys, s.now, batch);
    assert forall i :: 0 <= i < |ids| ==> ids[i] in Eligible(s.rows, s.locks.Keys, s.now);
  }

  lemma WorkMessages(s: State, steps: seq<Step>, step: Step, maxAttempts: int)
    requires step.Work? && StepEnabled(s, step) && MessagesFrom(s, steps)
    ensures MessagesFrom(Apply(s, step, maxAttempts), steps + [step])
  {
    WorkOnlyShard(s, step, maxAttempts);
    WorkShape(s, step, maxAttempts);
    NextFrame(s.ticks[step.t].shards[step.k], step.e);
    hide Apply, StepEnabled, Next, AwaitIds;
    MessagesCarry(s, Apply(s, step, maxAttempts), steps, step);
  }

  lemma CommitMessages(s: State, steps: seq<Step>, step: Step, maxAttempts: int)
    requires step.Commit? && StepEnabled(s, step) && MessagesFrom(s, steps)
    ensures MessagesFrom(Apply(s, step, maxAttempts), steps + [step])
  {
    var settlement := Collected(OutsOf(s.ticks[step.t]), maxAttempts, step.draw);
    CommitFrame(s, step, maxAttempts);
    var s' := Apply(s, step, maxAttempts);
    assert s'.rows == Settled(s.rows, settlement, s.now);
    hide Apply, StepEnabled, Settled, Collected, OutsOf, AllSent;
    forall id | id in s'.rows
      ensures id in s.rows && s'.rows[id].message == s.rows[id].message
    {
      SettledMessages(s.rows, settlement, s.now, id);
    }
    MessagesCarry(s, s', steps, step);
  }

  lemma StepMessages(s: State, steps: seq<Step>, step: Step, maxAttempts: int)
    requires StepEnabled(s, step) && MessagesFrom(s, steps)
    ensures MessagesFrom(Apply(s, step, maxAttempts), steps + [step])
  {
    if step.Enqueue? {
      EnqueueMessages(s, steps, step, maxAttempts);
    } else if step.Open? {
      OpenMessages(s, steps, step, maxAttempts);
    } else if step.Work? {
      WorkMessages(s, steps, step, maxAttempts);
    } else if step.Commit? {
      CommitMessages(s, steps, step, maxAttempts);
    } else {
      hide MessagesFrom, AwaitingIn, Unlocked;
      MessagesCarry(s, Apply(s, step, maxAttempts), steps, step);
    }
  }

  ghost predicate EnqueuedOnce(s: State, steps: seq<Step>) {
    && (forall id, m :: Enqueue(id, m) in steps ==> id in s.enqueued)
    && (forall id, m, n :: Enqueue(id, m) in steps && Enqueue(id, n) in steps ==> m == n)
  }

  lemma StepEnqueuesIds(s: State, step: Step, maxAttempts: int)
    requires StepEnabled(s, step)
    ensures Apply(s, step, maxAttempts).enqueued == s.enqueued + (if step.Enqueue? then {step.id} else {})
    ensures step.Enqueue? ==> step.id !in s.enqueued
  {
    hide Charge, Settled, Collected, Next, Claim, Shards, WorkEnabled, AllDone;
  }

  lemma StepEnqueues(s: State, steps: seq<Step>, step: Step, maxAttempts: int)
    requires StepEnabled(s, step) && EnqueuedOnce(s, steps)
    ensures EnqueuedOnce(Apply(s, step, maxAttempts), steps + [step])
  {
    hide Apply, StepEnabled;
    StepEnqueuesIds(s, step, maxAttempts);
    assert forall x :: x in steps + [step] ==> x in steps || x == step;
  }

  /** In every run: a row carries the message it was enqueued with, and so does everything
      a shard holds to send, for as long as it is there; and no id is enqueued twice. */
  lemma {:induction false} MessagesAreEnqueued(steps: seq<Step>, s: State, maxAttempts: int)
    requires Run(Init(), steps, s, maxAttempts)
    ensures MessagesFrom(s, steps) && EnqueuedOnce(s, steps)
    decreases |steps|
  {
    hide Apply, StepEnabled;
    if steps == [] {
      NothingYet();
    } else {
      var n := |steps| - 1;
      var mid: State :| Run(Init(), steps[..n], mid, maxAttempts) && StepEnabled(mid, steps[n])
                        && s == Apply(mid, steps[n], maxAttempts);
      MessagesAreEnqueued(steps[..n], mid, maxAttempts);
      hide Run, MessagesFrom, EnqueuedOnce;
      StepMessages(mid, steps[..n], steps[n], maxAttempts);
      StepEnqueues(mid, steps[..n], steps[n], maxAttempts);
      assert steps[..n] + [steps[n]] == steps;
    }
  }

  lemma NothingYet()
    ensures MessagesFrom(Init(), []) && EnqueuedOnce(Init(), [])
  {
  }
}
