/** Any number of relays over one outbox table, one dedup store and one provider, step by
    step: every shard of every open tick moves one call at a time, in any order, while
    processes crash, transactions roll back under running shards, marks expire and calls
    fail. A shard's own moves are those of module Shard; a tick's locks are its claim. */
module RelayProtocol {
  import opened Prelude
  import opened Outbox
  import opened OutboxStore
  import opened Sharding
  import opened RetryDelay
  import opened Shard
  import opened Relay

  /** The tick whose transaction holds a row's lock, and the shard working on the row. */
  datatype Owner = Owner(tick: int, shard: nat)

  /** An open tick. `live` says that its transaction still holds its locks; a tick can lose
      them (its connection drops, its window runs out) while its shards are still running. */
  datatype Tick = Tick(shards: seq<ShardState>, live: bool)

  datatype State = State(
    rows: Rows,
    locks: map<int, Owner>,
    marks: set<int>,            // dedup marks present
    ticks: map<int, Tick>,
    now: int,
    // bookkeeping no part of the system reads
    enqueued: set<int>,         // every id ever inserted
    deleted: set<int>,          // ids whose row a committed tick deleted
    accepted: multiset<int>,    // what the provider accepted, once per delivery
    faults: multiset<int>,      // the faults charged to each id, see Charge
    verdicts: multiset<int>)    // refusals and shard panics that listed an id for retry

  datatype Step =
    | Enqueue(id: int, msg: Message)
    | Advance(to: int)
    | Expire(ids: set<int>)
    | Open(t: int, batch: nat, workers: int)
    | Work(t: int, k: nat, e: ShardEvent, took: set<int>, written: bool)
    | LoseLocks(t: int)
    | Crash(t: int, took: set<int>)
    | Commit(t: int, draw: nat -> Unit)
    | Rollback(t: int)

  ghost function Init(): State {
    State(map[], map[], {}, map[], 0, {}, {}, multiset{}, multiset{}, multiset{})
  }

  // --- one step ---

  ghost predicate IsShard(s: State, t: int, k: nat) {
    t in s.ticks && k < |s.ticks[t].shards|
  }

  ghost predicate AllDone(tick: Tick) {
    forall k :: 0 <= k < |tick.shards| ==> tick.shards[k].pc.Done?
  }

  ghost function Claim(s: State, batch: nat): seq<Claimed> {
    ToClaimed(s.rows, ClaimIds(s.rows, s.locks.Keys, s.now, batch))
  }

  // The messages of a shard the provider reported delivered and the shard has not yet marked.
  ghost function AwaitIds(sh: ShardState): set<int> {
    if sh.pc.Marking? && |sh.results| == |sh.pending| then
      set j | sh.i <= j < |sh.pending| && sh.results[j].Delivered? :: sh.pending[j].id
    else {}
  }

  /** What may happen: the shard's program allows the event, a check says "sent" only of a
      marked id, the provider accepts only what it is given, and it accepted what it reports
      delivered. `took` is what it accepted during the call, whatever it answers; `written`
      is whether a mark reached the store, whatever the call returns. */
  ghost predicate WorkEnabled(s: State, t: int, k: nat, e: ShardEvent, took: set<int>)
    requires IsShard(s, t, k)
  {
    var sh := s.ticks[t].shards[k];
    && Enabled(sh, e)
    && (e.Checked? && e.hit ==> sh.items[sh.i].id in s.marks)
    && took <= ClaimedIds(sh.pending)
    && (!sh.pc.Sending? ==> took == {})
    && (e.Replied? && |e.results| == |sh.pending| ==> AwaitIds(Next(sh, e)) <= took)
  }

  ghost predicate StepEnabled(s: State, step: Step) {
    match step
    case Enqueue(id, _) => id !in s.enqueued
    case Advance(to) => s.now <= to
    case Expire(ids) => ids <= s.marks
    case Open(t, batch, _) => t !in s.ticks && Claim(s, batch) != []
    case Work(t, k, e, took, _) => IsShard(s, t, k) && WorkEnabled(s, t, k, e, took)
    case LoseLocks(t) => t in s.ticks && s.ticks[t].live
    case Crash(t, took) =>
      && t in s.ticks
      && forall id :: id in took ==>
           exists k: nat :: IsShard(s, t, k) && s.ticks[t].shards[k].pc.Sending? && id in ClaimedIds(s.ticks[t].shards[k].pending)
    case Commit(t, _) => t in s.ticks && s.ticks[t].live && AllDone(s.ticks[t])
    case Rollback(t) => t in s.ticks && AllDone(s.ticks[t])
  }

  ghost function ShardOf(shards: seq<seq<Claimed>>, id: int): nat
    requires exists k :: 0 <= k < |shards| && id in ClaimedIds(shards[k])
    ensures ShardOf(shards, id) < |shards| && id in ClaimedIds(shards[ShardOf(shards, id)])
  {
    var k :| 0 <= k < |shards| && id in ClaimedIds(shards[k]);
    k
  }

  ghost function LocksOf(t: int, shards: seq<seq<Claimed>>): (locks: map<int, Owner>)
    ensures forall id :: id in locks ==>
      locks[id].tick == t && locks[id].shard < |shards| && id in ClaimedIds(shards[locks[id].shard])
    ensures forall k, id :: 0 <= k < |shards| && id in ClaimedIds(shards[k]) ==> id in locks
  {
    var ids := set k, id | 0 <= k < |shards| && id in ClaimedIds(shards[k]) :: id;
    map id | id in ids :: Owner(t, ShardOf(shards, id))
  }

  ghost function Unlocked(locks: map<int, Owner>, t: int): map<int, Owner> {
    map id | id in locks && locks[id].tick != t :: locks[id]
  }

  ghost function OutsOf(tick: Tick): (outs: seq<ShardOutcome>)
    ensures |outs| == |tick.shards| && forall k :: 0 <= k < |outs| ==> outs[k] == tick.shards[k].out
  {
    seq(|tick.shards|, k requires 0 <= k < |tick.shards| => tick.shards[k].out)
  }

  /** The id is accepted by the provider, reported delivered, and about to be marked by a
      shard whose tick still holds the row. */
  ghost predicate AwaitsMark(s: State, id: int) {
    && id in s.locks
    && IsShard(s, s.locks[id].tick, s.locks[id].shard)
    && id in AwaitIds(s.ticks[s.locks[id].tick].shards[s.locks[id].shard])
  }

  ghost function AwaitingIn(s: State, t: int): set<int> {
    set id | id in s.locks && s.locks[id].tick == t && AwaitsMark(s, id)
  }

  /** The faults of one move of a shard whose tick holds its locks:
      - a check that misses a mark that is there;
      - a delivery the shard is not told of: the call failed, panicked, answered the wrong
        number of results, or refused a message it had accepted;
      - a mark that does not reach the store;
      - a panic between the report of a delivery and its mark, reading a refusal included. */
  ghost function WorkCharge(sh: ShardState, marks: set<int>, e: ShardEvent, took: set<int>, written: bool): set<int>
    requires Enabled(sh, e)
  {
    match e
    case Checked(hit) => if !hit && sh.items[sh.i].id in marks then {sh.items[sh.i].id} else {}
    case SendFailed(_, _, _) => took
    case SendPanicked(_) => took
    case Replied(_) => took - AwaitIds(Next(sh, e))
    case Marked => if written then {} else {sh.pending[sh.i].id}
    case RefusalPanicked(_) => AwaitIds(sh)
    case MarkPanicked(_) => if written then AwaitIds(sh) - {sh.pending[sh.i].id} else AwaitIds(sh)
    case _ => {}
  }

  /** Every fault a step charges:
      - those of WorkCharge;
      - any delivery by a tick that no longer holds its locks;
      - a mark that expires before the row is deleted;
      - a tick that loses its locks, or its process, between the report of a delivery and
        its mark, or while the delivery is unreported.
      A rollback once the shards are done charges nothing. */
  ghost function Charge(s: State, step: Step): multiset<int>
    requires StepEnabled(s, step)
  {
    match step
    case Expire(ids) => multiset(ids - s.deleted)
    case Work(t, k, e, took, written) =>
      if s.ticks[t].live then multiset(WorkCharge(s.ticks[t].shards[k], s.marks, e, took, written)) else multiset(took)
    case LoseLocks(t) => multiset(AwaitingIn(s, t))
    case Crash(t, took) => multiset(AwaitingIn(s, t)) + multiset(took)
    case _ => multiset{}
  }

  ghost function StartAll(shards: seq<seq<Claimed>>): (all: seq<ShardState>)
    ensures |all| == |shards| && forall k :: 0 <= k < |all| ==> all[k] == Start(shards[k])
  {
    seq(|shards|, k requires 0 <= k < |shards| => Start(shards[k]))
  }

  // A tick has claimed its batch and split it; nothing is sent yet.
  ghost function Opened(s: State, t: int, batch: nat, workers: int): (s': State)
    ensures s' == s.(ticks := s'.ticks, locks := s'.locks)
  {
    var shards := Shards(Claim(s, batch), workers);
    s.(ticks := s.ticks[t := Tick(StartAll(shards), true)], locks := s.locks + LocksOf(t, shards))
  }

  ghost function Apply(s: State, step: Step, maxAttempts: int): State
    requires StepEnabled(s, step)
  {
    var charged := s.(faults := s.faults + Charge(s, step));
    match step
    case Enqueue(id, msg) =>
      charged.(rows := s.rows[id := Row(msg, Pending, 0, None, None)], enqueued := s.enqueued + {id})
    case Advance(to) => charged.(now := to)
    case Expire(ids) => charged.(marks := s.marks - ids)
    case Open(t, batch, workers) => Opened(s, t, batch, workers)
    case Work(t, k, e, took, written) =>
      var tick := s.ticks[t];
      var sh, sh' := tick.shards[k], Next(tick.shards[k], e);
      charged.(ticks := s.ticks[t := tick.(shards := tick.shards[k := sh'])],
               accepted := s.accepted + multiset(took),
               marks := if (e.Marked? || e.MarkPanicked?) && written then s.marks + {sh.pending[sh.i].id} else s.marks,
               verdicts := s.verdicts + multiset(RetryItemIds(sh'.out.retry) - RetryItemIds(sh.out.retry)))
    case LoseLocks(t) =>
      charged.(ticks := s.ticks[t := s.ticks[t].(live := false)], locks := Unlocked(s.locks, t))
    case Crash(t, took) =>
      charged.(ticks := s.ticks - {t}, locks := Unlocked(s.locks, t), accepted := s.accepted + multiset(took))
    case Commit(t, draw) =>
      var settlement := Collected(OutsOf(s.ticks[t]), maxAttempts, draw);
      charged.(rows := Settled(s.rows, settlement, s.now),
               deleted := s.deleted + (s.rows.Keys * Elems(settlement.sent)),
               ticks := s.ticks - {t}, locks := Unlocked(s.locks, t))
    case Rollback(t) =>
      charged.(ticks := s.ticks - {t}, locks := Unlocked(s.locks, t))
  }

  ghost predicate Run(s: State, steps: seq<Step>, s': State, maxAttempts: int)
    decreases |steps|
  {
    if steps == [] then s' == s
    else
      var n := |steps| - 1;
      exists mid: State :: Run(s, steps[..n], mid, maxAttempts) && StepEnabled(mid, steps[n])
                           && s' == Apply(mid, steps[n], maxAttempts)
  }

  // --- what every step keeps ---

  ghost predicate TableOk(s: State, maxAttempts: int) {
    && s.rows.Keys !! s.deleted
    && s.rows.Keys + s.deleted == s.enqueued
    && (forall id :: id in s.rows ==>
          if s.rows[id].status.Pending? then s.rows[id].attempts < maxAttempts else s.rows[id].attempts == maxAttempts)
    && (forall id :: id in s.rows ==> s.rows[id].attempts <= s.verdicts[id])
  }

  ghost predicate LocksOk(s: State) {
    forall id :: id in s.locks ==>
      && IsShard(s, s.locks[id].tick, s.locks[id].shard)
      && s.ticks[s.locks[id].tick].live
      && id in ClaimedIds(s.ticks[s.locks[id].tick].shards[s.locks[id].shard].items)
  }

  // A row is as it was claimed for as long as the tick holds it.
  ghost predicate Holds(s: State, t: int, k: nat, c: Claimed) {
    && c.id in s.locks && s.locks[c.id] == Owner(t, k)
    && c.id in s.rows && s.rows[c.id].status.Pending? && s.rows[c.id].attempts == c.attempts
  }

  // What a shard has learned is true.
  ghost predicate Truthful(s: State, sh: ShardState) {
    && (forall id :: id in sh.out.sent ==> s.accepted[id] >= 1)
    && (forall id :: id in AwaitIds(sh) ==> s.accepted[id] >= 1)
  }

  ghost predicate LiveShardOk(s: State, t: int, k: nat, sh: ShardState) {
    && (forall c :: c in sh.items ==> Holds(s, t, k, c))
    && (sh.pc.Checking? || sh.pc.Sending? ==> forall c :: c in sh.pending ==> s.accepted[c.id] <= s.faults[c.id])
    && (forall it :: it in sh.out.retry ==> it.claimed.attempts + 1 <= s.verdicts[it.claimed.id])
  }

  ghost predicate ShardsOk(s: State) {
    forall t, k: nat :: IsShard(s, t, k) ==>
      && Accounted(s.ticks[t].shards[k])
      && Truthful(s, s.ticks[t].shards[k])
      && (s.ticks[t].live ==> LiveShardOk(s, t, k, s.ticks[t].shards[k]))
  }

  /** A further delivery of the id would be a fault: a mark, the row's absence or a shard
      about to mark it stands in the way. */
  ghost predicate Covered(s: State, id: int) {
    id in s.marks || id in s.deleted || AwaitsMark(s, id)
  }

  ghost predicate DeliveriesOk(s: State) {
    && (forall id :: id in s.marks ==> s.accepted[id] >= 1)
    && (forall id :: id in s.deleted ==> s.accepted[id] >= 1)
    && (forall id: int :: s.accepted[id] <= s.faults[id] + (if Covered(s, id) then 1 else 0))
  }

  ghost predicate Inv(s: State, maxAttempts: int) {
    TableOk(s, maxAttempts) && LocksOk(s) && ShardsOk(s) && DeliveriesOk(s)
  }

  lemma AwaitIdsPending(sh: ShardState)
    ensures AwaitIds(sh) <= ClaimedIds(sh.pending)
  {
    forall id | id in AwaitIds(sh)
      ensures id in ClaimedIds(sh.pending)
    {
      var j :| sh.i <= j < |sh.pending| && sh.results[j].Delivered? && sh.pending[j].id == id;
      assert sh.pending[j] in sh.pending;
    }
  }

  // Going on to the next verdict stops awaiting the mark of this one, if it was a delivery.
  lemma AwaitIdsAdvance(sh: ShardState, e: ShardEvent)
    requires Enabled(sh, e) && (e.Refusal? || e.Marked?)
    ensures AwaitIds(sh) == AwaitIds(Next(sh, e)) + (if e.Marked? then {sh.pending[sh.i].id} else {})
  {
    var sh' := Next(sh, e);
    assert sh'.i == sh.i + 1 && sh'.pending == sh.pending && sh'.results == sh.results;
    hide Next;
    var here := if e.Marked? then {sh.pending[sh.i].id} else {};
    forall id | id in AwaitIds(sh)
      ensures id in AwaitIds(sh') + here
    {
      var j :| sh.i <= j < |sh.pending| && sh.results[j].Delivered? && sh.pending[j].id == id;
    }
  }

  // A shard's move changes neither its items nor, except for a reply, adds to what awaits a mark.
  lemma NextFrame(sh: ShardState, e: ShardEvent)
    requires Enabled(sh, e)
    ensures Next(sh, e).items == sh.items
    ensures !e.Replied? ==> AwaitIds(Next(sh, e)) <= AwaitIds(sh)
    ensures e.Refusal? ==> AwaitIds(Next(sh, e)) == AwaitIds(sh)
    ensures e.Marked? ==> AwaitIds(Next(sh, e)) + {sh.pending[sh.i].id} == AwaitIds(sh)
    ensures !sh.pc.Marking? ==> AwaitIds(sh) == {}
    ensures e.Replied? && |e.results| != |sh.pending| ==> AwaitIds(Next(sh, e)) == {}
    ensures e.MarkPanicked? ==> sh.pending[sh.i].id in AwaitIds(sh)
    ensures AwaitIds(sh) <= ClaimedIds(sh.pending)
  {
    AwaitIdsPending(sh);
    if e.Refusal? || e.Marked? {
      AwaitIdsAdvance(sh, e);
    }
  }

  // Shards that stay as they are stay good when every new delivery is charged and the rows
  // they hold are left alone.
  lemma ShardsCarry(s: State, s': State)
    requires ShardsOk(s)
    requires forall t, k: nat :: IsShard(s', t, k) ==>
      IsShard(s, t, k) && s'.ticks[t].shards[k] == s.ticks[t].shards[k] && (s'.ticks[t].live ==> s.ticks[t].live)
    requires forall t, k: nat, c | IsShard(s', t, k) && s'.ticks[t].live && c in s.ticks[t].shards[k].items ::
      Holds(s, t, k, c) ==> Holds(s', t, k, c)
    requires forall id: int ::
      && s.accepted[id] <= s'.accepted[id]
      && s'.accepted[id] + s.faults[id] <= s.accepted[id] + s'.faults[id]
      && s.verdicts[id] <= s'.verdicts[id]
    ensures ShardsOk(s')
  {
    hide AwaitIds, Holds;
    forall t, k: nat | IsShard(s', t, k)
      ensures Truthful(s', s'.ticks[t].shards[k]) && Accounted(s'.ticks[t].shards[k])
      ensures s'.ticks[t].live ==> LiveShardOk(s', t, k, s'.ticks[t].shards[k])
    {
      var sh := s.ticks[t].shards[k];
      assert IsShard(s, t, k) && Accounted(sh) && Truthful(s, sh);
      hide Accounted;
      if s'.ticks[t].live {
        assert LiveShardOk(s, t, k, sh);
        forall c | c in sh.pending && (sh.pc.Checking? || sh.pc.Sending?)
          ensures s'.accepted[c.id] <= s'.faults[c.id]
        {
          assert s.accepted[c.id] <= s.faults[c.id];
        }
      }
    }
  }

  lemma EnqueueKeeps(s: State, step: Step, maxAttempts: int)
    requires step.Enqueue? && StepEnabled(s, step) && Inv(s, maxAttempts) && maxAttempts >= 1
    ensures Inv(Apply(s, step, maxAttempts), maxAttempts)
  {
    var s' := Apply(s, step, maxAttempts);
    assert forall id :: AwaitsMark(s', id) == AwaitsMark(s, id);
    ShardsCarry(s, s');
  }

  lemma AdvanceKeeps(s: State, step: Step, maxAttempts: int)
    requires step.Advance? && StepEnabled(s, step) && Inv(s, maxAttempts)
    ensures Inv(Apply(s, step, maxAttempts), maxAttempts)
  {
    var s' := Apply(s, step, maxAttempts);
    assert forall id :: AwaitsMark(s', id) == AwaitsMark(s, id);
    ShardsCarry(s, s');
  }

  lemma ExpireKeeps(s: State, step: Step, maxAttempts: int)
    requires step.Expire? && StepEnabled(s, step) && Inv(s, maxAttempts)
    ensures Inv(Apply(s, step, maxAttempts), maxAttempts)
  {
    var s' := Apply(s, step, maxAttempts);
    assert forall id :: AwaitsMark(s', id) == AwaitsMark(s, id);
    ShardsCarry(s, s');
  }

  // Giving up a tick's locks uncovers exactly the ids it was about to mark.
  lemma UnlockedAwaits(s: State, s': State, t: int)
    requires LocksOk(s) && s'.locks == Unlocked(s.locks, t)
    requires forall x :: x in s.ticks && x != t ==> x in s'.ticks && s'.ticks[x] == s.ticks[x]
    ensures forall id :: AwaitsMark(s, id) && id !in AwaitingIn(s, t) ==> AwaitsMark(s', id)
  {
  }

  lemma LoseLocksKeeps(s: State, step: Step, maxAttempts: int)
    requires step.LoseLocks? && StepEnabled(s, step) && Inv(s, maxAttempts)
    ensures Inv(Apply(s, step, maxAttempts), maxAttempts)
  {
    var s' := Apply(s, step, maxAttempts);
    UnlockedAwaits(s, s', step.t);
    ShardsCarry(s, s');
  }

  lemma CrashFrame(s: State, step: Step, maxAttempts: int)
    requires step.Crash? && StepEnabled(s, step)
    ensures var s' := Apply(s, step, maxAttempts);
      && s'.rows == s.rows && s'.marks == s.marks && s'.deleted == s.deleted && s'.enqueued == s.enqueued
      && s'.verdicts == s.verdicts
      && s'.ticks == s.ticks - {step.t} && s'.locks == Unlocked(s.locks, step.t)
      && s'.accepted == s.accepted + multiset(step.took)
      && s'.faults == s.faults + (multiset(AwaitingIn(s, step.t)) + multiset(step.took))
  {
    hide AwaitingIn, Unlocked;
  }

  lemma CrashDeliveries(s: State, step: Step, maxAttempts: int)
    requires step.Crash? && StepEnabled(s, step) && Inv(s, maxAttempts)
    ensures DeliveriesOk(Apply(s, step, maxAttempts))
  {
    var s' := Apply(s, step, maxAttempts);
    CrashFrame(s, step, maxAttempts);
    hide Apply, ShardsOk, TableOk, StepEnabled;
    UnlockedAwaits(s, s', step.t);
    hide AwaitsMark, AwaitingIn, LocksOk;
  }

  lemma CrashShards(s: State, step: Step, maxAttempts: int)
    requires step.Crash? && StepEnabled(s, step) && Inv(s, maxAttempts)
    ensures ShardsOk(Apply(s, step, maxAttempts))
  {
    CrashFrame(s, step, maxAttempts);
    hide Apply, DeliveriesOk, TableOk, LocksOk, AwaitsMark, AwaitingIn, StepEnabled;
    ShardsCarry(s, Apply(s, step, maxAttempts));
  }

  lemma CrashKeeps(s: State, step: Step, maxAttempts: int)
    requires step.Crash? && StepEnabled(s, step) && Inv(s, maxAttempts)
    ensures Inv(Apply(s, step, maxAttempts), maxAttempts)
  {
    CrashDeliveries(s, step, maxAttempts);
    CrashShards(s, step, maxAttempts);
    CrashFrame(s, step, maxAttempts);
    hide Apply, DeliveriesOk, AwaitsMark, AwaitingIn, StepEnabled, ShardsOk;
  }

  lemma DoneAwaitsNothing(s: State, t: int)
    requires t in s.ticks && AllDone(s.ticks[t])
    ensures AwaitingIn(s, t) == {}
  {
  }

  lemma RollbackKeeps(s: State, step: Step, maxAttempts: int)
    requires step.Rollback? && StepEnabled(s, step) && Inv(s, maxAttempts)
    ensures Inv(Apply(s, step, maxAttempts), maxAttempts)
  {
    var s' := Apply(s, step, maxAttempts);
    DoneAwaitsNothing(s, step.t);
    UnlockedAwaits(s, s', step.t);
    ShardsCarry(s, s');
  }

  // --- a shard's move ---

  // What the other shards see of a move.
  lemma WorkShape(s: State, step: Step, maxAttempts: int)
    requires step.Work? && StepEnabled(s, step)
    ensures var s' := Apply(s, step, maxAttempts);
      && s'.rows == s.rows && s'.locks == s.locks && s'.deleted == s.deleted && s'.enqueued == s.enqueued
      && s.marks <= s'.marks
      && (forall t, k: nat :: IsShard(s', t, k) <==> IsShard(s, t, k))
      && (forall t, k: nat :: IsShard(s, t, k) ==> s'.ticks[t].live == s.ticks[t].live)
      && (forall t, k: nat :: IsShard(s, t, k) && (t, k) != (step.t, step.k) ==>
            s'.ticks[t].shards[k] == s.ticks[t].shards[k])
      && s'.ticks[step.t].shards[step.k] == Next(s.ticks[step.t].shards[step.k], step.e)
      && (forall id: int :: s.verdicts[id] <= s'.verdicts[id] && s.accepted[id] <= s'.accepted[id])
  {
    hide Next, WorkCharge, AwaitIds, Enabled;
  }

  lemma WorkLock(s: State, step: Step, maxAttempts: int, id: int)
    requires step.Work? && StepEnabled(s, step) && LocksOk(s) && id in s.locks
    ensures var s' := Apply(s, step, maxAttempts);
      var o := s.locks[id];
      s'.locks == s.locks && IsShard(s', o.tick, o.shard) && s'.ticks[o.tick].live
      && id in ClaimedIds(s'.ticks[o.tick].shards[o.shard].items)
  {
    var s' := Apply(s, step, maxAttempts);
    WorkShape(s, step, maxAttempts);
    NextFrame(s.ticks[step.t].shards[step.k], step.e);
    hide Apply, Next, AwaitIds, Enabled, WorkEnabled;
    var o := s.locks[id];
    assert IsShard(s, o.tick, o.shard);
    assert s'.ticks[o.tick].shards[o.shard].items == s.ticks[o.tick].shards[o.shard].items;
  }

  lemma WorkFrame(s: State, step: Step, maxAttempts: int)
    requires step.Work? && StepEnabled(s, step) && Inv(s, maxAttempts)
    ensures TableOk(Apply(s, step, maxAttempts), maxAttempts) && LocksOk(Apply(s, step, maxAttempts))
  {
    WorkShape(s, step, maxAttempts);
    hide Apply, Next, StepEnabled, ShardsOk, DeliveriesOk, ClaimedIds;
    forall id | id in s.locks {
      WorkLock(s, step, maxAttempts, id);
    }
  }

  // The provider's acceptances by one shard are of ids no other live shard holds, or charged.
  lemma WorkOthers(s: State, step: Step, maxAttempts: int, t: int, k: nat)
    requires step.Work? && StepEnabled(s, step) && Inv(s, maxAttempts)
    requires IsShard(s, t, k) && (t, k) != (step.t, step.k)
    ensures var s' := Apply(s, step, maxAttempts);
      && Truthful(s', s.ticks[t].shards[k])
      && (s.ticks[t].live ==> LiveShardOk(s', t, k, s.ticks[t].shards[k]))
  {
    var s' := Apply(s, step, maxAttempts);
    var sh, own := s.ticks[t].shards[k], s.ticks[step.t].shards[step.k];
    WorkShape(s, step, maxAttempts);
    assert IsShard(s, step.t, step.k);
    assert Accounted(own) && Accounted(sh);
    assert s'.accepted == s.accepted + multiset(step.took);
    assert s.faults <= s'.faults;
    assert !s.ticks[step.t].live ==> s'.faults == s.faults + multiset(step.took);
    hide Apply, Next, WorkCharge, AwaitIds, Enabled, LocksOk, TableOk, DeliveriesOk;
    assert Truthful(s, sh);
    if s.ticks[t].live {
      assert LiveShardOk(s, t, k, sh);
      forall c, d | c in sh.items && d in own.pending && s.ticks[step.t].live
        ensures c.id != d.id
      {
        assert d in own.items;
        assert Holds(s, t, k, c) && Holds(s, step.t, step.k, d);
      }
    }
  }

  // What a move adds to the shard's lists.
  lemma NextAdds(sh: ShardState, e: ShardEvent)
    requires Enabled(sh, e)
    ensures forall id :: id in Next(sh, e).out.sent ==>
      || id in sh.out.sent
      || (e == Checked(true) && id == sh.items[sh.i].id)
      || (e.Marked? && id == sh.pending[sh.i].id)
    ensures e.Marked? ==> sh.pending[sh.i].id in AwaitIds(sh)
    ensures Next(sh, e).pc.Checking? || Next(sh, e).pc.Sending? ==>
      && (sh.pc.Entry? || sh.pc.Checking?)
      && forall c :: c in Next(sh, e).pending ==> c in sh.pending || (e == Checked(false) && c == sh.items[sh.i])
  {
  }

  lemma WorkTruthful(s: State, step: Step, maxAttempts: int)
    requires step.Work? && StepEnabled(s, step) && Inv(s, maxAttempts)
    ensures Truthful(Apply(s, step, maxAttempts), Next(s.ticks[step.t].shards[step.k], step.e))
  {
    var s' := Apply(s, step, maxAttempts);
    var sh := s.ticks[step.t].shards[step.k];
    assert IsShard(s, step.t, step.k) && Truthful(s, sh);
    NextFrame(sh, step.e);
    NextAdds(sh, step.e);
    hide Next, AwaitIds, Enabled, Accounted, LocksOk, TableOk, WorkCharge, AwaitsMark, LiveShardOk;
  }

  lemma WorkRetries(s: State, step: Step, maxAttempts: int, it: RetryItem)
    requires step.Work? && StepEnabled(s, step) && Inv(s, maxAttempts) && s.ticks[step.t].live
    requires it in Next(s.ticks[step.t].shards[step.k], step.e).out.retry
    ensures it.claimed.attempts + 1 <= Apply(s, step, maxAttempts).verdicts[it.claimed.id]
  {
    var t, k, s' := step.t, step.k, Apply(s, step, maxAttempts);
    var sh := s.ticks[t].shards[k];
    assert IsShard(s, t, k) && LiveShardOk(s, t, k, sh) && Accounted(sh);
    NextFrame(sh, step.e);
    NextAccounted(sh, step.e);
    var sh' := Next(sh, step.e);
    assert it.claimed in sh.items && it.claimed.id in RetryItemIds(sh'.out.retry);
    assert Holds(s, t, k, it.claimed);
    hide Next, AwaitIds, Enabled, LocksOk, WorkCharge, AwaitsMark, ShardsOk, DeliveriesOk;
    if it.claimed.id in RetryItemIds(sh.out.retry) {
      var x :| x in sh.out.retry && x.claimed.id == it.claimed.id;
      SameId(sh.items, x.claimed, it.claimed);
    }
  }

  lemma WorkPending(s: State, step: Step, maxAttempts: int, c: Claimed)
    requires step.Work? && StepEnabled(s, step) && Inv(s, maxAttempts) && s.ticks[step.t].live
    requires var sh' := Next(s.ticks[step.t].shards[step.k], step.e);
      (sh'.pc.Checking? || sh'.pc.Sending?) && c in sh'.pending
    ensures var s' := Apply(s, step, maxAttempts); s'.accepted[c.id] <= s'.faults[c.id]
  {
    var t, k, s' := step.t, step.k, Apply(s, step, maxAttempts);
    var sh := s.ticks[t].shards[k];
    assert IsShard(s, t, k) && LiveShardOk(s, t, k, sh) && Accounted(sh);
    NextAdds(sh, step.e);
    NextFrame(sh, step.e);
    assert step.took == {};
    if c !in sh.pending {
      assert c in sh.items;
      assert Holds(s, t, k, c);
      hide Next, LocksOk, Accounted, ShardsOk;
      assert !AwaitsMark(s, c.id);
    } else {
      assert sh.pc.Checking?;
    }
  }

  lemma WorkLive(s: State, step: Step, maxAttempts: int)
    requires step.Work? && StepEnabled(s, step) && Inv(s, maxAttempts) && s.ticks[step.t].live
    ensures LiveShardOk(Apply(s, step, maxAttempts), step.t, step.k, Next(s.ticks[step.t].shards[step.k], step.e))
  {
    var t, k, s' := step.t, step.k, Apply(s, step, maxAttempts);
    var sh := s.ticks[t].shards[k];
    var sh' := Next(sh, step.e);
    assert IsShard(s, t, k) && LiveShardOk(s, t, k, sh);
    NextFrame(sh, step.e);
    forall c | c in sh'.pending && (sh'.pc.Checking? || sh'.pc.Sending?) {
      WorkPending(s, step, maxAttempts, c);
    }
    forall it | it in sh'.out.retry {
      WorkRetries(s, step, maxAttempts, it);
    }
    hide Next, LocksOk, Accounted, ShardsOk, AwaitIds, Enabled, WorkCharge, AwaitsMark;
    assert forall c :: c in sh'.items ==> Holds(s, t, k, c);
  }

  lemma WorkShards(s: State, step: Step, maxAttempts: int)
    requires step.Work? && StepEnabled(s, step) && Inv(s, maxAttempts)
    ensures ShardsOk(Apply(s, step, maxAttempts))
  {
    var s' := Apply(s, step, maxAttempts);
    var sh := s.ticks[step.t].shards[step.k];
    WorkShape(s, step, maxAttempts);
    WorkTruthful(s, step, maxAttempts);
    assert IsShard(s, step.t, step.k);
    NextAccounted(sh, step.e);
    if s.ticks[step.t].live {
      WorkLive(s, step, maxAttempts);
    }
    hide Next, LocksOk, AwaitIds, Enabled, WorkCharge, AwaitsMark, Accounted, Truthful, LiveShardOk, TableOk, DeliveriesOk;
    forall t, k: nat | IsShard(s', t, k)
      ensures Truthful(s', s'.ticks[t].shards[k]) && Accounted(s'.ticks[t].shards[k])
      ensures s'.ticks[t].live ==> LiveShardOk(s', t, k, s'.ticks[t].shards[k])
    {
      assert IsShard(s, t, k);
      if (t, k) != (step.t, step.k) {
        WorkOthers(s, step, maxAttempts, t, k);
      } else {
        assert s'.ticks[t].shards[k] == Next(sh, step.e);
      }
    }
  }

  lemma WorkMarks(s: State, step: Step, maxAttempts: int)
    requires step.Work? && StepEnabled(s, step) && Inv(s, maxAttempts)
    ensures var s' := Apply(s, step, maxAttempts);
      && (forall id :: id in s'.marks ==> s'.accepted[id] >= 1)
      && (forall id :: id in s'.deleted ==> s'.accepted[id] >= 1)
  {
    var sh := s.ticks[step.t].shards[step.k];
    assert IsShard(s, step.t, step.k) && Truthful(s, sh);
    NextFrame(sh, step.e);
    NextAdds(sh, step.e);
    WorkShape(s, step, maxAttempts);
    hide Next, AwaitIds, Enabled, Accounted, TableOk, LocksOk, ShardsOk, WorkCharge, Covered;
  }

  // A delivery by a shard whose tick lost its locks is charged, and covers nothing.
  lemma ZombieDelivery(s: State, step: Step, maxAttempts: int, id: int)
    requires step.Work? && StepEnabled(s, step) && Inv(s, maxAttempts) && !s.ticks[step.t].live
    ensures var s' := Apply(s, step, maxAttempts);
      s'.accepted[id] <= s'.faults[id] + (if Covered(s', id) then 1 else 0)
  {
    var s' := Apply(s, step, maxAttempts);
    WorkShape(s, step, maxAttempts);
    WorkCounts(s, step, maxAttempts);
    hide Apply, Next, AwaitIds, Enabled, Accounted, TableOk, WorkCharge, ShardsOk;
    if AwaitsMark(s, id) {
      var o := s.locks[id];
      assert IsShard(s, o.tick, o.shard) && o.tick != step.t;
      assert s'.ticks[o.tick].shards[o.shard] == s.ticks[o.tick].shards[o.shard];
      assert AwaitsMark(s', id);
    }
  }

  // A delivery is charged or leaves its id about to be marked; an id about to be marked
  // stays so, is charged, or has its mark written.
  lemma ChargeCovers(sh: ShardState, marks: set<int>, e: ShardEvent, took: set<int>, written: bool)
    requires Enabled(sh, e) && (!sh.pc.Sending? ==> took == {})
    ensures var sh', charge := Next(sh, e), WorkCharge(sh, marks, e, took, written);
      && (forall id :: id in took ==> id in charge || id in AwaitIds(sh'))
      && (forall id :: id in AwaitIds(sh) ==>
            || id in AwaitIds(sh') || id in charge
            || ((e.Marked? || e.MarkPanicked?) && written && id == sh.pending[sh.i].id))
  {
    NextFrame(sh, e);
    hide Next, AwaitIds;
  }

  // The id of a message being sent has no delivery to spare before the call.
  lemma DeliveryTaken(s: State, step: Step, maxAttempts: int, id: int)
    requires step.Work? && StepEnabled(s, step) && Inv(s, maxAttempts) && s.ticks[step.t].live
    requires id in step.took
    ensures s.accepted[id] <= s.faults[id]
    ensures id in s.locks && s.locks[id] == Owner(step.t, step.k)
  {
    var sh := s.ticks[step.t].shards[step.k];
    assert IsShard(s, step.t, step.k) && LiveShardOk(s, step.t, step.k, sh) && Accounted(sh);
    hide AwaitIds, Next, Enabled, DeliveriesOk, TableOk, LocksOk, ShardsOk;
    var c :| c in sh.pending && c.id == id;
    assert c in sh.items;
    assert Holds(s, step.t, step.k, c);
  }

  // What awaits its mark in another shard still does.
  lemma OthersAwait(s: State, step: Step, maxAttempts: int, id: int)
    requires step.Work? && StepEnabled(s, step) && AwaitsMark(s, id)
    ensures s.locks[id] == Owner(step.t, step.k) || AwaitsMark(Apply(s, step, maxAttempts), id)
  {
    WorkShape(s, step, maxAttempts);
    hide Apply, StepEnabled, AwaitIds;
    var o := s.locks[id];
    assert IsShard(s, o.tick, o.shard);
  }

  lemma WorkCounts(s: State, step: Step, maxAttempts: int)
    requires step.Work? && StepEnabled(s, step)
    ensures var s', sh := Apply(s, step, maxAttempts), s.ticks[step.t].shards[step.k];
      && s'.accepted == s.accepted + multiset(step.took)
      && (s.ticks[step.t].live ==>
            s'.faults == s.faults + multiset(WorkCharge(sh, s.marks, step.e, step.took, step.written)))
      && (!s.ticks[step.t].live ==> s'.faults == s.faults + multiset(step.took))
      && ((step.e.Marked? || step.e.MarkPanicked?) && step.written ==> sh.pending[sh.i].id in s'.marks)
  {
    hide Next, WorkCharge, AwaitIds;
  }

  lemma LiveDelivery(s: State, step: Step, maxAttempts: int, id: int)
    requires step.Work? && StepEnabled(s, step) && Inv(s, maxAttempts) && s.ticks[step.t].live
    ensures var s' := Apply(s, step, maxAttempts);
      s'.accepted[id] <= s'.faults[id] + (if Covered(s', id) then 1 else 0)
  {
    var t, k, s' := step.t, step.k, Apply(s, step, maxAttempts);
    var sh := s.ticks[t].shards[k];
    var sh' := Next(sh, step.e);
    WorkShape(s, step, maxAttempts);
    ChargeCovers(sh, s.marks, step.e, step.took, step.written);
    WorkCounts(s, step, maxAttempts);
    hide Apply, Next, WorkCharge, AwaitIds, Enabled, ShardsOk, TableOk, LocksOk;
    if id in step.took {
      DeliveryTaken(s, step, maxAttempts, id);
    }
    if AwaitsMark(s, id) {
      OthersAwait(s, step, maxAttempts, id);
    }
    hide StepEnabled;
    assert IsShard(s', t, k);
    assert id in AwaitIds(sh') && id in s.locks && s.locks[id] == Owner(t, k) ==> AwaitsMark(s', id);
  }

  lemma WorkKeeps(s: State, step: Step, maxAttempts: int)
    requires step.Work? && StepEnabled(s, step) && Inv(s, maxAttempts)
    ensures Inv(Apply(s, step, maxAttempts), maxAttempts)
  {
    WorkFrame(s, step, maxAttempts);
    WorkShards(s, step, maxAttempts);
    WorkMarks(s, step, maxAttempts);
    hide Apply, TableOk, LocksOk, ShardsOk, Covered;
    forall id: int
      ensures var s' := Apply(s, step, maxAttempts);
        s'.accepted[id] <= s'.faults[id] + (if Covered(s', id) then 1 else 0)
    {
      if s.ticks[step.t].live {
        LiveDelivery(s, step, maxAttempts, id);
      } else {
        ZombieDelivery(s, step, maxAttempts, id);
      }
    }
  }

  // --- claiming ---

  // A claim takes due rows nobody holds, once each.
  lemma ClaimedRows(s: State, batch: nat)
    ensures DistinctIds(Claim(s, batch))
    ensures forall c :: c in Claim(s, batch) ==>
      c.id !in s.locks && c.id in s.rows && s.rows[c.id].status.Pending? && s.rows[c.id].attempts == c.attempts
  {
    var ids := ClaimIds(s.rows, s.locks.Keys, s.now, batch);
    var claimed := Claim(s, batch);
    assert forall i :: 0 <= i < |ids| ==> ids[i] in Eligible(s.rows, s.locks.Keys, s.now);
    forall i, j | 0 <= i < j < |claimed|
      ensures claimed[i].id != claimed[j].id
    {
      assert ids[i] != ids[j];
    }
  }

  lemma OpenedLocks(s: State, t: int, claimed: seq<Claimed>, shards: seq<seq<Claimed>>, batch: nat, workers: int)
    requires claimed == Claim(s, batch) && shards == Shards(claimed, workers)
    ensures var added := LocksOf(t, shards);
      && (forall id :: id in added ==> id !in s.locks)
      && (forall k :: 0 <= k < |shards| ==> DistinctIds(shards[k]))
      && (forall k, c | 0 <= k < |shards| && c in shards[k] ::
            && c.id in added && added[c.id] == Owner(t, k)
            && c.id in s.rows && s.rows[c.id].status.Pending? && s.rows[c.id].attempts == c.attempts)
  {
    var added := LocksOf(t, shards);
    ClaimedRows(s, batch);
    ShardsApart(claimed, workers);
    hide Claim, Shards, DistinctIds, LocksOf;
    forall id | id in added
      ensures id !in s.locks
    {
      var c :| c in shards[added[id].shard] && c.id == id;
    }
    forall k, c | 0 <= k < |shards| && c in shards[k]
      ensures c.id in added && added[c.id] == Owner(t, k)
    {
      assert c.id in ClaimedIds(shards[k]);
    }
  }

  lemma OpenedShape(s: State, t: int, batch: nat, workers: int)
    ensures var s', shards := Opened(s, t, batch, workers), Shards(Claim(s, batch), workers);
      && t in s'.ticks && s'.ticks[t] == Tick(StartAll(shards), true)
      && s'.locks == s.locks + LocksOf(t, shards) && s'.rows == s.rows
  {
    hide Claim, Shards, LocksOf, StartAll;
  }

  // The new tick's shards, and the lock each of their rows is given.
  lemma OpenedShards(s: State, t: int, batch: nat, workers: int)
    ensures t in Opened(s, t, batch, workers).ticks
    ensures var s' := Opened(s, t, batch, workers);
      var shards := s'.ticks[t].shards;
      && s'.ticks[t].live
      && (forall k :: 0 <= k < |shards| ==> shards[k] == Start(shards[k].items) && DistinctIds(shards[k].items))
      && (forall k, c | 0 <= k < |shards| && c in shards[k].items :: Holds(s', t, k, c))
      && (forall id :: id in s.locks ==> id in s'.locks && s'.locks[id] == s.locks[id])
      && (forall id :: id in s'.locks && id !in s.locks ==>
            && s'.locks[id].tick == t && s'.locks[id].shard < |shards|
            && id in ClaimedIds(shards[s'.locks[id].shard].items))
  {
    hide Opened, Claim, Shards, DistinctIds, LocksOf, StartAll, ClaimedIds;
    var claimed := Claim(s, batch);
    var shards: seq<seq<Claimed>> := Shards(claimed, workers);
    OpenedLocks(s, t, claimed, shards, batch, workers);
    OpenedShape(s, t, batch, workers);
    var s', added := Opened(s, t, batch, workers), LocksOf(t, shards);
    forall k, c | 0 <= k < |shards| && c in s'.ticks[t].shards[k].items
      ensures Holds(s', t, k, c)
    {
      assert c in shards[k];
    }
    assert forall id :: id in s'.locks ==> id in s.locks || id in added;
  }

  lemma OpenedFrame(s: State, t: int, batch: nat, workers: int)
    ensures var s' := Opened(s, t, batch, workers);
      && t in s'.ticks && |s'.ticks[t].shards| == |Shards(Claim(s, batch), workers)|
      && (forall x :: x in s'.ticks <==> x in s.ticks || x == t)
      && (forall x :: x in s.ticks && x != t ==> s'.ticks[x] == s.ticks[x])
  {
    hide Claim, Shards, LocksOf;
  }

  lemma StartAccounted(items: seq<Claimed>)
    requires DistinctIds(items)
    ensures Accounted(Start(items)) && AwaitIds(Start(items)) == {}
  {
  }

  lemma OpenedShardOk(s: State, t: int, batch: nat, workers: int, k: nat)
    requires k < |Shards(Claim(s, batch), workers)|
    ensures IsShard(Opened(s, t, batch, workers), t, k)
    ensures var s' := Opened(s, t, batch, workers);
      var sh := s'.ticks[t].shards[k];
      Accounted(sh) && Truthful(s', sh) && LiveShardOk(s', t, k, sh)
  {
    hide Opened, DistinctIds, Accounted, AwaitIds, Holds, Claim, Shards, LocksOf;
    OpenedShards(s, t, batch, workers);
    OpenedFrame(s, t, batch, workers);
    StartAccounted(Opened(s, t, batch, workers).ticks[t].shards[k].items);
  }

  lemma OpenShards(s: State, t: int, batch: nat, workers: int)
    requires t !in s.ticks && ShardsOk(s)
    ensures ShardsOk(Opened(s, t, batch, workers))
  {
    var s' := Opened(s, t, batch, workers);
    hide Opened, Accounted, AwaitIds, DistinctIds, Claim, Shards, LocksOf;
    OpenedShards(s, t, batch, workers);
    OpenedFrame(s, t, batch, workers);
    forall x, k: nat | IsShard(s', x, k)
      ensures Truthful(s', s'.ticks[x].shards[k]) && Accounted(s'.ticks[x].shards[k])
      ensures s'.ticks[x].live ==> LiveShardOk(s', x, k, s'.ticks[x].shards[k])
    {
      if x == t {
        OpenedShardOk(s, t, batch, workers, k);
      } else {
        assert IsShard(s, x, k);
      }
    }
  }

  lemma OpenLocks(s: State, t: int, batch: nat, workers: int)
    requires t !in s.ticks && LocksOk(s)
    ensures LocksOk(Opened(s, t, batch, workers))
    ensures forall id :: AwaitsMark(s, id) ==> AwaitsMark(Opened(s, t, batch, workers), id)
  {
    var s' := Opened(s, t, batch, workers);
    hide Opened, DistinctIds, AwaitIds, Claim, Shards, LocksOf;
    OpenedShards(s, t, batch, workers);
    OpenedFrame(s, t, batch, workers);
    forall id | id in s'.locks
      ensures IsShard(s', s'.locks[id].tick, s'.locks[id].shard) && s'.ticks[s'.locks[id].tick].live
      ensures id in ClaimedIds(s'.ticks[s'.locks[id].tick].shards[s'.locks[id].shard].items)
    {
      if id in s.locks {
        assert s'.ticks[s.locks[id].tick] == s.ticks[s.locks[id].tick];
      }
    }
    forall id | AwaitsMark(s, id)
      ensures AwaitsMark(s', id)
    {
      assert IsShard(s, s.locks[id].tick, s.locks[id].shard);
    }
  }

  lemma OpenApplies(s: State, step: Step, maxAttempts: int)
    requires step.Open? && StepEnabled(s, step)
    ensures step.t !in s.ticks && Apply(s, step, maxAttempts) == Opened(s, step.t, step.batch, step.workers)
  {
    hide Opened, Claim;
  }

  lemma OpenKeeps(s: State, step: Step, maxAttempts: int)
    requires step.Open? && StepEnabled(s, step) && Inv(s, maxAttempts)
    ensures Inv(Apply(s, step, maxAttempts), maxAttempts)
  {
    hide Apply, StepEnabled, Opened, ShardsOk, LocksOk, AwaitsMark, Claim, Shards, LocksOf, StartAll;
    OpenApplies(s, step, maxAttempts);
    OpenShards(s, step.t, step.batch, step.workers);
    OpenLocks(s, step.t, step.batch, step.workers);
  }

  // --- committing ---

  lemma SentAreHeld(s: State, t: int, id: int)
    requires ShardsOk(s) && t in s.ticks && s.ticks[t].live && id in AllSent(OutsOf(s.ticks[t]))
    ensures id in s.locks && s.locks[id].tick == t && id in s.rows && s.rows[id].status.Pending? && s.accepted[id] >= 1
  {
    var tick := s.ticks[t];
    var outs := OutsOf(tick);
    AllSentMember(outs, id);
    hide AllSent, AwaitIds;
    var k :| 0 <= k < |outs| && id in outs[k].sent;
    assert IsShard(s, t, k);
    var c :| c in tick.shards[k].items && c.id == id;
    assert Holds(s, t, k, c);
  }

  lemma RetryIsHeld(s: State, t: int, it: RetryItem)
    requires ShardsOk(s) && t in s.ticks && s.ticks[t].live && it in AllRetry(OutsOf(s.ticks[t]))
    ensures it.claimed.id in s.locks && s.locks[it.claimed.id].tick == t
    ensures var k := s.locks[it.claimed.id].shard;
      IsShard(s, t, k) && Accounted(s.ticks[t].shards[k]) && it.claimed in s.ticks[t].shards[k].items
      && Holds(s, t, k, it.claimed)
    ensures it.claimed.attempts + 1 <= s.verdicts[it.claimed.id]
  {
    var outs := OutsOf(s.ticks[t]);
    AllRetryMember(outs, it);
    hide AllRetry, AwaitIds;
    var k :| 0 <= k < |outs| && it in outs[k].retry;
    assert IsShard(s, t, k);
    assert Holds(s, t, k, it.claimed);
  }

  // Whatever a live tick's shards report is about rows it holds, each under one claim.
  lemma ReportsAreHeld(s: State, t: int)
    requires ShardsOk(s) && t in s.ticks && s.ticks[t].live
    ensures var outs := OutsOf(s.ticks[t]);
      && (forall id :: id in AllSent(outs) ==>
            id in s.locks && s.locks[id].tick == t && id in s.rows && s.rows[id].status.Pending? && s.accepted[id] >= 1)
      && (forall it :: it in AllRetry(outs) ==>
            && it.claimed.id in s.locks && s.locks[it.claimed.id].tick == t
            && Holds(s, t, s.locks[it.claimed.id].shard, it.claimed)
            && it.claimed.attempts + 1 <= s.verdicts[it.claimed.id])
      && OneClaim(AllRetry(outs))
  {
    var outs := OutsOf(s.ticks[t]);
    forall id | id in AllSent(outs) {
      SentAreHeld(s, t, id);
    }
    forall it | it in AllRetry(outs) {
      RetryIsHeld(s, t, it);
    }
    hide ShardsOk, AllSent, AllRetry, OutsOf;
    forall a, b | a in AllRetry(outs) && b in AllRetry(outs) && a.claimed.id == b.claimed.id
      ensures a.claimed == b.claimed
    {
      RetryIsHeld(s, t, a);
      RetryIsHeld(s, t, b);
      SameId(s.ticks[t].shards[s.locks[a.claimed.id].shard].items, a.claimed, b.claimed);
    }
  }

  // What a commit does to each row.
  lemma CommittedRows(s: State, step: Step, maxAttempts: int)
    requires step.Commit? && StepEnabled(s, step) && Inv(s, maxAttempts)
    ensures var s' := Apply(s, step, maxAttempts);
      var outs := OutsOf(s.ticks[step.t]);
      && s'.rows.Keys == s.rows.Keys - Elems(AllSent(outs))
      && (forall id :: id in s'.rows ==>
            || s'.rows[id] == s.rows[id]
            || (&& id in s.locks && s.locks[id].tick == step.t
                && s.rows[id].status.Pending?
                && s'.rows[id].attempts == s.rows[id].attempts + 1 <= s.verdicts[id]
                && (s'.rows[id].status.Failed? <==> s.rows[id].attempts + 1 >= maxAttempts)))
  {
    var s' := Apply(s, step, maxAttempts);
    var outs := OutsOf(s.ticks[step.t]);
    ReportsAreHeld(s, step.t);
    SettledPointwise(s.rows, outs, maxAttempts, step.draw, s.now);
    assert s'.rows == Settled(s.rows, Collected(outs, maxAttempts, step.draw), s.now);
    hide Apply, Settled, Collected, OutsOf, AllSent, AllRetry, FirstItem, PossibleDelay, Inv, StepEnabled;
    forall id | id in s'.rows && s'.rows[id] != s.rows[id]
      ensures
        && id in s.locks && s.locks[id].tick == step.t
        && s.rows[id].status.Pending?
        && s'.rows[id].attempts == s.rows[id].attempts + 1 <= s.verdicts[id]
        && (s'.rows[id].status.Failed? <==> s.rows[id].attempts + 1 >= maxAttempts)
    {
      assert SettledRow(s.rows[id], Lookup(s'.rows, id), id, outs, maxAttempts, s.now);
      var it := FirstItem(AllRetry(outs), id);
      assert it in AllRetry(outs);
    }
  }

  lemma CommitFrame(s: State, step: Step, maxAttempts: int)
    requires step.Commit? && StepEnabled(s, step)
    ensures var s' := Apply(s, step, maxAttempts);
      && s'.deleted == s.deleted + (s.rows.Keys * Elems(AllSent(OutsOf(s.ticks[step.t]))))
      && s'.ticks == s.ticks - {step.t} && s'.locks == Unlocked(s.locks, step.t)
      && s'.accepted == s.accepted && s'.faults == s.faults && s'.verdicts == s.verdicts
      && s'.marks == s.marks && s'.enqueued == s.enqueued
  {
    hide Settled, AllSent, AllRetry, Retries, Fails, AwaitIds;
  }

  lemma CommitTable(s: State, step: Step, maxAttempts: int)
    requires step.Commit? && StepEnabled(s, step) && Inv(s, maxAttempts)
    ensures TableOk(Apply(s, step, maxAttempts), maxAttempts)
  {
    CommittedRows(s, step, maxAttempts);
    CommitFrame(s, step, maxAttempts);
    hide Apply, StepEnabled, AllSent, OutsOf, ShardsOk, DeliveriesOk, LocksOk;
  }

  lemma CommitLocks(s: State, step: Step, maxAttempts: int)
    requires step.Commit? && StepEnabled(s, step) && Inv(s, maxAttempts)
    ensures LocksOk(Apply(s, step, maxAttempts))
  {
    CommitFrame(s, step, maxAttempts);
    hide Apply, StepEnabled, AllSent, OutsOf, ShardsOk, DeliveriesOk, TableOk;
  }

  lemma CommitShards(s: State, step: Step, maxAttempts: int)
    requires step.Commit? && StepEnabled(s, step) && Inv(s, maxAttempts)
    ensures ShardsOk(Apply(s, step, maxAttempts))
  {
    var s' := Apply(s, step, maxAttempts);
    CommittedRows(s, step, maxAttempts);
    CommitFrame(s, step, maxAttempts);
    ReportsAreHeld(s, step.t);
    hide Apply, StepEnabled, AllSent, OutsOf, AllRetry, AwaitIds, DeliveriesOk, TableOk, LocksOk;
    forall t, k: nat, c | IsShard(s', t, k) && s'.ticks[t].live && c in s.ticks[t].shards[k].items && Holds(s, t, k, c)
      ensures Holds(s', t, k, c)
    {
      assert c.id !in AllSent(OutsOf(s.ticks[step.t]));
    }
    ShardsCarry(s, s');
  }

  lemma CommitAwaits(s: State, step: Step, maxAttempts: int)
    requires step.Commit? && StepEnabled(s, step) && LocksOk(s)
    ensures forall id :: AwaitsMark(s, id) ==> AwaitsMark(Apply(s, step, maxAttempts), id)
  {
    DoneAwaitsNothing(s, step.t);
    CommitFrame(s, step, maxAttempts);
    hide Apply, StepEnabled, AllDone, AwaitsMark, AwaitingIn, LocksOk, AllSent, OutsOf;
    UnlockedAwaits(s, Apply(s, step, maxAttempts), step.t);
  }

  lemma DeliveriesCarry(s: State, s': State)
    requires DeliveriesOk(s)
    requires s'.accepted == s.accepted && s'.faults == s.faults && s'.marks == s.marks
    requires s.deleted <= s'.deleted && forall id :: id in s'.deleted ==> s.accepted[id] >= 1
    requires forall id :: AwaitsMark(s, id) ==> AwaitsMark(s', id)
    ensures DeliveriesOk(s')
  {
    hide AwaitsMark;
    assert forall id :: Covered(s, id) ==> Covered(s', id);
  }

  lemma CommitDeliveries(s: State, step: Step, maxAttempts: int)
    requires step.Commit? && StepEnabled(s, step) && Inv(s, maxAttempts)
    ensures DeliveriesOk(Apply(s, step, maxAttempts))
  {
    CommitFrame(s, step, maxAttempts);
    CommitAwaits(s, step, maxAttempts);
    ReportsAreHeld(s, step.t);
    hide Apply, StepEnabled, AllSent, AllRetry, OutsOf, Holds, OneClaim, AwaitsMark, TableOk, LocksOk, ShardsOk;
    DeliveriesCarry(s, Apply(s, step, maxAttempts));
  }

  lemma CommitKeeps(s: State, step: Step, maxAttempts: int)
    requires step.Commit? && StepEnabled(s, step) && Inv(s, maxAttempts)
    ensures Inv(Apply(s, step, maxAttempts), maxAttempts)
  {
    CommitTable(s, step, maxAttempts);
    CommitLocks(s, step, maxAttempts);
    CommitShards(s, step, maxAttempts);
    CommitDeliveries(s, step, maxAttempts);
    hide Apply, TableOk, LocksOk, ShardsOk, DeliveriesOk;
  }

  // --- every run ---

  lemma StepKeeps(s: State, step: Step, maxAttempts: int)
    requires StepEnabled(s, step) && Inv(s, maxAttempts) && maxAttempts >= 1
    ensures Inv(Apply(s, step, maxAttempts), maxAttempts)
  {
    match step
    case Enqueue(_, _) => EnqueueKeeps(s, step, maxAttempts);
    case Advance(_) => AdvanceKeeps(s, step, maxAttempts);
    case Expire(_) => ExpireKeeps(s, step, maxAttempts);
    case Open(_, _, _) => OpenKeeps(s, step, maxAttempts);
    case Work(_, _, _, _, _) => WorkKeeps(s, step, maxAttempts);
    case LoseLocks(_) => LoseLocksKeeps(s, step, maxAttempts);
    case Crash(_, _) => CrashKeeps(s, step, maxAttempts);
    case Commit(_, _) => CommitKeeps(s, step, maxAttempts);
    case Rollback(_) => RollbackKeeps(s, step, maxAttempts);
  }

  lemma {:induction false} RunKeeps(steps: seq<Step>, s: State, maxAttempts: int)
    requires Run(Init(), steps, s, maxAttempts) && maxAttempts >= 1
    ensures Inv(s, maxAttempts)
    decreases |steps|
  {
    if steps != [] {
      var n := |steps| - 1;
      var mid: State :| Run(Init(), steps[..n], mid, maxAttempts) && StepEnabled(mid, steps[n])
                        && s == Apply(mid, steps[n], maxAttempts);
      RunKeeps(steps[..n], mid, maxAttempts);
      StepKeeps(mid, steps[n], maxAttempts);
    }
  }

  /** Nothing is lost: after any run every message ever enqueued is a row, pending or
      failed, or its row was deleted after the provider accepted it, never both; and a
      dedup mark is only ever put on a message the provider accepted. */
  lemma {:induction false} NothingIsLost(steps: seq<Step>, s: State, maxAttempts: int)
    requires Run(Init(), steps, s, maxAttempts) && maxAttempts >= 1
    ensures forall id :: id in s.enqueued <==> id in s.rows || id in s.deleted
    ensures forall id :: id in s.deleted ==> id !in s.rows && s.accepted[id] >= 1
    ensures forall id :: id in s.marks ==> s.accepted[id] >= 1
  {
    RunKeeps(steps, s, maxAttempts);
  }

  /** Deliveries beyond the first are paid for: an id is delivered at most once more often
      than faults were charged to it, so an id with no fault is delivered at most once
      however many ticks rolled back. */
  lemma {:induction false} DeliveriesBounded(steps: seq<Step>, s: State, maxAttempts: int, id: int)
    requires Run(Init(), steps, s, maxAttempts) && maxAttempts >= 1
    ensures s.accepted[id] <= 1 + s.faults[id]
    ensures !Covered(s, id) ==> s.accepted[id] <= s.faults[id]
  {
    RunKeeps(steps, s, maxAttempts);
  }

  /** A pending row has attempts left, a failed one has used them all, and every attempt
      used was a refusal by the provider or a panic of its shard. */
  lemma {:induction false} AttemptsBounded(steps: seq<Step>, s: State, maxAttempts: int)
    requires Run(Init(), steps, s, maxAttempts) && maxAttempts >= 1
    ensures forall id :: id in s.rows ==>
      && (s.rows[id].status.Pending? ==> s.rows[id].attempts < maxAttempts)
      && (s.rows[id].status.Failed? ==> s.rows[id].attempts == maxAttempts)
      && s.rows[id].attempts <= s.verdicts[id]
  {
    RunKeeps(steps, s, maxAttempts);
  }

  /** A failed row never changes again. */
  lemma {:induction false} FailedIsFinal(steps: seq<Step>, s: State, step: Step, maxAttempts: int, id: int)
    requires Run(Init(), steps, s, maxAttempts) && maxAttempts >= 1 && StepEnabled(s, step)
    requires id in s.rows && s.rows[id].status.Failed?
    ensures id in Apply(s, step, maxAttempts).rows && Apply(s, step, maxAttempts).rows[id] == s.rows[id]
  {
    RunKeeps(steps, s, maxAttempts);
    if step.Commit? {
      CommittedRows(s, step, maxAttempts);
      ReportsAreHeld(s, step.t);
      hide Apply, StepEnabled, DeliveriesOk;
    }
  }

  /** Ticks that hold their locks hold different rows: whatever two running shards of
      whatever relays work on, it is one shard if they share an id. The row is locked, and
      as it was claimed, from the claim until the tick ends or loses its locks. */
  lemma {:induction false} ClaimsDisjoint(steps: seq<Step>, s: State, maxAttempts: int, t: int, k: nat, c: Claimed, t': int, k': nat, c': Claimed)
    requires Run(Init(), steps, s, maxAttempts) && maxAttempts >= 1
    requires IsShard(s, t, k) && s.ticks[t].live && c in s.ticks[t].shards[k].items
    requires IsShard(s, t', k') && s.ticks[t'].live && c' in s.ticks[t'].shards[k'].items
    ensures Holds(s, t, k, c)
    ensures c.id == c'.id ==> t == t' && k == k' && c == c'
  {
    RunKeeps(steps, s, maxAttempts);
    assert LiveShardOk(s, t, k, s.ticks[t].shards[k]) && LiveShardOk(s, t', k', s.ticks[t'].shards[k']);
    assert Holds(s, t, k, c) && Holds(s, t', k', c');
    if c.id == c'.id {
      SameId(s.ticks[t].shards[k].items, c, c');
    }
  }

  // --- the method's shard is a run of the protocol ---

  lemma {:induction false} RunFront(s: State, step: Step, steps: seq<Step>, s': State, maxAttempts: int)
    requires StepEnabled(s, step) && Run(Apply(s, step, maxAttempts), steps, s', maxAttempts)
    ensures Run(s, [step] + steps, s', maxAttempts)
    decreases |steps|
  {
    var all := [step] + steps;
    var n := |steps|;
    hide StepEnabled, Apply;
    if steps == [] {
      assert all[..0] == [];
      assert Run(s, all[..0], s, maxAttempts);
    } else {
      var mid: State :| Run(Apply(s, step, maxAttempts), steps[..n - 1], mid, maxAttempts) && StepEnabled(mid, steps[n - 1])
                        && s' == Apply(mid, steps[n - 1], maxAttempts);
      RunFront(s, step, steps[..n - 1], mid, maxAttempts);
      assert all[..n] == [step] + steps[..n - 1] && all[n] == steps[n - 1];
    }
  }

  /** Only one shard of one tick has moved; marks may have been added. */
  ghost predicate OnlyShard(s: State, s': State, t: int, k: nat)
    requires IsShard(s, t, k)
  {
    && s'.rows == s.rows && s'.now == s.now && s'.locks == s.locks && s.marks <= s'.marks
    && IsShard(s', t, k)
    && s'.ticks == s.ticks[t := s.ticks[t].(shards := s.ticks[t].shards[k := s'.ticks[t].shards[k]])]
  }

  lemma WorkOnlyShard(s: State, step: Step, maxAttempts: int)
    requires step.Work? && StepEnabled(s, step)
    ensures OnlyShard(s, Apply(s, step, maxAttempts), step.t, step.k)
  {
    hide Next, WorkCharge, AwaitIds, Enabled;
  }

  lemma OnlyShardTwice(s: State, mid: State, s': State, t: int, k: nat)
    requires IsShard(s, t, k) && OnlyShard(s, mid, t, k) && OnlyShard(mid, s', t, k)
    ensures OnlyShard(s, s', t, k)
  {
    var shards := s.ticks[t].shards;
    var x, y := mid.ticks[t].shards[k], s'.ticks[t].shards[k];
    assert shards[k := x][k := y] == shards[k := y];
  }

  /** Where ProcessShard ends is where the protocol's moves of that shard can end, when the
      dedup store answers "sent" only for marked ids: the loops add no behaviour, and touch
      nothing but that shard and the marks. */
  lemma {:induction false} ShardIsARun(s: State, t: int, k: nat, env: ShardEnv, maxAttempts: int)
      returns (steps: seq<Step>, s': State)
    requires IsShard(s, t, k) && Wf(s.ticks[t].shards[k])
    requires forall j: nat :: j < |s.ticks[t].shards[k].items| && env.check(j).Hit? ==>
      s.ticks[t].shards[k].items[j].id in s.marks
    ensures Run(s, steps, s', maxAttempts)
    ensures OnlyShard(s, s', t, k) && s'.ticks[t].shards[k] == Finished(s.ticks[t].shards[k], env)
    decreases Rank(s.ticks[t].shards[k].pc), Left(s.ticks[t].shards[k])
  {
    var sh := s.ticks[t].shards[k];
    if sh.pc.Done? {
      steps, s' := [], s;
      assert s.ticks[t].shards[k := sh] == s.ticks[t].shards;
    } else {
      var e := NextEvent(sh, env);
      var took := if e.Replied? then AwaitIds(Next(sh, e)) else {};
      var step := Work(t, k, e, took, true);
      NextWf(sh, e);
      NextFrame(sh, e);
      assert took <= ClaimedIds(sh.pending) by {
        if e.Replied? {
          assert Next(sh, e).pending == sh.pending;
          ReplyAwaits(sh, e);
        }
      }
      assert StepEnabled(s, step);
      WorkShape(s, step, maxAttempts);
      WorkOnlyShard(s, step, maxAttempts);
      FinishedStep(sh, env);
      hide Apply, StepEnabled, Next, NextEvent, AwaitIds, Finished, Wf, OnlyShard;
      var mid := Apply(s, step, maxAttempts);
      var rest;
      rest, s' := ShardIsARun(mid, t, k, env, maxAttempts);
      RunFront(s, step, rest, s', maxAttempts);
      OnlyShardTwice(s, mid, s', t, k);
      steps := [step] + rest;
    }
  }

  lemma ReplyAwaits(sh: ShardState, e: ShardEvent)
    requires Enabled(sh, e) && e.Replied?
    ensures AwaitIds(Next(sh, e)) <= ClaimedIds(sh.pending)
  {
    var sh' := Next(sh, e);
    forall id | id in AwaitIds(sh')
      ensures id in ClaimedIds(sh.pending)
    {
      var j :| sh'.i <= j < |sh'.pending| && sh'.results[j].Delivered? && sh'.pending[j].id == id;
      assert sh.pending[j] in sh.pending;
    }
  }
}
