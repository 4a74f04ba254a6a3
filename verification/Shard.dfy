/** One shard of a tick: check the dedup marks, send what is left in one call, mark what
    was delivered, and survive a panic anywhere in between.

    The shard is written twice. ShardState and Next are its program as single steps, one
    for every call it makes to the dedup store and the provider, so that RelayProtocol
    can interleave the shards of many relays; ProcessShard is the same program as one
    method with loops, proved to end in the state those steps end in. */
module Shard {
  import opened Prelude
  import opened Outbox

  datatype RetryItem = RetryItem(claimed: Claimed, reason: Text)

  datatype ShardOutcome = ShardOutcome(
    sent: seq<int>, retry: seq<RetryItem>, pause: int, delivered: nat, paused: bool)

  const EMPTY_OUTCOME := ShardOutcome([], [], 0, 0, false)

  datatype Pc = Entry | Checking | Sending | Marking | Done

  datatype ShardState = ShardState(
    pc: Pc,
    items: seq<Claimed>,
    i: nat,                       // the loop index
    pending: seq<Claimed>,
    results: seq<SendResult>,
    out: ShardOutcome,
    panicked: bool,
    canceled: bool)               // the shard asked for its siblings to stop

  datatype ShardEvent =
    | Skipped
    | Entered
    | Checked(hit: bool)
    | CheckPanicked(rec: Text)
    | SendFailed(hint: Option<int>, causePaused: bool, isCanceled: bool)
    | SendPanicked(rec: Text)
    | Replied(results: seq<SendResult>)
    | Refusal
    | RefusalPanicked(rec: Text)
    | Marked
    | MarkPanicked(rec: Text)

  function Start(items: seq<Claimed>): ShardState {
    ShardState(Entry, items, 0, [], [], EMPTY_OUTCOME, false, false)
  }

  predicate Wf(s: ShardState) {
    && s.out.delivered <= |s.pending|
    && (s.pc.Checking? ==> s.i < |s.items|)
    && (s.pc.Marking? ==> s.i < |s.pending| && |s.results| == |s.pending| && s.out.delivered <= s.i)
  }

  predicate Enabled(s: ShardState, e: ShardEvent) {
    && Wf(s)
    && match e
       case Skipped => s.pc.Entry?
       case Entered => s.pc.Entry?
       case Checked(_) => s.pc.Checking?
       case CheckPanicked(_) => s.pc.Checking?
       case SendFailed(_, _, _) => s.pc.Sending?
       case SendPanicked(_) => s.pc.Sending?
       case Replied(_) => s.pc.Sending?
       case Refusal => s.pc.Marking? && s.results[s.i].Refused?
       case RefusalPanicked(_) => s.pc.Marking? && s.results[s.i].Refused?
       case Marked => s.pc.Marking? && s.results[s.i].Delivered?
       case MarkPanicked(_) => s.pc.Marking? && s.results[s.i].Delivered?
  }

  // "relay panic: "
  const PANIC_PREFIX: Text := [114, 101, 108, 97, 121, 32, 112, 97, 110, 105, 99, 58, 32]

  function PanicItems(cs: seq<Claimed>, rec: Text): (r: seq<RetryItem>)
    ensures |r| == |cs| && forall j :: 0 <= j < |cs| ==> r[j] == RetryItem(cs[j], PANIC_PREFIX + rec)
  {
    if cs == [] then [] else PanicItems(cs[..|cs| - 1], rec) + [RetryItem(cs[|cs| - 1], PANIC_PREFIX + rec)]
  }

  /** The reason given is "relay panic: " and what was recovered. */
  lemma PanicReason(cs: seq<Claimed>, rec: Text)
    ensures forall j :: 0 <= j < |cs| ==>
      var it := PanicItems(cs, rec)[j];
      it.claimed == cs[j] && it.reason == [114, 101, 108, 97, 121, 32, 112, 97, 110, 105, 99, 58, 32] + rec
  {
    assert PANIC_PREFIX == [114, 101, 108, 97, 121, 32, 112, 97, 110, 105, 99, 58, 32];
  }

  // The deferred recover: what is pending and not counted as delivered goes to retry.
  function Recovered(s: ShardState, rec: Text): ShardState
    requires s.out.delivered <= |s.pending|
  {
    s.(pc := Done, panicked := true, canceled := true,
       out := s.out.(retry := s.out.retry + PanicItems(s.pending[s.out.delivered..], rec)))
  }

  // After the check loop: nothing to send ends the shard.
  function AfterCheck(s: ShardState): ShardState {
    if s.i < |s.items| then s.(pc := Checking)
    else if s.pending == [] then s.(pc := Done)
    else s.(pc := Sending)
  }

  function AfterMark(s: ShardState): ShardState {
    if s.i < |s.pending| then s else s.(pc := Done)
  }

  function Next(s: ShardState, e: ShardEvent): ShardState
    requires Enabled(s, e)
  {
    match e
    case Skipped => s.(pc := Done)
    case Entered => AfterCheck(s.(i := 0))
    case Checked(hit) =>
      var c := s.items[s.i];
      AfterCheck(if hit then s.(i := s.i + 1, out := s.out.(sent := s.out.sent + [c.id]))
                 else s.(i := s.i + 1, pending := s.pending + [c]))
    case CheckPanicked(rec) => Recovered(s, rec)
    case SendFailed(hint, causePaused, isCanceled) =>
      var out := if hint.Some? then s.out.(pause := hint.value) else s.out;
      s.(pc := Done, canceled := true, out := out.(paused := causePaused || !isCanceled))
    case SendPanicked(rec) => Recovered(s, rec)
    case Replied(results) =>
      if |results| != |s.pending| then s.(pc := Done, canceled := true, out := s.out.(paused := true))
      else AfterMark(s.(pc := Marking, i := 0, results := results, out := s.out.(delivered := 0)))
    case Refusal =>
      AfterMark(s.(i := s.i + 1,
        out := s.out.(retry := s.out.retry + [RetryItem(s.pending[s.i], s.results[s.i].reason)])))
    case RefusalPanicked(rec) => Recovered(s, rec)
    case Marked =>
      AfterMark(s.(i := s.i + 1,
        out := s.out.(delivered := s.out.delivered + 1, sent := s.out.sent + [s.pending[s.i].id])))
    case MarkPanicked(rec) => Recovered(s, rec)
  }

  // --- what the surroundings answer, call by call ---

  datatype CheckReply = Hit | Miss | CheckPanic(rec: Text)
  datatype SendReply =
    | Results(results: seq<SendResult>)
    | SendError(hint: Option<int>, causePaused: bool, isCanceled: bool)
    | SendPanic(rec: Text)
  datatype MarkReply = MarkReturns | MarkPanic(rec: Text)

  /** One shard's surroundings: whether its context has ended on entry (shutdown, budget
      or a sibling), and the answer to each call. `send` covers the provider call and the
      reading of its error, hint included; `mark` covers the one call made for each verdict,
      marking a delivery or reading the text of a refusal. Any schedule of the sibling
      shards shows itself to this one only here. */
  datatype ShardEnv = ShardEnv(
    ended: bool,
    check: nat -> CheckReply,
    send: seq<Message> -> SendReply,
    mark: nat -> MarkReply)

  function Messages(cs: seq<Claimed>): (messages: seq<Message>)
    ensures |messages| == |cs| && forall i :: 0 <= i < |cs| ==> messages[i] == cs[i].message
  {
    if cs == [] then [] else Messages(cs[..|cs| - 1]) + [cs[|cs| - 1].message]
  }

  function NextEvent(s: ShardState, env: ShardEnv): (e: ShardEvent)
    requires Wf(s) && !s.pc.Done?
    ensures Enabled(s, e)
  {
    match s.pc
    case Entry => if env.ended then Skipped else Entered
    case Checking =>
      (match env.check(s.i) case Hit => Checked(true) case Miss => Checked(false) case CheckPanic(r) => CheckPanicked(r))
    case Sending =>
      (match env.send(Messages(s.pending))
       case Results(rs) => Replied(rs)
       case SendError(h, p, c) => SendFailed(h, p, c)
       case SendPanic(r) => SendPanicked(r))
    case Marking =>
      (match env.mark(s.i)
       case MarkReturns => if s.results[s.i].Refused? then Refusal else Marked
       case MarkPanic(r) => if s.results[s.i].Refused? then RefusalPanicked(r) else MarkPanicked(r))
  }

  function Rank(pc: Pc): nat {
    match pc case Entry => 4 case Checking => 3 case Sending => 2 case Marking => 1 case Done => 0
  }

  // The turns of its loop a shard still has to make.
  function Left(s: ShardState): nat
    requires Wf(s)
  {
    if s.pc.Checking? then |s.items| - s.i else if s.pc.Marking? then |s.pending| - s.i else 0
  }

  lemma MarkingWf(s: ShardState, e: ShardEvent)
    requires Enabled(s, e) && s.pc.Marking?
    ensures Wf(Next(s, e))
    ensures Next(s, e).pc.Done? || (Next(s, e).pc.Marking? && Left(Next(s, e)) < Left(s))
  {
    hide PanicItems;
  }

  lemma CheckingWf(s: ShardState, e: ShardEvent)
    requires Enabled(s, e) && s.pc.Checking?
    ensures Wf(Next(s, e))
    ensures Rank(Next(s, e).pc) < Rank(s.pc) || (Next(s, e).pc.Checking? && Left(Next(s, e)) < Left(s))
  {
    hide PanicItems;
  }

  lemma SendingWf(s: ShardState, e: ShardEvent)
    requires Enabled(s, e) && (s.pc.Entry? || s.pc.Sending?)
    ensures Wf(Next(s, e)) && Rank(Next(s, e).pc) < Rank(s.pc)
  {
    hide PanicItems;
  }

  lemma NextWf(s: ShardState, e: ShardEvent)
    requires Enabled(s, e)
    ensures Wf(Next(s, e))
    ensures !s.pc.Done?
    ensures Rank(Next(s, e).pc) < Rank(s.pc) ||
            (Rank(Next(s, e).pc) == Rank(s.pc) && Left(Next(s, e)) < Left(s))
  {
    hide Next, Left;
    if s.pc.Marking? {
      MarkingWf(s, e);
    } else if s.pc.Checking? {
      CheckingWf(s, e);
    } else {
      SendingWf(s, e);
    }
  }

  /** Where the shard's steps end, given its surroundings. */
  function Finished(s: ShardState, env: ShardEnv): (s': ShardState)
    requires Wf(s)
    ensures Wf(s') && s'.pc.Done?
    decreases Rank(s.pc), Left(s)
  {
    if s.pc.Done? then s else
      NextWf(s, NextEvent(s, env));
      Finished(Next(s, NextEvent(s, env)), env)
  }

  // --- where every claimed id ends up ---

  function ClaimedIds(cs: seq<Claimed>): set<int> {
    set c | c in cs :: c.id
  }

  function RetryItemIds(items: seq<RetryItem>): set<int> {
    set it | it in items :: it.claimed.id
  }

  ghost predicate DistinctIds(cs: seq<Claimed>) {
    forall i, j :: 0 <= i < j < |cs| ==> cs[i].id != cs[j].id
  }

  ghost predicate DistinctRetries(items: seq<RetryItem>) {
    forall i, j :: 0 <= i < j < |items| ==> items[i].claimed.id != items[j].claimed.id
  }

  // The first n items are split between the hits and the messages to send.
  ghost predicate Split(s: ShardState, n: nat)
    requires n <= |s.items|
  {
    && (forall j :: 0 <= j < n ==> (s.items[j] in s.pending <==> s.items[j].id !in s.out.sent))
    && (forall j :: n <= j < |s.items| ==> s.items[j] !in s.pending && s.items[j].id !in s.out.sent)
  }

  // The verdicts before the loop index are booked, the others are not.
  ghost predicate Booked(s: ShardState)
    requires |s.results| == |s.pending| && s.i <= |s.pending|
  {
    && (forall j :: 0 <= j < s.i ==>
          && (s.pending[j].id in s.out.sent <==> s.results[j].Delivered?)
          && (s.pending[j].id in RetryItemIds(s.out.retry) <==> s.results[j].Refused?))
    && (forall j :: s.i <= j < |s.pending| ==>
          s.pending[j].id !in s.out.sent && s.pending[j].id !in RetryItemIds(s.out.retry))
    && (forall it :: it in s.out.retry ==> it.claimed in s.pending)
    && DistinctRetries(s.out.retry)
  }

  ghost predicate Accounted(s: ShardState) {
    && Wf(s)
    && DistinctIds(s.items) && DistinctIds(s.pending) && NoDup(s.out.sent)
    && (forall c :: c in s.pending ==> c in s.items)
    && (forall id :: id in s.out.sent ==> id in ClaimedIds(s.items))
    && (forall it :: it in s.out.retry ==> it.claimed in s.items)
    && (!s.pc.Done? ==> !s.panicked && !s.out.paused)
    && match s.pc
       case Entry => s.pending == [] && s.out == EMPTY_OUTCOME
       case Checking => Split(s, s.i) && s.out.retry == [] && s.out.delivered == 0
       case Sending => Split(s, |s.items|) && s.out.retry == [] && s.out.delivered == 0
       case Marking => Booked(s)
       case Done =>
         && (!s.panicked ==>
               DistinctRetries(s.out.retry)
               && forall id :: id in s.out.sent ==> id !in RetryItemIds(s.out.retry))
         && (s.panicked ==>
               forall c :: c in s.pending ==> c.id in s.out.sent || c.id in RetryItemIds(s.out.retry))
         && (s.out.paused ==> s.out.retry == [] && !s.panicked)
  }

  lemma SameId(cs: seq<Claimed>, a: Claimed, b: Claimed)
    requires DistinctIds(cs) && a in cs && b in cs && a.id == b.id
    ensures a == b
  {
  }

  lemma RetryIdsAppend(items: seq<RetryItem>, it: RetryItem)
    ensures RetryItemIds(items + [it]) == RetryItemIds(items) + {it.claimed.id}
  {
    assert forall x :: x in items + [it] <==> x in items || x == it;
  }

  lemma RecoveredRetries(s: ShardState, rec: Text)
    requires Accounted(s) && (s.pc.Checking? || s.pc.Sending? || s.pc.Marking?)
    ensures forall it :: it in Recovered(s, rec).out.retry ==> it.claimed in s.items
  {
    var d := s.out.delivered;
    var more := PanicItems(s.pending[d..], rec);
    var s' := Recovered(s, rec);
    forall it | it in s'.out.retry
      ensures it.claimed in s.items
    {
      if it !in s.out.retry {
        var j :| 0 <= j < |more| && more[j] == it;
        assert it.claimed == s.pending[d + j];
        assert it.claimed in s.pending;
      }
    }
  }

  // What is counted as delivered comes before the loop index and is booked already.
  lemma RecoveredPending(s: ShardState, rec: Text, j: nat)
    requires Accounted(s) && (s.pc.Checking? || s.pc.Sending? || s.pc.Marking?)
    requires j < |s.pending|
    ensures var s' := Recovered(s, rec);
      s.pending[j].id in s.out.sent || s.pending[j].id in RetryItemIds(s'.out.retry)
  {
    var d := s.out.delivered;
    var more := PanicItems(s.pending[d..], rec);
    var s' := Recovered(s, rec);
    if j >= d {
      assert more[j - d] in s'.out.retry && more[j - d].claimed == s.pending[j];
    } else if s.pending[j].id !in s.out.sent {
      var it :| it in s.out.retry && it.claimed.id == s.pending[j].id;
      assert it in s'.out.retry;
    }
  }

  lemma RecoveredAccounted(s: ShardState, rec: Text)
    requires Accounted(s) && (s.pc.Checking? || s.pc.Sending? || s.pc.Marking?)
    ensures Accounted(Recovered(s, rec))
  {
    var s' := Recovered(s, rec);
    RecoveredRetries(s, rec);
    forall c | c in s.pending
      ensures c.id in s.out.sent || c.id in RetryItemIds(s'.out.retry)
    {
      var j :| 0 <= j < |s.pending| && s.pending[j] == c;
      RecoveredPending(s, rec, j);
    }
    hide PanicItems, Split, Booked, RetryItemIds, ClaimedIds, DistinctIds, NoDup;
  }

  lemma CheckedSplit(s: ShardState, hit: bool)
    requires Accounted(s) && s.pc.Checking?
    ensures var s' := Next(s, Checked(hit));
      Split(s', s.i + 1) && DistinctIds(s'.pending) && NoDup(s'.out.sent)
      && (forall c :: c in s'.pending ==> c in s.items)
      && (forall id :: id in s'.out.sent ==> id in ClaimedIds(s.items))
  {
    var c := s.items[s.i];
    var s' := Next(s, Checked(hit));
    assert s'.items == s.items;
    if hit {
      assert s'.pending == s.pending && s'.out.sent == s.out.sent + [c.id];
      hide Next;
      assert forall j :: 0 <= j < s.i ==> s.items[j].id != c.id;
      assert c in s.items;
    } else {
      assert s'.pending == s.pending + [c] && s'.out.sent == s.out.sent;
      hide Next;
      assert forall x :: x in s'.pending <==> x in s.pending || x == c;
      forall j | 0 <= j < |s.pending|
        ensures s.pending[j].id != c.id
      {
        assert s.pending[j] in s.pending;
        if s.pending[j].id == c.id { SameId(s.items, s.pending[j], c); }
      }
    }
  }

  lemma CheckedAccounted(s: ShardState, hit: bool)
    requires Accounted(s) && s.pc.Checking?
    ensures Accounted(Next(s, Checked(hit)))
  {
    CheckedSplit(s, hit);
    NextWf(s, Checked(hit));
    hide Split, DistinctIds, NoDup, ClaimedIds, RetryItemIds;
    assert Next(s, Checked(hit)).i == s.i + 1;
  }

  lemma MarkingBooked(s: ShardState, e: ShardEvent)
    requires Accounted(s) && s.pc.Marking? && Enabled(s, e) && (e.Refusal? || e.Marked?)
    ensures var s' := Next(s, e);
      && |s'.results| == |s'.pending| && s'.i <= |s'.pending| && Booked(s')
      && NoDup(s'.out.sent)
      && (forall id :: id in s'.out.sent ==> id in ClaimedIds(s.items))
  {
    var c := s.pending[s.i];
    var s' := Next(s, e);
    assert c in s.pending;
    assert s'.pending == s.pending && s'.results == s.results && s'.i == s.i + 1;
    assert s'.out.sent == if e.Marked? then s.out.sent + [c.id] else s.out.sent;
    if e.Refusal? {
      RetryIdsAppend(s.out.retry, RetryItem(c, s.results[s.i].reason));
      assert s'.out.retry == s.out.retry + [RetryItem(c, s.results[s.i].reason)];
    } else {
      assert s'.out.retry == s.out.retry;
    }
    hide Next;
  }

  // A shard that has booked every verdict lists no id twice.
  lemma BookedApart(s: ShardState)
    requires |s.results| == |s.pending| == s.i && Booked(s)
    ensures forall id :: id in s.out.sent ==> id !in RetryItemIds(s.out.retry)
  {
    forall it | it in s.out.retry
      ensures it.claimed.id !in s.out.sent
    {
      assert it.claimed.id in RetryItemIds(s.out.retry);
      var j :| 0 <= j < |s.pending| && s.pending[j] == it.claimed;
    }
  }

  lemma MarkingAccounted(s: ShardState, e: ShardEvent)
    requires Accounted(s) && s.pc.Marking? && Enabled(s, e) && (e.Refusal? || e.Marked?)
    ensures Accounted(Next(s, e))
  {
    var s' := Next(s, e);
    NextWf(s, e);
    MarkingBooked(s, e);
    assert s'.pc.Done? ==> s'.i == |s'.pending|;
    assert s'.items == s.items && s'.pending == s.pending && !s'.panicked && !s'.out.paused;
    if s'.pc.Done? {
      BookedApart(s');
    }
    assert DistinctRetries(s'.out.retry);
    assert forall it :: it in s'.out.retry ==> it.claimed in s'.items;
    hide Next, Booked, NoDup, DistinctIds, RetryItemIds, ClaimedIds, DistinctRetries;
  }

  lemma EnteredAccounted(s: ShardState, e: ShardEvent)
    requires Accounted(s) && Enabled(s, e) && s.pc.Entry?
    ensures Accounted(Next(s, e))
  {
    NextWf(s, e);
  }

  lemma AnsweredAccounted(s: ShardState, e: ShardEvent)
    requires Accounted(s) && Enabled(s, e) && (e.SendFailed? || e.Replied?)
    ensures Accounted(Next(s, e))
  {
    NextWf(s, e);
    forall j | 0 <= j < |s.pending|
      ensures s.pending[j].id !in s.out.sent
    {
      assert s.pending[j] in s.pending;
    }
  }

  lemma NextAccounted(s: ShardState, e: ShardEvent)
    requires Accounted(s) && Enabled(s, e)
    ensures Accounted(Next(s, e))
  {
    hide Accounted, Recovered;
    match e
    case Checked(hit) => CheckedAccounted(s, hit);
    case CheckPanicked(rec) => RecoveredAccounted(s, rec);
    case SendPanicked(rec) => RecoveredAccounted(s, rec);
    case MarkPanicked(rec) => RecoveredAccounted(s, rec);
    case RefusalPanicked(rec) => RecoveredAccounted(s, rec);
    case Refusal => MarkingAccounted(s, e);
    case Marked => MarkingAccounted(s, e);
    case Entered => EnteredAccounted(s, e);
    case Skipped => EnteredAccounted(s, e);
    case SendFailed(_, _, _) => AnsweredAccounted(s, e);
    case Replied(_) => AnsweredAccounted(s, e);
  }

  lemma {:induction false} FinishedAccounted(s: ShardState, env: ShardEnv)
    requires Accounted(s)
    ensures Accounted(Finished(s, env)) && Finished(s, env).items == s.items
    decreases Rank(s.pc), Left(s)
  {
    hide Split, Booked, DistinctIds, DistinctRetries, NoDup, PanicItems, ClaimedIds, RetryItemIds, Messages;
    if !s.pc.Done? {
      var e := NextEvent(s, env);
      NextWf(s, e);
      NextAccounted(s, e);
      FinishedAccounted(Next(s, e), env);
    }
  }

  /** Every claimed id is accounted for, whatever the surroundings do. Without a panic no
      id is in two places and none is listed twice: it is sent, to be retried, or
      untouched. After a panic every message that was to be sent is still sent or to be
      retried. A shard that pauses the relay spends no attempt. */
  lemma ShardAccounting(items: seq<Claimed>, env: ShardEnv)
    requires DistinctIds(items)
    ensures var f := Finished(Start(items), env);
      && NoDup(f.out.sent)
      && (forall id :: id in f.out.sent ==> id in ClaimedIds(items))
      && (forall it :: it in f.out.retry ==> it.claimed in items)
      && (!f.panicked ==> DistinctRetries(f.out.retry))
      && (!f.panicked ==> forall id :: id in f.out.sent ==> id !in RetryItemIds(f.out.retry))
      && (f.panicked ==>
            forall c :: c in f.pending ==> c.id in f.out.sent || c.id in RetryItemIds(f.out.retry))
      && (f.out.paused ==> f.out.retry == [])
  {
    FinishedAccounted(Start(items), env);
  }

  // --- the method with loops ---

  // The state at the top of the check loop, and past it.
  function CheckAt(shard: seq<Claimed>, i: nat, pending: seq<Claimed>, out: ShardOutcome): ShardState {
    AfterCheck(ShardState(Checking, shard, i, pending, [], out, false, false))
  }

  // The state at the top of the mark loop, and past it.
  function MarkAt(shard: seq<Claimed>, i: nat, pending: seq<Claimed>, results: seq<SendResult>, out: ShardOutcome): ShardState {
    AfterMark(ShardState(Marking, shard, i, pending, results, out, false, false))
  }

  lemma FinishedStep(s: ShardState, env: ShardEnv)
    requires Wf(s) && !s.pc.Done?
    ensures Wf(Next(s, NextEvent(s, env))) && Finished(s, env) == Finished(Next(s, NextEvent(s, env)), env)
  {
    NextWf(s, NextEvent(s, env));
  }

  // A loop that has run out ends the shard where it stands.
  lemma LoopsEnd(shard: seq<Claimed>, pending: seq<Claimed>, results: seq<SendResult>, out: ShardOutcome, env: ShardEnv)
    requires out.delivered <= |pending|
    ensures pending == [] ==> Finished(CheckAt(shard, |shard|, [], out), env).out == out
                              && !Finished(CheckAt(shard, |shard|, [], out), env).canceled
    ensures Finished(MarkAt(shard, |pending|, pending, results, out), env).out == out
            && !Finished(MarkAt(shard, |pending|, pending, results, out), env).canceled
  {
  }

  lemma EntryStep(shard: seq<Claimed>, env: ShardEnv)
    ensures env.ended ==> Finished(Start(shard), env).out == EMPTY_OUTCOME && !Finished(Start(shard), env).canceled
    ensures !env.ended ==> Wf(CheckAt(shard, 0, [], EMPTY_OUTCOME))
                           && Finished(Start(shard), env) == Finished(CheckAt(shard, 0, [], EMPTY_OUTCOME), env)
  {
    FinishedStep(Start(shard), env);
  }

  lemma CheckStep(shard: seq<Claimed>, i: nat, pending: seq<Claimed>, out: ShardOutcome, env: ShardEnv)
    requires i < |shard| && out.delivered == 0
    ensures var f := Finished(CheckAt(shard, i, pending, out), env);
      match env.check(i)
      case Hit =>
        var s' := CheckAt(shard, i + 1, pending, out.(sent := out.sent + [shard[i].id]));
        Wf(s') && f == Finished(s', env)
      case Miss =>
        var s' := CheckAt(shard, i + 1, pending + [shard[i]], out);
        Wf(s') && f == Finished(s', env)
      case CheckPanic(rec) =>
        f.canceled && f.out == out.(retry := out.retry + PanicItems(pending[out.delivered..], rec))
  {
    hide Finished, PanicItems, Messages;
    if env.check(i).CheckPanic? {
      CheckPanicStep(shard, i, pending, out, env);
    } else {
      FinishedStep(CheckAt(shard, i, pending, out), env);
    }
  }

  lemma CheckPanicStep(shard: seq<Claimed>, i: nat, pending: seq<Claimed>, out: ShardOutcome, env: ShardEnv)
    requires i < |shard| && out.delivered == 0 && env.check(i).CheckPanic?
    ensures var f := Finished(CheckAt(shard, i, pending, out), env);
      f.canceled && f.out == out.(retry := out.retry + PanicItems(pending[out.delivered..], env.check(i).rec))
  {
    hide Finished, PanicItems, Messages;
    var at := CheckAt(shard, i, pending, out);
    FinishedStep(at, env);
    FinishedDone(Next(at, NextEvent(at, env)), env);
  }

  lemma SendStep(shard: seq<Claimed>, pending: seq<Claimed>, out: ShardOutcome, env: ShardEnv)
    requires pending != [] && out.delivered == 0
    ensures SendEnds(shard, pending, out, env, Finished(CheckAt(shard, |shard|, pending, out), env))
  {
    FinishedStep(CheckAt(shard, |shard|, pending, out), env);
  }

  // How the shard ends, told from the provider's reply.
  ghost predicate SendEnds(shard: seq<Claimed>, pending: seq<Claimed>, out: ShardOutcome, env: ShardEnv, f: ShardState)
    requires out.delivered == 0
  {
    var reply := env.send(Messages(pending));
    if reply.SendPanic? then
      f.canceled && f.out == out.(retry := out.retry + PanicItems(pending, reply.rec))
    else if reply.SendError? then
      f.canceled && f.out == out.(pause := if reply.hint.Some? then reply.hint.value else out.pause,
                                  paused := reply.causePaused || !reply.isCanceled)
    else if |reply.results| != |pending| then
      f.canceled && f.out == out.(paused := true)
    else
      Wf(MarkAt(shard, 0, pending, reply.results, out))
      && f == Finished(MarkAt(shard, 0, pending, reply.results, out), env)
  }

  // The outcome with one more verdict booked.
  function Judged(out: ShardOutcome, c: Claimed, result: SendResult): ShardOutcome {
    match result
    case Refused(reason) => out.(retry := out.retry + [RetryItem(c, reason)])
    case Delivered => out.(delivered := out.delivered + 1, sent := out.sent + [c.id])
  }

  lemma MarkStep(shard: seq<Claimed>, i: nat, pending: seq<Claimed>, results: seq<SendResult>, out: ShardOutcome, env: ShardEnv)
    requires i < |pending| == |results| && out.delivered <= i
    ensures var f := Finished(MarkAt(shard, i, pending, results, out), env);
      match env.mark(i)
      case MarkReturns =>
        var s' := MarkAt(shard, i + 1, pending, results, Judged(out, pending[i], results[i]));
        Wf(s') && f == Finished(s', env)
      case MarkPanic(rec) =>
        f.canceled && f.out == out.(retry := out.retry + PanicItems(pending[out.delivered..], rec))
  {
    hide PanicItems, Messages;
    var at := MarkAt(shard, i, pending, results, out);
    assert Wf(at) && at.pc.Marking?;
    FinishedStep(at, env);
    hide Finished;
    if env.mark(i).MarkPanic? {
      FinishedDone(Next(at, NextEvent(at, env)), env);
    }
  }

  lemma FinishedDone(s: ShardState, env: ShardEnv)
    requires Wf(s) && s.pc.Done?
    ensures Finished(s, env) == s
  {
  }

  // --- what the answers decide ---

  /** The ids among the first n items whose mark was found, in order. */
  function HitIds(items: seq<Claimed>, env: ShardEnv, n: nat): seq<int>
    requires n <= |items|
  {
    if n == 0 then [] else
      HitIds(items, env, n - 1) + (if env.check(n - 1).Hit? then [items[n - 1].id] else [])
  }

  /** The others, in order: what there is to send. */
  function Misses(items: seq<Claimed>, env: ShardEnv, n: nat): (pending: seq<Claimed>)
    requires n <= |items|
    ensures |pending| <= n
  {
    if n == 0 then [] else
      Misses(items, env, n - 1) + (if env.check(n - 1).Hit? then [] else [items[n - 1]])
  }

  function DeliveredIds(pending: seq<Claimed>, results: seq<SendResult>, n: nat): (ids: seq<int>)
    requires n <= |pending| && n <= |results|
    ensures |ids| <= n
  {
    if n == 0 then [] else
      DeliveredIds(pending, results, n - 1) + (if results[n - 1].Delivered? then [pending[n - 1].id] else [])
  }

  function RefusedItems(pending: seq<Claimed>, results: seq<SendResult>, n: nat): seq<RetryItem>
    requires n <= |pending| && n <= |results|
  {
    if n == 0 then [] else
      RefusedItems(pending, results, n - 1) +
      (if results[n - 1].Refused? then [RetryItem(pending[n - 1], results[n - 1].reason)] else [])
  }

  /** The marked ids are the ones whose check found a mark; the others are to be sent. */
  lemma {:induction false} ChecksSay(items: seq<Claimed>, env: ShardEnv, n: nat)
    requires n <= |items|
    ensures forall id :: id in HitIds(items, env, n) <==> exists j: nat :: j < n && env.check(j).Hit? && items[j].id == id
    ensures forall c :: c in Misses(items, env, n) <==> exists j: nat :: j < n && !env.check(j).Hit? && items[j] == c
  {
    if n > 0 {
      ChecksSay(items, env, n - 1);
    }
  }

  /** The provider's verdict on each message decides its list, and the reason it is given. */
  lemma {:induction false} VerdictsSay(pending: seq<Claimed>, results: seq<SendResult>, n: nat)
    requires n <= |pending| && n <= |results|
    ensures forall id :: id in DeliveredIds(pending, results, n) <==>
      exists j: nat :: j < n && results[j].Delivered? && pending[j].id == id
    ensures forall it :: it in RefusedItems(pending, results, n) <==>
      exists j: nat :: j < n && results[j].Refused? && it == RetryItem(pending[j], results[j].reason)
  {
    if n > 0 {
      VerdictsSay(pending, results, n - 1);
    }
  }

  predicate ChecksReturn(env: ShardEnv, n: nat) {
    forall j: nat :: j < n ==> !env.check(j).CheckPanic?
  }

  predicate MarksReturn(env: ShardEnv, n: nat) {
    forall j: nat :: j < n ==> env.mark(j).MarkReturns?
  }

  // The outcome after n checks, and after n verdicts.
  function CheckedOut(items: seq<Claimed>, env: ShardEnv, n: nat): ShardOutcome
    requires n <= |items|
  {
    EMPTY_OUTCOME.(sent := HitIds(items, env, n))
  }

  function JudgedOut(out: ShardOutcome, pending: seq<Claimed>, results: seq<SendResult>, n: nat): ShardOutcome
    requires n <= |pending| == |results|
  {
    out.(sent := out.sent + DeliveredIds(pending, results, n),
         retry := out.retry + RefusedItems(pending, results, n),
         delivered := |DeliveredIds(pending, results, n)|)
  }

  lemma {:induction false} ChecksGoTo(items: seq<Claimed>, env: ShardEnv, n: nat)
    requires n <= |items| && ChecksReturn(env, n) && !env.ended
    ensures var at := CheckAt(items, n, Misses(items, env, n), CheckedOut(items, env, n));
      Wf(at) && Finished(Start(items), env) == Finished(at, env)
  {
    hide Finished, CheckAt, Wf, Start;
    if n == 0 {
      EntryStep(items, env);
    } else {
      ChecksGoTo(items, env, n - 1);
      CheckStep(items, n - 1, Misses(items, env, n - 1), CheckedOut(items, env, n - 1), env);
      if !env.check(n - 1).Hit? {
        assert HitIds(items, env, n) == HitIds(items, env, n - 1);
      } else {
        assert Misses(items, env, n) == Misses(items, env, n - 1);
      }
    }
  }

  lemma JudgedNext(out: ShardOutcome, pending: seq<Claimed>, results: seq<SendResult>, n: nat)
    requires 0 < n <= |pending| == |results|
    ensures JudgedOut(out, pending, results, n) == Judged(JudgedOut(out, pending, results, n - 1), pending[n - 1], results[n - 1])
  {
    var ids, items := DeliveredIds(pending, results, n - 1), RefusedItems(pending, results, n - 1);
    if results[n - 1].Delivered? {
      assert RefusedItems(pending, results, n) == items;
      assert (out.sent + ids) + [pending[n - 1].id] == out.sent + (ids + [pending[n - 1].id]);
    } else {
      assert DeliveredIds(pending, results, n) == ids;
      var it := RetryItem(pending[n - 1], results[n - 1].reason);
      assert (out.retry + items) + [it] == out.retry + (items + [it]);
    }
  }

  lemma {:induction false} MarksGoTo(items: seq<Claimed>, pending: seq<Claimed>, results: seq<SendResult>,
                                     out: ShardOutcome, env: ShardEnv, n: nat)
    requires n <= |pending| == |results| && out.delivered == 0 && MarksReturn(env, n)
    requires Wf(MarkAt(items, 0, pending, results, out))
    ensures var at := MarkAt(items, n, pending, results, JudgedOut(out, pending, results, n));
      Wf(at) && Finished(MarkAt(items, 0, pending, results, out), env) == Finished(at, env)
  {
    hide Finished, MarkAt, Wf, Judged;
    if n == 0 {
      assert out.sent + [] == out.sent && out.retry + [] == out.retry;
    } else {
      MarksGoTo(items, pending, results, out, env, n - 1);
      JudgedNext(out, pending, results, n);
      MarkStep(items, n - 1, pending, results, JudgedOut(out, pending, results, n - 1), env);
    }
  }

  /** A panic during check n: what is found already is sent, what would have been sent is
      to be retried, the rest of the shard is not touched. */
  lemma CheckPanicDecides(items: seq<Claimed>, env: ShardEnv, n: nat)
    requires !env.ended && n < |items| && ChecksReturn(env, n) && env.check(n).CheckPanic?
    ensures var f := Finished(Start(items), env);
      && f.canceled
      && f.out == CheckedOut(items, env, n).(retry := PanicItems(Misses(items, env, n), env.check(n).rec))
  {
    hide Finished, CheckAt, PanicItems, Wf, Start;
    ChecksGoTo(items, env, n);
    var pending := Misses(items, env, n);
    CheckStep(items, n, pending, CheckedOut(items, env, n), env);
    assert pending[0..] == pending;
    assert [] + PanicItems(pending, env.check(n).rec) == PanicItems(pending, env.check(n).rec);
  }

  /** Without a panic during the checks: the ids found marked are sent, and the provider's
      answer decides all the others, which go in one call, in order. */
  predicate Decided(items: seq<Claimed>, env: ShardEnv, f: ShardState) {
    var hits, pending := CheckedOut(items, env, |items|), Misses(items, env, |items|);
    if pending == [] then f.out == hits && !f.canceled else
      var reply := env.send(Messages(pending));
      match reply
      case SendPanic(rec) =>
        f.canceled && f.out == hits.(retry := PanicItems(pending, rec))
      case SendError(hint, causePaused, isCanceled) =>
        f.canceled && f.out == hits.(pause := if hint.Some? then hint.value else 0, paused := causePaused || !isCanceled)
      case Results(results) =>
        if |results| != |pending| then f.canceled && f.out == hits.(paused := true)
        else Judges(hits, pending, results, env, f)
  }

  /** The verdicts up to the first panic, if there is one, are booked: delivered ids are
      sent, refused ones to be retried with their reasons. A panic adds everything from the
      delivered-th message on to the retries. */
  predicate Judges(hits: ShardOutcome, pending: seq<Claimed>, results: seq<SendResult>, env: ShardEnv, f: ShardState)
    requires |results| == |pending|
  {
    && (MarksReturn(env, |pending|) ==> !f.canceled && f.out == JudgedOut(hits, pending, results, |pending|))
    && (forall n: nat :: n < |pending| && MarksReturn(env, n) && env.mark(n).MarkPanic? ==>
          PanicAt(hits, pending, results, env, f, n))
  }

  predicate PanicAt(hits: ShardOutcome, pending: seq<Claimed>, results: seq<SendResult>, env: ShardEnv, f: ShardState, n: nat)
    requires n < |pending| == |results| && env.mark(n).MarkPanic?
  {
    var booked := JudgedOut(hits, pending, results, n);
    f.canceled && f.out == booked.(retry := booked.retry + PanicItems(pending[booked.delivered..], env.mark(n).rec))
  }

  lemma MarksDecide(items: seq<Claimed>, pending: seq<Claimed>, results: seq<SendResult>, hits: ShardOutcome, env: ShardEnv)
    requires |results| == |pending| && hits.delivered == 0 && Wf(MarkAt(items, 0, pending, results, hits))
    ensures Judges(hits, pending, results, env, Finished(MarkAt(items, 0, pending, results, hits), env))
  {
    hide Finished, MarkAt, PanicItems, Wf;
    var f := Finished(MarkAt(items, 0, pending, results, hits), env);
    if MarksReturn(env, |pending|) {
      MarksGoTo(items, pending, results, hits, env, |pending|);
      LoopsEnd(items, pending, results, JudgedOut(hits, pending, results, |pending|), env);
    }
    forall n: nat | n < |pending| && MarksReturn(env, n) && env.mark(n).MarkPanic?
      ensures PanicAt(hits, pending, results, env, f, n)
    {
      MarksGoTo(items, pending, results, hits, env, n);
      MarkStep(items, n, pending, results, JudgedOut(hits, pending, results, n), env);
    }
  }

  /** Which list each claimed message ends on, for every answer of the surroundings: a
      skipped shard touches nothing, and else Decided or CheckPanicDecides says. */
  lemma ShardDecides(items: seq<Claimed>, env: ShardEnv)
    ensures env.ended ==> Finished(Start(items), env).out == EMPTY_OUTCOME
    ensures !env.ended && ChecksReturn(env, |items|) ==> Decided(items, env, Finished(Start(items), env))
  {
    hide Finished, CheckAt, MarkAt, PanicItems, Wf, Start, Judges, HitIds, Misses;
    if env.ended {
      EntryStep(items, env);
    } else if ChecksReturn(env, |items|) {
      var hits, pending := CheckedOut(items, env, |items|), Misses(items, env, |items|);
      ChecksGoTo(items, env, |items|);
      if pending == [] {
        LoopsEnd(items, [], [], hits, env);
      } else {
        SendStep(items, pending, hits, env);
        var reply := env.send(Messages(pending));
        if reply.Results? && |reply.results| == |pending| {
          MarksDecide(items, pending, reply.results, hits, env);
        }
      }
    }
  }

  lemma {:induction false} HitOrMiss(items: seq<Claimed>, env: ShardEnv, n: nat)
    requires n <= |items|
    ensures forall j :: 0 <= j < n ==> items[j].id in HitIds(items, env, n) || items[j] in Misses(items, env, n)
  {
    if n > 0 {
      HitOrMiss(items, env, n - 1);
    }
  }

  lemma {:induction false} SentOrRefused(pending: seq<Claimed>, results: seq<SendResult>, n: nat)
    requires n <= |pending| == |results|
    ensures forall j :: 0 <= j < n ==>
      pending[j].id in DeliveredIds(pending, results, n) || pending[j].id in RetryItemIds(RefusedItems(pending, results, n))
  {
    if n > 0 {
      SentOrRefused(pending, results, n - 1);
      if results[n - 1].Refused? {
        RetryIdsAppend(RefusedItems(pending, results, n - 1), RetryItem(pending[n - 1], results[n - 1].reason));
      }
    }
  }

  /** Nothing failed: no panic, and an answer for each message that was sent. */
  predicate Smooth(items: seq<Claimed>, env: ShardEnv) {
    var pending := Misses(items, env, |items|);
    && !env.ended && ChecksReturn(env, |items|)
    && (pending != [] ==>
          var reply := env.send(Messages(pending));
          reply.Results? && |reply.results| == |pending| && MarksReturn(env, |pending|))
  }

  /** Then every message of the shard is sent or to be retried, never both; whenever the
      call failed or was skipped, ShardDecides leaves all but the marked ones untouched. */
  lemma ExactlyOnePlace(items: seq<Claimed>, env: ShardEnv)
    requires DistinctIds(items) && Smooth(items, env)
    ensures var f := Finished(Start(items), env);
      && !f.panicked
      && forall c :: c in items ==> (c.id in f.out.sent <==> c.id !in RetryItemIds(f.out.retry))
  {
    hide Finished, HitIds, Misses, DeliveredIds, RefusedItems;
    var f := Finished(Start(items), env);
    var n, pending := |items|, Misses(items, env, |items|);
    ShardDecides(items, env);
    SmoothEnds(items, env);
    ShardAccounting(items, env);
    HitOrMiss(items, env, n);
    if pending != [] {
      SentOrRefused(pending, env.send(Messages(pending)).results, |pending|);
    }
    forall c | c in items
      ensures c.id in f.out.sent || c.id in RetryItemIds(f.out.retry)
    {
      var j :| 0 <= j < n && items[j] == c;
      if c.id !in HitIds(items, env, n) {
        var k :| 0 <= k < |pending| && pending[k] == c;
      }
    }
  }

  lemma SmoothEnds(items: seq<Claimed>, env: ShardEnv)
    requires Smooth(items, env)
    ensures !Finished(Start(items), env).panicked
  {
    hide Finished, CheckAt, MarkAt, PanicItems, Wf, Start, HitIds, Misses;
    var hits, pending := CheckedOut(items, env, |items|), Misses(items, env, |items|);
    ChecksGoTo(items, env, |items|);
    if pending == [] {
      NoPanicAtEnd(items, [], [], hits, env);
    } else {
      SendStep(items, pending, hits, env);
      var results := env.send(Messages(pending)).results;
      MarksGoTo(items, pending, results, hits, env, |pending|);
      NoPanicAtEnd(items, pending, results, JudgedOut(hits, pending, results, |pending|), env);
    }
  }

  lemma NoPanicAtEnd(items: seq<Claimed>, pending: seq<Claimed>, results: seq<SendResult>, out: ShardOutcome, env: ShardEnv)
    requires out.delivered <= |pending|
    ensures pending == [] ==> !Finished(CheckAt(items, |items|, [], out), env).panicked
    ensures !Finished(MarkAt(items, |pending|, pending, results, out), env).panicked
  {
  }

  lemma MessagesAppend(cs: seq<Claimed>, c: Claimed)
    ensures Messages(cs + [c]) == Messages(cs) + [c.message]
  {
    assert (cs + [c])[..|cs|] == cs;
  }

  // The loop stands before check i on the way to where the shard ends.
  ghost predicate Checks(shard: seq<Claimed>, i: nat, pending: seq<Claimed>, out: ShardOutcome, env: ShardEnv, goal: ShardState) {
    && out.delivered == 0 && !out.paused
    && Wf(CheckAt(shard, i, pending, out)) && Finished(CheckAt(shard, i, pending, out), env) == goal
  }

  lemma CheckTurn(shard: seq<Claimed>, i: nat, pending: seq<Claimed>, out: ShardOutcome, env: ShardEnv, goal: ShardState)
    requires i < |shard| && Checks(shard, i, pending, out, env, goal)
    ensures env.check(i).CheckPanic? ==>
      goal.canceled && goal.out == out.(retry := out.retry + PanicItems(pending, env.check(i).rec))
    ensures env.check(i).Hit? ==> Checks(shard, i + 1, pending, out.(sent := out.sent + [shard[i].id]), env, goal)
    ensures env.check(i).Miss? ==> Checks(shard, i + 1, pending + [shard[i]], out, env, goal)
  {
    hide Finished, CheckAt, PanicItems, Wf;
    CheckStep(shard, i, pending, out, env);
    assert pending[0..] == pending;
  }

  lemma ChecksBegin(shard: seq<Claimed>, env: ShardEnv)
    ensures !env.ended ==> Checks(shard, 0, [], EMPTY_OUTCOME, env, Finished(Start(shard), env))
    ensures env.ended ==> Finished(Start(shard), env).out == EMPTY_OUTCOME && !Finished(Start(shard), env).canceled
  {
    hide Finished, CheckAt, Wf, Start;
    EntryStep(shard, env);
  }

  lemma ChecksEnd(shard: seq<Claimed>, pending: seq<Claimed>, out: ShardOutcome, env: ShardEnv, goal: ShardState)
    requires Checks(shard, |shard|, pending, out, env, goal)
    ensures out.delivered == 0 && !out.paused
    ensures Wf(CheckAt(shard, |shard|, pending, out)) && Finished(CheckAt(shard, |shard|, pending, out), env) == goal
    ensures pending == [] ==> goal.out == out && !goal.canceled
  {
    hide Finished, CheckAt, Wf;
    LoopsEnd(shard, pending, [], out, env);
  }

  /** processShard: `canceled` says whether it stopped its siblings. */
  method ProcessShard(shard: seq<Claimed>, env: ShardEnv) returns (out: ShardOutcome, canceled: bool)
    ensures out == Finished(Start(shard), env).out
    ensures canceled == Finished(Start(shard), env).canceled
  {
    ghost var goal := Finished(Start(shard), env);
    hide Finished, CheckAt, Checks, PanicItems, Wf, Start, Messages;
    out, canceled := EMPTY_OUTCOME, false;
    ChecksBegin(shard, env);
    if env.ended {
      return;
    }
    var pending: seq<Claimed> := [];
    var msgs: seq<Message> := [];
    var i := 0;
    while i < |shard|
      invariant 0 <= i <= |shard| && out.delivered == 0 && Checks(shard, i, pending, out, env, goal)
      invariant msgs == Messages(pending)
    {
      CheckTurn(shard, i, pending, out, env, goal);
      match env.check(i) {
        case CheckPanic(rec) =>
          assert pending[0..] == pending;
          out := out.(retry := out.retry + PanicItems(pending[out.delivered..], rec));
          return out, true;
        case Hit =>
          out := out.(sent := out.sent + [shard[i].id]);
        case Miss =>
          MessagesAppend(pending, shard[i]);
          pending := pending + [shard[i]];
          msgs := msgs + [shard[i].message];
      }
      i := i + 1;
    }
    ChecksEnd(shard, pending, out, env, goal);
    if |msgs| == 0 {
      return;
    }
    out, canceled := SendPending(shard, pending, msgs, out, env);
  }

  // The middle phase: the one call to the provider.
  method SendPending(ghost shard: seq<Claimed>, pending: seq<Claimed>, msgs: seq<Message>, out0: ShardOutcome, env: ShardEnv)
    returns (out: ShardOutcome, canceled: bool)
    requires pending != [] && msgs == Messages(pending) && out0.delivered == 0 && !out0.paused
    requires Wf(CheckAt(shard, |shard|, pending, out0))
    ensures out == Finished(CheckAt(shard, |shard|, pending, out0), env).out
    ensures canceled == Finished(CheckAt(shard, |shard|, pending, out0), env).canceled
  {
    hide Finished, CheckAt, MarkAt, PanicItems, Wf, Next, NextEvent, Messages;
    out, canceled := out0, false;
    SendStep(shard, pending, out, env);
    var reply := env.send(msgs);
    if reply.SendPanic? {
      out := out.(retry := out.retry + PanicItems(pending[out.delivered..], reply.rec));
      return out, true;
    }
    if reply.SendError? {
      if reply.hint.Some? {
        out := out.(pause := reply.hint.value);
      }
      if !reply.causePaused && reply.isCanceled {
        return out, true;
      }
      return out.(paused := true), true;
    }
    var results := reply.results;
    if |results| != |msgs| {
      return out.(paused := true), true;
    }
    out, canceled := MarkDelivered(shard, pending, results, out, env);
  }

  // The last phase, once the provider has answered for each message.
  method MarkDelivered(ghost shard: seq<Claimed>, pending: seq<Claimed>, results: seq<SendResult>, out0: ShardOutcome, env: ShardEnv)
    returns (out: ShardOutcome, canceled: bool)
    requires |pending| == |results| && out0.delivered == 0
    requires Wf(MarkAt(shard, 0, pending, results, out0))
    ensures out == Finished(MarkAt(shard, 0, pending, results, out0), env).out
    ensures canceled == Finished(MarkAt(shard, 0, pending, results, out0), env).canceled
  {
    hide Finished, MarkAt, PanicItems, Wf, Next, NextEvent;
    ghost var goal := Finished(MarkAt(shard, 0, pending, results, out0), env);
    out, canceled := out0, false;
    var i := 0;
    while i < |pending|
      invariant 0 <= i <= |pending| == |results| && out.delivered <= i
      invariant Wf(MarkAt(shard, i, pending, results, out)) && Finished(MarkAt(shard, i, pending, results, out), env) == goal
    {
      MarkStep(shard, i, pending, results, out, env);
      match env.mark(i) {
        case MarkPanic(rec) =>
          out := out.(retry := out.retry + PanicItems(pending[out.delivered..], rec));
          return out, true;
        case MarkReturns =>
          if results[i].Refused? {
            out := out.(retry := out.retry + [RetryItem(pending[i], results[i].reason)]);
          } else {
            out := out.(delivered := out.delivered + 1, sent := out.sent + [pending[i].id]);
          }
      }
      i := i + 1;
    }
    LoopsEnd(shard, pending, results, out, env);
  }
}
