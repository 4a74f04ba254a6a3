/** The relay's tick: claim, run the shards, collect their outcomes, settle in one
    transaction, and back away from a provider that is down. */
module Relay {
  import opened Prelude
  import opened Utf8
  import opened Outbox
  import opened OutboxStore
  import opened Sharding
  import opened RetryDelay
  import opened Shard

  datatype Settlement = Settlement(
    sent: seq<int>, reschedule: seq<Retry>, fail: seq<Failure>, pause: int, delivered: nat, paused: bool)

  // --- what the shards' outcomes add up to ---

  function AllSent(outs: seq<ShardOutcome>): seq<int> {
    if outs == [] then [] else AllSent(outs[..|outs| - 1]) + outs[|outs| - 1].sent
  }

  function AllRetry(outs: seq<ShardOutcome>): seq<RetryItem> {
    if outs == [] then [] else AllRetry(outs[..|outs| - 1]) + outs[|outs| - 1].retry
  }

  function AllDelivered(outs: seq<ShardOutcome>): nat {
    if outs == [] then 0 else AllDelivered(outs[..|outs| - 1]) + outs[|outs| - 1].delivered
  }

  predicate AnyPaused(outs: seq<ShardOutcome>) {
    outs != [] && (AnyPaused(outs[..|outs| - 1]) || outs[|outs| - 1].paused)
  }

  /** The longest pause a paused shard asks for, 0 when none asks. */
  function LongestPause(outs: seq<ShardOutcome>): int {
    if outs == [] then 0
    else
      var p, o := LongestPause(outs[..|outs| - 1]), outs[|outs| - 1];
      if o.paused && o.pause > p then o.pause else p
  }

  predicate Exhausted(it: RetryItem, maxAttempts: int) {
    it.claimed.attempts + 1 >= maxAttempts
  }

  function Fails(items: seq<RetryItem>, maxAttempts: int): seq<Failure> {
    if items == [] then []
    else
      var it, before := items[|items| - 1], Fails(items[..|items| - 1], maxAttempts);
      if Exhausted(it, maxAttempts) then before + [Failure(it.reason, it.claimed.id)] else before
  }

  // The k-th delay to be jittered takes the k-th draw.
  function Retries(items: seq<RetryItem>, maxAttempts: int, draw: nat -> Unit): seq<Retry> {
    if items == [] then []
    else
      var it, before := items[|items| - 1], Retries(items[..|items| - 1], maxAttempts, draw);
      if Exhausted(it, maxAttempts) then before
      else before + [Retry(it.reason, Backoff(it.claimed.attempts + 1, draw(|before|)), it.claimed.id)]
  }

  function Collected(outs: seq<ShardOutcome>, maxAttempts: int, draw: nat -> Unit): Settlement {
    var items := AllRetry(outs);
    Settlement(AllSent(outs), Retries(items, maxAttempts, draw), Fails(items, maxAttempts),
               LongestPause(outs), AllDelivered(outs), AnyPaused(outs))
  }

  /** The relay is to pause when a shard asks for it, and never otherwise; for as long as
      the longest request, of which a request for less than nothing is none. */
  lemma {:induction false} PauseIsAsked(outs: seq<ShardOutcome>)
    ensures AnyPaused(outs) <==> exists k :: 0 <= k < |outs| && outs[k].paused
    ensures LongestPause(outs) >= 0
    ensures forall k :: 0 <= k < |outs| && outs[k].paused ==> outs[k].pause <= LongestPause(outs)
    ensures LongestPause(outs) > 0 ==> exists k :: 0 <= k < |outs| && outs[k].paused && outs[k].pause == LongestPause(outs)
  {
    if outs != [] {
      var n := |outs| - 1;
      PauseIsAsked(outs[..n]);
      if k :| 0 <= k < n && outs[..n][k].paused {
        assert outs[k].paused;
      }
      if k :| 0 <= k < |outs| && outs[k].paused {
        assert k < n ==> outs[..n][k].paused;
      }
      if LongestPause(outs) == LongestPause(outs[..n]) && LongestPause(outs) > 0 {
        var k :| 0 <= k < n && outs[..n][k].paused && outs[..n][k].pause == LongestPause(outs[..n]);
        assert outs[k].paused;
      }
      forall k | 0 <= k < |outs| && outs[k].paused
        ensures outs[k].pause <= LongestPause(outs)
      {
        assert k < n ==> outs[..n][k] == outs[k];
      }
    }
  }

  /** What is counted as delivered is the sum over the shards. */
  lemma {:induction false} DeliveredAdds(a: seq<ShardOutcome>, b: seq<ShardOutcome>)
    ensures AllDelivered(a + b) == AllDelivered(a) + AllDelivered(b)
    ensures |b| == 1 ==> AllDelivered(b) == b[0].delivered
    decreases |b|
  {
    if b == [] {
      assert a + b == a;
    } else {
      var n := |b| - 1;
      assert (a + b)[..|a| + n] == a + b[..n];
      DeliveredAdds(a, b[..n]);
    }
  }

  // One more outcome.
  lemma CollectStep(outs: seq<ShardOutcome>, k: nat)
    requires k < |outs|
    ensures AllSent(outs[..k + 1]) == AllSent(outs[..k]) + outs[k].sent
    ensures AllRetry(outs[..k + 1]) == AllRetry(outs[..k]) + outs[k].retry
    ensures AllDelivered(outs[..k + 1]) == AllDelivered(outs[..k]) + outs[k].delivered
    ensures AnyPaused(outs[..k + 1]) == (AnyPaused(outs[..k]) || outs[k].paused)
    ensures LongestPause(outs[..k + 1]) ==
            if outs[k].paused && outs[k].pause > LongestPause(outs[..k]) then outs[k].pause else LongestPause(outs[..k])
  {
    assert outs[..k + 1][..k] == outs[..k];
  }

  // One more message to retry.
  lemma RetryStep(items: seq<RetryItem>, it: RetryItem, maxAttempts: int, draw: nat -> Unit)
    ensures var before := Retries(items, maxAttempts, draw);
      Retries(items + [it], maxAttempts, draw) ==
      if Exhausted(it, maxAttempts) then before
      else before + [Retry(it.reason, Backoff(it.claimed.attempts + 1, draw(|before|)), it.claimed.id)]
    ensures Fails(items + [it], maxAttempts) ==
      if Exhausted(it, maxAttempts) then Fails(items, maxAttempts) + [Failure(it.reason, it.claimed.id)]
      else Fails(items, maxAttempts)
  {
    hide Backoff;
    assert (items + [it])[..|items|] == items;
  }

  // The inner loop: one outcome's messages to retry, each rescheduled or failed.
  method CollectRetries(s0: Settlement, retry: seq<RetryItem>, maxAttempts: int, draw: nat -> Unit, ghost front: seq<RetryItem>)
    returns (s: Settlement)
    requires s0.fail == Fails(front, maxAttempts) && s0.reschedule == Retries(front, maxAttempts, draw)
    ensures s == s0.(fail := Fails(front + retry, maxAttempts), reschedule := Retries(front + retry, maxAttempts, draw))
  {
    hide Backoff, Retries, Fails;
    s := s0;
    assert front + retry[..0] == front;
    for j := 0 to |retry|
      invariant s == s0.(fail := Fails(front + retry[..j], maxAttempts),
                         reschedule := Retries(front + retry[..j], maxAttempts, draw))
    {
      var it := retry[j];
      RetryStep(front + retry[..j], it, maxAttempts, draw);
      assert front + retry[..j + 1] == front + retry[..j] + [it];
      var attempts := it.claimed.attempts + 1;
      if attempts >= maxAttempts {
        s := s.(fail := s.fail + [Failure(it.reason, it.claimed.id)]);
      } else {
        s := s.(reschedule := s.reschedule + [Retry(it.reason, Backoff(attempts, draw(|s.reschedule|)), it.claimed.id)]);
      }
    }
    assert front + retry[..|retry|] == front + retry;
  }

  /** The message goes again: it has an attempt left after this one. */
  ghost predicate GoesAgain(it: RetryItem, r: Retry, maxAttempts: int) {
    && r.id == it.claimed.id && r.lastErr == it.reason
    && it.claimed.attempts + 1 < maxAttempts && PossibleDelay(it.claimed.attempts + 1, r.delay)
  }

  /** The message has failed: this was its last attempt. */
  predicate HasFailed(it: RetryItem, f: Failure, maxAttempts: int) {
    f.id == it.claimed.id && f.lastErr == it.reason && it.claimed.attempts + 1 >= maxAttempts
  }

  lemma LastRetry(items: seq<RetryItem>, maxAttempts: int, draw: nat -> Unit)
    requires items != [] && items[|items| - 1].claimed.attempts + 1 < maxAttempts
    ensures var all, rs := Retries(items, maxAttempts, draw), Retries(items[..|items| - 1], maxAttempts, draw);
      |all| == |rs| + 1 && all[..|rs|] == rs && GoesAgain(items[|items| - 1], all[|rs|], maxAttempts)
  {
    hide Backoff, PossibleDelay;
    var it := items[|items| - 1];
    var rs := Retries(items[..|items| - 1], maxAttempts, draw);
    PossibleDraw(it.claimed.attempts + 1, draw(|rs|));
  }

  lemma PossibleDraw(attempt: nat, u: Unit)
    ensures PossibleDelay(attempt, Backoff(attempt, u))
  {
    hide Backoff;
  }

  /** Each message with attempts left is rescheduled, and nothing else is. */
  ghost predicate Reschedules(rs: seq<Retry>, items: seq<RetryItem>, maxAttempts: int) {
    && (forall r :: r in rs ==> exists it :: it in items && GoesAgain(it, r, maxAttempts))
    && (forall it :: it in items && it.claimed.attempts + 1 < maxAttempts ==>
         exists r :: r in rs && GoesAgain(it, r, maxAttempts))
  }

  lemma ReschedulesMore(rs: seq<Retry>, added: seq<Retry>, items: seq<RetryItem>, last: RetryItem, maxAttempts: int)
    requires Reschedules(rs, items, maxAttempts)
    requires if last.claimed.attempts + 1 >= maxAttempts then added == []
             else |added| == 1 && GoesAgain(last, added[0], maxAttempts)
    ensures Reschedules(rs + added, items + [last], maxAttempts)
  {
    hide GoesAgain;
    var all, more := rs + added, items + [last];
    assert last in more && forall it :: it in items ==> it in more;
    forall r | r in all
      ensures exists it :: it in more && GoesAgain(it, r, maxAttempts)
    {
      if r in rs {
        var it :| it in items && GoesAgain(it, r, maxAttempts);
      }
    }
    forall it | it in more && it.claimed.attempts + 1 < maxAttempts
      ensures exists r :: r in all && GoesAgain(it, r, maxAttempts)
    {
      if it in items {
        var r :| r in rs && GoesAgain(it, r, maxAttempts);
      } else {
        assert it == last && added[0] in all;
      }
    }
  }

  lemma {:induction false} RetriesSay(items: seq<RetryItem>, maxAttempts: int, draw: nat -> Unit)
    ensures Reschedules(Retries(items, maxAttempts, draw), items, maxAttempts)
  {
    hide Backoff, GoesAgain, Reschedules;
    if items == [] {
      assert Reschedules([], [], maxAttempts) by { NothingToReschedule(maxAttempts); }
    } else {
      var n := |items| - 1;
      var last, front := items[n], items[..n];
      var rs, all := Retries(front, maxAttempts, draw), Retries(items, maxAttempts, draw);
      RetriesSay(front, maxAttempts, draw);
      if last.claimed.attempts + 1 < maxAttempts {
        LastRetry(items, maxAttempts, draw);
      }
      ReschedulesMore(rs, all[|rs|..], front, last, maxAttempts);
      assert front + [last] == items && all == rs + all[|rs|..];
    }
  }

  lemma NothingToReschedule(maxAttempts: int)
    ensures Reschedules([], [], maxAttempts)
  {
  }

  lemma {:induction false} FailMember(items: seq<RetryItem>, maxAttempts: int, f: Failure) returns (it: RetryItem)
    requires f in Fails(items, maxAttempts)
    ensures it in items && HasFailed(it, f, maxAttempts)
  {
    var n := |items| - 1;
    it := items[n];
    if f in Fails(items[..n], maxAttempts) {
      it := FailMember(items[..n], maxAttempts, f);
    }
  }

  // Each message without attempts left has failed, and nothing else has.
  lemma {:induction false} FailsSay(items: seq<RetryItem>, maxAttempts: int)
    ensures var all := Fails(items, maxAttempts);
      && (forall f :: f in all ==> exists it :: it in items && HasFailed(it, f, maxAttempts))
      && (forall it :: it in items && it.claimed.attempts + 1 >= maxAttempts ==>
           Failure(it.reason, it.claimed.id) in all)
  {
    hide HasFailed;
    forall f | f in Fails(items, maxAttempts)
      ensures exists it :: it in items && HasFailed(it, f, maxAttempts)
    {
      var it := FailMember(items, maxAttempts, f);
    }
    if items != [] {
      FailsSay(items[..|items| - 1], maxAttempts);
      assert forall x :: x in items <==> x in items[..|items| - 1] || x == items[|items| - 1];
    }
  }

  // The lists of a settlement, outcome by outcome.
  lemma CollectedSays(outs: seq<ShardOutcome>, maxAttempts: int, draw: nat -> Unit, s: Settlement)
    requires s == Collected(outs, maxAttempts, draw)
    ensures
      && (forall id :: id in s.sent <==> exists k :: 0 <= k < |outs| && id in outs[k].sent)
      && (forall r :: r in s.reschedule ==>
           exists k, it :: 0 <= k < |outs| && it in outs[k].retry && GoesAgain(it, r, maxAttempts))
      && (forall k, it :: 0 <= k < |outs| && it in outs[k].retry && it.claimed.attempts + 1 < maxAttempts ==>
           exists r :: r in s.reschedule && GoesAgain(it, r, maxAttempts))
      && (forall f :: f in s.fail ==>
           exists k, it :: 0 <= k < |outs| && it in outs[k].retry && HasFailed(it, f, maxAttempts))
      && (forall k, it :: 0 <= k < |outs| && it in outs[k].retry && it.claimed.attempts + 1 >= maxAttempts ==>
           Failure(it.reason, it.claimed.id) in s.fail)
  {
    hide AllSent, AllRetry, AllDelivered, AnyPaused, LongestPause, Retries, Fails, GoesAgain, HasFailed;
    var items := AllRetry(outs);
    RetriesSay(items, maxAttempts, draw);
    FailsSay(items, maxAttempts);
    assert s.reschedule == Retries(items, maxAttempts, draw) && s.fail == Fails(items, maxAttempts);
    forall id
      ensures id in s.sent <==> exists k :: 0 <= k < |outs| && id in outs[k].sent
    {
      AllSentMember(outs, id);
    }
    forall it
      ensures it in items <==> exists k :: 0 <= k < |outs| && it in outs[k].retry
    {
      AllRetryMember(outs, it);
    }
    forall r | r in s.reschedule
      ensures exists k, it :: 0 <= k < |outs| && it in outs[k].retry && GoesAgain(it, r, maxAttempts)
    {
      var it :| it in items && GoesAgain(it, r, maxAttempts);
    }
    forall f | f in s.fail
      ensures exists k, it :: 0 <= k < |outs| && it in outs[k].retry && HasFailed(it, f, maxAttempts)
    {
      var it :| it in items && HasFailed(it, f, maxAttempts);
    }
  }

  /** One settlement of all the shards: what they sent, their other messages by whether an
      attempt is left, and a pause exactly when one asked for it. */
  method Collect(outs: seq<ShardOutcome>, maxAttempts: int, draw: nat -> Unit) returns (s: Settlement)
    ensures s == Collected(outs, maxAttempts, draw)
    ensures forall id :: id in s.sent <==> exists k :: 0 <= k < |outs| && id in outs[k].sent
    ensures forall r :: r in s.reschedule ==>
      exists k, it :: 0 <= k < |outs| && it in outs[k].retry && GoesAgain(it, r, maxAttempts)
    ensures forall k, it :: 0 <= k < |outs| && it in outs[k].retry && it.claimed.attempts + 1 < maxAttempts ==>
      exists r :: r in s.reschedule && GoesAgain(it, r, maxAttempts)
    ensures forall f :: f in s.fail ==>
      exists k, it :: 0 <= k < |outs| && it in outs[k].retry && HasFailed(it, f, maxAttempts)
    ensures forall k, it :: 0 <= k < |outs| && it in outs[k].retry && it.claimed.attempts + 1 >= maxAttempts ==>
      Failure(it.reason, it.claimed.id) in s.fail
    ensures s.paused <==> exists k :: 0 <= k < |outs| && outs[k].paused
    ensures s.pause >= 0 && forall k :: 0 <= k < |outs| && outs[k].paused ==> outs[k].pause <= s.pause
    ensures s.pause == 0 || exists k :: 0 <= k < |outs| && outs[k].paused && outs[k].pause == s.pause
  {
    hide AllSent, AllRetry, AllDelivered, AnyPaused, LongestPause, Retries, Fails, GoesAgain, HasFailed;
    s := Add(outs, maxAttempts, draw);
    PauseIsAsked(outs);
    CollectedSays(outs, maxAttempts, draw, s);
  }

  // The loop over the outcomes.
  method Add(outs: seq<ShardOutcome>, maxAttempts: int, draw: nat -> Unit) returns (s: Settlement)
    ensures s == Collected(outs, maxAttempts, draw)
  {
    s := Settlement([], [], [], 0, 0, false);
    assert s == Collected(outs[..0], maxAttempts, draw);
    hide Backoff, AllSent, AllRetry, AllDelivered, AnyPaused, LongestPause, Retries, Fails;
    for k := 0 to |outs|
      invariant s == Collected(outs[..k], maxAttempts, draw)
    {
      var o := outs[k];
      CollectStep(outs, k);
      s := s.(sent := s.sent + o.sent, delivered := s.delivered + o.delivered);
      s := CollectRetries(s, o.retry, maxAttempts, draw, AllRetry(outs[..k]));
      if o.paused {
        s := s.(paused := true, pause := if o.pause > s.pause then o.pause else s.pause);
      }
    }
    assert outs[..|outs|] == outs;
  }

  // --- what settling does to each row ---

  function Settled(rows: Rows, s: Settlement, now: int): Rows {
    MarkedFailed(Rescheduled(Deleted(rows, s.sent), s.reschedule, now), s.fail)
  }

  function FirstItem(items: seq<RetryItem>, id: int): (it: RetryItem)
    requires id in RetryItemIds(items)
    ensures it in items && it.claimed.id == id
  {
    var n := |items| - 1;
    assert forall it :: it in items ==> it in items[..n] || it == items[n];
    if id in RetryItemIds(items[..n]) then FirstItem(items[..n], id) else items[n]
  }

  // One id names one claimed row, so its attempts agree wherever it is listed.
  ghost predicate OneClaim(items: seq<RetryItem>) {
    forall a, b :: a in items && b in items && a.claimed.id == b.claimed.id ==> a.claimed == b.claimed
  }

  lemma {:induction false} FirstRetryAppend(items: seq<Retry>, x: Retry, id: int)
    requires id in RetryIds(items + [x])
    ensures FirstRetry(items + [x], id) == if id in RetryIds(items) then FirstRetry(items, id) else x
  {
    if items == [] {
      assert [] + [x] == [x];
    } else {
      assert (items + [x])[1..] == items[1..] + [x];
      assert forall it :: it in items <==> it == items[0] || it in items[1..];
      assert forall it :: it in items + [x] <==> it == items[0] || it in items[1..] + [x];
      if items[0].id != id {
        FirstRetryAppend(items[1..], x, id);
      }
    }
  }

  lemma {:induction false} FirstFailureAppend(items: seq<Failure>, x: Failure, id: int)
    requires id in FailureIds(items + [x])
    ensures FirstFailure(items + [x], id) == if id in FailureIds(items) then FirstFailure(items, id) else x
  {
    if items == [] {
      assert [] + [x] == [x];
    } else {
      assert (items + [x])[1..] == items[1..] + [x];
      assert forall it :: it in items <==> it == items[0] || it in items[1..];
      assert forall it :: it in items + [x] <==> it == items[0] || it in items[1..] + [x];
      if items[0].id != id {
        FirstFailureAppend(items[1..], x, id);
      }
    }
  }

  lemma FirstItemFront(items: seq<RetryItem>, id: int)
    requires items != [] && OneClaim(items)
    ensures var n := |items| - 1;
      && (id in RetryItemIds(items) <==> id in RetryItemIds(items[..n]) || items[n].claimed.id == id)
      && OneClaim(items[..n])
      && (id in RetryItemIds(items[..n]) ==> FirstItem(items, id) == FirstItem(items[..n], id))
      && (items[n].claimed.id == id ==> FirstItem(items, id).claimed == items[n].claimed)
      && (items[n].claimed.id == id && id !in RetryItemIds(items[..n]) ==> FirstItem(items, id) == items[n])
  {
    var n := |items| - 1;
    assert forall x :: x in items <==> x in items[..n] || x == items[n];
  }

  lemma {:induction false} FailsPlaced(items: seq<RetryItem>, maxAttempts: int, id: int)
    requires OneClaim(items)
    ensures id in FailureIds(Fails(items, maxAttempts)) <==>
            id in RetryItemIds(items) && Exhausted(FirstItem(items, id), maxAttempts)
    ensures id in FailureIds(Fails(items, maxAttempts)) ==>
            FirstFailure(Fails(items, maxAttempts), id).lastErr == FirstItem(items, id).reason
  {
    if items != [] {
      var n := |items| - 1;
      var it, fs := items[n], Fails(items[..n], maxAttempts);
      FirstItemFront(items, id);
      FailsPlaced(items[..n], maxAttempts, id);
      if Exhausted(it, maxAttempts) {
        var f := Failure(it.reason, it.claimed.id);
        assert forall x :: x in fs + [f] <==> x in fs || x == f;
        if id in FailureIds(fs + [f]) {
          FirstFailureAppend(fs, f, id);
        }
      }
    }
  }

  // A delay backoff can return for that attempt, for some draw.
  ghost predicate PossibleDelay(attempt: nat, delay: int) {
    exists u: Unit :: Backoff(attempt, u) == delay
  }

  lemma {:induction false} RetriesPlaced(items: seq<RetryItem>, maxAttempts: int, draw: nat -> Unit, id: int)
    requires OneClaim(items)
    ensures id in RetryIds(Retries(items, maxAttempts, draw)) <==>
            id in RetryItemIds(items) && !Exhausted(FirstItem(items, id), maxAttempts)
    ensures id in RetryIds(Retries(items, maxAttempts, draw)) ==>
            FirstRetry(Retries(items, maxAttempts, draw), id).lastErr == FirstItem(items, id).reason
  {
    if items != [] {
      var n := |items| - 1;
      var it, rs := items[n], Retries(items[..n], maxAttempts, draw);
      FirstItemFront(items, id);
      RetriesPlaced(items[..n], maxAttempts, draw, id);
      if !Exhausted(it, maxAttempts) {
        var r := Retry(it.reason, Backoff(it.claimed.attempts + 1, draw(|rs|)), it.claimed.id);
        assert Retries(items, maxAttempts, draw) == rs + [r];
        hide Backoff, Retries, FirstItem;
        assert forall x :: x in rs + [r] <==> x in rs || x == r;
        if id in RetryIds(rs + [r]) {
          FirstRetryAppend(rs, r, id);
        }
      }
    }
  }

  ghost predicate DelayOfItem(items: seq<RetryItem>, r: Retry) {
    exists it :: it in items && it.claimed.id == r.id && PossibleDelay(it.claimed.attempts + 1, r.delay)
  }

  lemma {:induction false} RetryDelays(items: seq<RetryItem>, maxAttempts: int, draw: nat -> Unit)
    ensures forall r :: r in Retries(items, maxAttempts, draw) ==> DelayOfItem(items, r)
  {
    hide Backoff;
    if items != [] {
      var n := |items| - 1;
      var it := items[n];
      RetryDelays(items[..n], maxAttempts, draw);
      forall r | r in Retries(items, maxAttempts, draw)
        ensures DelayOfItem(items, r)
      {
        var before := Retries(items[..n], maxAttempts, draw);
        if r in before {
          var x :| x in items[..n] && x.claimed.id == r.id && PossibleDelay(x.claimed.attempts + 1, r.delay);
          assert x in items;
        } else {
          assert PossibleDelay(it.claimed.attempts + 1, Backoff(it.claimed.attempts + 1, draw(|before|)));
          assert it in items;
        }
      }
    }
  }

  /** What a settlement makes of one row: deleted if it was sent, even when it is also
      listed for retry; otherwise one attempt spent, once however often it is listed, with
      the first reason and the status its attempts call for; otherwise as it was. */
  ghost predicate SettledRow(row: Row, after: Option<Row>, id: int, outs: seq<ShardOutcome>, maxAttempts: int, now: int) {
    var items := AllRetry(outs);
    if id in AllSent(outs) then after.None?
    else if id in RetryItemIds(items) then
      var it := FirstItem(items, id);
      && after.Some?
      && after.value.message == row.message
      && after.value.attempts == row.attempts + 1
      && after.value.lastError == Some(Truncated(it.reason, MAX_ERR_LEN))
      && (if Exhausted(it, maxAttempts) then after.value.status == Failed && after.value.nextRetryAt == row.nextRetryAt
          else
            && after.value.status == Pending
            && after.value.nextRetryAt.Some?
            && exists d :: PossibleDelay(it.claimed.attempts + 1, d) && Waits(now, after.value.nextRetryAt.value, d))
    else after == Some(row)
  }

  function Lookup(rows: Rows, id: int): Option<Row> {
    if id in rows then Some(rows[id]) else None
  }

  lemma SettledLookup(rows: Rows, s: Settlement, now: int, id: int)
    requires id in rows
    ensures Lookup(Settled(rows, s, now), id) ==
      if id in s.sent then None
      else
        var r := if id in RetryIds(s.reschedule) then RetriedRow(rows[id], FirstRetry(s.reschedule, id), now) else rows[id];
        Some(if id in FailureIds(s.fail) then FailedRow(r, FirstFailure(s.fail, id)) else r)
  {
    hide RetriedRow, FailedRow, FirstRetry, FirstFailure;
  }

  lemma RetryDelayOf(items: seq<RetryItem>, maxAttempts: int, draw: nat -> Unit, id: int)
    requires OneClaim(items) && id in RetryItemIds(items) && id in RetryIds(Retries(items, maxAttempts, draw))
    ensures PossibleDelay(FirstItem(items, id).claimed.attempts + 1, FirstRetry(Retries(items, maxAttempts, draw), id).delay)
  {
    RetryDelays(items, maxAttempts, draw);
    var r := FirstRetry(Retries(items, maxAttempts, draw), id);
    assert DelayOfItem(items, r);
    var it :| it in items && it.claimed.id == r.id && PossibleDelay(it.claimed.attempts + 1, r.delay);
    assert FirstItem(items, id) in items && FirstItem(items, id).claimed.id == id;
  }

  lemma SettledOneRow(rows: Rows, outs: seq<ShardOutcome>, maxAttempts: int, draw: nat -> Unit, now: int, id: int)
    requires OneClaim(AllRetry(outs)) && id in rows
    ensures SettledRow(rows[id], Lookup(Settled(rows, Collected(outs, maxAttempts, draw), now), id), id, outs, maxAttempts, now)
  {
    hide Settled, Fails, Retries, FirstItem, FirstRetry, FirstFailure, PossibleDelay, Truncated, Micros, Waits, AllRetry,
         AllSent, AllDelivered, AnyPaused, LongestPause, Exhausted, Backoff, RetryIds, FailureIds, RetryItemIds;
    var items, s := AllRetry(outs), Collected(outs, maxAttempts, draw);
    SettledLookup(rows, s, now, id);
    FailsPlaced(items, maxAttempts, id);
    RetriesPlaced(items, maxAttempts, draw, id);
    if id in RetryIds(s.reschedule) {
      RetryDelayOf(items, maxAttempts, draw, id);
      MicrosWait(now, FirstRetry(s.reschedule, id).delay);
    }
  }

  /** Settling is single-valued: Delete, then Reschedule, then MarkFailed treat every row as
      SettledRow says, and rows no shard listed stay as they were. */
  lemma SettledPointwise(rows: Rows, outs: seq<ShardOutcome>, maxAttempts: int, draw: nat -> Unit, now: int)
    requires OneClaim(AllRetry(outs))
    ensures var after := Settled(rows, Collected(outs, maxAttempts, draw), now);
      && after.Keys == rows.Keys - Elems(AllSent(outs))
      && forall id :: id in rows ==> SettledRow(rows[id], Lookup(after, id), id, outs, maxAttempts, now)
  {
    forall id | id in rows {
      SettledOneRow(rows, outs, maxAttempts, draw, now, id);
    }
    hide AllRetry, AllSent, Fails, Retries, SettledRow, RetriedRow, FailedRow, FirstRetry, FirstFailure;
  }

  /** A row whose delay overflowed is due at once. */
  lemma OverflowedIsDue(row: Row, it: Retry, now: int, u: Unit)
    requires it.delay == Backoff(310, u)
    ensures Due(RetriedRow(row, it, now), now)
  {
    hide Truncated, Backoff;
    BackoffOverflows(u);
  }

  // --- one tick ---

  /** The outcome of each shard. The surroundings of a shard are arbitrary, its context's
      end included, so they stand for every schedule of the goroutines. */
  function Outcomes(claimed: seq<Claimed>, workers: int, envs: nat -> ShardEnv): (outs: seq<ShardOutcome>)
    ensures |outs| == |Shards(claimed, workers)|
    ensures forall k :: 0 <= k < |outs| ==> outs[k] == Finished(Start(Shards(claimed, workers)[k]), envs(k)).out
  {
    var shards := Shards(claimed, workers);
    seq(|shards|, k requires 0 <= k < |shards| => Finished(Start(shards[k]), envs(k)).out)
  }

  method Dispatch(claimed: seq<Claimed>, cfg: Config, envs: nat -> ShardEnv, draw: nat -> Unit) returns (s: Settlement)
    ensures s == Collected(Outcomes(claimed, cfg.workers, envs), cfg.maxAttempts, draw)
  {
    var shards := ShardBy(claimed, cfg.workers);
    var outcomes: seq<ShardOutcome> := [];
    for k := 0 to |shards|
      invariant |outcomes| == k
      invariant forall j :: 0 <= j < k ==> outcomes[j] == Finished(Start(shards[j]), envs(j)).out
    {
      var out, canceled := ProcessShard(shards[k], envs(k));
      outcomes := outcomes + [out];
    }
    assert outcomes == Outcomes(claimed, cfg.workers, envs);
    s := Collect(outcomes, cfg.maxAttempts, draw);
  }

  lemma {:induction false} AllSentMember(outs: seq<ShardOutcome>, id: int)
    ensures id in AllSent(outs) <==> exists k :: 0 <= k < |outs| && id in outs[k].sent
  {
    if outs != [] {
      var n := |outs| - 1;
      AllSentMember(outs[..n], id);
      if k :| 0 <= k < n && id in outs[..n][k].sent {
        assert id in outs[k].sent;
      }
      if k :| 0 <= k < |outs| && id in outs[k].sent {
        assert k < n ==> id in outs[..n][k].sent;
      }
    }
  }

  lemma {:induction false} AllRetryMember(outs: seq<ShardOutcome>, it: RetryItem)
    ensures it in AllRetry(outs) <==> exists k :: 0 <= k < |outs| && it in outs[k].retry
  {
    if outs != [] {
      var n := |outs| - 1;
      AllRetryMember(outs[..n], it);
      if k :| 0 <= k < n && it in outs[..n][k].retry {
        assert it in outs[k].retry;
      }
      if k :| 0 <= k < |outs| && it in outs[k].retry {
        assert k < n ==> it in outs[..n][k].retry;
      }
    }
  }

  // Shards of a claim share no id.
  lemma ShardsApart(claimed: seq<Claimed>, workers: int)
    requires DistinctIds(claimed)
    ensures var shards := Shards(claimed, workers);
      && (forall k :: 0 <= k < |shards| ==> DistinctIds(shards[k]))
      && (forall k, c :: 0 <= k < |shards| && c in shards[k] ==> c in claimed)
      && (forall k, l, id | 0 <= k < |shards| && 0 <= l < |shards| ::
            id in ClaimedIds(shards[k]) && id in ClaimedIds(shards[l]) ==> k == l)
  {
    var shards: seq<seq<Claimed>> := Shards(claimed, workers);
    ShardsCover(claimed, workers);
    FlattenNoDup(shards);
    forall k, c | 0 <= k < |shards| && c in shards[k]
      ensures c in claimed
    {
      FlattenMember(shards, c);
    }
    forall k, i, j | 0 <= k < |shards| && 0 <= i < j < |shards[k]|
      ensures shards[k][i].id != shards[k][j].id
    {
      var c, d := shards[k][i], shards[k][j];
      assert c in shards[k] && d in shards[k];
      if c.id == d.id { SameId(claimed, c, d); }
    }
    forall k, l, c, d | 0 <= k < l < |shards| && c in shards[k] && d in shards[l]
      ensures c.id != d.id
    {
      if c.id == d.id { SameId(claimed, c, d); }
    }
    forall k, l, id | 0 <= k < |shards| && 0 <= l < |shards|
      && id in ClaimedIds(shards[k]) && id in ClaimedIds(shards[l])
      ensures k == l
    {
      var c :| c in shards[k] && c.id == id;
      var d :| d in shards[l] && d.id == id;
    }
  }

  // Whatever the shards report is about rows of the claim.
  lemma OutcomesOfClaim(claimed: seq<Claimed>, workers: int, envs: nat -> ShardEnv)
    requires DistinctIds(claimed)
    ensures var outs := Outcomes(claimed, workers, envs);
      && (forall id :: id in AllSent(outs) ==> id in ClaimedIds(claimed))
      && (forall it :: it in AllRetry(outs) ==> it.claimed in claimed)
      && OneClaim(AllRetry(outs))
  {
    var shards: seq<seq<Claimed>> := Shards(claimed, workers);
    var outs := Outcomes(claimed, workers, envs);
    ShardsApart(claimed, workers);
    forall id | id in AllSent(outs)
      ensures id in ClaimedIds(claimed)
    {
      AllSentMember(outs, id);
      var k :| 0 <= k < |outs| && id in outs[k].sent;
      ShardAccounting(shards[k], envs(k));
      var c :| c in shards[k] && c.id == id;
    }
    forall it | it in AllRetry(outs)
      ensures it.claimed in claimed
    {
      AllRetryMember(outs, it);
      var k :| 0 <= k < |outs| && it in outs[k].retry;
      ShardAccounting(shards[k], envs(k));
    }
    forall a, b | a in AllRetry(outs) && b in AllRetry(outs) && a.claimed.id == b.claimed.id
      ensures a.claimed == b.claimed
    {
      SameId(claimed, a.claimed, b.claimed);
    }
  }

  lemma {:induction false} SentOnce(outs: seq<ShardOutcome>)
    requires forall k :: 0 <= k < |outs| ==> NoDup(outs[k].sent)
    requires forall k, l, id :: 0 <= k < l < |outs| && id in outs[k].sent ==> id !in outs[l].sent
    ensures NoDup(AllSent(outs))
  {
    if outs != [] {
      var n := |outs| - 1;
      var front, last := AllSent(outs[..n]), outs[n].sent;
      SentOnce(outs[..n]);
      forall i, j | 0 <= i < |front| && 0 <= j < |last|
        ensures front[i] != last[j]
      {
        AllSentMember(outs[..n], front[i]);
        var k :| 0 <= k < n && front[i] in outs[..n][k].sent;
        assert front[i] in outs[k].sent && last[j] in outs[n].sent;
      }
    }
  }

  lemma {:induction false} RetriedOnce(outs: seq<ShardOutcome>)
    requires forall k :: 0 <= k < |outs| ==> DistinctRetries(outs[k].retry)
    requires forall k, l, id :: 0 <= k < l < |outs| && id in RetryItemIds(outs[k].retry) ==> id !in RetryItemIds(outs[l].retry)
    ensures DistinctRetries(AllRetry(outs))
  {
    if outs != [] {
      var n := |outs| - 1;
      var front, last := AllRetry(outs[..n]), outs[n].retry;
      RetriedOnce(outs[..n]);
      forall i, j | 0 <= i < |front| && 0 <= j < |last|
        ensures front[i].claimed.id != last[j].claimed.id
      {
        AllRetryMember(outs[..n], front[i]);
        var k :| 0 <= k < n && front[i] in outs[..n][k].retry;
        assert front[i].claimed.id in RetryItemIds(outs[k].retry) && last[j].claimed.id in RetryItemIds(outs[n].retry);
      }
    }
  }

  lemma {:induction false} FailIds(items: seq<RetryItem>, maxAttempts: int)
    requires DistinctRetries(items)
    ensures NoDup(FailureIdSeq(Fails(items, maxAttempts)))
    ensures forall id :: id in FailureIdSeq(Fails(items, maxAttempts)) ==> id in RetryItemIds(items)
  {
    if items != [] {
      var n := |items| - 1;
      var it, front, fs := items[n], items[..n], Fails(items[..n], maxAttempts);
      FailIds(front, maxAttempts);
      assert it.claimed.id !in RetryItemIds(front);
      assert RetryItemIds(items) == RetryItemIds(front) + {it.claimed.id} by {
        assert forall x :: x in items <==> x in front || x == it;
      }
      hide RetryItemIds, DistinctRetries;
      var f := Failure(it.reason, it.claimed.id);
      assert FailureIdSeq(fs + [f]) == FailureIdSeq(fs) + [f.id];
    }
  }

  lemma {:induction false} RescheduleIds(items: seq<RetryItem>, maxAttempts: int, draw: nat -> Unit)
    requires DistinctRetries(items)
    ensures NoDup(RetryIdSeq(Retries(items, maxAttempts, draw)))
    ensures forall id :: id in RetryIdSeq(Retries(items, maxAttempts, draw)) ==> id in RetryItemIds(items)
  {
    hide Backoff;
    if items != [] {
      var n := |items| - 1;
      var it, front, rs := items[n], items[..n], Retries(items[..n], maxAttempts, draw);
      RescheduleIds(front, maxAttempts, draw);
      assert it.claimed.id !in RetryItemIds(front);
      assert RetryItemIds(items) == RetryItemIds(front) + {it.claimed.id} by {
        assert forall x :: x in items <==> x in front || x == it;
      }
      hide RetryItemIds, DistinctRetries;
      var r := Retry(it.reason, Backoff(it.claimed.attempts + 1, draw(|rs|)), it.claimed.id);
      assert RetryIdSeq(rs + [r]) == RetryIdSeq(rs) + [r.id];
    }
  }

  /** Of the three lists of a settlement none names an id twice and no two share one. */
  ghost predicate ListsApart(s: Settlement) {
    && NoDup(s.sent) && NoDup(RetryIdSeq(s.reschedule)) && NoDup(FailureIdSeq(s.fail))
    && (forall id :: id in s.sent ==> id !in RetryIds(s.reschedule) && id !in FailureIds(s.fail))
    && (forall id :: id in RetryIds(s.reschedule) ==> id !in FailureIds(s.fail))
  }

  lemma PlacedOnce(items: seq<RetryItem>, maxAttempts: int, draw: nat -> Unit, id: int)
    requires OneClaim(items)
    ensures var again, last := id in RetryIds(Retries(items, maxAttempts, draw)), id in FailureIds(Fails(items, maxAttempts));
      !(again && last) && (id in RetryItemIds(items) <==> again || last)
  {
    hide OneClaim, Retries, Fails, RetryItemIds, RetryIds, FailureIds, FirstItem, Exhausted, FirstRetry, FirstFailure;
    FailsPlaced(items, maxAttempts, id);
    RetriesPlaced(items, maxAttempts, draw, id);
  }

  lemma CollectedApart(outs: seq<ShardOutcome>, maxAttempts: int, draw: nat -> Unit)
    requires NoDup(AllSent(outs)) && DistinctRetries(AllRetry(outs)) && OneClaim(AllRetry(outs))
    requires forall id :: id in AllSent(outs) ==> id !in RetryItemIds(AllRetry(outs))
    ensures ListsApart(Collected(outs, maxAttempts, draw))
    ensures var s := Collected(outs, maxAttempts, draw);
      forall id :: id in RetryItemIds(AllRetry(outs)) <==> id in RetryIds(s.reschedule) || id in FailureIds(s.fail)
  {
    hide AllRetry, AllSent, Retries, Fails, RetryIds, FailureIds, RetryItemIds, DistinctRetries, NoDup,
         RetryIdSeq, FailureIdSeq, AnyPaused, LongestPause, AllDelivered, OneClaim;
    var items, s := AllRetry(outs), Collected(outs, maxAttempts, draw);
    RescheduleIds(items, maxAttempts, draw);
    FailIds(items, maxAttempts);
    forall id
      ensures !(id in RetryIds(s.reschedule) && id in FailureIds(s.fail))
      ensures id in RetryItemIds(items) <==> id in RetryIds(s.reschedule) || id in FailureIds(s.fail)
    {
      PlacedOnce(items, maxAttempts, draw, id);
    }
  }

  // A shard's own accounting, for each shard of a claim.
  lemma ShardsReport(claimed: seq<Claimed>, workers: int, envs: nat -> ShardEnv, k: nat)
    requires DistinctIds(claimed) && k < |Shards(claimed, workers)|
    requires !Finished(Start(Shards(claimed, workers)[k]), envs(k)).panicked
    ensures var shards, o := Shards(claimed, workers), Outcomes(claimed, workers, envs)[k];
      && NoDup(o.sent) && DistinctRetries(o.retry)
      && (forall id :: id in o.sent ==> id in ClaimedIds(shards[k]) && id !in RetryItemIds(o.retry))
      && (forall id :: id in RetryItemIds(o.retry) ==> id in ClaimedIds(shards[k]))
  {
    hide Finished, Shards, NoDup, DistinctRetries;
    var shards: seq<seq<Claimed>> := Shards(claimed, workers);
    ShardsApart(claimed, workers);
    ShardAccounting(shards[k], envs(k));
  }

  /** Without a panic every id of the claim is in at most one of sent, reschedule and fail,
      and listed there once: so the batched statements do what one statement a row would. */
  lemma DispatchAccounting(claimed: seq<Claimed>, workers: int, envs: nat -> ShardEnv, maxAttempts: int, draw: nat -> Unit)
    requires DistinctIds(claimed)
    requires var shards := Shards(claimed, workers);
      forall k :: 0 <= k < |shards| ==> !Finished(Start(shards[k]), envs(k)).panicked
    ensures var outs := Outcomes(claimed, workers, envs);
      && NoDup(AllSent(outs)) && DistinctRetries(AllRetry(outs))
      && (forall id :: id in AllSent(outs) ==> id !in RetryItemIds(AllRetry(outs)))
      && ListsApart(Collected(outs, maxAttempts, draw))
  {
    hide Finished, Shards, Outcomes, NoDup, DistinctRetries, AllSent, AllRetry, Collected, ListsApart, RetryItemIds, ClaimedIds;
    var shards: seq<seq<Claimed>> := Shards(claimed, workers);
    var outs := Outcomes(claimed, workers, envs);
    ShardsApart(claimed, workers);
    forall k | 0 <= k < |outs| {
      ShardsReport(claimed, workers, envs, k);
    }
    SentOnce(outs);
    RetriedOnce(outs);
    forall id | id in AllSent(outs)
      ensures id !in RetryItemIds(AllRetry(outs))
    {
      AllSentMember(outs, id);
      AllRetryIds(outs, id);
    }
    OutcomesOfClaim(claimed, workers, envs);
    CollectedApart(outs, maxAttempts, draw);
  }

  lemma AllRetryIds(outs: seq<ShardOutcome>, id: int)
    ensures id in RetryItemIds(AllRetry(outs)) <==> exists k :: 0 <= k < |outs| && id in RetryItemIds(outs[k].retry)
  {
    if id in RetryItemIds(AllRetry(outs)) {
      var it :| it in AllRetry(outs) && it.claimed.id == id;
      AllRetryMember(outs, it);
      var k :| 0 <= k < |outs| && it in outs[k].retry;
      assert id in RetryItemIds(outs[k].retry);
    }
    if k :| 0 <= k < |outs| && id in RetryItemIds(outs[k].retry) {
      var it :| it in outs[k].retry && it.claimed.id == id;
      AllRetryMember(outs, it);
    }
  }

  /** When nothing fails, every claimed id is in exactly one of the three. */
  lemma DispatchPlacesAll(claimed: seq<Claimed>, workers: int, envs: nat -> ShardEnv, maxAttempts: int, draw: nat -> Unit)
    requires DistinctIds(claimed)
    requires var shards := Shards(claimed, workers);
      forall k :: 0 <= k < |shards| ==> Smooth(shards[k], envs(k))
    ensures var s := Collected(Outcomes(claimed, workers, envs), maxAttempts, draw);
      && ListsApart(s)
      && forall c :: c in claimed ==> c.id in s.sent || c.id in RetryIds(s.reschedule) || c.id in FailureIds(s.fail)
  {
    hide Finished, Shards, Outcomes, NoDup, DistinctRetries, AllSent, AllRetry, ListsApart, RetryItemIds, Smooth,
         RetryIds, FailureIds, Retries, Fails, AnyPaused, LongestPause, AllDelivered;
    var shards: seq<seq<Claimed>> := Shards(claimed, workers);
    var outs := Outcomes(claimed, workers, envs);
    ShardsApart(claimed, workers);
    forall k | 0 <= k < |shards| {
      ExactlyOnePlace(shards[k], envs(k));
    }
    DispatchAccounting(claimed, workers, envs, maxAttempts, draw);
    OutcomesOfClaim(claimed, workers, envs);
    CollectedApart(outs, maxAttempts, draw);
    ShardsCover(claimed, workers);
    forall c | c in claimed
      ensures c.id in AllSent(outs) || c.id in RetryItemIds(AllRetry(outs))
    {
      FlattenMember(shards, c);
      var k :| 0 <= k < |shards| && c in shards[k];
      AllSentMember(outs, c.id);
      AllRetryIds(outs, c.id);
    }
  }

  // What the shards list are claimed rows, with the attempts those rows have.
  lemma ListedAreClaimed(rows: Rows, ids: seq<int>, workers: int, envs: nat -> ShardEnv)
    requires NoDup(ids) && forall i :: 0 <= i < |ids| ==> ids[i] in rows
    ensures var outs := Outcomes(ToClaimed(rows, ids), workers, envs);
      && OneClaim(AllRetry(outs))
      && (forall id :: id in AllSent(outs) ==> id in ids)
      && (forall id :: id in RetryItemIds(AllRetry(outs)) ==>
            id in ids && id in rows && FirstItem(AllRetry(outs), id).claimed.attempts == rows[id].attempts)
  {
    var claimed := ToClaimed(rows, ids);
    var outs := Outcomes(claimed, workers, envs);
    OutcomesOfClaim(claimed, workers, envs);
    hide Outcomes, ToClaimed;
    forall id | id in AllSent(outs)
      ensures id in ids
    {
      var c :| c in claimed && c.id == id;
    }
    forall id | id in RetryItemIds(AllRetry(outs))
      ensures id in ids && id in rows && FirstItem(AllRetry(outs), id).claimed.attempts == rows[id].attempts
    {
      var it := FirstItem(AllRetry(outs), id);
      var i :| 0 <= i < |claimed| && claimed[i] == it.claimed;
    }
  }

  /** One tick over a table, any surroundings: rows it did not claim stay as they were; a
      claimed row becomes what SettledRow says of its shards' reports, and it turns failed
      exactly when the attempt it spends is the last one allowed. */
  lemma TickPointwise(rows: Rows, locked: set<int>, now: int, cfg: Config, envs: nat -> ShardEnv, draw: nat -> Unit)
    requires cfg.Valid()
    ensures var ids := ClaimIds(rows, locked, now, cfg.batch);
      var outs := Outcomes(ToClaimed(rows, ids), cfg.workers, envs);
      var after := Settled(rows, Collected(outs, cfg.maxAttempts, draw), now);
      && (forall id :: id in rows && id !in ids ==> Lookup(after, id) == Some(rows[id]))
      && (forall id :: id in rows ==> SettledRow(rows[id], Lookup(after, id), id, outs, cfg.maxAttempts, now))
      && (forall id :: id in ids && id in after && after[id] != rows[id] ==>
            (after[id].status == Failed <==> after[id].attempts >= cfg.maxAttempts))
  {
    var ids := ClaimIds(rows, locked, now, cfg.batch);
    var outs := Outcomes(ToClaimed(rows, ids), cfg.workers, envs);
    var after := Settled(rows, Collected(outs, cfg.maxAttempts, draw), now);
    ListedAreClaimed(rows, ids, cfg.workers, envs);
    SettledPointwise(rows, outs, cfg.maxAttempts, draw, now);
    hide Settled, Outcomes, ToClaimed, Collected, AllRetry, AllSent, FirstItem, PossibleDelay;
    forall id | id in rows && id !in ids
      ensures Lookup(after, id) == Some(rows[id])
    {
      assert SettledRow(rows[id], Lookup(after, id), id, outs, cfg.maxAttempts, now);
    }
    forall id | id in ids && id in after && after[id] != rows[id]
      ensures after[id].status == Failed <==> after[id].attempts >= cfg.maxAttempts
    {
      assert SettledRow(rows[id], Lookup(after, id), id, outs, cfg.maxAttempts, now);
    }
  }

  /** The wait the table holds, in microseconds, after attempt number `attempt`: attempt^4
      seconds or an hour when that is less, within ten percent. */
  predicate GoodWait(attempt: nat, wait: int) {
    var power := attempt * attempt * attempt * attempt;
    var due := if power < 3600 then power * 1_000_000 else 3_600_000_000;
    9 * due <= 10 * wait <= 11 * due
  }

  lemma WaitIsGood(attempt: nat, delay: int, now: int, at: int)
    requires 1 <= attempt <= 309 && PossibleDelay(attempt, delay) && Waits(now, at, delay)
    ensures GoodWait(attempt, at - now)
  {
    var u: Unit :| Backoff(attempt, u) == delay;
    hide Backoff;
    BackoffGood(attempt, u);
    var power := attempt * attempt * attempt * attempt;
    assert Pow4(attempt) == power;
    hide Pow4, Waits;
    WaitWithin(power, delay, now, at);
  }

  // Dropping the fraction of a microsecond does not leave the ten percent.
  lemma WaitWithin(power: int, delay: int, now: int, at: int)
    requires var d := if power * SECOND < HOUR then power * SECOND else HOUR;
      delay > 0 && 9 * d <= 10 * delay <= 11 * d
    requires Waits(now, at, delay)
    ensures var due := if power < 3600 then power * 1_000_000 else 3_600_000_000;
      9 * due <= 10 * (at - now) <= 11 * due
  {
    var tenth := if power < 3600 then power * 100_000 else 360_000_000;
    assert (if power * SECOND < HOUR then power * SECOND else HOUR) == 10_000 * tenth;
  }

  /** What a committed tick leaves of a row it changed, on the row's own columns. */
  predicate ChangedByTick(before: Row, after: Row, cfg: Config, now: int) {
    && before.status == Pending && after.message == before.message && after.attempts == before.attempts + 1
    && (after.status == Failed <==> after.attempts >= cfg.maxAttempts)
    && (after.status == Pending && after.attempts <= 309 ==>
          after.nextRetryAt.Some? && GoodWait(after.attempts, after.nextRetryAt.value - now))
  }

  lemma SettledColumns(row: Row, after: Row, id: int, outs: seq<ShardOutcome>, cfg: Config, now: int)
    requires SettledRow(row, Some(after), id, outs, cfg.maxAttempts, now) && after != row && row.status == Pending
    requires id in RetryItemIds(AllRetry(outs)) ==> FirstItem(AllRetry(outs), id).claimed.attempts == row.attempts
    ensures ChangedByTick(row, after, cfg, now)
  {
    hide AllRetry, AllSent, FirstItem, PossibleDelay, Waits, GoodWait, Truncated, RetryItemIds;
    if after.status == Pending && after.attempts <= 309 {
      var d :| PossibleDelay(after.attempts, d) && Waits(now, after.nextRetryAt.value, d);
      WaitIsGood(after.attempts, d, now, after.nextRetryAt.value);
    }
  }

  lemma ClaimedArePending(rows: Rows, locked: set<int>, now: int, batch: nat)
    ensures forall id :: id in ClaimIds(rows, locked, now, batch) ==> id in rows && rows[id].status == Pending
  {
    var ids := ClaimIds(rows, locked, now, batch);
    assert forall i :: 0 <= i < |ids| ==> ids[i] in Eligible(rows, locked, now);
  }

  lemma TickColumns(rows: Rows, locked: set<int>, now: int, cfg: Config, envs: nat -> ShardEnv, draw: nat -> Unit)
    requires cfg.Valid()
    ensures var ids := ClaimIds(rows, locked, now, cfg.batch);
      var outs := Outcomes(ToClaimed(rows, ids), cfg.workers, envs);
      var after := Settled(rows, Collected(outs, cfg.maxAttempts, draw), now);
      && (forall id :: id in after ==>
           id in rows && (after[id] == rows[id] || (id in ids && ChangedByTick(rows[id], after[id], cfg, now))))
      && (forall id :: id in rows && id !in after ==> id in ids)
  {
    var ids := ClaimIds(rows, locked, now, cfg.batch);
    var outs := Outcomes(ToClaimed(rows, ids), cfg.workers, envs);
    var after := Settled(rows, Collected(outs, cfg.maxAttempts, draw), now);
    hide Settled, Outcomes, ToClaimed, ClaimIds, Collected, AllRetry, AllSent, FirstItem, SettledRow, ChangedByTick,
         RetryItemIds, OneClaim, NoDup;
    ListedAreClaimed(rows, ids, cfg.workers, envs);
    SettledPointwise(rows, outs, cfg.maxAttempts, draw, now);
    TickPointwise(rows, locked, now, cfg, envs, draw);
    ClaimedArePending(rows, locked, now, cfg.batch);
    forall id | id in after && after[id] != rows[id]
      ensures id in ids && ChangedByTick(rows[id], after[id], cfg, now)
    {
      assert SettledRow(rows[id], Lookup(after, id), id, outs, cfg.maxAttempts, now);
      SettledColumns(rows[id], after[id], id, outs, cfg, now);
    }
  }

  /** What the shards report is what happens to the rows: sent ones go, ones to retry and
      not sent spend an attempt. */
  lemma TickPlaces(rows: Rows, locked: set<int>, now: int, cfg: Config, envs: nat -> ShardEnv, draw: nat -> Unit)
    requires cfg.Valid()
    ensures var ids := ClaimIds(rows, locked, now, cfg.batch);
      var outs := Outcomes(ToClaimed(rows, ids), cfg.workers, envs);
      var after := Settled(rows, Collected(outs, cfg.maxAttempts, draw), now);
      && (forall id :: id in rows ==> (id !in after <==> exists k :: 0 <= k < |outs| && id in outs[k].sent))
      && (forall k, it :: 0 <= k < |outs| && it in outs[k].retry && it.claimed.id in after ==>
           it.claimed.id in rows && after[it.claimed.id].attempts == rows[it.claimed.id].attempts + 1)
  {
    var ids := ClaimIds(rows, locked, now, cfg.batch);
    var outs := Outcomes(ToClaimed(rows, ids), cfg.workers, envs);
    var after := Settled(rows, Collected(outs, cfg.maxAttempts, draw), now);
    hide Settled, Outcomes, ToClaimed, ClaimIds, Collected, AllRetry, AllSent, FirstItem, OneClaim, NoDup;
    ListedAreClaimed(rows, ids, cfg.workers, envs);
    SettledPointwise(rows, outs, cfg.maxAttempts, draw, now);
    forall id | id in rows
      ensures id !in after <==> exists k :: 0 <= k < |outs| && id in outs[k].sent
    {
      AllSentMember(outs, id);
    }
    hide Waits, PossibleDelay, Truncated;
    forall k, it | 0 <= k < |outs| && it in outs[k].retry && it.claimed.id in after
      ensures it.claimed.id in rows && after[it.claimed.id].attempts == rows[it.claimed.id].attempts + 1
    {
      AllRetryMember(outs, it);
      var id := it.claimed.id;
      assert id in RetryItemIds(AllRetry(outs));
      assert SettledRow(rows[id], Lookup(after, id), id, outs, cfg.maxAttempts, now);
    }
  }

  /** A row a tick put off at `now` is in no claim for nine tenths of its time at least. */
  lemma PutOffIsNotClaimed(before: Row, rows: Rows, id: int, cfg: Config, now: int, later: int, locked: set<int>, batch: nat)
    requires id in rows && ChangedByTick(before, rows[id], cfg, now) && rows[id].status == Pending && rows[id].attempts <= 309
    requires var n := rows[id].attempts;
      10 * (later - now) < 9 * (if n * n * n * n < 3600 then n * n * n * n * 1_000_000 else 3_600_000_000)
    ensures id !in ClaimIds(rows, locked, later, batch)
    ensures forall c :: c in ToClaimed(rows, ClaimIds(rows, locked, later, batch)) ==> c.id != id
  {
    var ids := ClaimIds(rows, locked, later, batch);
    assert forall i :: 0 <= i < |ids| ==> ids[i] in Eligible(rows, locked, later);
  }

  /** The longest pause a paused shard asks for, or 30 s when none asks for any. */
  predicate AskedFor(outs: seq<ShardOutcome>, d: int) {
    if exists k :: 0 <= k < |outs| && outs[k].paused && outs[k].pause > 0 then
      (exists k :: 0 <= k < |outs| && outs[k].paused && outs[k].pause == d)
      && forall k :: 0 <= k < |outs| && outs[k].paused ==> outs[k].pause <= d
    else d == 30_000_000_000
  }

  lemma LongestIsAskedFor(outs: seq<ShardOutcome>)
    ensures AskedFor(outs, if LongestPause(outs) <= 0 then DEFAULT_PAUSE else LongestPause(outs))
  {
    hide LongestPause;
    PauseIsAsked(outs);
  }

  /** Where a database call of the tick's transaction fails, if it does; or that something
      outside the shards panics. */
  datatype TxFault = NoFault | ClaimFails | DeleteFails | RescheduleFails | MarkFailedFails | CommitFails | Panics

  class Relay {
    const cfg: Config
    const repo: OutboxRepo
    var paused: int   // no tick before this time, nanoseconds

    constructor (cfg: Config, repo: OutboxRepo)
      ensures this.cfg == cfg && this.repo == repo && this.paused == 0
    {
      this.cfg, this.repo, this.paused := cfg, repo, 0;
    }

    method Pause(hint: int, now: int)
      modifies this`paused
      ensures paused == now + (if hint <= 0 then DEFAULT_PAUSE else hint)
    {
      var d := hint;
      if d <= 0 {
        d := DEFAULT_PAUSE;
      }
      paused := now + d;
    }

    // Claim, dispatch and the three statements, inside the transaction: stops at the first
    // call that fails.
    method Settle(locked: set<int>, dbNow: int, envs: nat -> ShardEnv, draw: nat -> Unit, fault: TxFault)
      returns (s: Settlement, ok: bool)
      requires cfg.Valid() && fault != Panics
      modifies repo`rows
      ensures var ids := ClaimIds(old(repo.rows), locked, dbNow, cfg.batch);
        && s == (if fault == ClaimFails || ids == [] then Settlement([], [], [], 0, 0, false)
                 else Collected(Outcomes(ToClaimed(old(repo.rows), ids), cfg.workers, envs), cfg.maxAttempts, draw))
        && (fault == NoFault ==> ok)
        && (fault == CommitFails || fault == ClaimFails ==> !ok)
        && (ids != [] && fault != NoFault ==> !ok)
        && (ok ==> repo.rows == Settled(old(repo.rows), s, dbNow))
    {
      s, ok := Settlement([], [], [], 0, 0, false), true;
      if fault == ClaimFails {
        return s, false;
      }
      var claimed := repo.Claim(cfg.batch, locked, dbNow);
      if |claimed| == 0 {
        return s, fault != CommitFails;
      }
      s := Dispatch(claimed, cfg, envs, draw);
      if fault == DeleteFails {
        return s, false;
      }
      repo.Delete(s.sent);
      if fault == RescheduleFails {
        return s, false;
      }
      repo.Reschedule(s.reschedule, dbNow);
      if fault == MarkFailedFails {
        return s, false;
      }
      repo.MarkFailed(s.fail);
      ok := fault != CommitFails;
    }

    /** tick: the transaction takes effect whole or not at all, and a shard's pause is
        honoured even when it is rolled back. A panic rolls back too, and pauses as long as
        a hint that says nothing. */
    method Tick(now: int, later: int, locked: set<int>, dbNow: int, envs: nat -> ShardEnv, draw: nat -> Unit, fault: TxFault)
      returns (ok: bool)
      requires cfg.Valid()
      modifies this`paused, repo`rows
      ensures now < old(paused) ==> ok && repo.rows == old(repo.rows) && paused == old(paused)
      ensures now >= old(paused) && fault == Panics ==>
        !ok && repo.rows == old(repo.rows) && paused == later + DEFAULT_PAUSE
      ensures now >= old(paused) && fault != Panics ==>
        var ids := ClaimIds(old(repo.rows), locked, dbNow, cfg.batch);
        var s := if fault == ClaimFails || ids == [] then Settlement([], [], [], 0, 0, false)
                 else Collected(Outcomes(ToClaimed(old(repo.rows), ids), cfg.workers, envs), cfg.maxAttempts, draw);
        && (fault == NoFault ==> ok)
        && (ids != [] && fault != NoFault ==> !ok)
        && repo.rows == (if ok then Settled(old(repo.rows), s, dbNow) else old(repo.rows))
        && paused == (if s.paused then later + (if s.pause <= 0 then DEFAULT_PAUSE else s.pause) else old(paused))
      // no pause unless a shard asks for one, then the longest asked for, or 30 s
      ensures now >= old(paused) && fault != Panics ==>
        var outs := Outcomes(ToClaimed(old(repo.rows), ClaimIds(old(repo.rows), locked, dbNow, cfg.batch)), cfg.workers, envs);
        if fault != ClaimFails && exists k :: 0 <= k < |outs| && outs[k].paused then AskedFor(outs, paused - later)
        else paused == old(paused)
      // the rows that stay, column by column
      ensures now >= old(paused) && ok ==>
        && (forall id :: id in repo.rows ==>
             id in old(repo.rows) &&
             (repo.rows[id] == old(repo.rows)[id] || ChangedByTick(old(repo.rows)[id], repo.rows[id], cfg, dbNow)))
      // the rows that go, and the ones that spend an attempt, by the shards' reports
      ensures now >= old(paused) && ok && fault == NoFault ==>
        var outs := Outcomes(ToClaimed(old(repo.rows), ClaimIds(old(repo.rows), locked, dbNow, cfg.batch)), cfg.workers, envs);
        && (forall id :: id in old(repo.rows) ==>
             (id !in repo.rows <==> exists k :: 0 <= k < |outs| && id in outs[k].sent))
        && (forall k, it :: 0 <= k < |outs| && it in outs[k].retry && it.claimed.id in repo.rows ==>
             it.claimed.id in old(repo.rows) &&
             repo.rows[it.claimed.id].attempts == old(repo.rows)[it.claimed.id].attempts + 1)
    {
      hide Settled, Outcomes, ToClaimed, ClaimIds, AskedFor, ChangedByTick, AllSent, AllRetry, Retries, Fails,
           AllDelivered, AnyPaused, LongestPause;
      if now < paused {
        return true;
      }
      if fault == Panics {
        Pause(DEFAULT_PAUSE, later);   // recovered, wherever it struck
        return false;
      }
      var before := repo.rows;
      var s;
      s, ok := Settle(locked, dbNow, envs, draw, fault);
      if !ok {
        repo.rows := before;   // TxManager.Do rolls back
      }
      if s.paused {
        Pause(s.pause, later);
      }
      ghost var outs := Outcomes(ToClaimed(before, ClaimIds(before, locked, dbNow, cfg.batch)), cfg.workers, envs);
      PauseIsAsked(outs);
      LongestIsAskedFor(outs);
      TickColumns(before, locked, dbNow, cfg, envs, draw);
      TickPlaces(before, locked, dbNow, cfg, envs, draw);
      NoShards(before, cfg.workers, envs);
      NothingSettled(before, dbNow);
    }
  }

  lemma NoShards(rows: Rows, workers: int, envs: nat -> ShardEnv)
    ensures Outcomes(ToClaimed(rows, []), workers, envs) == []
  {
  }

  // A tick that claimed nothing has nothing to settle.
  lemma NothingSettled(rows: Rows, now: int)
    ensures Settled(rows, Settlement([], [], [], 0, 0, false), now) == rows
  {
    hide RetriedRow, FailedRow, FirstRetry, FirstFailure;
  }
}
