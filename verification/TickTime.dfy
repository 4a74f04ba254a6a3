/** How long one tick of the relay takes. Every call it makes is given a context and
    returns when it is done or when the context ends, whichever comes first; what the
    relay computes between the calls takes no time. Times are nanoseconds. */
module TickTime {
  import opened Prelude
  import opened Outbox

  function Max(a: int, b: int): (m: int)
    ensures m >= a && m >= b && (m == a || m == b)
  {
    if a < b then b else a
  }

  function Lesser(a: int, b: int): (m: int)
    ensures m <= a && m <= b && (m == a || m == b)
  {
    if a < b then a else b
  }

  // --- calls ---

  /** When a call made at `at` returns, left alone it would take `takes`. */
  function Returns(at: int, takes: nat, deadline: int): (end: int)
    ensures at <= end <= Max(at, deadline)
  {
    Max(at, Lesser(at + takes, deadline))
  }

  /** One call after another under one context. */
  function ReturnsAll(at: int, takes: seq<nat>, deadline: int): int {
    if takes == [] then at else
      Returns(ReturnsAll(at, takes[..|takes| - 1], deadline), takes[|takes| - 1], deadline)
  }

  method CallAll(at: int, takes: seq<nat>, deadline: int) returns (now: int)
    ensures now == ReturnsAll(at, takes, deadline)
  {
    now := at;
    for i := 0 to |takes|
      invariant now == ReturnsAll(at, takes[..i], deadline)
    {
      assert takes[..i + 1][..i] == takes[..i];
      now := Returns(now, takes[i], deadline);
    }
    assert takes[..|takes|] == takes;
  }

  function Sum(takes: seq<nat>): nat {
    if takes == [] then 0 else Sum(takes[..|takes| - 1]) + takes[|takes| - 1]
  }

  /** A loop of calls ends by its deadline, or at once when that has passed; and it ends
      there exactly when the calls would take longer. */
  lemma {:induction false} LoopEnds(at: int, takes: seq<nat>, deadline: int)
    ensures ReturnsAll(at, takes, deadline) == Max(at, Lesser(at + Sum(takes), deadline))
  {
    if takes != [] {
      LoopEnds(at, takes[..|takes| - 1], deadline);
    }
  }

  // --- a shard ---

  /** What the calls of a shard would take: the checks, the provider, the marks. */
  datatype ShardCalls = ShardCalls(checks: seq<nat>, send: nat, marks: seq<nat>)

  datatype ShardTimes = ShardTimes(begun: int, checked: int, answered: int, marked: int)

  /** The shard that begins at `begun` when the send context ends at `sendEnd`: nothing
      when it has ended, else checks under a grace within it, the send under it, and the
      marks under a grace of their own. */
  function ShardRuns(s: ShardCalls, begun: int, sendEnd: int): ShardTimes {
    if begun >= sendEnd then ShardTimes(begun, begun, begun, begun) else
      var checked := ReturnsAll(begun, s.checks, Lesser(begun + DEDUP_GRACE, sendEnd));
      var answered := Returns(checked, s.send, sendEnd);
      ShardTimes(begun, checked, answered, ReturnsAll(answered, s.marks, answered + DEDUP_GRACE))
  }

  /** The time a shard takes, in closed form, with `room` left of the send context. */
  function ShardTakes(s: ShardCalls, room: int): int {
    if room <= 0 then 0 else
      var checks := Lesser(Sum(s.checks), Lesser(DEDUP_GRACE, room));
      checks + Lesser(s.send, room - checks) + Lesser(Sum(s.marks), DEDUP_GRACE)
  }

  lemma ShardTime(s: ShardCalls, begun: int, sendEnd: int)
    ensures var t := ShardRuns(s, begun, sendEnd);
      && t.begun <= t.checked <= t.answered <= t.marked
      && t.marked == begun + ShardTakes(s, sendEnd - begun)
      && t.answered <= Max(begun, sendEnd)
      && t.marked <= Max(begun, sendEnd + DEDUP_GRACE)
  {
    if begun < sendEnd {
      var checkEnd := Lesser(begun + DEDUP_GRACE, sendEnd);
      LoopEnds(begun, s.checks, checkEnd);
      var t := ShardRuns(s, begun, sendEnd);
      LoopEnds(t.answered, s.marks, t.answered + DEDUP_GRACE);
    }
  }

  // --- a tick ---

  /** opening: the calls up to and including the claim; closing: the statements that settle
      and the commit or rollback. stop: when the send context is cancelled, by shutdown or
      by a shard, if that is before the budget has run out. */
  datatype TickCalls = TickCalls(opening: seq<nat>, shards: seq<ShardCalls>, stop: int, closing: seq<nat>)

  function SendEnd(c: Config, start: int, t: TickCalls): int {
    Lesser(start + c.budget, t.stop)
  }

  function ClaimedAt(c: Config, start: int, t: TickCalls): int {
    ReturnsAll(start, t.opening, start + c.SettleWindow())
  }

  /** The shards run side by side; the tick waits for the last. */
  function Joined(shards: seq<ShardCalls>, begun: int, sendEnd: int): int {
    if shards == [] then begun else
      Max(Joined(shards[..|shards| - 1], begun, sendEnd), ShardRuns(shards[|shards| - 1], begun, sendEnd).marked)
  }

  function Dispatched(c: Config, start: int, t: TickCalls): int {
    Joined(t.shards, ClaimedAt(c, start, t), SendEnd(c, start, t))
  }

  function TickEnd(c: Config, start: int, t: TickCalls): int {
    ReturnsAll(Dispatched(c, start, t), t.closing, start + c.SettleWindow())
  }

  lemma {:induction false} JoinedEnds(shards: seq<ShardCalls>, begun: int, sendEnd: int)
    ensures begun <= Joined(shards, begun, sendEnd) <= Max(begun, sendEnd + DEDUP_GRACE)
    ensures forall k :: 0 <= k < |shards| ==> ShardRuns(shards[k], begun, sendEnd).marked <= Joined(shards, begun, sendEnd)
    ensures Joined(shards, begun, sendEnd) == begun ||
            exists k :: 0 <= k < |shards| && ShardRuns(shards[k], begun, sendEnd).marked == Joined(shards, begun, sendEnd)
  {
    if shards != [] {
      var n := |shards| - 1;
      JoinedEnds(shards[..n], begun, sendEnd);
      ShardTime(shards[n], begun, sendEnd);
      hide ShardRuns;
      forall k | 0 <= k < |shards|
        ensures ShardRuns(shards[k], begun, sendEnd).marked <= Joined(shards, begun, sendEnd)
      {
        assert k < n ==> shards[..n][k] == shards[k];
      }
      if k :| 0 <= k < n && ShardRuns(shards[..n][k], begun, sendEnd).marked == Joined(shards[..n], begun, sendEnd) {
        assert shards[k] == shards[..n][k];
      }
    }
  }

  /** Every answer is in by the end of the budget and every mark a grace later, unless the
      claim took that long and there is nothing to send; and however long each call would
      take, the tick ends within its window. */
  lemma TickWithinWindow(c: Config, start: int, t: TickCalls)
    requires c.Valid()
    ensures start <= ClaimedAt(c, start, t) <= Dispatched(c, start, t) <= TickEnd(c, start, t) <= start + c.SettleWindow()
    ensures forall k :: 0 <= k < |t.shards| ==>
      var s := ShardRuns(t.shards[k], ClaimedAt(c, start, t), SendEnd(c, start, t));
      && s.marked <= Dispatched(c, start, t)
      && s.answered <= Max(ClaimedAt(c, start, t), start + c.budget)
      && s.marked <= Max(ClaimedAt(c, start, t), start + c.budget + DEDUP_GRACE)
  {
    hide ReturnsAll, ShardRuns, Joined, Sum;
    LoopEnds(start, t.opening, start + c.SettleWindow());
    var begun, sendEnd := ClaimedAt(c, start, t), SendEnd(c, start, t);
    JoinedEnds(t.shards, begun, sendEnd);
    LoopEnds(Dispatched(c, start, t), t.closing, start + c.SettleWindow());
    forall k | 0 <= k < |t.shards|
      ensures ShardRuns(t.shards[k], begun, sendEnd).answered <= Max(begun, start + c.budget)
      ensures ShardRuns(t.shards[k], begun, sendEnd).marked <= Max(begun, start + c.budget + DEDUP_GRACE)
    {
      ShardTime(t.shards[k], begun, sendEnd);
    }
  }

  /** When the last shard is done the transaction has its whole settle grace left, exactly
      when the claim came back early enough for it. */
  lemma GraceLeftToSettle(c: Config, start: int, t: TickCalls)
    requires c.Valid()
    ensures Dispatched(c, start, t) + SETTLE_GRACE <= start + c.SettleWindow() <==>
            ClaimedAt(c, start, t) <= start + c.budget + DEDUP_GRACE
  {
    hide ReturnsAll, Joined;
    JoinedEnds(t.shards, ClaimedAt(c, start, t), SendEnd(c, start, t));
  }

  // --- past the budget ---

  /** The rows stay locked until the tick ends. */
  predicate HoldsPastBudget(c: Config, start: int, t: TickCalls) {
    TickEnd(c, start, t) > start + c.budget
  }

  /** What the calls of a tick would take, its slowest shard being number k. */
  function Stretch(c: Config, start: int, t: TickCalls, k: nat): int
    requires k < |t.shards|
  {
    Sum(t.opening) + ShardTakes(t.shards[k], SendEnd(c, start, t) - start - Sum(t.opening)) + Sum(t.closing)
  }

  lemma ShardStretch(c: Config, start: int, t: TickCalls, k: nat)
    requires c.Valid() && k < |t.shards| && Sum(t.opening) <= c.SettleWindow()
    ensures ShardRuns(t.shards[k], ClaimedAt(c, start, t), SendEnd(c, start, t)).marked + Sum(t.closing) ==
            start + Stretch(c, start, t, k)
  {
    hide ReturnsAll, ShardRuns, Sum, ShardTakes;
    LoopEnds(start, t.opening, start + c.SettleWindow());
    ShardTime(t.shards[k], ClaimedAt(c, start, t), SendEnd(c, start, t));
  }

  /** The budget ends sending, not the tick: rows are held past it exactly when the claim
      and the settlement together would take longer, or they and some shard would. */
  lemma HoldsPastBudgetIff(c: Config, start: int, t: TickCalls)
    requires c.Valid()
    ensures HoldsPastBudget(c, start, t) <==>
      Sum(t.opening) + Sum(t.closing) > c.budget || exists k :: 0 <= k < |t.shards| && Stretch(c, start, t, k) > c.budget
  {
    hide ReturnsAll, Joined, ShardRuns, Sum, Stretch;
    var begun, sendEnd, window := ClaimedAt(c, start, t), SendEnd(c, start, t), start + c.SettleWindow();
    LoopEnds(start, t.opening, window);
    JoinedEnds(t.shards, begun, sendEnd);
    TickWithinWindow(c, start, t);
    LoopEnds(Dispatched(c, start, t), t.closing, window);
    if Sum(t.opening) <= c.SettleWindow() {
      forall k | 0 <= k < |t.shards|
        ensures ShardRuns(t.shards[k], begun, sendEnd).marked + Sum(t.closing) == start + Stretch(c, start, t, k)
      {
        ShardStretch(c, start, t, k);
      }
    }
  }

  lemma SumOne(n: nat)
    ensures Sum([n]) == n && Sum([]) == 0
  {
    assert [n][..0] == [];
  }

  /** A tick whose one send, mark and settlement are as slow as they can be holds its rows
      for the whole window: six seconds more than the budget. */
  lemma HoldsForWindow(c: Config, start: int) returns (t: TickCalls)
    requires c.Valid()
    ensures TickEnd(c, start, t) == start + c.SettleWindow() == start + c.budget + 6 * SECOND
    ensures ClaimedAt(c, start, t) == start && HoldsPastBudget(c, start, t)
  {
    t := TickCalls([], [ShardCalls([], c.budget, [DEDUP_GRACE])], start + c.budget, [SETTLE_GRACE]);
    SumOne(DEDUP_GRACE);
    SumOne(SETTLE_GRACE);
    var shard := ShardRuns(t.shards[0], start, start + c.budget);
    assert shard.checked == start && shard.answered == start + c.budget;
    assert t.shards[..0] == [];
    assert Joined(t.shards, start, start + c.budget) == Max(start, shard.marked);
    LoopEnds(start + c.budget, [DEDUP_GRACE], start + c.budget + DEDUP_GRACE);
    LoopEnds(Dispatched(c, start, t), t.closing, start + c.SettleWindow());
  }
}
