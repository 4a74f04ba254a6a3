/** The shutdown budget: the relay's loop, the closer's two phases, and the configuration
    check that ties the longest tick to the length of a phase. Times are nanoseconds; how
    long a tick takes is worked out in TickTime. */
module Shutdown {
  import opened Prelude
  import opened Outbox
  import opened TickTime

  datatype CloserConfig = CloserConfig(total: int, phase: int) {
    predicate Valid() {
      total > 0 && phase > 0 && phase <= total / 2
    }
  }

  /** The parts of the application's Validate that the budget rests on. */
  predicate ConfigValid(outbox: Config, closer: CloserConfig) {
    closer.Valid() && outbox.Valid() && outbox.SettleWindow() <= closer.phase
  }

  // --- the relay's loop ---

  /** A firing of the ticker the loop received, and the calls of the tick it starts. */
  datatype Firing = Firing(at: int, calls: TickCalls)

  function Ends(c: Config, f: Firing): int {
    TickEnd(c, f.at, f.calls)
  }

  /** The loop receives a firing only when the tick before has ended. */
  predicate Firings(c: Config, firings: seq<Firing>, from: int) {
    firings == [] || (firings[0].at >= from && Firings(c, firings[1..], Ends(c, firings[0])))
  }

  /** The ticks the loop runs when the context is cancelled at `cancel`; a firing at or
      after that finds the context cancelled. */
  function Ticks(firings: seq<Firing>, cancel: int): (ran: seq<Firing>)
    ensures |ran| <= |firings|
  {
    if firings == [] || firings[0].at >= cancel then [] else [firings[0]] + Ticks(firings[1..], cancel)
  }

  /** When the loop then closes done. */
  function DoneAt(c: Config, ran: seq<Firing>, cancel: int): int {
    if ran == [] then cancel else Max(cancel, Ends(c, ran[|ran| - 1]))
  }

  lemma NextFiring(c: Config, firings: seq<Firing>, i: nat, ran: seq<Firing>, now: int, cancel: int)
    requires c.Valid() && i < |firings| && Firings(c, firings[i..], now)
    ensures var next, all := firings[i], ran + Ticks(firings[i..], cancel);
      && now <= next.at <= Ends(c, next) && Firings(c, firings[i + 1..], Ends(c, next))
      && all == if next.at >= cancel then ran else (ran + [next]) + Ticks(firings[i + 1..], cancel)
  {
    hide TickEnd;
    var next := firings[i];
    TickWithinWindow(c, next.at, next.calls);
    assert firings[i..][1..] == firings[i + 1..];
    if next.at >= cancel {
      assert ran + [] == ran;
    } else {
      assert ran + ([next] + Ticks(firings[i + 1..], cancel)) == (ran + [next]) + Ticks(firings[i + 1..], cancel);
    }
  }

  method Run(c: Config, firings: seq<Firing>, start: int, cancel: int) returns (ran: seq<Firing>, done: int)
    requires c.Valid() && Firings(c, firings, start) && start <= cancel
    ensures ran == Ticks(firings, cancel) && done == DoneAt(c, ran, cancel)
    ensures |ran| <= |firings| && ran == firings[..|ran|]
    ensures forall i :: 0 <= i < |ran| ==> ran[i].at < cancel
    ensures |ran| < |firings| ==> firings[|ran|].at >= cancel
    ensures done >= cancel && (ran != [] ==> done >= Ends(c, ran[|ran| - 1]))
    ensures done == cancel || (ran != [] && done == Ends(c, ran[|ran| - 1]))
  {
    hide Ends;
    ran := [];
    var i, now := 0, start;
    while i < |firings|
      invariant 0 <= i <= |firings|
      invariant Firings(c, firings[i..], now)
      invariant ran == firings[..i] && forall k :: 0 <= k < i ==> ran[k].at < cancel
      invariant ran + Ticks(firings[i..], cancel) == Ticks(firings, cancel)
      invariant Max(cancel, now) == DoneAt(c, ran, cancel)
    {
      var next := firings[i];
      NextFiring(c, firings, i, ran, now, cancel);
      if next.at >= cancel {
        return ran, Max(cancel, now);
      }
      ran := ran + [next];
      now := Ends(c, next);
      i := i + 1;
    }
    assert ran + [] == ran;
    done := Max(cancel, now);
  }

  /** One tick after another, each started before `cancel` and no longer than a window. */
  predicate OneByOne(c: Config, ran: seq<Firing>, from: int, cancel: int) {
    && (forall i :: 0 <= i < |ran| ==> from <= ran[i].at < cancel)
    && (forall i :: 0 <= i < |ran| ==> ran[i].at <= Ends(c, ran[i]) <= ran[i].at + c.SettleWindow())
    && (forall i, j :: 0 <= i < j < |ran| ==> Ends(c, ran[i]) <= ran[j].at)
  }

  lemma {:induction false} TicksOneByOne(c: Config, firings: seq<Firing>, start: int, cancel: int)
    requires c.Valid() && Firings(c, firings, start)
    ensures OneByOne(c, Ticks(firings, cancel), start, cancel)
    decreases |firings|
  {
    hide OneByOne, Ends;
    if firings != [] && firings[0].at < cancel {
      TicksOneByOne(c, firings[1..], Ends(c, firings[0]), cancel);
      Prepend(c, firings[0], Ticks(firings[1..], cancel), start, cancel);
    } else {
      NoTicks(c, start, cancel);
    }
  }

  lemma NoTicks(c: Config, from: int, cancel: int)
    ensures OneByOne(c, [], from, cancel)
  {
  }

  lemma Prepend(c: Config, first: Firing, rest: seq<Firing>, from: int, cancel: int)
    requires c.Valid() && from <= first.at < cancel
    requires OneByOne(c, rest, Ends(c, first), cancel)
    ensures OneByOne(c, [first] + rest, from, cancel)
  {
    hide TickEnd;
    TickWithinWindow(c, first.at, first.calls);
    var ran := [first] + rest;
    assert forall i :: 1 <= i < |ran| ==> ran[i] == rest[i - 1];
  }

  /** Ticks run one after another, none starts once the context is cancelled, and the one
      in flight then ends within a window. */
  lemma {:induction false} TicksEnd(c: Config, firings: seq<Firing>, start: int, cancel: int)
    requires c.Valid() && Firings(c, firings, start)
    ensures var ran := Ticks(firings, cancel);
      && OneByOne(c, ran, start, cancel)
      && (forall i :: 0 <= i < |ran| ==> Ends(c, ran[i]) <= DoneAt(c, ran, cancel))
      && cancel <= DoneAt(c, ran, cancel) < cancel + c.SettleWindow()
  {
    hide Ticks, Firings, Ends;
    TicksOneByOne(c, firings, start, cancel);
    var ran := Ticks(firings, cancel);
    var n := |ran| - 1;
    assert forall i :: 0 <= i < n ==> Ends(c, ran[i]) <= ran[n].at;
  }

  // --- the closer ---

  /** When the closers of a phase report, in the order they do; one that panics reports too. */
  predicate Ordered(reports: seq<int>) {
    forall i, j :: 0 <= i < j < |reports| ==> reports[i] <= reports[j]
  }

  method RunPhase(start: int, deadline: int, closers: nat, reports: seq<int>) returns (end: int, abandoned: nat)
    requires start <= deadline && |reports| <= closers && Ordered(reports)
    ensures start <= end <= deadline
    ensures abandoned == 0 <==> |reports| == closers && forall i :: 0 <= i < closers ==> reports[i] <= deadline
    ensures abandoned > 0 ==> end == deadline
    ensures var n := closers - abandoned;
      && 0 <= n <= |reports| && (forall i :: 0 <= i < n ==> reports[i] <= deadline)
      && (n < |reports| ==> reports[n] > deadline)
    ensures abandoned == 0 ==> forall i :: 0 <= i < closers ==> reports[i] <= end
    ensures abandoned == 0 && end > start ==> end in reports
  {
    end, abandoned := start, 0;
    for i := 0 to closers
      invariant start <= end <= deadline && i <= |reports|
      invariant forall k :: 0 <= k < i ==> reports[k] <= end
      invariant end == start || end in reports
    {
      if i == |reports| || reports[i] > deadline {
        end, abandoned := deadline, closers - i;
        return;
      }
      end := Max(end, reports[i]);
    }
  }

  function StartedAt(functions: seq<int>, at: int): (log: seq<(int, int)>)
    ensures |log| == |functions| && forall i :: 0 <= i < |log| ==> log[i] == (functions[i], at)
  {
    seq(|functions|, i requires 0 <= i < |functions| => (functions[i], at))
  }

  /** Functions to call at shutdown, each by a number. */
  class Closer {
    const config: CloserConfig
    var drain: seq<int>
    var close: seq<int>
    var ran: bool
    ghost var started: seq<(int, int)>   // every function called, and when

    constructor (config: CloserConfig)
      ensures this.config == config && drain == [] && close == [] && !ran && started == []
    {
      this.config, drain, close, ran, started := config, [], [], false, [];
    }

    method AddDrain(functions: seq<int>)
      modifies this`drain
      ensures drain == old(drain) + functions
    {
      drain := drain + functions;
    }

    method AddClose(functions: seq<int>)
      modifies this`close
      ensures close == old(close) + functions
    {
      close := close + functions;
    }

    /** drained and released: when the functions of each phase report. A second call finds
        nothing left to do; the first calls every function once, the drains together at the
        start, the closes together when the drains have reported or their phase is over. */
    method ShutDown(start: int, drained: seq<int>, released: seq<int>) returns (releaseAt: int, end: int)
      requires config.Valid()
      requires |drained| <= |drain| && Ordered(drained) && |released| <= |close| && Ordered(released)
      modifies this
      ensures ran
      ensures start <= releaseAt <= end <= start + config.total
      ensures releaseAt <= start + config.phase && releaseAt + config.phase <= start + config.total
      ensures old(ran) ==> end == start && started == old(started) && drain == old(drain) && close == old(close)
      ensures !old(ran) ==>
        && drain == [] && close == []
        && started == old(started) + StartedAt(old(drain), start) + StartedAt(old(close), releaseAt)
        && (releaseAt < start + config.phase ==> |drained| == |old(drain)|)
        && (forall i :: 0 <= i < |drained| && drained[i] <= start + config.phase ==> drained[i] <= releaseAt)
        && (end < releaseAt + config.phase ==> |released| == |old(close)|)
    {
      if ran {
        return start, start;
      }
      ran := true;
      var dr, cl := drain, close;
      drain, close := [], [];
      var deadline := start + config.total;
      var abandoned;
      started := started + StartedAt(dr, start);
      releaseAt, abandoned := RunPhase(start, Lesser(start + config.phase, deadline), |dr|, drained);
      started := started + StartedAt(cl, releaseAt);
      end, abandoned := RunPhase(releaseAt, Lesser(releaseAt + config.phase, deadline), |cl|, released);
    }
  }

  // --- together ---

  /** The relay, told to stop `late` after the drain phase began, is done within the phase. */
  predicate Settles(c: Config, firings: seq<Firing>, start: int, began: int, late: nat, phase: int) {
    Firings(c, firings, start) && start < began ==>
      DoneAt(c, Ticks(firings, began + late), began + late) <= began + phase
  }

  /** Whatever the ticks before did, the last one has committed or rolled back within the
      phase, exactly when the window fits into what a late stop leaves of it. */
  lemma SettledWithinPhaseIff(outbox: Config, closer: CloserConfig, late: nat)
    requires outbox.Valid() && closer.Valid()
    ensures outbox.SettleWindow() + late <= closer.phase + 1 <==>
      forall firings, start, began :: Settles(outbox, firings, start, began, late, closer.phase)
  {
    hide Ends;
    if outbox.SettleWindow() + late <= closer.phase + 1 {
      forall firings, start, began
        ensures Settles(outbox, firings, start, began, late, closer.phase)
      {
        if Firings(outbox, firings, start) {
          TicksEnd(outbox, firings, start, began + late);
        }
      }
    } else {
      LateTick(outbox, late, closer.phase);
    }
  }

  /** A tick that starts just before the stop and whose claim hangs. */
  lemma LateTick(c: Config, late: nat, phase: int)
    requires c.Valid() && c.SettleWindow() + late > phase + 1
    ensures !Settles(c, [Firing(late, TickCalls([c.SettleWindow()], [], late, []))], 0, 1, late, phase)
  {
    var last := Firing(late, TickCalls([c.SettleWindow()], [], late, []));
    LoopEnds(late, last.calls.opening, late + c.SettleWindow());
    SumOne(c.SettleWindow());
    assert Ends(c, last) == late + c.SettleWindow();
    hide Ends;
    assert [last][1..] == [];
    assert Firings(c, [], Ends(c, last));
    assert Firings(c, [last], 0);
    assert Ticks([], 1 + late) == [];
    assert Ticks([last], 1 + late) == [last];
  }

  /** With a validated configuration and a stop that comes at once, the database is closed
      only after the tick in flight has settled, no tick runs later, and the release phase
      still has its full length within the total. */
  method ShutDownApp(outbox: Config, closer: Closer, firings: seq<Firing>, start: int, began: int,
                     drained: seq<int>, released: seq<int>)
    returns (ran: seq<Firing>, done: int, releaseAt: int, end: int)
    requires ConfigValid(outbox, closer.config) && !closer.ran
    requires Firings(outbox, firings, start) && start <= began
    requires |drained| <= |closer.drain| && Ordered(drained) && |released| <= |closer.close| && Ordered(released)
    // Drain reports when the loop has closed done, if that is within the phase
    requires var done := DoneAt(outbox, Ticks(firings, began), began);
             done <= began + closer.config.phase ==> done in drained
    modifies closer
    ensures forall i :: 0 <= i < |ran| ==> ran[i].at < began && Ends(outbox, ran[i]) <= releaseAt
    ensures done <= releaseAt && releaseAt + closer.config.phase <= began + closer.config.total
    ensures end <= began + closer.config.total
    ensures closer.started ==
      old(closer.started) + StartedAt(old(closer.drain), began) + StartedAt(old(closer.close), releaseAt)
  {
    hide Ends, Firings, Ticks;
    ran, done := Run(outbox, firings, start, began);
    TicksEnd(outbox, firings, start, began);
    releaseAt, end := closer.ShutDown(began, drained, released);
    assert done in drained;
  }
}
