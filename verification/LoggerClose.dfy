/** The logger pool's drop counter, which nothing guards, and its Close, which returns under
    every scheduling but may leave entries behind. */
module LoggerClose {
  import opened LoggerPool

  // ---------------------------------------------------------------------------------
  // The drop counter.

  /** Among the first n steps no drop starts between another's read and write. */
  ghost predicate Serial(ss: seq<State>, steps: seq<Step>, n: nat) {
    forall i | 0 <= i < n && i < |steps| && i < |ss| :: steps[i].Drop? ==> ss[i].pending == []
  }

  /** No write in flight can bring the counter above what was lost. */
  ghost predicate Bounded(s: State) {
    s.dropped + |s.pending| <= s.lost && forall i | 0 <= i < |s.pending| :: s.pending[i] + |s.pending| <= s.lost
  }

  /** All drops are counted, or will be once the one in flight is written. */
  predicate Exact(s: State) {
    s.dropped + |s.pending| == s.lost && (s.pending == [] || s.pending == [s.dropped])
  }

  /** At least one drop will never be counted, whatever is written from here on. */
  predicate Lagging(s: State) {
    match |s.pending|
    case 0 => s.dropped < s.lost
    case 1 => s.pending[0] + 1 < s.lost
    case _ => true
  }

  lemma CounterStep(s: State, step: Step)
    requires Enabled(s, step) && Bounded(s)
    ensures Bounded(After(s, step))
    ensures Exact(s) && (step.Drop? ==> s.pending == []) ==> Exact(After(s, step))
    ensures Lagging(s) || (step.Drop? && s.pending != []) ==> Lagging(After(s, step))
  {
    if step.WriteDropped? {
      var rest := s.pending[..step.i] + s.pending[step.i + 1..];
      assert forall k | 0 <= k < |rest| :: rest[k] == s.pending[if k < step.i then k else k + 1];
    }
  }

  lemma {:induction false} CounterAlong(ss: seq<State>, steps: seq<Step>, n: nat)
    requires IsRun(ss, steps) && n < |ss| && ss[0].dropped == ss[0].lost && ss[0].pending == []
    ensures Bounded(ss[n]) && if Serial(ss, steps, n) then Exact(ss[n]) else Lagging(ss[n])
  {
    if n > 0 {
      CounterAlong(ss, steps, n - 1);
      assert ss[n - 1 + 1] == After(ss[n - 1], steps[n - 1]);
      CounterStep(ss[n - 1], steps[n - 1]);
      assert Serial(ss, steps, n) <==> Serial(ss, steps, n - 1) && (steps[n - 1].Drop? ==> ss[n - 1].pending == []);
    }
  }

  /** With drops one at a time the counter is exact, write in flight included. */
  lemma SerialDropsAreCounted(ss: seq<State>, steps: seq<Step>, n: nat)
    requires IsRun(ss, steps) && n < |ss| && Serial(ss, steps, n)
    requires ss[0].dropped == ss[0].lost && ss[0].pending == []
    ensures ss[n].dropped + |ss[n].pending| == ss[n].lost
    ensures ss[n].pending == [] || ss[n].pending == [ss[n].dropped]
  {
    CounterAlong(ss, steps, n);
  }

  /** From a counter that is right, and whenever no write is in flight, the counter is right
      again exactly if no drop ever started while another was between its read and write. */
  lemma CounterIsExactIff(ss: seq<State>, steps: seq<Step>, n: nat)
    requires IsRun(ss, steps) && n < |ss| && ss[0].dropped == ss[0].lost && ss[0].pending == []
    requires ss[n].pending == []
    ensures ss[n].dropped <= ss[n].lost
    ensures ss[n].dropped == ss[n].lost <==> Serial(ss, steps, n)
  {
    CounterAlong(ss, steps, n);
  }

  /** And overlaps do happen: two drops that count as one. */
  lemma OverlappingDropsCanUndercount() returns (ss: seq<State>, steps: seq<Step>)
    ensures IsRun(ss, steps) && ss[0] == Fresh(1, 1, 0)
    ensures var last := ss[|steps|]; last.pending == [] && last.lost == 2 && last.dropped == 1
  {
    steps := [Accept("a"), Drop("b"), Drop("c"), WriteDropped(0), WriteDropped(0)];
    var s0 := Fresh(1, 1, 0);
    var s1 := After(s0, Accept("a"));
    var s2 := After(s1, Drop("b"));
    var s3 := After(s2, Drop("c"));
    var s4 := After(s3, WriteDropped(0));
    var s5 := After(s4, WriteDropped(0));
    assert s4.pending == [0];
    ss := [s0, s1, s2, s3, s4, s5];
  }

  // ---------------------------------------------------------------------------------
  // Close returns.

  function Weight(w: Worker, stores: nat): nat {
    match w
    case Idle => 1
    case Busy(_, store) => if store <= stores then 2 + stores - store else 2
    case Gone => 0
  }

  function Weights(ws: seq<Worker>, stores: nat): nat {
    if ws == [] then 0 else Weights(ws[..|ws| - 1], stores) + Weight(ws[|ws| - 1], stores)
  }

  lemma {:induction false} WeightsUpdate(ws: seq<Worker>, stores: nat, w: nat, x: Worker)
    requires w < |ws|
    ensures Weights(ws[w := x], stores) == Weights(ws, stores) - Weight(ws[w], stores) + Weight(x, stores)
  {
    var n := |ws| - 1;
    if w < n {
      WeightsUpdate(ws[..n], stores, w, x);
      assert ws[w := x][..n] == ws[..n][w := x];
    } else {
      assert ws[w := x][..n] == ws[..n];
    }
  }

  function QueueWeight(n: nat, stores: nat): nat {
    if n == 0 then 0 else QueueWeight(n - 1, stores) + stores + 2
  }

  /** How much is left to do once Close has begun. */
  function Measure(s: State): nat {
    QueueWeight(|s.queue|, s.stores) + Weights(s.workers, s.stores) + |s.pending|
    + match s.closer case Open => 3 case ChannelClosed => 2 case Cancelled => 1 case Returned => 0
  }

  lemma ClosingStepsDecrease(s: State, step: Step)
    requires Enabled(s, step) && s.closer != Open
    ensures Measure(After(s, step)) < Measure(s) && After(s, step).closer != Open
    ensures After(s, step).stores == s.stores
  {
    match step
    case Take(w) => WeightsUpdate(s.workers, s.stores, w, Busy(|s.taken|, 0));
    case Deliver(w) =>
      WeightsUpdate(s.workers, s.stores, w, Busy(s.workers[w].id, s.workers[w].store + 1));
    case Next(w) => WeightsUpdate(s.workers, s.stores, w, Idle);
    case Exit(w) => WeightsUpdate(s.workers, s.stores, w, Gone);
    case _ =>
  }

  /** Until Close has returned, something can happen that takes nothing from the queue. */
  lemma ClosingIsNeverStuck(s: State) returns (step: Step)
    requires s.closer != Open && s.closer != Returned
    ensures Enabled(s, step) && !step.Take?
  {
    if s.closer == ChannelClosed {
      step := Cancel;
    } else if w :| 0 <= w < |s.workers| && s.workers[w] != Gone {
      step := match s.workers[w]
              case Idle => Exit(w)
              case Busy(_, store) => if store < s.stores then Deliver(w) else Next(w);
    } else {
      step := Return;
    }
  }

  /** Once Close has begun, no run has more steps than the measure allows; and one that can go
      no further has returned: Close terminates under every scheduling. */
  lemma CloseTerminates(ss: seq<State>, steps: seq<Step>)
    requires IsRun(ss, steps) && ss[0].closer != Open
    ensures |steps| <= Measure(ss[0])
    ensures var last := ss[|ss| - 1];
            (forall step :: !Enabled(last, step)) ==> last.closer == Returned
  {
    var n := |steps|;
    ClosedStaysClosed(ss, steps, n);
    var last := ss[n];
    if last.closer != Returned {
      var step := ClosingIsNeverStuck(last);
    }
  }

  lemma {:induction false} ClosedStaysClosed(ss: seq<State>, steps: seq<Step>, n: nat)
    requires IsRun(ss, steps) && ss[0].closer != Open && n < |ss|
    ensures ss[n].closer != Open && Measure(ss[n]) + n <= Measure(ss[0])
  {
    if n > 0 {
      ClosedStaysClosed(ss, steps, n - 1);
      assert ss[n - 1 + 1] == After(ss[n - 1], steps[n - 1]);
      ClosingStepsDecrease(ss[n - 1], steps[n - 1]);
    }
  }

  /** When Close returns no entry is half-way: what was taken went to every store, and the
      undelivered entries are exactly the queue. */
  lemma ReturnLeavesOnlyTheQueue(s: State)
    requires Inv(s) && s.closer == Returned
    ensures Through(s) == Below(|s.taken|) && s.accepted == s.taken + s.queue
    ensures forall id: nat | id < |s.taken| :: OfferedTo(s.log, id) == UpTo(s.stores)
    ensures |Through(s)| == |s.accepted| <==> s.queue == []
  {
    HeldIdsAre(s.workers);
    BelowIsAll(|s.taken|);
    forall id: nat | id < |s.taken| ensures OfferedTo(s.log, id) == UpTo(s.stores) {
      assert !InHand(s, id);
    }
  }

  /** Once Close has begun the queue only shrinks. */
  lemma {:induction false} QueueShrinks(ss: seq<State>, steps: seq<Step>, n: nat)
    requires IsRun(ss, steps) && n < |ss| && ss[0].closer != Open
    ensures |ss[n].queue| <= |ss[0].queue|
  {
    if n > 0 {
      QueueShrinks(ss, steps, n - 1);
      ClosedStaysClosed(ss, steps, n - 1);
      assert ss[n - 1 + 1] == After(ss[n - 1], steps[n - 1]);
    }
  }

  lemma RunCons(s: State, step: Step, ss: seq<State>, steps: seq<Step>)
    requires IsRun(ss, steps) && Enabled(s, step) && ss[0] == After(s, step)
    ensures IsRun([s] + ss, [step] + steps)
  {
    var all, done := [s] + ss, [step] + steps;
    forall i | 0 <= i < |done| ensures Enabled(all[i], done[i]) && all[i + 1] == After(all[i], done[i]) {
      if i > 0 { assert done[i] == steps[i - 1] && all[i] == ss[i - 1] && all[i + 1] == ss[i]; }
    }
  }

  /** From any state of a Close under way, a run to its return that delivers nothing more from
      the queue: the workers see the cancelled context first. */
  lemma {:induction false} LosingRun(s: State) returns (ss: seq<State>, steps: seq<Step>)
    requires s.closer != Open
    ensures IsRun(ss, steps) && ss[0] == s && ss[|steps|].closer == Returned && ss[|steps|].queue == s.queue
    decreases Measure(s)
  {
    if s.closer == Returned {
      ss, steps := [s], [];
    } else {
      var step := ClosingIsNeverStuck(s);
      ClosingStepsDecrease(s, step);
      var rest, more := LosingRun(After(s, step));
      RunCons(s, step, rest, more);
      ss, steps := [s] + rest, [step] + more;
    }
  }

  ghost predicate ReturnsEmpty(s: State, ss: seq<State>, steps: seq<Step>) {
    IsRun(ss, steps) && ss[0] == s && ss[|steps|].closer == Returned ==> ss[|steps|].queue == []
  }

  /** Close is sure to deliver what was queued exactly if nothing is queued when it begins. */
  lemma CloseDeliversIff(s: State)
    requires s.closer != Open
    ensures (forall ss: seq<State>, steps: seq<Step> :: ReturnsEmpty(s, ss, steps)) <==> s.queue == []
  {
    var losing, lost := LosingRun(s);
    if s.queue == [] {
      forall ss: seq<State>, steps: seq<Step> ensures ReturnsEmpty(s, ss, steps) {
        if IsRun(ss, steps) && ss[0] == s { QueueShrinks(ss, steps, |steps|); }
      }
    } else {
      assert !ReturnsEmpty(s, losing, lost);
    }
  }

  /** And a pool can get there: an entry accepted right before Close is left behind. */
  lemma CloseCanLeaveEntries() returns (ss: seq<State>, steps: seq<Step>)
    ensures IsRun(ss, steps) && ss[0] == Fresh(1, 1, 1)
    ensures var last := ss[|steps|]; last.closer == Returned && last.queue == ["a"]
  {
    steps := [Accept("a"), CloseChannel, Cancel, Exit(0), Return];
    var s0 := Fresh(1, 1, 1);
    var s1 := After(s0, Accept("a"));
    var s2 := After(s1, CloseChannel);
    var s3 := After(s2, Cancel);
    var s4 := After(s3, Exit(0));
    var s5 := After(s4, Return);
    ss := [s0, s1, s2, s3, s4, s5];
  }
}
