/** The logger pool as interleaved steps of submitters, workers and the closer over a bounded
    channel. Reading and writing the drop counter are separate steps, as nothing guards it. */
module LoggerPool {

  type Entry = string

  /** A worker is waiting, or offering an entry to the stores one by one, or has returned.
      The entry is named by its position among the entries taken from the channel. */
  datatype Worker = Idle | Busy(id: nat, store: nat) | Gone

  datatype Closer = Open | ChannelClosed | Cancelled | Returned

  datatype Offer = Offer(id: nat, store: nat)

  datatype State = State(
    cap: nat, stores: nat, queue: seq<Entry>, workers: seq<Worker>, closer: Closer,
    dropped: nat, pending: seq<nat>,
    // what happened so far
    submitted: nat, lost: nat, accepted: seq<Entry>, taken: seq<Entry>, log: seq<Offer>)

  function Fresh(workers: int, cap: int, stores: nat): State {
    State(if cap <= 0 then 1024 else cap, stores, [],
          seq(if workers <= 0 then 4 else workers, _ => Idle), Open, 0, [], 0, 0, [], [], [])
  }

  datatype Step =
    | Accept(e: Entry)         // Submit finds room
    | Drop(e: Entry)           // Submit finds the channel full, and reads the counter
    | WriteDropped(i: nat)     // ... and writes it back, one higher
    | Take(w: nat)             // a worker receives
    | Deliver(w: nat)          // a worker offers its entry to the next store
    | Next(w: nat)             // a worker is through all stores and selects again
    | Exit(w: nat)             // a worker sees the context done, or the channel closed and empty
    | CloseChannel | Cancel | Return

  /** Submit is not called once Close has begun: the send would panic. */
  predicate Enabled(s: State, step: Step) {
    match step
    case Accept(_) => s.closer == Open && |s.queue| < s.cap
    case Drop(_) => s.closer == Open && |s.queue| >= s.cap
    case WriteDropped(i) => i < |s.pending|
    case Take(w) => w < |s.workers| && s.workers[w] == Idle && s.queue != []
    case Deliver(w) => w < |s.workers| && s.workers[w].Busy? && s.workers[w].store < s.stores
    case Next(w) => w < |s.workers| && s.workers[w].Busy? && s.workers[w].store >= s.stores
    case Exit(w) =>
      w < |s.workers| && s.workers[w] == Idle
      && (s.closer == Cancelled || (s.closer == ChannelClosed && s.queue == []))
    case CloseChannel => s.closer == Open
    case Cancel => s.closer == ChannelClosed
    case Return => s.closer == Cancelled && forall w | 0 <= w < |s.workers| :: s.workers[w] == Gone
  }

  function After(s: State, step: Step): State
    requires Enabled(s, step)
  {
    match step
    case Accept(e) => s.(queue := s.queue + [e], accepted := s.accepted + [e], submitted := s.submitted + 1)
    case Drop(_) => s.(pending := s.pending + [s.dropped], submitted := s.submitted + 1, lost := s.lost + 1)
    case WriteDropped(i) => s.(dropped := s.pending[i] + 1, pending := s.pending[..i] + s.pending[i + 1..])
    case Take(w) =>
      s.(queue := s.queue[1..], taken := s.taken + [s.queue[0]], workers := s.workers[w := Busy(|s.taken|, 0)])
    case Deliver(w) =>
      var Busy(id, store) := s.workers[w];
      s.(log := s.log + [Offer(id, store)], workers := s.workers[w := Busy(id, store + 1)])
    case Next(w) => s.(workers := s.workers[w := Idle])
    case Exit(w) => s.(workers := s.workers[w := Gone])
    case CloseChannel => s.(closer := ChannelClosed)
    case Cancel => s.(closer := Cancelled)
    case Return => s.(closer := Returned)
  }

  /** A run: every step is enabled in the state it is taken in. */
  ghost predicate IsRun(ss: seq<State>, steps: seq<Step>) {
    && |ss| == |steps| + 1
    && forall i {:trigger steps[i]} | 0 <= i < |steps| :: Enabled(ss[i], steps[i])
         && ss[i + 1] == After(ss[i], steps[i])
  }

  // ---------------------------------------------------------------------------------
  // Safety.

  /** The stores an entry was offered to, in order. */
  function OfferedTo(log: seq<Offer>, id: nat): seq<nat> {
    if log == [] then []
    else OfferedTo(log[..|log| - 1], id) + if log[|log| - 1].id == id then [log[|log| - 1].store] else []
  }

  function UpTo(n: nat): seq<nat> {
    seq(n, i => i)
  }

  /** Worker w has entry id in hand. */
  predicate Holds(s: State, w: nat, id: nat) {
    w < |s.workers| && s.workers[w].Busy? && s.workers[w].id == id
  }

  predicate InHand(s: State, id: nat) {
    exists w: nat | w < |s.workers| :: Holds(s, w, id)
  }

  function CountBusy(ws: seq<Worker>): nat {
    if ws == [] then 0 else CountBusy(ws[..|ws| - 1]) + if ws[|ws| - 1].Busy? then 1 else 0
  }

  ghost predicate Inv(s: State) {
    && s.accepted == s.taken + s.queue
    && |s.queue| <= s.cap
    && s.submitted == s.lost + |s.accepted|
    && s.dropped + |s.pending| <= s.lost
    && (forall i | 0 <= i < |s.pending| :: s.pending[i] + |s.pending| <= s.lost)
    // a worker in the middle of an entry has offered it to exactly the stores so far
    && (forall w: nat | w < |s.workers| && s.workers[w].Busy? ::
          && s.workers[w].id < |s.taken| && s.workers[w].store <= s.stores
          && OfferedTo(s.log, s.workers[w].id) == UpTo(s.workers[w].store))
    // no entry is in two hands, and one in no hand is through
    && (forall v, w, id | Holds(s, v, id) && Holds(s, w, id) :: v == w)
    && (forall id: nat | id < |s.taken| && !InHand(s, id) :: OfferedTo(s.log, id) == UpTo(s.stores))
    && (forall o | o in s.log :: o.id < |s.taken|)
    && (s.closer == Returned ==> forall w | 0 <= w < |s.workers| :: s.workers[w] == Gone)
  }

  lemma {:induction false} UnknownNotOffered(log: seq<Offer>, id: nat)
    requires forall o | o in log :: o.id != id
    ensures OfferedTo(log, id) == []
  {
    if log != [] { UnknownNotOffered(log[..|log| - 1], id); }
  }

  lemma TakeKeepsInv(s: State, w: nat)
    requires Inv(s) && Enabled(s, Take(w))
    ensures Inv(After(s, Take(w)))
  {
    var t := After(s, Take(w));
    UnknownNotOffered(s.log, |s.taken|);
    forall id: nat | id < |t.taken| && !InHand(t, id) ensures OfferedTo(t.log, id) == UpTo(t.stores) {
      assert Holds(t, w, |s.taken|);
      if InHand(s, id) {
        var v: nat :| v < |s.workers| && Holds(s, v, id);
        assert Holds(t, v, id);
      }
    }
    forall u, v, id | Holds(t, u, id) && Holds(t, v, id) ensures u == v {
      assert u != w ==> Holds(s, u, id);
      assert v != w ==> Holds(s, v, id);
    }
  }

  lemma DeliverKeepsInv(s: State, w: nat)
    requires Inv(s) && Enabled(s, Deliver(w))
    ensures Inv(After(s, Deliver(w)))
  {
    var t := After(s, Deliver(w));
    var o := Offer(s.workers[w].id, s.workers[w].store);
    assert Holds(s, w, o.id);
    assert t.log[..|s.log|] == s.log;
    forall v, id | Holds(t, v, id) ensures Holds(s, v, id) {}
    forall id: nat | id < |t.taken| && !InHand(t, id) ensures OfferedTo(t.log, id) == UpTo(t.stores) {
      if InHand(s, id) {
        var v: nat :| v < |s.workers| && Holds(s, v, id);
        assert Holds(t, v, id);
      }
      assert Holds(t, w, o.id);
    }
    forall v: nat | v < |t.workers| && t.workers[v].Busy?
      ensures OfferedTo(t.log, t.workers[v].id) == UpTo(t.workers[v].store)
    {
      assert Holds(t, v, t.workers[v].id) && Holds(s, v, t.workers[v].id);
      if v != w { assert t.workers[v].id != o.id; }
      assert UpTo(o.store + 1) == UpTo(o.store) + [o.store];
    }
  }

  lemma LeaveKeepsInv(s: State, step: Step)
    requires Inv(s) && Enabled(s, step) && (step.Next? || step.Exit?)
    ensures Inv(After(s, step))
  {
    var t := After(s, step);
    forall v, id | Holds(t, v, id) ensures Holds(s, v, id) {}
    forall id: nat | id < |t.taken| && !InHand(t, id) ensures OfferedTo(t.log, id) == UpTo(t.stores) {
      if InHand(s, id) {
        var v: nat :| v < |s.workers| && Holds(s, v, id);
        if v != step.w { assert Holds(t, v, id); }
      }
    }
  }

  lemma OtherKeepsInv(s: State, step: Step)
    requires Inv(s) && Enabled(s, step) && !(step.Take? || step.Deliver? || step.Next? || step.Exit?)
    ensures Inv(After(s, step))
  {
    var t := After(s, step);
    forall v, id | Holds(t, v, id) ensures Holds(s, v, id) {}
    forall v, id | Holds(s, v, id) ensures Holds(t, v, id) {}
    forall id | InHand(s, id) ensures InHand(t, id) {
      var v: nat :| v < |s.workers| && Holds(s, v, id);
      assert Holds(t, v, id);
    }
  }

  lemma StepKeepsInv(s: State, step: Step)
    requires Inv(s) && Enabled(s, step)
    ensures Inv(After(s, step))
  {
    match step
    case Take(w) => TakeKeepsInv(s, w);
    case Deliver(w) => DeliverKeepsInv(s, w);
    case Next(_) => LeaveKeepsInv(s, step);
    case Exit(_) => LeaveKeepsInv(s, step);
    case _ => OtherKeepsInv(s, step);
  }

  lemma {:induction false} RunKeepsInv(ss: seq<State>, steps: seq<Step>, n: nat)
    requires IsRun(ss, steps) && n < |ss| && Inv(ss[0])
    ensures Inv(ss[n])
  {
    if n > 0 {
      RunKeepsInv(ss, steps, n - 1);
      assert ss[n - 1 + 1] == After(ss[n - 1], steps[n - 1]);
      StepKeepsInv(ss[n - 1], steps[n - 1]);
    }
  }

  // ---------------------------------------------------------------------------------
  // Conservation.

  function HeldIds(ws: seq<Worker>): set<nat> {
    if ws == [] then {}
    else HeldIds(ws[..|ws| - 1]) + if ws[|ws| - 1].Busy? then {ws[|ws| - 1].id} else {}
  }

  lemma {:induction false} HeldIdsAre(ws: seq<Worker>)
    ensures forall id :: id in HeldIds(ws) <==> exists w | 0 <= w < |ws| :: ws[w].Busy? && ws[w].id == id
  {
    if ws != [] {
      var n := |ws| - 1;
      HeldIdsAre(ws[..n]);
      forall id ensures id in HeldIds(ws) <==> exists w | 0 <= w < |ws| :: ws[w].Busy? && ws[w].id == id {
        if id in HeldIds(ws[..n]) {
          var w :| 0 <= w < n && ws[..n][w].Busy? && ws[..n][w].id == id;
          assert ws[w].Busy? && ws[w].id == id;
        }
        if w :| 0 <= w < |ws| && ws[w].Busy? && ws[w].id == id {
          if w < n { assert ws[..n][w].Busy? && ws[..n][w].id == id; }
        }
      }
    }
  }

  lemma {:induction false} HeldIdsCount(ws: seq<Worker>)
    requires forall v, w | 0 <= v < w < |ws| && ws[v].Busy? && ws[w].Busy? :: ws[v].id != ws[w].id
    ensures |HeldIds(ws)| == CountBusy(ws)
  {
    if ws != [] {
      HeldIdsCount(ws[..|ws| - 1]);
      HeldIdsAre(ws[..|ws| - 1]);
    }
  }

  function Below(n: nat): set<nat> {
    if n == 0 then {} else Below(n - 1) + {n - 1}
  }

  lemma {:induction false} BelowIsAll(n: nat)
    ensures |Below(n)| == n && forall i :: i in Below(n) <==> 0 <= i < n
  {
    if n > 0 { BelowIsAll(n - 1); }
  }

  /** The taken entries that no worker holds any more: those through all stores. */
  function Through(s: State): set<nat> {
    Below(|s.taken|) - HeldIds(s.workers)
  }

  /** In every reachable state each submitted entry was dropped, or waits in the channel, or is
      in one worker's hand, or is through; entries leave the channel in submission order; and
      an entry that is through was offered to every store exactly once, in order. */
  lemma NothingIsLost(s: State)
    requires Inv(s)
    ensures s.submitted == s.lost + |s.queue| + CountBusy(s.workers) + |Through(s)|
    ensures s.taken + s.queue == s.accepted && |s.queue| <= s.cap
    ensures forall id | id in Through(s) :: OfferedTo(s.log, id) == UpTo(s.stores)
  {
    HeldIdsAre(s.workers);
    forall v, w | 0 <= v < w < |s.workers| && s.workers[v].Busy? && s.workers[w].Busy?
      ensures s.workers[v].id != s.workers[w].id
    {
      assert Holds(s, v, s.workers[v].id) && Holds(s, w, s.workers[w].id);
    }
    HeldIdsCount(s.workers);
    BelowIsAll(|s.taken|);
    assert HeldIds(s.workers) <= Below(|s.taken|);
    assert |Below(|s.taken|) - HeldIds(s.workers)| == |Below(|s.taken|)| - |HeldIds(s.workers)|;
    forall id | id in Through(s) ensures OfferedTo(s.log, id) == UpTo(s.stores) {
      assert !InHand(s, id);
    }
  }

  lemma FreshInv(workers: int, cap: int, stores: nat)
    ensures Inv(Fresh(workers, cap, stores))
  {
  }

  /** All of it over any interleaving of any number of submitters and workers. */
  lemma PoolRuns(workers: int, cap: int, ss: seq<State>, steps: seq<Step>, n: nat)
    requires IsRun(ss, steps) && n < |ss| && ss[0] == Fresh(workers, cap, ss[0].stores)
    ensures var s := ss[n];
            && s.submitted == s.lost + |s.queue| + CountBusy(s.workers) + |Through(s)|
            && s.taken + s.queue == s.accepted && |s.queue| <= s.cap
            && (forall id | id in Through(s) :: OfferedTo(s.log, id) == UpTo(s.stores))
            && s.dropped <= s.lost
  {
    FreshInv(workers, cap, ss[0].stores);
    RunKeepsInv(ss, steps, n);
    NothingIsLost(ss[n]);
  }

  // ---------------------------------------------------------------------------------
  // Submitting.

  /** No worker returns before Close has begun, or leaves anything in a channel that is only closed. */
  ghost predicate Manned(s: State) {
    (exists w :: 0 <= w < |s.workers| && s.workers[w] == Gone) ==>
      s.closer != Open && (s.closer == ChannelClosed ==> s.queue == [])
  }

  lemma StepKeepsManned(s: State, step: Step)
    requires Manned(s) && Enabled(s, step)
    ensures Manned(After(s, step)) && |After(s, step).workers| == |s.workers| && After(s, step).cap == s.cap
  {
    var t := After(s, step);
    if w :| 0 <= w < |t.workers| && t.workers[w] == Gone && !step.Exit? {
      assert s.workers[w] == Gone;
    }
  }

  lemma {:induction false} RunKeepsManned(ss: seq<State>, steps: seq<Step>, n: nat)
    requires IsRun(ss, steps) && n < |ss| && Manned(ss[0])
    ensures Manned(ss[n]) && |ss[n].workers| == |ss[0].workers| && ss[n].cap == ss[0].cap
  {
    if n > 0 {
      RunKeepsManned(ss, steps, n - 1);
      assert ss[n - 1 + 1] == After(ss[n - 1], steps[n - 1]);
      StepKeepsManned(ss[n - 1], steps[n - 1]);
    }
  }

  /** Submit never waits and drops only what does not fit: in every state of a run, until Close begins, an
      entry is accepted exactly if the channel has room, and dropped exactly if it holds as many entries
      as it can. All workers are still there, and while anything is queued one of them can go on. */
  lemma SubmitDropsIffFull(
      workers: int, cap: int, ss: seq<State>, steps: seq<Step>, n: nat, e: Entry) returns (step: Step)
    requires IsRun(ss, steps) && n < |ss| && ss[0] == Fresh(workers, cap, ss[0].stores)
    requires ss[n].closer == Open
    ensures var s := ss[n];
            var size := if cap > 0 then cap else 1024;
            && (Enabled(s, Accept(e)) <==> |s.queue| < size) && (Enabled(s, Drop(e)) <==> |s.queue| == size)
            && |s.workers| == (if workers > 0 then workers else 4) && Gone !in s.workers
            && (s.queue != [] ==> (step.Take? || step.Deliver? || step.Next?) && Enabled(s, step))
  {
    FreshInv(workers, cap, ss[0].stores);
    RunKeepsInv(ss, steps, n);
    RunKeepsManned(ss, steps, n);
    var s := ss[n];
    assert s.workers[0] in s.workers;
    step := if s.workers[0] == Idle then Take(0)
            else if s.workers[0].Busy? && s.workers[0].store < s.stores then Deliver(0) else Next(0);
  }
}
