/** When a model is called: over every run of dispatches, a position that is reached calls its model
    exactly when the recorded failures let it, so that a model that tripped or was throttled always
    comes back. Stated on the trace alone. */
module Recovery {
  import opened Common
  import opened Errors
  import opened Dispatch
  import opened Breaker
  import H = Health
  import L = ModelLimit

  /** What has happened lets m be called: fewer than five failures in a row, or every failure more than
      30 s before the health check; and with a limiter, every rate-limit failure recorded at least 30 s
      before the limiter check. */
  ghost predicate MayCall(trace: seq<Event>, m: string, healthAt: int, limitAt: int, limited: bool) {
    && (|| FailureRun(trace, m) < 5
        || forall i | 0 <= i < |trace| && FailureOf(trace[i], m) :: healthAt > trace[i].at + 30 * SECOND)
    && (limited ==>
          forall i | 0 <= i < |trace| && ThrottleOf(trace[i], m) :: trace[i].cooledAt + 30 * SECOND <= limitAt)
  }

  ghost predicate FailedAt(trace: seq<Event>, m: string, at: int) {
    exists i :: 0 <= i < |trace| && FailureOf(trace[i], m) && trace[i].at == at
  }

  ghost predicate ThrottledAt(trace: seq<Event>, m: string, cooledAt: int) {
    exists i :: 0 <= i < |trace| && ThrottleOf(trace[i], m) && trace[i].cooledAt == cooledAt
  }

  /** What the books hold against a model has happened. */
  ghost predicate Attained(b: Books, trace: seq<Event>) {
    && (forall m: string | FailureRun(trace, m) > 0 :: FailedAt(trace, m, H.Lookup(b.records, m).lastFailureAt))
    && (forall m | m in b.cooldowns :: ThrottledAt(trace, m, b.cooldowns[m] - L.DEFAULT_COOLDOWN))
  }

  lemma FailedExtend(trace: seq<Event>, e: Event, m: string, at: int)
    requires FailedAt(trace, m, at) || (FailureOf(e, m) && e.at == at)
    ensures FailedAt(trace + [e], m, at)
  {
    var t := trace + [e];
    if FailedAt(trace, m, at) {
      var i :| 0 <= i < |trace| && FailureOf(trace[i], m) && trace[i].at == at;
      assert t[i] == trace[i];
    } else {
      assert t[|trace|] == e;
    }
  }

  lemma ThrottledExtend(trace: seq<Event>, e: Event, m: string, at: int)
    requires ThrottledAt(trace, m, at) || (ThrottleOf(e, m) && e.cooledAt == at)
    ensures ThrottledAt(trace + [e], m, at)
  {
    var t := trace + [e];
    if ThrottledAt(trace, m, at) {
      var i :| 0 <= i < |trace| && ThrottleOf(trace[i], m) && trace[i].cooledAt == at;
      assert t[i] == trace[i];
    } else {
      assert t[|trace|] == e;
    }
  }

  lemma EventKeepsAttained(b: Books, trace: seq<Event>, e: Event)
    requires Attained(b, trace)
    ensures Attained(ApplyEvent(b, e), trace + [e])
  {
    var t, b' := trace + [e], ApplyEvent(b, e);
    forall m: string | FailureRun(t, m) > 0 ensures FailedAt(t, m, H.Lookup(b'.records, m).lastFailureAt) {
      FailureRunExtend(trace, e, m);
      FailedExtend(trace, e, m, H.Lookup(b'.records, m).lastFailureAt);
    }
    forall m | m in b'.cooldowns ensures ThrottledAt(t, m, b'.cooldowns[m] - L.DEFAULT_COOLDOWN) {
      ThrottledExtend(trace, e, m, b'.cooldowns[m] - L.DEFAULT_COOLDOWN);
    }
  }

  lemma {:induction false} EventsKeepAttained(b: Books, trace: seq<Event>, events: seq<Event>)
    requires Attained(b, trace)
    ensures Attained(Apply(b, events), trace + events)
  {
    if events == [] {
      assert trace + events == trace;
    } else {
      var before, e := events[..|events| - 1], events[|events| - 1];
      EventsKeepAttained(b, trace, before);
      EventKeepsAttained(Apply(b, before), trace + before, e);
      assert trace + events == (trace + before) + [e];
    }
  }

  lemma TurnKeepsAttained(mode: Mode, b: Books, trace: seq<Event>, pos: nat, m: string, v: Visit)
    requires Attained(b, trace)
    ensures var t := TurnOf(mode, b, pos, m, v);
            Attained(Apply(AfterChecks(b, m, v), t.events), trace + t.events)
  {
    EventsKeepAttained(AfterChecks(b, m, v), trace, TurnOf(mode, b, pos, m, v).events);
  }

  lemma {:induction false} WalkKeepsAttained(
      mode: Mode, b: Books, chain: seq<string>, visits: seq<Visit>, pos: nat, lastErr: Option<Error>,
      trace: seq<Event>)
    requires |chain| == |visits| && pos <= |chain| && Attained(b, trace)
    ensures var r := Walk(mode, b, chain, visits, pos, lastErr);
            Attained(r.after, trace + r.events)
    decreases |chain| - pos
  {
    var r := Walk(mode, b, chain, visits, pos, lastErr);
    if pos == |chain| {
      EventsKeepAttained(b, trace, r.events);
      ApplyIdle(b, r.events);
    } else {
      var t := TurnOf(mode, b, pos, chain[pos], visits[pos]);
      TurnKeepsAttained(mode, b, trace, pos, chain[pos], visits[pos]);
      if t.verdict.Pass? {
        var b' := Apply(AfterChecks(b, chain[pos], visits[pos]), t.events);
        var lastErr' := if t.verdict.why.Some? then t.verdict.why else lastErr;
        WalkKeepsAttained(mode, b', chain, visits, pos + 1, lastErr', trace + t.events);
        Regroup(trace, t.events, Walk(mode, b', chain, visits, pos + 1, lastErr').events);
      }
    }
  }

  // ---------------------------------------------------------------------------------
  // Reaching a position of a chain.

  /** A dispatch that is at position `from` with the books b gets on to position pos: the books it then
      has and the events in between. */
  function Reached(
      mode: Mode, b: Books, chain: seq<string>, visits: seq<Visit>, from: nat, pos: nat): Option<(Books, seq<Event>)>
    requires from <= pos <= |chain| == |visits|
    decreases pos - from
  {
    if from == pos then Some((b, []))
    else
      var t := TurnOf(mode, b, from, chain[from], visits[from]);
      if t.verdict.Stop? then None
      else
        var b' := Apply(AfterChecks(b, chain[from], visits[from]), t.events);
        var rest := Reached(mode, b', chain, visits, from + 1, pos);
        if rest.None? then None else Some((rest.value.0, t.events + rest.value.1))
  }

  lemma {:induction false} ApplyKeepsSetup(b: Books, events: seq<Event>)
    ensures var r := Apply(b, events);
            r.limited == b.limited && r.providerOf == b.providerOf && r.providers == b.providers
  {
    if events != [] { ApplyKeepsSetup(b, events[..|events| - 1]); }
  }

  /** The books never change how models are mapped to clients. */
  ghost predicate SameSetup(b: Books, c: Books) {
    b.limited == c.limited && b.providerOf == c.providerOf && b.providers == c.providers
  }

  lemma {:induction false} WalkKeepsSetup(
      mode: Mode, b: Books, chain: seq<string>, visits: seq<Visit>, pos: nat, lastErr: Option<Error>)
    requires |chain| == |visits| && pos <= |chain|
    ensures SameSetup(Walk(mode, b, chain, visits, pos, lastErr).after, b)
    decreases |chain| - pos
  {
    if pos < |chain| {
      var t := TurnOf(mode, b, pos, chain[pos], visits[pos]);
      var b' := Apply(AfterChecks(b, chain[pos], visits[pos]), t.events);
      ApplyKeepsSetup(AfterChecks(b, chain[pos], visits[pos]), t.events);
      if t.verdict.Pass? {
        WalkKeepsSetup(mode, b', chain, visits, pos + 1, if t.verdict.why.Some? then t.verdict.why else lastErr);
      }
    }
  }

  /** Everything the books and the trace keep in step. */
  ghost predicate Known(b: Books, trace: seq<Event>, clock: int) {
    Inv(b, trace, clock) && Attained(b, trace)
  }

  lemma {:induction false} ReachedKeeps(
      mode: Mode, b: Books, chain: seq<string>, visits: seq<Visit>, from: nat, pos: nat,
      trace: seq<Event>, clock: int) returns (at: int)
    requires from <= pos <= |chain| == |visits|
    requires Known(b, trace, clock) && Ticking(visits[from..], clock)
    requires Reached(mode, b, chain, visits, from, pos).Some?
    ensures var r := Reached(mode, b, chain, visits, from, pos).value;
            Known(r.0, trace + r.1, at) && SameSetup(r.0, b) && Ticking(visits[pos..], at)
    decreases pos - from
  {
    if from == pos {
      at := clock;
      assert trace + [] == trace;
    } else {
      var m, v := chain[from], visits[from];
      assert visits[from..][0] == v && visits[from..][1..] == visits[from + 1..];
      var t := TurnOf(mode, b, from, m, v);
      var b' := Apply(AfterChecks(b, m, v), t.events);
      TurnKeepsInv(mode, b, trace, clock, from, m, v);
      TurnKeepsAttained(mode, b, trace, from, m, v);
      ApplyKeepsSetup(AfterChecks(b, m, v), t.events);
      at := ReachedKeeps(mode, b', chain, visits, from + 1, pos, trace + t.events, v.cooledAt);
      Regroup(trace, t.events, Reached(mode, b', chain, visits, from + 1, pos).value.1);
    }
  }

  /** What happened up to a position, and then at it, is the beginning of what the dispatch does. */
  lemma {:induction false} ReachedIsPrefix(
      mode: Mode, b: Books, chain: seq<string>, visits: seq<Visit>, from: nat, pos: nat, lastErr: Option<Error>)
    requires from <= pos < |chain| == |visits| && Reached(mode, b, chain, visits, from, pos).Some?
    ensures var r := Reached(mode, b, chain, visits, from, pos).value;
            r.1 + TurnOf(mode, r.0, pos, chain[pos], visits[pos]).events
            <= Walk(mode, b, chain, visits, from, lastErr).events
    decreases pos - from
  {
    var t := TurnOf(mode, b, from, chain[from], visits[from]);
    if from < pos {
      var b' := Apply(AfterChecks(b, chain[from], visits[from]), t.events);
      ReachedIsPrefix(mode, b', chain, visits, from + 1, pos, if t.verdict.why.Some? then t.verdict.why else lastErr);
      var rest := Reached(mode, b', chain, visits, from + 1, pos).value;
      Regroup(t.events, rest.1, TurnOf(mode, rest.0, pos, chain[pos], visits[pos]).events);
    }
  }

  // ---------------------------------------------------------------------------------
  // Whole runs.

  lemma {:induction false} ServeKeeps(b: Books, reqs: seq<Request>, j: nat, trace: seq<Event>, clock: int)
      returns (at: int)
    requires forall r | r in reqs :: |r.chain| == |r.visits|
    requires j < |reqs| && Known(b, trace, clock) && WellTimed(reqs, clock)
    ensures forall r | r in reqs[..j] :: r in reqs
    ensures var (b', events) := Serve(b, reqs[..j]);
            Known(b', trace + events, at) && SameSetup(b', b) && Ticking(reqs[j].visits, at)
    decreases j
  {
    if j == 0 {
      at := clock;
      assert trace + [] == trace;
    } else {
      var q := reqs[0];
      var r := ServeOne(b, q);
      OneKeepsInv(b, q, trace, clock);
      WalkKeepsAttained(q.mode, b, q.chain, q.visits, 0, None, trace);
      WalkKeepsSetup(q.mode, b, q.chain, q.visits, 0, None);
      at := ServeKeeps(r.after, reqs[1..], j - 1, trace + r.events, EndOf(q.visits, clock));
      assert reqs[..j][1..] == reqs[1..][..j - 1];
      Regroup(trace, r.events, Serve(r.after, reqs[1..][..j - 1]).1);
    }
  }

  /** The run goes on from what the first j requests left with what request j does. */
  lemma {:induction false} ServeSplits(b: Books, reqs: seq<Request>, j: nat)
    requires forall r | r in reqs :: |r.chain| == |r.visits|
    requires j < |reqs|
    ensures forall r | r in reqs[..j] :: r in reqs
    ensures var (b', events) := Serve(b, reqs[..j]);
            events + ServeOne(b', reqs[j]).events <= Serve(b, reqs).1
    decreases j
  {
    if j > 0 {
      var r := ServeOne(b, reqs[0]);
      ServeSplits(r.after, reqs[1..], j - 1);
      assert reqs[..j][1..] == reqs[1..][..j - 1];
      var (b', events) := Serve(r.after, reqs[1..][..j - 1]);
      Regroup(r.events, events, ServeOne(b', reqs[j]).events);
    }
  }

  predicate Shaped(reqs: seq<Request>) {
    forall r | r in reqs :: |r.chain| == |r.visits|
  }

  /** The client that model m is sent to is configured. */
  predicate HasClient(providerOf: map<string, string>, providers: set<string>, m: string) {
    (if m in providerOf && providerOf[m] != "" then providerOf[m] else "openai") in providers
  }

  /** The checks at a position amount to MayCall on the trace. */
  lemma GateIsMayCall(b: Books, trace: seq<Event>, clock: int, m: string, v: Visit)
    requires Known(b, trace, clock) && Ticks(v, clock)
    ensures Blocked(b, m, v) == None <==> MayCall(trace, m, v.healthAt, v.limitAt, b.limited)
  {
    HealthIsRun(b, trace, clock, m, v.healthAt);
    if b.limited { LimiterIsThrottles(b, trace, clock, m, v.limitAt); }
  }

  lemma HealthIsRun(b: Books, trace: seq<Event>, clock: int, m: string, now: int)
    requires Known(b, trace, clock)
    ensures H.IsAvailable(b.records, m, now) <==>
            || FailureRun(trace, m) < 5
            || forall i | 0 <= i < |trace| && FailureOf(trace[i], m) :: now > trace[i].at + 30 * SECOND
  {
    var last := H.Lookup(b.records, m).lastFailureAt;
    assert H.Lookup(b.records, m).failures == FailureRun(trace, m);
    if FailureRun(trace, m) > 0 {
      var i :| 0 <= i < |trace| && FailureOf(trace[i], m) && trace[i].at == last;
    }
  }

  lemma LimiterIsThrottles(b: Books, trace: seq<Event>, clock: int, m: string, now: int)
    requires Known(b, trace, clock) && b.limited && clock <= now
    ensures !L.IsCooling(b.cooldowns, m, now) <==>
            forall i | 0 <= i < |trace| && ThrottleOf(trace[i], m) :: trace[i].cooledAt + 30 * SECOND <= now
  {
    if m in b.cooldowns {
      var i :| 0 <= i < |trace| && ThrottleOf(trace[i], m) && trace[i].cooledAt == b.cooldowns[m] - L.DEFAULT_COOLDOWN;
    }
  }

  /** A turn with a client calls its model exactly when nothing blocks it. */
  lemma TurnCallsIff(mode: Mode, b: Books, pos: nat, m: string, v: Visit)
    requires ProviderName(b, m) in b.providers
    ensures var events := TurnOf(mode, b, pos, m, v).events;
            && (events != [] <==> Blocked(b, m, v) == None)
            && (events != [] ==> events[0] == Called(m, v.calledAt))
  {
    if Blocked(b, m, v) == None {
      if mode == Batch {
        var _ := BatchIsCallThenTail(pos, m, v);
      } else {
        var _ := StreamIsCallThenTail(pos, m, v);
      }
    }
  }

  /** What a dispatch does at a position it reaches, given what happened before it. */
  lemma PositionCallsIff(b: Books, before: seq<Event>, clock: int, q: Request, pos: nat)
    requires pos < |q.chain| == |q.visits| && Known(b, before, clock) && Ticking(q.visits, clock)
    requires HasClient(b.providerOf, b.providers, q.chain[pos])
    requires Reached(q.mode, b, q.chain, q.visits, 0, pos).Some?
    ensures var m, v := q.chain[pos], q.visits[pos];
            var (b', events) := Reached(q.mode, b, q.chain, q.visits, 0, pos).value;
            var here := TurnOf(q.mode, b', pos, m, v).events;
            && events + here <= ServeOne(b, q).events
            && (here != [] <==> MayCall(before + events, m, v.healthAt, v.limitAt, b.limited))
            && (here != [] ==> here[0] == Called(m, v.calledAt))
  {
    var m, v := q.chain[pos], q.visits[pos];
    var (b', events) := Reached(q.mode, b, q.chain, q.visits, 0, pos).value;
    assert q.visits[0..] == q.visits;
    var now := ReachedKeeps(q.mode, b, q.chain, q.visits, 0, pos, before, clock);
    ReachedIsPrefix(q.mode, b, q.chain, q.visits, 0, pos, None);
    GateIsMayCall(b', before + events, now, m, v);
    TurnCallsIff(q.mode, b', pos, m, v);
  }

  /** From a fresh server, in any run of batch and streaming dispatches: a dispatch that reaches a
      position whose model has a client goes on with a call of it exactly when the failures before let
      it, and else does nothing at that position. */
  lemma CallsIff(
      limited: bool, providerOf: map<string, string>, providers: set<string>, reqs: seq<Request>, clock: int,
      j: nat, pos: nat)
    requires Shaped(reqs) && WellTimed(reqs, clock)
    requires j < |reqs| && pos < |reqs[j].chain|
    requires HasClient(providerOf, providers, reqs[j].chain[pos])
    ensures Shaped(reqs[..j])
    ensures var q, start := reqs[j], Books(map[], map[], limited, providerOf, providers);
            var m, v := q.chain[pos], q.visits[pos];
            var (b, before) := Serve(start, reqs[..j]);
            var reached := Reached(q.mode, b, q.chain, q.visits, 0, pos);
            reached.Some? ==>
              var trace := before + reached.value.1;
              var here := TurnOf(q.mode, reached.value.0, pos, m, v).events;
              && trace + here <= Serve(start, reqs).1
              && (here != [] <==> MayCall(trace, m, v.healthAt, v.limitAt, limited))
              && (here != [] ==> here[0] == Called(m, v.calledAt))
  {
    var q, start := reqs[j], Books(map[], map[], limited, providerOf, providers);
    var at := ServeKeeps(start, reqs, j, [], clock);
    var (b, before) := Serve(start, reqs[..j]);
    assert [] + before == before;
    if Reached(q.mode, b, q.chain, q.visits, 0, pos).Some? {
      PositionCallsIff(b, before, at, q, pos);
      ServeSplits(start, reqs, j);
      var (b', events) := Reached(q.mode, b, q.chain, q.visits, 0, pos).value;
      PrefixAfter(before, events + TurnOf(q.mode, b', pos, q.chain[pos], q.visits[pos]).events, ServeOne(b, q).events,
                  Serve(start, reqs).1);
      Regroup(before, events, TurnOf(q.mode, b', pos, q.chain[pos], q.visits[pos]).events);
    }
  }

  lemma PrefixAfter<T>(before: seq<T>, part: seq<T>, whole: seq<T>, all: seq<T>)
    requires part <= whole && before + whole <= all
    ensures before + part <= all
  {
    assert before + part <= before + whole;
  }
}
