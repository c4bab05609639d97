/** Circuit breaking and rate-limit spacing over every run of dispatches, stated on the
    trace of provider calls and their recorded results. */
module Breaker {
  import opened Common
  import opened Errors
  import opened Dispatch
  import H = Health
  import L = ModelLimit

  /** How many failures of m the trace ends with, not counting events of other models. */
  function FailureRun(trace: seq<Event>, m: string): nat {
    if trace == [] then 0
    else
      var e, before := trace[|trace| - 1], trace[..|trace| - 1];
      if e.Failed? && e.model == m then FailureRun(before, m) + 1
      else if e.Succeeded? && e.model == m then 0
      else FailureRun(before, m)
  }

  predicate FailureOf(e: Event, m: string) {
    e.Failed? && e.model == m
  }

  predicate ThrottleOf(e: Event, m: string) {
    e.Failed? && e.model == m && e.kind == RateLimit
  }

  /** A call of m at instant `at` after the events of `before` keeps its distance: more than
      the cooldown after every earlier failure once the last five or more results failed, and
      a full cooldown after every rate-limit failure. */
  ghost predicate KeepsDistance(before: seq<Event>, m: string, at: int, limited: bool) {
    && (FailureRun(before, m) >= H.MAX_FAILURES ==>
          forall i | 0 <= i < |before| && FailureOf(before[i], m) :: at > before[i].at + H.COOLDOWN)
    && (limited ==>
          forall i | 0 <= i < |before| && ThrottleOf(before[i], m) :: at >= before[i].cooledAt + L.DEFAULT_COOLDOWN)
  }

  ghost predicate Spaced(trace: seq<Event>, limited: bool) {
    forall i | 0 <= i < |trace| && trace[i].Called? ::
      KeepsDistance(trace[..i], trace[i].model, trace[i].at, limited)
  }

  /** The health records say what the trace says. */
  ghost predicate CountsMatch(b: Books, trace: seq<Event>) {
    && (forall m: string :: H.Lookup(b.records, m).failures == FailureRun(trace, m))
    && (forall i, m: string | 0 <= i < |trace| && FailureOf(trace[i], m) ::
          trace[i].at <= H.Lookup(b.records, m).lastFailureAt)
  }

  /** Every rate-limit failure is either long enough ago or still guarded by a cooldown. */
  ghost predicate ThrottlesGuarded(b: Books, trace: seq<Event>, clock: int) {
    forall i, m: string | 0 <= i < |trace| && ThrottleOf(trace[i], m) ::
      var until := trace[i].cooledAt + L.DEFAULT_COOLDOWN;
      until <= clock || (m in b.cooldowns && until <= b.cooldowns[m])
  }

  ghost predicate Past(trace: seq<Event>, clock: int) {
    forall i | 0 <= i < |trace| ::
      (trace[i].Failed? ==> trace[i].at <= trace[i].cooledAt <= clock)
  }

  ghost predicate Inv(b: Books, trace: seq<Event>, clock: int) {
    && CountsMatch(b, trace)
    && (b.limited ==> ThrottlesGuarded(b, trace, clock))
    && Past(trace, clock)
    && Spaced(trace, b.limited)
  }

  lemma SpacedExtend(trace: seq<Event>, e: Event, limited: bool)
    requires Spaced(trace, limited)
    requires e.Called? ==> KeepsDistance(trace, e.model, e.at, limited)
    ensures Spaced(trace + [e], limited)
  {
    var t := trace + [e];
    forall i | 0 <= i < |t| && t[i].Called? ensures KeepsDistance(t[..i], t[i].model, t[i].at, limited) {
      if i < |trace| {
        assert t[..i] == trace[..i] && t[i] == trace[i];
      } else {
        assert t[..i] == trace;
      }
    }
  }

  lemma FailureRunExtend(trace: seq<Event>, e: Event, m: string)
    ensures FailureRun(trace + [e], m)
            == if FailureOf(e, m) then FailureRun(trace, m) + 1
               else if e.Succeeded? && e.model == m then 0
               else FailureRun(trace, m)
  {
    assert (trace + [e])[..|trace|] == trace;
  }

  /** Any event but a call keeps the invariant, if its instants are not in the past. */
  lemma EventKeepsInv(b: Books, trace: seq<Event>, clock: int, e: Event, clock': int)
    requires Inv(b, trace, clock) && clock <= clock' && !e.Called?
    requires e.Failed? ==> clock <= e.at <= e.cooledAt <= clock'
    ensures Inv(ApplyEvent(b, e), trace + [e], clock')
  {
    SpacedExtend(trace, e, b.limited);
    CountsExtend(b, trace, clock, e);
    if b.limited { ThrottlesExtend(b, trace, clock, e, clock'); }
  }

  lemma CountsExtend(b: Books, trace: seq<Event>, clock: int, e: Event)
    requires CountsMatch(b, trace) && Past(trace, clock) && !e.Called? && (e.Failed? ==> clock <= e.at)
    ensures CountsMatch(ApplyEvent(b, e), trace + [e])
  {
    var t, b' := trace + [e], ApplyEvent(b, e);
    forall m: string ensures H.Lookup(b'.records, m).failures == FailureRun(t, m) {
      FailureRunExtend(trace, e, m);
    }
    forall i, m: string | 0 <= i < |t| && FailureOf(t[i], m)
      ensures t[i].at <= H.Lookup(b'.records, m).lastFailureAt
    {
      assert H.Lookup(b'.records, m).lastFailureAt
             == if FailureOf(e, m) then e.at else H.Lookup(b.records, m).lastFailureAt;
      if i < |trace| {
        assert t[i] == trace[i] && FailureOf(trace[i], m);
        assert trace[i].at <= trace[i].cooledAt <= clock;
      }
    }
  }

  lemma ThrottlesExtend(b: Books, trace: seq<Event>, clock: int, e: Event, clock': int)
    requires b.limited && ThrottlesGuarded(b, trace, clock) && Past(trace, clock) && clock <= clock'
    requires e.Failed? ==> clock <= e.at <= e.cooledAt <= clock'
    ensures ThrottlesGuarded(ApplyEvent(b, e), trace + [e], clock')
  {
    var t, b' := trace + [e], ApplyEvent(b, e);
    forall i, m: string | 0 <= i < |t| && ThrottleOf(t[i], m)
      ensures var until := t[i].cooledAt + L.DEFAULT_COOLDOWN;
              until <= clock' || (m in b'.cooldowns && until <= b'.cooldowns[m])
    {
      if i < |trace| { assert t[i] == trace[i] && ThrottleOf(trace[i], m); }
    }
  }

  /** What the gate lets through keeps its distance. */
  lemma GateKeepsDistance(b: Books, trace: seq<Event>, clock: int, m: string, v: Visit)
    requires Inv(b, trace, clock) && Blocked(b, m, v) == None
    requires clock <= v.healthAt <= v.limitAt <= v.calledAt
    ensures KeepsDistance(trace, m, v.calledAt, b.limited)
  {
    forall i | 0 <= i < |trace| && FailureOf(trace[i], m)
      ensures trace[i].at <= H.Lookup(b.records, m).lastFailureAt {}
    assert H.Lookup(b.records, m).failures == FailureRun(trace, m);
  }

  lemma ChecksKeepInv(b: Books, trace: seq<Event>, clock: int, m: string, v: Visit)
    requires Inv(b, trace, clock) && clock <= v.healthAt <= v.limitAt
    ensures Inv(AfterChecks(b, m, v), trace, v.limitAt)
  {
  }

  lemma CallKeepsInv(b: Books, trace: seq<Event>, clock: int, m: string, at: int)
    requires Inv(b, trace, clock) && KeepsDistance(trace, m, at, b.limited)
    ensures Inv(b, trace + [Called(m, at)], clock)
  {
    var e := Called(m, at);
    var t := trace + [e];
    SpacedExtend(trace, e, b.limited);
    forall x: string ensures FailureRun(t, x) == FailureRun(trace, x) {
      FailureRunExtend(trace, e, x);
    }
    forall i, x: string | 0 <= i < |t| && FailureOf(t[i], x) ensures i < |trace| && FailureOf(trace[i], x) {}
    assert forall i, x: string | 0 <= i < |t| && ThrottleOf(t[i], x) :: i < |trace| && ThrottleOf(trace[i], x);
  }

  lemma InvLater(b: Books, trace: seq<Event>, clock: int, clock': int)
    requires Inv(b, trace, clock) && clock <= clock'
    ensures Inv(b, trace, clock')
  {
  }

  /** Events after the call: none of them a call, and their instants within the visit. */
  ghost predicate Quiet(events: seq<Event>, v: Visit) {
    forall e | e in events :: !e.Called? && (e.Failed? ==> e.at == v.settledAt && e.cooledAt == v.cooledAt)
  }

  ghost predicate Ticks(v: Visit, clock: int) {
    clock <= v.healthAt <= v.limitAt <= v.calledAt <= v.settledAt <= v.cooledAt
  }

  /** At most one failure, the last event that matters to the clock. */
  lemma {:induction false} QuietKeepsInv(b: Books, trace: seq<Event>, clock: int, events: seq<Event>, v: Visit)
    requires Inv(b, trace, clock) && Quiet(events, v) && clock <= v.settledAt <= v.cooledAt
    requires forall i, j | 0 <= i < j < |events| :: !(events[i].Failed? && events[j].Failed?)
    ensures Inv(Apply(b, events), trace + events, v.cooledAt)
    ensures (forall e | e in events :: !e.Failed?) ==> Inv(Apply(b, events), trace + events, clock)
  {
    if events == [] {
      assert trace + events == trace;
      InvLater(b, trace, clock, v.cooledAt);
    } else {
      var before, e := events[..|events| - 1], events[|events| - 1];
      QuietKeepsInv(b, trace, clock, before, v);
      assert trace + events == (trace + before) + [e];
      if e.Failed? {
        forall x | x in before ensures !x.Failed? {
          var k :| 0 <= k < |before| && before[k] == x;
          assert events[k] == x;
        }
        EventKeepsInv(Apply(b, before), trace + before, clock, e, v.cooledAt);
      } else {
        EventKeepsInv(Apply(b, before), trace + before, v.cooledAt, e, v.cooledAt);
        if forall x | x in events :: !x.Failed? {
          EventKeepsInv(Apply(b, before), trace + before, clock, e, clock);
        }
      }
    }
  }

  /** One failure at most, and only quiet events. */
  ghost predicate Tail(events: seq<Event>, v: Visit) {
    Quiet(events, v) && forall i, j | 0 <= i < j < |events| :: !(events[i].Failed? && events[j].Failed?)
  }

  lemma TailAfterWrites(before: seq<Event>, rest: seq<Event>, v: Visit)
    requires Tail(rest, v)
    requires forall e | e in before :: e.Opened? || e.Wrote?
    ensures Tail(before + rest, v)
  {
    var all := before + rest;
    assert forall i | 0 <= i < |before| :: before[i] in before && all[i] == before[i];
    assert forall i | |before| <= i < |all| :: all[i] == rest[i - |before|];
  }

  lemma BatchIsCallThenTail(pos: nat, m: string, v: Visit) returns (rest: seq<Event>)
    ensures Tail(rest, v) && BatchTurn(pos, m, v).events == [Called(m, v.calledAt)] + rest
  {
    rest := [BatchTurn(pos, m, v).events[1]];
  }

  lemma CommittedIsCallThenTail(pos: nat, m: string, v: Visit) returns (rest: seq<Event>)
    requires v.stream.Stream? && v.stream.items != []
    ensures Tail(rest, v) && StreamTurn(pos, m, v).events == [Called(m, v.calledAt)] + rest
  {
    var items, end := v.stream.items, v.stream.end;
    var tail := if end == Eof then [Wrote(DoneFrame), Closed(pos), Succeeded(m, v.settledAt)]
                else ErrorTail(end.err) + [Closed(pos), Failure(m, end.err, v)];
    ChunksAreWrites(items);
    rest := ([Opened(pos)] + Chunks(items)) + tail;
    TailAfterWrites([Opened(pos)] + Chunks(items), tail, v);
    assert StreamTurn(pos, m, v).events == [Called(m, v.calledAt)] + rest;
  }

  lemma StreamIsCallThenTail(pos: nat, m: string, v: Visit) returns (rest: seq<Event>)
    ensures Tail(rest, v) && StreamTurn(pos, m, v).events == [Called(m, v.calledAt)] + rest
  {
    if v.stream.Stream? && v.stream.items != [] {
      rest := CommittedIsCallThenTail(pos, m, v);
    } else {
      rest := StreamTurn(pos, m, v).events[1..];
    }
  }

  /** A turn makes at most one call, first thing, and only after passing the gate. */
  lemma TurnIsCallThenTail(mode: Mode, b: Books, pos: nat, m: string, v: Visit) returns (rest: seq<Event>)
    ensures Tail(rest, v)
    ensures var t := TurnOf(mode, b, pos, m, v).events;
            || t == rest
            || (Blocked(b, m, v) == None && t == [Called(m, v.calledAt)] + rest)
  {
    if Blocked(b, m, v).Some? || ProviderName(b, m) !in b.providers {
      rest := TurnOf(mode, b, pos, m, v).events;
    } else if mode == Batch {
      rest := BatchIsCallThenTail(pos, m, v);
    } else {
      rest := StreamIsCallThenTail(pos, m, v);
    }
  }

  lemma TurnKeepsInv(mode: Mode, b: Books, trace: seq<Event>, clock: int, pos: nat, m: string, v: Visit)
    requires Inv(b, trace, clock) && Ticks(v, clock)
    ensures var t := TurnOf(mode, b, pos, m, v);
            Inv(Apply(AfterChecks(b, m, v), t.events), trace + t.events, v.cooledAt)
  {
    var t := TurnOf(mode, b, pos, m, v).events;
    var rest := TurnIsCallThenTail(mode, b, pos, m, v);
    var b' := AfterChecks(b, m, v);
    ChecksKeepInv(b, trace, clock, m, v);
    if t == rest {
      QuietKeepsInv(b', trace, v.limitAt, rest, v);
    } else {
      GateKeepsDistance(b, trace, clock, m, v);
      CallKeepsInv(b', trace, v.limitAt, m, v.calledAt);
      var call := [Called(m, v.calledAt)];
      QuietKeepsInv(b', trace + call, v.limitAt, rest, v);
      CallThenRest(b', trace, m, v.calledAt, rest);
    }
  }

  /** A call leaves the books alone. */
  lemma CallThenRest(b: Books, trace: seq<Event>, m: string, at: int, rest: seq<Event>)
    ensures Apply(b, [Called(m, at)] + rest) == Apply(b, rest)
    ensures trace + ([Called(m, at)] + rest) == (trace + [Called(m, at)]) + rest
  {
    ApplyAppend(b, [Called(m, at)], rest);
    ApplyIdle(b, [Called(m, at)]);
  }

  /** The readings of consecutive positions never go back. */
  ghost predicate Ticking(visits: seq<Visit>, clock: int) {
    visits == [] || (Ticks(visits[0], clock) && Ticking(visits[1..], visits[0].cooledAt))
  }

  function EndOf(visits: seq<Visit>, clock: int): int {
    if visits == [] then clock else EndOf(visits[1..], visits[0].cooledAt)
  }

  lemma {:induction false} EndIsLater(visits: seq<Visit>, clock: int)
    requires Ticking(visits, clock)
    ensures clock <= EndOf(visits, clock)
  {
    if visits != [] { EndIsLater(visits[1..], visits[0].cooledAt); }
  }

  lemma {:induction false} WalkKeepsInv(
      mode: Mode, b: Books, chain: seq<string>, visits: seq<Visit>, pos: nat, lastErr: Option<Error>,
      trace: seq<Event>, clock: int)
    requires |chain| == |visits| && pos <= |chain|
    requires Inv(b, trace, clock) && Ticking(visits[pos..], clock)
    ensures var r := Walk(mode, b, chain, visits, pos, lastErr);
            Inv(r.after, trace + r.events, EndOf(visits[pos..], clock)) && r.after.limited == b.limited
    decreases |chain| - pos
  {
    var r := Walk(mode, b, chain, visits, pos, lastErr);
    if pos == |chain| {
      EndKeepsInv(b, trace, clock, r.events);
    } else {
      var v := visits[pos];
      assert visits[pos..][0] == v && visits[pos..][1..] == visits[pos + 1..];
      var t := TurnOf(mode, b, pos, chain[pos], v);
      var b' := Apply(AfterChecks(b, chain[pos], v), t.events);
      TurnKeepsInv(mode, b, trace, clock, pos, chain[pos], v);
      ApplyKeepsLimited(AfterChecks(b, chain[pos], v), t.events);
      if t.verdict.Stop? {
        EndIsLater(visits[pos + 1..], v.cooledAt);
        InvLater(b', trace + t.events, v.cooledAt, EndOf(visits[pos..], clock));
      } else {
        var lastErr' := if t.verdict.why.Some? then t.verdict.why else lastErr;
        WalkKeepsInv(mode, b', chain, visits, pos + 1, lastErr', trace + t.events, v.cooledAt);
        Regroup(trace, t.events, Walk(mode, b', chain, visits, pos + 1, lastErr').events);
      }
    }
  }

  lemma EndKeepsInv(b: Books, trace: seq<Event>, clock: int, events: seq<Event>)
    requires Inv(b, trace, clock) && forall e | e in events :: e.Wrote?
    ensures Inv(b, trace + events, clock)
  {
    var v := Visit(clock, clock, clock, clock, clock, Refused(NO_MODELS), NotOpened(NO_MODELS));
    QuietKeepsInv(b, trace, clock, events, v);
    ApplyIdle(b, events);
  }

  lemma {:induction false} ApplyKeepsLimited(b: Books, events: seq<Event>)
    ensures Apply(b, events).limited == b.limited
  {
    if events != [] { ApplyKeepsLimited(b, events[..|events| - 1]); }
  }

  // ---------------------------------------------------------------------------------
  // Whole runs.

  datatype Request = Request(mode: Mode, chain: seq<string>, visits: seq<Visit>)

  ghost predicate WellTimed(reqs: seq<Request>, clock: int) {
    reqs == [] ||
    (|reqs[0].chain| == |reqs[0].visits| && Ticking(reqs[0].visits, clock)
     && WellTimed(reqs[1..], EndOf(reqs[0].visits, clock)))
  }

  function ServeOne(b: Books, q: Request): Run
    requires |q.chain| == |q.visits|
  {
    Walk(q.mode, b, q.chain, q.visits, 0, None)
  }

  lemma OneKeepsInv(b: Books, q: Request, trace: seq<Event>, clock: int)
    requires |q.chain| == |q.visits|
    requires Inv(b, trace, clock) && Ticking(q.visits, clock)
    ensures var r := ServeOne(b, q);
            r.after.limited == b.limited && Inv(r.after, trace + r.events, EndOf(q.visits, clock))
  {
    assert q.visits[0..] == q.visits;
    WalkKeepsInv(q.mode, b, q.chain, q.visits, 0, None, trace, clock);
  }

  /** Requests served one after another: the books they leave and everything that happened. */
  function Serve(b: Books, reqs: seq<Request>): (Books, seq<Event>)
    requires forall r | r in reqs :: |r.chain| == |r.visits|
    decreases |reqs|
  {
    if reqs == [] then (b, [])
    else
      var r := ServeOne(b, reqs[0]);
      var (b', events) := Serve(r.after, reqs[1..]);
      (b', r.events + events)
  }

  lemma {:induction false} ServeKeepsInv(b: Books, reqs: seq<Request>, trace: seq<Event>, clock: int)
    requires forall r | r in reqs :: |r.chain| == |r.visits|
    requires Inv(b, trace, clock) && WellTimed(reqs, clock)
    ensures var (b', events) := Serve(b, reqs);
            b'.limited == b.limited && exists clock' :: Inv(b', trace + events, clock')
    decreases |reqs|
  {
    if reqs == [] {
      assert trace + [] == trace;
    } else {
      var r := ServeOne(b, reqs[0]);
      OneKeepsInv(b, reqs[0], trace, clock);
      ServeKeepsInv(r.after, reqs[1..], trace + r.events, EndOf(reqs[0].visits, clock));
      Regroup(trace, r.events, Serve(r.after, reqs[1..]).1);
    }
  }

  /** From a fresh server, over any sequence of batch and streaming dispatches of any chains:
      every record counts exactly the trailing failures, and every call keeps its distance. */
  lemma RunsAreSpaced(
      limited: bool, providerOf: map<string, string>, providers: set<string>, reqs: seq<Request>, clock: int)
    requires forall r | r in reqs :: |r.chain| == |r.visits|
    requires WellTimed(reqs, clock)
    ensures var (b, trace) := Serve(Books(map[], map[], limited, providerOf, providers), reqs);
            && Spaced(trace, limited)
            && forall m: string :: H.Lookup(b.records, m).failures == FailureRun(trace, m)
  {
    var b := Books(map[], map[], limited, providerOf, providers);
    ServeKeepsInv(b, reqs, [], clock);
    var (_, trace) := Serve(b, reqs);
    assert [] + trace == trace;
  }
}
