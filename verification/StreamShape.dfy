/** The shape of every streaming run: what reaches the client, which provider it came from,
    and what happens to the iterators and the health records on the way. */
module StreamShape {
  import opened Common
  import opened Errors
  import opened Dispatch

  /** A trace split by who looks at it: the client's frames, the models called, the models a
      failure and those a success was recorded for, the iterators opened and those closed. */
  datatype View = View(
    frames: seq<Frame>, calls: seq<string>, losses: seq<string>, wins: seq<string>, opens: seq<nat>, closes: seq<nat>)

  const NOTHING := View([], [], [], [], [], [])

  function One(e: Event): View {
    match e
    case Called(m, _) => NOTHING.(calls := [m])
    case Opened(pos) => NOTHING.(opens := [pos])
    case Wrote(f) => NOTHING.(frames := [f])
    case Closed(pos) => NOTHING.(closes := [pos])
    case Succeeded(m, _) => NOTHING.(wins := [m])
    case Failed(m, _, _, _) => NOTHING.(losses := [m])
  }

  function Plus(a: View, b: View): View {
    View(a.frames + b.frames, a.calls + b.calls, a.losses + b.losses, a.wins + b.wins, a.opens + b.opens,
      a.closes + b.closes)
  }

  function Look(events: seq<Event>): View {
    if events == [] then NOTHING
    else Plus(Look(events[..|events| - 1]), One(events[|events| - 1]))
  }

  lemma {:induction false} LookAppend(a: seq<Event>, b: seq<Event>)
    ensures Look(a + b) == Plus(Look(a), Look(b))
  {
    if b == [] {
      assert a + b == a;
    } else {
      LookAppend(a, b[..|b| - 1]);
      assert (a + b)[..|a + b| - 1] == a + b[..|b| - 1];
      PlusAssociates(Look(a), Look(b[..|b| - 1]), One(b[|b| - 1]));
    }
  }

  lemma PlusAssociates(a: View, b: View, c: View)
    ensures Plus(a, Plus(b, c)) == Plus(Plus(a, b), c)
  {
  }

  lemma LookOne(e: Event)
    ensures Look([e]) == One(e)
  {
    assert [e][..0] == [];
  }

  lemma LookTwo(a: Event, b: Event)
    ensures Look([a, b]) == Plus(One(a), One(b))
  {
    LookOne(a);
    assert [a, b][..1] == [a];
  }

  lemma LookThree(a: Event, b: Event, c: Event)
    ensures Look([a, b, c]) == Plus(Plus(One(a), One(b)), One(c))
  {
    LookTwo(a, b);
    assert [a, b, c][..2] == [a, b];
  }

  function ChunkFrames(items: seq<string>): seq<Frame> {
    seq(|items|, i requires 0 <= i < |items| => Chunk(items[i]))
  }

  lemma {:induction false} LookChunks(items: seq<string>)
    ensures Look(Chunks(items)) == NOTHING.(frames := ChunkFrames(items))
  {
    if items != [] {
      var n := |items| - 1;
      LookChunks(items[..n]);
      assert Chunks(items)[..n] == Chunks(items[..n]);
      assert ChunkFrames(items) == ChunkFrames(items[..n]) + [Chunk(items[n])];
    }
  }

  /** What a streaming walk writes: one provider's chunks, all of them and in order, and then
      exactly one end; or, if no provider got as far as a chunk, just an error and an end. */
  ghost predicate Writes(visits: seq<Visit>, frames: seq<Frame>, outcome: Outcome) {
    match outcome
    case Answer(_) => false
    case Fail(e) => frames == [ErrorFrame(e), DoneFrame]
    case Delivered(n) =>
      n < |visits| && visits[n].stream.Stream? && visits[n].stream.items != [] && visits[n].stream.end == Eof
      && frames == ChunkFrames(visits[n].stream.items) + [DoneFrame]
    case Broken(n, e) =>
      n < |visits| && visits[n].stream.Stream? && visits[n].stream.items != [] && visits[n].stream.end == Cut(e)
      && frames == ChunkFrames(visits[n].stream.items) + [ErrorFrame(e), DoneFrame]
  }

  /** Every call gets exactly one result, for the model called and in the order of the calls:
      a failure, or for the last one perhaps a success; every opened iterator is closed, and
      closed once. */
  ghost predicate Balanced(v: View) {
    v.calls == v.losses + v.wins && |v.wins| <= 1 && v.opens == v.closes && Distinct(v.opens)
  }

  /** The answer is the one the provider at this position gave, under the model's own name if
      it is a fallback. */
  predicate AnswersWith(v: Visit, pos: nat, m: string, resp: Response) {
    v.batch.Answered? && resp == if pos == 0 then v.batch.resp else v.batch.resp.(model := m)
  }

  predicate Succeeds(outcome: Outcome) {
    outcome.Answer? || outcome.Delivered?
  }

  /** A success is recorded exactly if the dispatch succeeded, and for the model it came from, the
      one at position n. */
  predicate WonAt(wins: seq<string>, outcome: Outcome, n: nat, chain: seq<string>, visits: seq<Visit>)
    requires |chain| == |visits|
  {
    if Succeeds(outcome) then n < |chain| && wins == [chain[n]] && CameFrom(outcome, n, chain[n], visits[n])
    else wins == []
  }

  /** The same for a stream, whose outcome names the position. */
  predicate StreamWon(wins: seq<string>, outcome: Outcome, chain: seq<string>) {
    if outcome.Delivered? then outcome.pos < |chain| && wins == [chain[outcome.pos]] else wins == []
  }

  /** A successful outcome is the doing of this position. */
  predicate CameFrom(outcome: Outcome, pos: nat, m: string, v: Visit) {
    if outcome.Answer? then AnswersWith(v, pos, m, outcome.resp) else outcome == Delivered(pos)
  }

  ghost predicate NoCallAfterWrite(events: seq<Event>) {
    forall i, j | 0 <= i < j < |events| && events[i].Wrote? :: !events[j].Called?
  }

  ghost predicate TurnShape(t: Turn, pos: nat, m: string, visits: seq<Visit>) {
    var v := Look(t.events);
    && (t.verdict.Pass? ==> v.frames == [] && forall e | e in t.events :: !e.Wrote?)
    && (t.verdict.Stop? ==> Writes(visits, v.frames, t.verdict.outcome))
    && (t.verdict.Stop? && !t.verdict.outcome.Fail? ==> t.verdict.outcome.pos == pos && v.calls == [m])
    && Balanced(v)
    && (t.verdict.Stop? && t.verdict.outcome.Delivered? ==> v.wins == [m])
    && ((t.verdict.Stop? && t.verdict.outcome.Delivered?) || v.wins == [])
    && (v.opens == [] || v.opens == [pos])
    && (v.calls == [] || v.calls == [m])
    && (forall i | 0 < i < |t.events| :: !t.events[i].Called?)
  }

  lemma LookUnopened(pos: nat, m: string, e: Error, v: Visit)
    requires v.stream == NotOpened(e)
    ensures Look(StreamTurn(pos, m, v).events)
            == View(if IsTransient(e) then [] else [ErrorFrame(e), DoneFrame], [m], [m], [], [], [])
  {
    LookTwo(Called(m, v.calledAt), Failure(m, e, v));
    LookTwo(Wrote(ErrorFrame(e)), Wrote(DoneFrame));
    LookAppend([Called(m, v.calledAt), Failure(m, e, v)], ErrorTail(e));
  }

  lemma UnopenedShape(pos: nat, m: string, visits: seq<Visit>)
    requires pos < |visits| && visits[pos].stream.NotOpened?
    ensures TurnShape(StreamTurn(pos, m, visits[pos]), pos, m, visits)
  {
    var v := visits[pos];
    LookUnopened(pos, m, v.stream.err, v);
    var events := StreamTurn(pos, m, v).events;
    var tail := if IsTransient(v.stream.err) then [] else ErrorTail(v.stream.err);
    assert events == [Called(m, v.calledAt), Failure(m, v.stream.err, v)] + tail;
    ShapeOfLook(StreamTurn(pos, m, v), pos, m, visits, []);
  }

  /** The events of a stream that fails, or ends, before its first chunk. */
  function Probe(pos: nat, m: string, e: Error, v: Visit): seq<Event> {
    [Called(m, v.calledAt), Opened(pos), Closed(pos), Failure(m, e, v)]
  }

  lemma LookProbe(pos: nat, m: string, e: Error, v: Visit)
    ensures Look(Probe(pos, m, e, v)) == View([], [m], [m], [], [pos], [pos])
  {
    var open, close := [Called(m, v.calledAt), Opened(pos)], [Closed(pos), Failure(m, e, v)];
    LookTwo(open[0], open[1]);
    LookTwo(close[0], close[1]);
    LookAppend(open, close);
    assert open + close == Probe(pos, m, e, v);
  }

  lemma LookFatalProbe(pos: nat, m: string, e: Error, v: Visit)
    ensures Look(Probe(pos, m, e, v) + ErrorTail(e)) == View([ErrorFrame(e), DoneFrame], [m], [m], [], [pos], [pos])
  {
    LookProbe(pos, m, e, v);
    LookTwo(Wrote(ErrorFrame(e)), Wrote(DoneFrame));
    LookAppend(Probe(pos, m, e, v), ErrorTail(e));
  }

  /** What the turn makes of a probe that yielded no chunk. */
  lemma ProbeTurn(pos: nat, m: string, v: Visit)
    requires v.stream.Stream? && v.stream.items == []
    ensures StreamTurn(pos, m, v)
            == if v.stream.end == Eof then Turn(Probe(pos, m, EMPTY_STREAM(m), v), Pass(None))
               else if IsTransient(v.stream.end.err)
                 then Turn(Probe(pos, m, v.stream.end.err, v), Pass(Some(v.stream.end.err)))
               else Turn(Probe(pos, m, v.stream.end.err, v) + ErrorTail(v.stream.end.err), Stop(Fail(v.stream.end.err)))
  {
  }

  lemma UnstartedShape(pos: nat, m: string, visits: seq<Visit>)
    requires pos < |visits| && visits[pos].stream.Stream? && visits[pos].stream.items == []
    ensures TurnShape(StreamTurn(pos, m, visits[pos]), pos, m, visits)
  {
    var v := visits[pos];
    ProbeTurn(pos, m, v);
    var e := if v.stream.end == Eof then EMPTY_STREAM(m) else v.stream.end.err;
    ShapeOfProbe(StreamTurn(pos, m, v), e, pos, m, visits);
  }

  lemma ShapeOfProbe(t: Turn, e: Error, pos: nat, m: string, visits: seq<Visit>)
    requires pos < |visits|
    requires (t.events == Probe(pos, m, e, visits[pos]) && t.verdict.Pass?)
             || t == Turn(Probe(pos, m, e, visits[pos]) + ErrorTail(e), Stop(Fail(e)))
    ensures TurnShape(t, pos, m, visits)
  {
    LookProbe(pos, m, e, visits[pos]);
    LookFatalProbe(pos, m, e, visits[pos]);
    ShapeOfLook(t, pos, m, visits, [pos]);
  }

  lemma ShapeOfLook(t: Turn, pos: nat, m: string, visits: seq<Visit>, opens: seq<nat>)
    requires opens == [] || opens == [pos]
    requires match t.verdict
             case Pass(_) =>
               Look(t.events) == View([], [m], [m], [], opens, opens) && forall e | e in t.events :: !e.Wrote?
             case Stop(o) =>
               o.Fail? && Look(t.events) == View([ErrorFrame(o.err), DoneFrame], [m], [m], [], opens, opens)
    requires forall i | 0 < i < |t.events| :: !t.events[i].Called?
    ensures TurnShape(t, pos, m, visits)
  {
  }

  lemma LookOpening(pos: nat, m: string, items: seq<string>, at: int)
    ensures Look([Called(m, at), Opened(pos)] + Chunks(items)) == View(ChunkFrames(items), [m], [], [], [pos], [])
  {
    LookTwo(Called(m, at), Opened(pos));
    LookChunks(items);
    LookAppend([Called(m, at), Opened(pos)], Chunks(items));
  }

  lemma LookEnding(opening: seq<Event>, tail: seq<Event>, a: View, b: View, whole: View)
    requires Look(opening) == a && Look(tail) == b && whole == Plus(a, b)
    ensures Look(opening + tail) == whole
  {
    LookAppend(opening, tail);
  }

  lemma LookCommitted(pos: nat, m: string, items: seq<string>, end: End, v: Visit)
    requires v.stream == Stream(items, end) && items != []
    ensures Look(StreamTurn(pos, m, v).events)
            == if end == Eof then View(ChunkFrames(items) + [DoneFrame], [m], [], [m], [pos], [pos])
               else View(ChunkFrames(items) + [ErrorFrame(end.err), DoneFrame], [m], [m], [], [pos], [pos])
  {
    var open := [Called(m, v.calledAt), Opened(pos)];
    var frames := ChunkFrames(items);
    var a := View(frames, [m], [], [], [pos], []);
    LookOpening(pos, m, items, v.calledAt);
    if end == Eof {
      var tail := [Wrote(DoneFrame), Closed(pos), Succeeded(m, v.settledAt)];
      LookThree(tail[0], tail[1], tail[2]);
      LookEnding(open + Chunks(items), tail, a, View([DoneFrame], [], [], [m], [], [pos]),
                 View(frames + [DoneFrame], [m], [], [m], [pos], [pos]));
    } else {
      var e := end.err;
      var tail := ErrorTail(e) + [Closed(pos), Failure(m, e, v)];
      LookCut(pos, m, e, v);
      LookEnding(open + Chunks(items), tail, a, View([ErrorFrame(e), DoneFrame], [], [m], [], [], [pos]),
                 View(frames + [ErrorFrame(e), DoneFrame], [m], [m], [], [pos], [pos]));
      Regroup(open + Chunks(items), ErrorTail(e), [Closed(pos), Failure(m, e, v)]);
    }
  }

  lemma LookCut(pos: nat, m: string, e: Error, v: Visit)
    ensures Look(ErrorTail(e) + [Closed(pos), Failure(m, e, v)])
            == View([ErrorFrame(e), DoneFrame], [], [m], [], [], [pos])
  {
    LookTwo(Wrote(ErrorFrame(e)), Wrote(DoneFrame));
    LookTwo(Closed(pos), Failure(m, e, v));
    LookAppend(ErrorTail(e), [Closed(pos), Failure(m, e, v)]);
  }

  lemma CallsFirst(pos: nat, m: string, v: Visit)
    requires v.stream.Stream?
    ensures forall i | 0 < i < |StreamTurn(pos, m, v).events| :: !StreamTurn(pos, m, v).events[i].Called?
  {
    var events, items := StreamTurn(pos, m, v).events, v.stream.items;
    ChunksAreWrites(items);
    forall i | 0 < i < |events| ensures !events[i].Called? {
      if items != [] && 2 <= i < 2 + |items| {
        assert events[i] == Chunks(items)[i - 2];
        assert Chunks(items)[i - 2] in Chunks(items);
      }
    }
  }

  lemma CommittedShape(pos: nat, m: string, visits: seq<Visit>)
    requires pos < |visits| && visits[pos].stream.Stream? && visits[pos].stream.items != []
    ensures TurnShape(StreamTurn(pos, m, visits[pos]), pos, m, visits)
  {
    LookCommitted(pos, m, visits[pos].stream.items, visits[pos].stream.end, visits[pos]);
    CallsFirst(pos, m, visits[pos]);
    ShapeOfCommitted(StreamTurn(pos, m, visits[pos]), pos, m, visits);
  }

  lemma ShapeOfCommitted(t: Turn, pos: nat, m: string, visits: seq<Visit>)
    requires pos < |visits| && visits[pos].stream.Stream? && visits[pos].stream.items != []
    requires var items, end := visits[pos].stream.items, visits[pos].stream.end;
             if end == Eof then
               t.verdict == Stop(Delivered(pos))
               && Look(t.events) == View(ChunkFrames(items) + [DoneFrame], [m], [], [m], [pos], [pos])
             else
               t.verdict == Stop(Broken(pos, end.err))
               && Look(t.events) == View(
                    ChunkFrames(items) + [ErrorFrame(end.err), DoneFrame], [m], [m], [], [pos], [pos])
    requires forall i | 0 < i < |t.events| :: !t.events[i].Called?
    ensures TurnShape(t, pos, m, visits)
  {
  }

  lemma UncalledShape(b: Books, pos: nat, m: string, visits: seq<Visit>)
    requires pos < |visits|
    requires Blocked(b, m, visits[pos]).Some? || ProviderName(b, m) !in b.providers
    ensures TurnShape(TurnOf(Streaming, b, pos, m, visits[pos]), pos, m, visits)
  {
    LookTwo(Wrote(ErrorFrame(NoClient(b, m))), Wrote(DoneFrame));
  }

  lemma StreamTurnShape(b: Books, pos: nat, m: string, visits: seq<Visit>)
    requires pos < |visits|
    ensures TurnShape(TurnOf(Streaming, b, pos, m, visits[pos]), pos, m, visits)
  {
    if Blocked(b, m, visits[pos]).Some? || ProviderName(b, m) !in b.providers {
      UncalledShape(b, pos, m, visits);
    } else if visits[pos].stream.NotOpened? {
      UnopenedShape(pos, m, visits);
    } else if visits[pos].stream.items == [] {
      UnstartedShape(pos, m, visits);
    } else {
      CommittedShape(pos, m, visits);
    }
  }

  /** The provider whose chunks the client got is the last one called. */
  ghost predicate CommittedLast(v: View, outcome: Outcome, chain: seq<string>) {
    outcome.Delivered? || outcome.Broken? ==>
      outcome.pos < |chain| && v.calls != [] && v.calls[|v.calls| - 1] == chain[outcome.pos]
  }

  ghost predicate RunShape(events: seq<Event>, outcome: Outcome, pos: nat, chain: seq<string>, visits: seq<Visit>)
    requires |chain| == |visits|
  {
    var v := Look(events);
    && Writes(visits, v.frames, outcome)
    && Balanced(v)
    && StreamWon(v.wins, outcome, chain)
    && (forall k | k in v.opens :: k >= pos)
    && NoCallAfterWrite(events)
    && CommittedLast(v, outcome, chain)
  }

  lemma StopRun(t: Turn, pos: nat, chain: seq<string>, visits: seq<Visit>)
    requires pos < |chain| == |visits|
    requires TurnShape(t, pos, chain[pos], visits) && t.verdict.Stop?
    ensures RunShape(t.events, t.verdict.outcome, pos, chain, visits)
  {
    OneCallFirst(t.events);
    StopCommits(Look(t.events), t.verdict.outcome, pos, chain);
  }

  lemma OneCallFirst(events: seq<Event>)
    requires forall i | 0 < i < |events| :: !events[i].Called?
    ensures NoCallAfterWrite(events)
  {
  }

  lemma StopCommits(v: View, outcome: Outcome, pos: nat, chain: seq<string>)
    requires pos < |chain| && (v.opens == [] || v.opens == [pos])
    requires outcome.Delivered? || outcome.Broken? ==> outcome.pos == pos && v.calls == [chain[pos]]
    ensures CommittedLast(v, outcome, chain) && forall k | k in v.opens :: k >= pos
  {
  }

  lemma OneMore(a: seq<nat>, b: seq<nat>, pos: nat)
    requires (a == [] || a == [pos]) && Distinct(b) && forall k | k in b :: k > pos
    ensures Distinct(a + b) && forall k | k in a + b :: k >= pos
  {
    if a == [] { assert a + b == b; } else { DistinctCons(pos, b); }
  }

  lemma OneMoreModel(a: seq<string>, b: seq<string>, chain: seq<string>, pos: nat)
    requires pos < |chain| && (a == [] || a == [chain[pos]])
    requires forall m | m in b :: m in chain[pos + 1..]
    ensures forall m | m in a + b :: m in chain[pos..]
    ensures Distinct(chain) && Distinct(b) ==> Distinct(a + b)
  {
    assert chain[pos..] == [chain[pos]] + chain[pos + 1..];
    if a == [] {
      assert a + b == b;
    } else if Distinct(chain) && Distinct(b) {
      assert chain[pos] !in chain[pos + 1..];
      DistinctCons(chain[pos], b);
    }
  }

  lemma PassThenRun(t: Turn, rest: seq<Event>, outcome: Outcome, pos: nat, chain: seq<string>, visits: seq<Visit>)
    requires pos < |chain| == |visits|
    requires TurnShape(t, pos, chain[pos], visits) && t.verdict.Pass?
    requires RunShape(rest, outcome, pos + 1, chain, visits)
    ensures RunShape(t.events + rest, outcome, pos, chain, visits)
  {
    LookAppend(t.events, rest);
    BalancedJoin(Look(t.events), Look(rest), pos);
    assert Look(t.events).frames + Look(rest).frames == Look(rest).frames;
    QuietFirst(t.events, rest);
  }

  lemma BalancedJoin(a: View, b: View, pos: nat)
    requires Balanced(a) && Balanced(b) && a.wins == [] && (a.opens == [] || a.opens == [pos])
    requires forall k | k in b.opens :: k > pos
    ensures Balanced(Plus(a, b)) && Plus(a, b).wins == b.wins
    ensures forall k | k in Plus(a, b).opens :: k >= pos
  {
    OneMore(a.opens, b.opens, pos);
    Regroup(a.losses, b.losses, b.wins);
    assert a.losses + [] == a.losses && [] + b.wins == b.wins;
  }

  lemma QuietFirst(a: seq<Event>, b: seq<Event>)
    requires (forall e | e in a :: !e.Wrote?) && NoCallAfterWrite(b)
    ensures NoCallAfterWrite(a + b)
  {
    assert forall k | 0 <= k < |a| :: (a + b)[k] in a;
    assert forall k | |a| <= k < |a + b| :: (a + b)[k] == b[k - |a|];
  }

  lemma EndRun(e: Error, chain: seq<string>, visits: seq<Visit>)
    requires |chain| == |visits|
    ensures RunShape(ErrorTail(e), Fail(e), |chain|, chain, visits)
  {
    LookTwo(Wrote(ErrorFrame(e)), Wrote(DoneFrame));
  }

  lemma {:induction false} WalkShape(b: Books, chain: seq<string>, visits: seq<Visit>, pos: nat, lastErr: Option<Error>)
    requires |chain| == |visits| && pos <= |chain|
    ensures var r := Walk(Streaming, b, chain, visits, pos, lastErr);
            RunShape(r.events, r.outcome, pos, chain, visits)
    decreases |chain| - pos
  {
    if pos == |chain| {
      EndRun(if lastErr.Some? then lastErr.value else NO_MODELS, chain, visits);
    } else {
      StreamTurnShape(b, pos, chain[pos], visits);
      var t := TurnOf(Streaming, b, pos, chain[pos], visits[pos]);
      if t.verdict.Stop? {
        StopRun(t, pos, chain, visits);
      } else {
        var b' := Apply(AfterChecks(b, chain[pos], visits[pos]), t.events);
        var lastErr' := if t.verdict.why.Some? then t.verdict.why else lastErr;
        WalkShape(b', chain, visits, pos + 1, lastErr');
        var rest := Walk(Streaming, b', chain, visits, pos + 1, lastErr');
        PassThenRun(t, rest.events, rest.outcome, pos, chain, visits);
      }
    }
  }

  /** Every streaming run, over any chain and any books: the client sees all chunks of one
      provider, in order, then one end of stream, or a final error and one end of stream; no
      provider is called once anything was written; every call gets one result, a success
      exactly if all chunks were delivered; opens and closes match. */
  lemma StreamRuns(b: Books, chain: seq<string>, visits: seq<Visit>)
    requires |chain| == |visits|
    ensures var r := Walk(Streaming, b, chain, visits, 0, None);
            && Writes(visits, Look(r.events).frames, r.outcome)
            && NoCallAfterWrite(r.events)
            && Balanced(Look(r.events))
            && StreamWon(Look(r.events).wins, r.outcome, chain)
            && CommittedLast(Look(r.events), r.outcome, chain)
  {
    WalkShape(b, chain, visits, 0, None);
  }

  /** One turn's call, its result, and what they mean for the outcome. */
  ghost predicate TurnResult(v: View, verdict: Verdict, pos: nat, m: string, visit: Visit) {
    && (v.calls == [] || v.calls == [m])
    && v.calls == v.losses + v.wins
    && (verdict.Stop? && Succeeds(verdict.outcome) ==> v.wins == [m] && CameFrom(verdict.outcome, pos, m, visit))
    && ((verdict.Stop? && Succeeds(verdict.outcome)) || v.wins == [])
  }

  lemma OneCallPerTurn(mode: Mode, b: Books, pos: nat, m: string, visits: seq<Visit>)
    requires pos < |visits|
    ensures var t := TurnOf(mode, b, pos, m, visits[pos]);
            TurnResult(Look(t.events), t.verdict, pos, m, visits[pos])
  {
    if mode == Streaming {
      StreamTurnShape(b, pos, m, visits);
      ShapeResult(TurnOf(mode, b, pos, m, visits[pos]), pos, m, visits);
    } else if Blocked(b, m, visits[pos]).None? && ProviderName(b, m) in b.providers {
      BatchResult(pos, m, visits[pos]);
    }
  }

  lemma ShapeResult(t: Turn, pos: nat, m: string, visits: seq<Visit>)
    requires pos < |visits| && TurnShape(t, pos, m, visits)
    ensures TurnResult(Look(t.events), t.verdict, pos, m, visits[pos])
  {
  }

  lemma BatchResult(pos: nat, m: string, v: Visit)
    ensures var t := BatchTurn(pos, m, v); TurnResult(Look(t.events), t.verdict, pos, m, v)
  {
    var events := BatchTurn(pos, m, v).events;
    LookTwo(events[0], events[1]);
  }

  /** Every call has one result, and the success, if any, is at position n, where the outcome
      came from. */
  predicate ResultedAt(v: View, outcome: Outcome, n: nat, chain: seq<string>, visits: seq<Visit>)
    requires |chain| == |visits|
  {
    v.calls == v.losses + v.wins && WonAt(v.wins, outcome, n, chain, visits)
  }

  ghost predicate CallsFrom(calls: seq<string>, chain: seq<string>, pos: nat)
    requires pos <= |chain|
  {
    (forall m | m in calls :: m in chain[pos..]) && (Distinct(chain) ==> Distinct(calls))
  }

  lemma StopResulted(v: View, outcome: Outcome, chain: seq<string>, visits: seq<Visit>, pos: nat)
    requires pos < |chain| == |visits| && TurnResult(v, Stop(outcome), pos, chain[pos], visits[pos])
    ensures ResultedAt(v, outcome, pos, chain, visits)
  {
  }

  lemma PassResulted(
    v: View, a: View, pass: Verdict, b: View, outcome: Outcome, n: nat, chain: seq<string>, visits: seq<Visit>,
      pos: nat)
    requires pos < |chain| == |visits| && pass.Pass? && TurnResult(a, pass, pos, chain[pos], visits[pos])
    requires ResultedAt(b, outcome, n, chain, visits) && v == Plus(a, b)
    ensures ResultedAt(v, outcome, n, chain, visits)
  {
    Regroup(a.losses, b.losses, b.wins);
    assert a.losses + [] == a.losses && [] + b.wins == b.wins;
  }

  lemma TurnsResult(mode: Mode, t: Turn, pos: nat, m: string, visits: seq<Visit>)
    requires pos < |visits| && IsTurn(mode, t, pos, m, visits[pos])
    ensures TurnResult(Look(t.events), t.verdict, pos, m, visits[pos])
  {
    var b :| t == TurnOf(mode, b, pos, m, visits[pos]);
    OneCallPerTurn(mode, b, pos, m, visits);
  }

  /** A dispatch, in either mode, records one result for each call, in the order of the calls: a
      success for the one the outcome came from, if any, and failures for all others. */
  lemma {:induction false} CallsAreResulted(
    mode: Mode, turns: seq<Turn>, w: Run, chain: seq<string>, visits: seq<Visit>, pos: nat)
    returns (win: nat)
    requires pos <= |chain| == |visits| && Unrolled(mode, turns, w.events, w.outcome, chain, visits, pos)
    ensures ResultedAt(Look(w.events), w.outcome, win, chain, visits)
    decreases |turns|
  {
    win := pos;
    if pos == |chain| {
      LookTail(w.outcome.err);
    } else {
      var t, rest := turns[0], w.(events := w.events[|turns[0].events|..]);
      TurnsResult(mode, t, pos, chain[pos], visits);
      if t.verdict.Stop? {
        StopResulted(Look(w.events), w.outcome, chain, visits, pos);
      } else {
        win := CallsAreResulted(mode, turns[1..], rest, chain, visits, pos + 1);
        LookSplit(w.events, t.events, rest.events);
        PassResulted(Look(w.events), Look(t.events), t.verdict, Look(rest.events), w.outcome, win, chain, visits, pos);
      }
    }
  }

  lemma LookSplit(events: seq<Event>, first: seq<Event>, rest: seq<Event>)
    requires first <= events && rest == events[|first|..]
    ensures Look(events) == Plus(Look(first), Look(rest))
  {
    assert events == first + rest;
    LookAppend(first, rest);
  }

  lemma {:induction false} CallsInChain(
    mode: Mode, turns: seq<Turn>, w: Run, chain: seq<string>, visits: seq<Visit>, pos: nat)
    requires pos <= |chain| == |visits| && Unrolled(mode, turns, w.events, w.outcome, chain, visits, pos)
    ensures CallsFrom(Look(w.events).calls, chain, pos)
    decreases |turns|
  {
    if pos == |chain| {
      LookTail(w.outcome.err);
    } else {
      var t, rest := turns[0], w.(events := w.events[|turns[0].events|..]);
      TurnsResult(mode, t, pos, chain[pos], visits);
      if t.verdict.Stop? {
        CallsBefore(Look(w.events).calls, [], chain, pos);
        assert Look(w.events).calls + [] == Look(w.events).calls;
      } else {
        CallsInChain(mode, turns[1..], rest, chain, visits, pos + 1);
        LookSplit(w.events, t.events, rest.events);
        CallsBefore(Look(t.events).calls, Look(rest.events).calls, chain, pos);
      }
    }
  }

  lemma CallsBefore(a: seq<string>, b: seq<string>, chain: seq<string>, pos: nat)
    requires pos < |chain| && (a == [] || a == [chain[pos]]) && CallsFrom(b, chain, pos + 1)
    ensures CallsFrom(a + b, chain, pos)
  {
    OneMoreModel(a, b, chain, pos);
  }

  lemma LookTail(e: Error)
    ensures Look([]) == NOTHING && Look(ErrorTail(e)) == NOTHING.(frames := [ErrorFrame(e), DoneFrame])
  {
    LookTwo(Wrote(ErrorFrame(e)), Wrote(DoneFrame));
  }

  /** Both, over a whole dispatch in either mode; with no repeats in the chain no model is called
      twice. */
  lemma CallsFollowChain(mode: Mode, b: Books, chain: seq<string>, visits: seq<Visit>) returns (win: nat)
    requires |chain| == |visits|
    ensures var r := Walk(mode, b, chain, visits, 0, None);
            var v := Look(r.events);
            && v.calls == v.losses + v.wins
            && WonAt(v.wins, r.outcome, win, chain, visits)
            && (forall m | m in v.calls :: m in chain)
            && (Distinct(chain) ==> Distinct(v.calls))
  {
    var r := Walk(mode, b, chain, visits, 0, None);
    WalkUnrolls(mode, b, chain, visits, 0, None);
    var turns :| Unrolled(mode, turns, r.events, r.outcome, chain, visits, 0);
    win := CallsAreResulted(mode, turns, r, chain, visits, 0);
    CallsInChain(mode, turns, r, chain, visits, 0);
    assert chain[0..] == chain;
  }
}
