/** One walk over a model chain, batch or streaming, as a pure function of the books it
    starts from, and the plain scan that it amounts to. */
module Dispatch {
  import opened Common
  import opened Errors
  import H = Health
  import L = ModelLimit

  datatype Response = Response(model: string, body: string)

  datatype Frame = Chunk(text: string) | ErrorFrame(err: Error) | DoneFrame | HttpError(code: int)

  /** How a provider answers at one position of the chain. */
  datatype BatchReply = Answered(resp: Response) | Refused(err: Error)
  datatype End = Eof | Cut(err: Error)
  datatype StreamReply = NotOpened(err: Error) | Stream(items: seq<string>, end: End)

  /** Everything the environment contributes to one position: the clock readings that the
      availability check, the limiter check, the call and the two recordings see, and the
      provider's behaviour in either mode. */
  datatype Visit = Visit(
    healthAt: int, limitAt: int, calledAt: int, settledAt: int, cooledAt: int,
    batch: BatchReply, stream: StreamReply)

  datatype Event =
    | Called(model: string, at: int)
    | Opened(pos: nat)
    | Wrote(frame: Frame)
    | Closed(pos: nat)
    | Succeeded(model: string, at: int)
    | Failed(model: string, kind: Kind, at: int, cooledAt: int)

  /** The shared books of the server, and its routing configuration. */
  datatype Books = Books(
    records: H.Records, cooldowns: L.Cooldowns, limited: bool,
    providerOf: map<string, string>, providers: set<string>)

  datatype Mode = Batch | Streaming

  datatype Outcome =
    | Answer(resp: Response)
    | Fail(err: Error)
    | Delivered(pos: nat)
    | Broken(pos: nat, err: Error)

  /** A position either lets the walk go on, leaving the error it set if any, or ends it. */
  datatype Verdict = Pass(why: Option<Error>) | Stop(outcome: Outcome)
  datatype Turn = Turn(events: seq<Event>, verdict: Verdict)

  const NO_MODELS := Plain("no models in fallback chain")

  function InCooldown(source: string, m: string): Error {
    Provider(RateLimit, source, m, "model in cooldown")
  }

  function ProviderName(b: Books, m: string): string {
    if m in b.providerOf && b.providerOf[m] != "" then b.providerOf[m] else "openai"
  }

  function NoClient(b: Books, m: string): Error {
    Provider(Auth, ProviderName(b, m), m, "no client configured for provider " + ProviderName(b, m))
  }

  function ErrorTail(e: Error): seq<Event> {
    [Wrote(ErrorFrame(e)), Wrote(DoneFrame)]
  }

  function Chunks(items: seq<string>): (r: seq<Event>)
    ensures |r| == |items|
  {
    if items == [] then [] else Chunks(items[..|items| - 1]) + [Wrote(Chunk(items[|items| - 1]))]
  }

  /** The error that keeps position m from being called, if any. */
  function Blocked(b: Books, m: string, v: Visit): Option<Error> {
    if !H.IsAvailable(b.records, m, v.healthAt) then Some(InCooldown("health", m))
    else if b.limited && L.IsCooling(b.cooldowns, m, v.limitAt) then Some(InCooldown("ratelimit", m))
    else None
  }

  function Failure(m: string, e: Error, v: Visit): Event {
    Failed(m, KindOf(e), v.settledAt, v.cooledAt)
  }

  const EMPTY_STREAM := (m: string) => Provider(ServerError, "", m, "empty stream")

  function BatchTurn(pos: nat, m: string, v: Visit): Turn {
    match v.batch
    case Answered(resp) =>
      Turn([Called(m, v.calledAt), Succeeded(m, v.settledAt)],
           Stop(Answer(if pos > 0 then resp.(model := m) else resp)))
    case Refused(e) =>
      Turn([Called(m, v.calledAt), Failure(m, e, v)],
           if IsTransient(e) then Pass(Some(e)) else Stop(Fail(e)))
  }

  function StreamTurn(pos: nat, m: string, v: Visit): Turn {
    match v.stream
    case NotOpened(e) =>
      var call := [Called(m, v.calledAt), Failure(m, e, v)];
      if IsTransient(e) then Turn(call, Pass(Some(e))) else Turn(call + ErrorTail(e), Stop(Fail(e)))
    case Stream(items, end) =>
      var open := [Called(m, v.calledAt), Opened(pos)];
      if items == [] && end == Eof then
        Turn(open + [Closed(pos), Failure(m, EMPTY_STREAM(m), v)], Pass(None))
      else if items == [] then
        var call := open + [Closed(pos), Failure(m, end.err, v)];
        if IsTransient(end.err) then Turn(call, Pass(Some(end.err)))
        else Turn(call + ErrorTail(end.err), Stop(Fail(end.err)))
      else if end == Eof then
        Turn(open + Chunks(items) + [Wrote(DoneFrame), Closed(pos), Succeeded(m, v.settledAt)],
             Stop(Delivered(pos)))
      else
        Turn(open + Chunks(items) + ErrorTail(end.err) + [Closed(pos), Failure(m, end.err, v)],
             Stop(Broken(pos, end.err)))
  }

  function TurnOf(mode: Mode, b: Books, pos: nat, m: string, v: Visit): Turn {
    var blocked := Blocked(b, m, v);
    if blocked.Some? then Turn([], Pass(blocked))
    else if ProviderName(b, m) !in b.providers then
      Turn(if mode == Streaming then ErrorTail(NoClient(b, m)) else [], Stop(Fail(NoClient(b, m))))
    else if mode == Batch then BatchTurn(pos, m, v)
    else StreamTurn(pos, m, v)
  }

  /** The books after the checks at m, before any call. */
  function AfterChecks(b: Books, m: string, v: Visit): Books {
    if b.limited && H.IsAvailable(b.records, m, v.healthAt)
    then b.(cooldowns := L.AfterCheck(b.cooldowns, m, v.limitAt))
    else b
  }

  function ApplyEvent(b: Books, e: Event): Books {
    match e
    case Succeeded(m, at) => b.(records := H.AfterSuccess(b.records, m, at))
    case Failed(m, kind, at, cooledAt) =>
      var b' := b.(records := H.AfterFailure(b.records, m, kind, at));
      if b.limited && kind == RateLimit
      then b'.(cooldowns := L.AfterRecord(b.cooldowns, m, 0, cooledAt))
      else b'
    case _ => b
  }

  function Apply(b: Books, events: seq<Event>): Books {
    if events == [] then b else ApplyEvent(Apply(b, events[..|events| - 1]), events[|events| - 1])
  }

  predicate Idle(events: seq<Event>) {
    forall e | e in events :: !e.Succeeded? && !e.Failed?
  }

  /** Only recorded results change the books. */
  lemma {:induction false} ApplyIdle(b: Books, events: seq<Event>)
    requires Idle(events)
    ensures Apply(b, events) == b
  {
    if events != [] { ApplyIdle(b, events[..|events| - 1]); }
  }

  lemma {:induction false} ApplyAppend(b: Books, x: seq<Event>, y: seq<Event>)
    ensures Apply(b, x + y) == Apply(Apply(b, x), y)
  {
    if y == [] {
      assert x + y == x;
    } else {
      ApplyAppend(b, x, y[..|y| - 1]);
      assert (x + y)[..|x + y| - 1] == x + y[..|y| - 1];
    }
  }

  datatype Run = Run(after: Books, events: seq<Event>, outcome: Outcome)

  /** The walk from position pos on, with the books changing under it. */
  function Walk(mode: Mode, b: Books, chain: seq<string>, visits: seq<Visit>, pos: nat, lastErr: Option<Error>): Run
    requires |chain| == |visits| && pos <= |chain|
    decreases |chain| - pos
  {
    if pos == |chain| then
      var err := if lastErr.Some? then lastErr.value else NO_MODELS;
      Run(b, if mode == Streaming then ErrorTail(err) else [], Fail(err))
    else
      var t := TurnOf(mode, b, pos, chain[pos], visits[pos]);
      var b' := Apply(AfterChecks(b, chain[pos], visits[pos]), t.events);
      match t.verdict
      case Stop(o) => Run(b', t.events, o)
      case Pass(why) =>
        var rest := Walk(mode, b', chain, visits, pos + 1, if why.Some? then why else lastErr);
        rest.(events := t.events + rest.events)
  }

  // ---------------------------------------------------------------------------------
  // A walk as the list of its turns.

  /** Some books lead to this turn at this position. */
  ghost predicate IsTurn(mode: Mode, t: Turn, pos: nat, m: string, v: Visit) {
    exists b: Books :: t == TurnOf(mode, b, pos, m, v)
  }

  /** These turns, one for each position from pos on until one ends the walk, make up the events
      and the outcome. */
  ghost predicate Unrolled(
    mode: Mode, turns: seq<Turn>, events: seq<Event>, outcome: Outcome, chain: seq<string>, visits: seq<Visit>,
      pos: nat)
    requires pos <= |chain| == |visits|
    decreases |turns|
  {
    if pos == |chain| then turns == [] && outcome.Fail? && (events == [] || events == ErrorTail(outcome.err))
    else
      && turns != []
      && IsTurn(mode, turns[0], pos, chain[pos], visits[pos])
      && turns[0].events <= events
      && match turns[0].verdict
         case Stop(o) => events == turns[0].events && outcome == o
         case Pass(_) => Unrolled(mode, turns[1..], events[|turns[0].events|..], outcome, chain, visits, pos + 1)
  }

  ghost predicate Unrolls(mode: Mode, w: Run, chain: seq<string>, visits: seq<Visit>, pos: nat)
    requires pos <= |chain| == |visits|
  {
    exists turns :: Unrolled(mode, turns, w.events, w.outcome, chain, visits, pos)
  }

  lemma StopUnrolls(mode: Mode, t: Turn, w: Run, chain: seq<string>, visits: seq<Visit>, pos: nat)
    requires pos < |chain| == |visits| && IsTurn(mode, t, pos, chain[pos], visits[pos])
    requires t.verdict.Stop? && w.events == t.events && w.outcome == t.verdict.outcome
    ensures Unrolls(mode, w, chain, visits, pos)
  {
    assert Unrolled(mode, [t], w.events, w.outcome, chain, visits, pos);
  }

  lemma PassUnrolls(mode: Mode, t: Turn, rest: Run, w: Run, chain: seq<string>, visits: seq<Visit>, pos: nat)
    requires pos < |chain| == |visits| && IsTurn(mode, t, pos, chain[pos], visits[pos])
    requires t.verdict.Pass? && w == rest.(events := t.events + rest.events)
    requires Unrolls(mode, rest, chain, visits, pos + 1)
    ensures Unrolls(mode, w, chain, visits, pos)
  {
    var more :| Unrolled(mode, more, rest.events, rest.outcome, chain, visits, pos + 1);
    assert w.events[|t.events|..] == rest.events && ([t] + more)[1..] == more;
    assert Unrolled(mode, [t] + more, w.events, w.outcome, chain, visits, pos);
  }

  lemma {:induction false} WalkUnrolls(
    mode: Mode, b: Books, chain: seq<string>, visits: seq<Visit>, pos: nat, lastErr: Option<Error>)
    requires pos <= |chain| == |visits|
    ensures Unrolls(mode, Walk(mode, b, chain, visits, pos, lastErr), chain, visits, pos)
    decreases |chain| - pos
  {
    var w := Walk(mode, b, chain, visits, pos, lastErr);
    if pos == |chain| {
      assert Unrolled(mode, [], w.events, w.outcome, chain, visits, pos);
    } else {
      var t := TurnOf(mode, b, pos, chain[pos], visits[pos]);
      if t.verdict.Stop? {
        StopUnrolls(mode, t, w, chain, visits, pos);
      } else {
        var b' := Apply(AfterChecks(b, chain[pos], visits[pos]), t.events);
        var lastErr' := if t.verdict.why.Some? then t.verdict.why else lastErr;
        WalkUnrolls(mode, b', chain, visits, pos + 1, lastErr');
        PassUnrolls(mode, t, Walk(mode, b', chain, visits, pos + 1, lastErr'), w, chain, visits, pos);
      }
    }
  }

  // ---------------------------------------------------------------------------------
  // Refinement: on a chain without repeats the walk is a scan of entry-state verdicts.

  /** What each position would do if it met the books as they are on entry. */
  function EntryTurns(mode: Mode, b: Books, chain: seq<string>, visits: seq<Visit>): (ts: seq<Turn>)
    requires |chain| == |visits|
    ensures |ts| == |chain|
  {
    seq(|chain|, i requires 0 <= i < |chain| => TurnOf(mode, b, i, chain[i], visits[i]))
  }

  function Joined(turns: seq<Turn>, n: nat): seq<Event>
    requires n <= |turns|
  {
    if n == 0 then [] else Joined(turns, n - 1) + turns[n - 1].events
  }

  /** Position n is the first that ends the walk. */
  ghost predicate FirstStop(turns: seq<Turn>, n: nat) {
    n < |turns| && turns[n].verdict.Stop? && forall i | 0 <= i < n :: turns[i].verdict.Pass?
  }

  ghost predicate NoStop(turns: seq<Turn>) {
    forall i | 0 <= i < |turns| :: turns[i].verdict.Pass?
  }

  /** Position n left err and no later position left another. */
  ghost predicate StandsAt(turns: seq<Turn>, n: int, err: Error) {
    && 0 <= n < |turns| && turns[n].verdict == Pass(Some(err))
    && forall i | n < i < |turns| :: turns[i].verdict == Pass(None)
  }

  /** The last position that left an error is what a chain without an answer reports. */
  ghost predicate LastWhy(turns: seq<Turn>, err: Error) {
    || (exists n | 0 <= n < |turns| :: StandsAt(turns, n, err))
    || (err == NO_MODELS && forall i | 0 <= i < |turns| :: turns[i].verdict == Pass(None))
  }

  ghost predicate IsScan(mode: Mode, turns: seq<Turn>, events: seq<Event>, outcome: Outcome) {
    || (exists n: nat ::
          && FirstStop(turns, n)
          && outcome == turns[n].verdict.outcome
          && events == Joined(turns, n + 1))
    || (&& NoStop(turns)
        && outcome.Fail?
        && LastWhy(turns, outcome.err)
        && events == Joined(turns, |turns|) + if mode == Streaming then ErrorTail(outcome.err) else [])
  }

  /** The books agree on everything that could matter to model m. */
  ghost predicate AgreeOn(b: Books, c: Books, m: string) {
    && b.limited == c.limited && b.providerOf == c.providerOf && b.providers == c.providers
    && (m in b.records <==> m in c.records) && (m in b.records ==> b.records[m] == c.records[m])
    && (m in b.cooldowns <==> m in c.cooldowns) && (m in b.cooldowns ==> b.cooldowns[m] == c.cooldowns[m])
  }

  predicate OnlyAbout(events: seq<Event>, m: string) {
    forall e | e in events :: (e.Called? || e.Succeeded? || e.Failed?) ==> e.model == m
  }

  lemma {:induction false} ChunksAreWrites(items: seq<string>)
    ensures forall e | e in Chunks(items) :: e.Wrote? && e.frame.Chunk?
  {
    if items != [] { ChunksAreWrites(items[..|items| - 1]); }
  }

  lemma StreamTurnOnlyAbout(pos: nat, m: string, v: Visit)
    ensures OnlyAbout(StreamTurn(pos, m, v).events, m)
  {
    if v.stream.Stream? && v.stream.items != [] {
      ChunksAreWrites(v.stream.items);
      var open := [Called(m, v.calledAt), Opened(pos)] + Chunks(v.stream.items);
      assert OnlyAbout(open, m);
    }
  }

  lemma TurnOnlyAbout(mode: Mode, b: Books, pos: nat, m: string, v: Visit)
    ensures OnlyAbout(TurnOf(mode, b, pos, m, v).events, m)
  {
    StreamTurnOnlyAbout(pos, m, v);
  }

  lemma {:induction false} ApplyLeavesOthers(b: Books, events: seq<Event>, m: string, other: string)
    requires OnlyAbout(events, m) && other != m
    ensures AgreeOn(Apply(b, events), b, other)
  {
    if events != [] { ApplyLeavesOthers(b, events[..|events| - 1], m, other); }
  }

  /** A turn at m cannot change the verdict for any other model. */
  lemma TurnLeavesOthers(mode: Mode, b: Books, pos: nat, m: string, v: Visit, other: string)
    requires other != m
    ensures AgreeOn(Apply(AfterChecks(b, m, v), TurnOf(mode, b, pos, m, v).events), b, other)
  {
    TurnOnlyAbout(mode, b, pos, m, v);
    ApplyLeavesOthers(AfterChecks(b, m, v), TurnOf(mode, b, pos, m, v).events, m, other);
  }

  /** The error standing after the first n turns, as the loops keep it. */
  function Standing(turns: seq<Turn>, n: nat): Option<Error>
    requires n <= |turns| && forall i | 0 <= i < n :: turns[i].verdict.Pass?
  {
    if n == 0 then None
    else if turns[n - 1].verdict.why.Some? then turns[n - 1].verdict.why
    else Standing(turns, n - 1)
  }

  lemma {:induction false} StandingIsLast(turns: seq<Turn>, n: nat)
    requires n <= |turns| && forall i | 0 <= i < n :: turns[i].verdict.Pass?
    ensures var s := Standing(turns, n); LastWhy(turns[..n], if s.Some? then s.value else NO_MODELS)
    ensures Standing(turns, n) == None ==> forall i | 0 <= i < n :: turns[i].verdict == Pass(None)
  {
    if n > 0 {
      var v := turns[n - 1].verdict;
      if v.why.Some? {
        assert StandsAt(turns[..n], n - 1, v.why.value);
      } else {
        StandingIsLast(turns, n - 1);
        var before, now := turns[..n - 1], turns[..n];
        assert now == before + [turns[n - 1]];
        var s := Standing(turns, n - 1);
        if s.Some? && exists k | 0 <= k < n - 1 :: StandsAt(before, k, s.value) {
          var k :| 0 <= k < n - 1 && StandsAt(before, k, s.value);
          assert StandsAt(now, k, s.value);
        }
      }
    }
  }

  /** The walk from pos, with books that agree with the entry books on what is still ahead. */
  lemma {:induction false} WalkScansFrom(
      mode: Mode, b: Books, entry: Books, chain: seq<string>, visits: seq<Visit>, pos: nat, turns: seq<Turn>)
    requires |chain| == |visits| && pos <= |chain| && Distinct(chain)
    requires turns == EntryTurns(mode, entry, chain, visits)
    requires forall i | pos <= i < |chain| :: AgreeOn(b, entry, chain[i])
    requires forall i | 0 <= i < pos :: turns[i].verdict.Pass?
    ensures var r := Walk(mode, b, chain, visits, pos, Standing(turns, pos));
            IsScan(mode, turns, Joined(turns, pos) + r.events, r.outcome)
    decreases |chain| - pos
  {
    var standing := Standing(turns, pos);
    var r := Walk(mode, b, chain, visits, pos, standing);
    if pos == |chain| {
      StandingIsLast(turns, pos);
      assert turns[..pos] == turns;
      assert NoStop(turns);
    } else {
      var t := TurnOf(mode, b, pos, chain[pos], visits[pos]);
      SameTurn(mode, b, entry, pos, chain[pos], visits[pos]);
      if t.verdict.Stop? {
        StopIsScan(mode, turns, pos, r.events, r.outcome);
      } else {
        var b' := Apply(AfterChecks(b, chain[pos], visits[pos]), t.events);
        forall i | pos + 1 <= i < |chain| ensures AgreeOn(b', entry, chain[i]) {
          TurnLeavesOthers(mode, b, pos, chain[pos], visits[pos], chain[i]);
        }
        WalkScansFrom(mode, b', entry, chain, visits, pos + 1, turns);
        PassIsJoined(turns, pos, Walk(mode, b', chain, visits, pos + 1, Standing(turns, pos + 1)).events);
      }
    }
  }

  lemma StopIsScan(mode: Mode, turns: seq<Turn>, n: nat, events: seq<Event>, outcome: Outcome)
    requires FirstStop(turns, n) && events == turns[n].events && outcome == turns[n].verdict.outcome
    ensures IsScan(mode, turns, Joined(turns, n) + events, outcome)
  {
    assert Joined(turns, n) + events == Joined(turns, n + 1);
  }

  lemma PassIsJoined(turns: seq<Turn>, n: nat, rest: seq<Event>)
    requires n < |turns|
    ensures Joined(turns, n) + (turns[n].events + rest) == Joined(turns, n + 1) + rest
  {
  }

  lemma SameTurn(mode: Mode, b: Books, c: Books, pos: nat, m: string, v: Visit)
    requires AgreeOn(b, c, m)
    ensures TurnOf(mode, b, pos, m, v) == TurnOf(mode, c, pos, m, v)
  {
  }

  /** The dispatch loop with all its bookkeeping returns, and does, what a pure scan over the
      availabilities on entry says: the first position that ends the walk decides, else the
      last error left behind. */
  lemma WalkIsScan(mode: Mode, b: Books, chain: seq<string>, visits: seq<Visit>)
    requires |chain| == |visits| && Distinct(chain)
    ensures var r := Walk(mode, b, chain, visits, 0, None);
            IsScan(mode, EntryTurns(mode, b, chain, visits), r.events, r.outcome)
  {
    var turns := EntryTurns(mode, b, chain, visits);
    WalkScansFrom(mode, b, b, chain, visits, 0, turns);
    assert Joined(turns, 0) + Walk(mode, b, chain, visits, 0, None).events
        == Walk(mode, b, chain, visits, 0, None).events;
  }

  // ---------------------------------------------------------------------------------
  // Without repeats is also necessary: a repeated model can be cut off by its own failure.

  ghost predicate WalksAsScan(mode: Mode, b: Books, chain: seq<string>, visits: seq<Visit>) {
    |visits| == |chain| ==>
      var r := Walk(mode, b, chain, visits, 0, None);
      IsScan(mode, EntryTurns(mode, b, chain, visits), r.events, r.outcome)
  }

  const TIMED_OUT := Provider(Timeout, "", "", "")

  /** Every model of the chain from pos on is cooling down at instant 0. */
  ghost predicate AllCold(b: Books, chain: seq<string>, pos: nat) {
    forall k | pos <= k < |chain| :: !H.IsAvailable(b.records, chain[k], 0)
  }

  lemma {:induction false} ColdWalkFails(
      mode: Mode, b: Books, chain: seq<string>, visits: seq<Visit>, pos: nat, lastErr: Option<Error>)
    requires |chain| == |visits| && pos <= |chain| && AllCold(b, chain, pos)
    requires forall k | 0 <= k < |visits| :: visits[k].healthAt == 0
    ensures Walk(mode, b, chain, visits, pos, lastErr).outcome.Fail?
    decreases |chain| - pos
  {
    if pos < |chain| {
      var t := TurnOf(mode, b, pos, chain[pos], visits[pos]);
      ColdWalkFails(mode, b, chain, visits, pos + 1, t.verdict.why);
    }
  }

  /** A call that fails at m, on its fifth failure, after which nothing ahead is available. */
  lemma {:induction false} FifthFailureWalkFails(
      mode: Mode, b: Books, chain: seq<string>, visits: seq<Visit>, pos: nat, i: nat, lastErr: Option<Error>)
    requires |chain| == |visits| && pos <= i < |chain|
    requires forall k | 0 <= k < |visits| :: visits[k].healthAt == 0
    requires AllCold(b.(records := H.AfterFailure(b.records, chain[i], Timeout, 0)), chain, 0)
    requires forall k | pos <= k < i :: !H.IsAvailable(b.records, chain[k], 0)
    requires H.IsAvailable(b.records, chain[i], 0) && !b.limited && ProviderName(b, chain[i]) in b.providers
    requires visits[i].batch == Refused(TIMED_OUT) && visits[i].stream == NotOpened(TIMED_OUT)
        && visits[i].settledAt == 0
    ensures Walk(mode, b, chain, visits, pos, lastErr).outcome.Fail?
    decreases i - pos
  {
    var t := TurnOf(mode, b, pos, chain[pos], visits[pos]);
    if pos < i {
      assert Apply(AfterChecks(b, chain[pos], visits[pos]), t.events) == b;
      FifthFailureWalkFails(mode, b, chain, visits, pos + 1, i, t.verdict.why);
    } else {
      var b' := b.(records := H.AfterFailure(b.records, chain[i], Timeout, 0));
      assert t.events[..1] == [Called(chain[i], visits[i].calledAt)];
      assert t.events[..1][..0] == [];
      assert Apply(b, t.events[..1]) == b;
      assert t.events[..|t.events| - 1] == t.events[..1];
      assert Apply(AfterChecks(b, chain[i], visits[i]), t.events) == b';
      ColdWalkFails(mode, b', chain, visits, pos + 1, t.verdict.why);
    }
  }

  /** Every model of the chain is cooling down at instant 0, but for m, which is one failure
      short of it. */
  function AlmostCold(chain: seq<string>, m: string): Books {
    Books(map k: string | k in chain ::
      H.Record(if k == m then 4 else 5, Timeout, 0, 0), map[], false, map[], {"openai"})
  }

  /** Every call times out, but for the one at position j. */
  function OnlyAnswers(n: nat, j: nat): (visits: seq<Visit>)
    ensures |visits| == n
  {
    var no := Visit(0, 0, 0, 0, 0, Refused(TIMED_OUT), NotOpened(TIMED_OUT));
    seq(n, k => if k == j then no.(batch := Answered(Response("", "")), stream := Stream(["x"], Eof)) else no)
  }

  lemma EntryAnswers(mode: Mode, chain: seq<string>, j: nat)
    requires j < |chain|
    ensures var turns := EntryTurns(mode, AlmostCold(chain, chain[j]), chain, OnlyAnswers(|chain|, j));
            && turns[j].verdict.Stop? && !turns[j].verdict.outcome.Fail?
            && forall i | 0 <= i < |turns| && i != j :: turns[i].verdict.Pass?
  {
  }

  lemma RepeatBreaksScan(mode: Mode, chain: seq<string>, i: nat, j: nat) returns (b: Books, visits: seq<Visit>)
    requires i < j < |chain| && chain[i] == chain[j]
    requires forall k | 0 <= k < j && k != i :: chain[k] != chain[i]
    ensures |visits| == |chain| && !WalksAsScan(mode, b, chain, visits)
  {
    b, visits := AlmostCold(chain, chain[j]), OnlyAnswers(|chain|, j);
    FifthFailureWalkFails(mode, b, chain, visits, 0, i, None);
    EntryAnswers(mode, chain, j);
    var r := Walk(mode, b, chain, visits, 0, None);
    AnswerIsScanned(mode, EntryTurns(mode, b, chain, visits), j, r.events, r.outcome);
  }

  /** A scan does not overlook the only position that stops it. */
  lemma AnswerIsScanned(mode: Mode, turns: seq<Turn>, j: nat, events: seq<Event>, outcome: Outcome)
    requires j < |turns| && turns[j].verdict.Stop? && !turns[j].verdict.outcome.Fail?
    requires forall i | 0 <= i < |turns| && i != j :: turns[i].verdict.Pass?
    requires outcome.Fail?
    ensures !IsScan(mode, turns, events, outcome)
  {
    assert forall n: nat :: FirstStop(turns, n) ==> n == j;
    assert !NoStop(turns);
  }

  lemma {:induction false} FirstRepeat(chain: seq<string>) returns (i: nat, j: nat)
    requires !Distinct(chain)
    ensures i < j < |chain| && chain[i] == chain[j]
    ensures forall k | 0 <= k < j && k != i :: chain[k] != chain[i]
  {
    var last := |chain| - 1;
    if Distinct(chain[..last]) {
      j := last;
      assert forall k | 0 <= k < last :: chain[..last][k] == chain[k];
      i :| i < last && chain[i] == chain[last];
      forall k | 0 <= k < j && k != i ensures chain[k] != chain[i] {
        assert chain[..last][k] == chain[k] && chain[..last][i] == chain[i];
      }
    } else {
      i, j := FirstRepeat(chain[..last]);
    }
  }

  /** In either mode the walk is the scan, whatever the books and the environment, exactly on the chains
      that repeat no model. */
  lemma ScanNeedsDistinct(mode: Mode, chain: seq<string>)
    ensures Distinct(chain) <==> forall b: Books, visits: seq<Visit> :: WalksAsScan(mode, b, chain, visits)
  {
    if Distinct(chain) {
      forall b: Books, visits: seq<Visit> ensures WalksAsScan(mode, b, chain, visits) {
        if |visits| == |chain| { WalkIsScan(mode, b, chain, visits); }
      }
    } else {
      var i, j := FirstRepeat(chain);
      var b, visits := RepeatBreaksScan(mode, chain, i, j);
    }
  }
}
