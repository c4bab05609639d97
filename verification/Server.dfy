/** The two fallback loops of the proxy, mutating the shared health tracker, the model limiter
    and the client's response; proved equal to Dispatch.Walk. */
module Server {
  import opened Common
  import opened Errors
  import opened Dispatch
  import opened StreamShape
  import H = Health
  import L = ModelLimit

  datatype NextResult = Item(text: string) | Finished(end: End)

  /** A provider's chunk iterator. */
  class StreamIter {
    const items: seq<string>
    const end: End
    var next: nat
    var closes: nat

    constructor (items: seq<string>, end: End)
      ensures this.items == items && this.end == end && next == 0 && closes == 0
    {
      this.items, this.end := items, end;
      next, closes := 0, 0;
    }

    method Next() returns (r: NextResult)
      requires next <= |items|
      modifies this`next
      ensures next <= |items|
      ensures r == if old(next) < |items| then Item(items[old(next)]) else Finished(end)
      ensures next == if old(next) < |items| then old(next) + 1 else old(next)
    {
      if next < |items| {
        next := next + 1;
        return Item(items[next - 1]);
      }
      return Finished(end);
    }

    method Close()
      modifies this`closes
      ensures closes == old(closes) + 1
    {
      closes := closes + 1;
    }
  }

  /** The response under construction; streaming needs a writer that can flush. */
  class ResponseWriter {
    const canFlush: bool
    var out: seq<Frame>

    constructor (canFlush: bool)
      ensures this.canFlush == canFlush && out == []
    {
      this.canFlush := canFlush;
      out := [];
    }
  }

  lemma ApplyPush(b: Books, events: seq<Event>, e: Event)
    ensures Apply(b, events + [e]) == ApplyEvent(Apply(b, events), e)
  {
    assert (events + [e])[..|events|] == events;
  }

  lemma CallThenResult(b: Books, call: Event, result: Event)
    requires call.Called?
    ensures Apply(b, [call, result]) == ApplyEvent(b, result)
  {
    ApplyPush(b, [], call);
    ApplyPush(b, [call], result);
    assert [] + [call] == [call] && [call] + [result] == [call, result];
  }

  /** Books, trace and response at one moment, and what a list of events adds to them. */
  datatype Log = Log(books: Books, trace: seq<Event>, out: seq<Frame>)

  function Push(s: Log, events: seq<Event>): Log {
    Log(Apply(s.books, events), s.trace + events, s.out + Look(events).frames)
  }

  lemma PushPush(s: Log, a: seq<Event>, b: seq<Event>)
    ensures Push(Push(s, a), b) == Push(s, a + b)
  {
    ApplyAppend(s.books, a, b);
    LookAppend(a, b);
    Regroup(s.trace, a, b);
    Regroup(s.out, Look(a).frames, Look(b).frames);
  }

  lemma PushOne(s: Log, e: Event)
    ensures Push(s, [e]) == Log(ApplyEvent(s.books, e), s.trace + [e], s.out + One(e).frames)
  {
    LookOne(e);
    ApplyPush(s.books, [], e);
  }

  lemma PushTwo(s: Log, d: Event, e: Event)
    ensures Push(Push(s, [d]), [e]) == Push(s, [d, e])
  {
    PushPush(s, [d], [e]);
    assert [d] + [e] == [d, e];
  }

  lemma PushChunks(s: Log, items: seq<string>, k: nat)
    requires k < |items|
    ensures Push(Push(s, Chunks(items[..k])), [Wrote(Chunk(items[k]))]) == Push(s, Chunks(items[..k + 1]))
  {
    PushPush(s, Chunks(items[..k]), [Wrote(Chunk(items[k]))]);
    assert items[..k + 1][..k] == items[..k];
  }

  /** The events after the chunks of a committed stream. */
  function Ending(pos: nat, m: string, v: Visit, end: End): seq<Event> {
    if end == Eof then [Wrote(DoneFrame), Closed(pos), Succeeded(m, v.settledAt)]
    else ErrorTail(end.err) + [Closed(pos), Failure(m, end.err, v)]
  }

  function Opening(pos: nat, m: string, v: Visit): seq<Event> {
    [Called(m, v.calledAt), Opened(pos)]
  }

  lemma CommittedTurn(pos: nat, m: string, v: Visit)
    requires v.stream.Stream? && v.stream.items != []
    ensures StreamTurn(pos, m, v)
            == Turn(Opening(pos, m, v) + (Chunks(v.stream.items) + Ending(pos, m, v, v.stream.end)),
                    Stop(if v.stream.end == Eof then Delivered(pos) else Broken(pos, v.stream.end.err)))
  {
    if v.stream.end.Cut? {
      var open, chunks, err := Opening(pos, m, v), Chunks(v.stream.items), ErrorTail(v.stream.end.err);
      var close := [Closed(pos), Failure(m, v.stream.end.err, v)];
      assert open + chunks + err + close == open + (chunks + (err + close));
    }
  }

  /** What an open stream without a chunk still has to do. */
  function ProbeEnding(pos: nat, m: string, v: Visit, e: Error): seq<Event> {
    [Closed(pos), Failure(m, e, v)] + if IsTransient(e) then [] else ErrorTail(e)
  }

  lemma UncommittedTurn(pos: nat, m: string, v: Visit)
    requires v.stream.Stream? && v.stream.items == []
    ensures var eof, e := v.stream.end == Eof, if v.stream.end == Eof then EMPTY_STREAM(m) else v.stream.end.err;
            StreamTurn(pos, m, v)
            == Turn(Opening(pos, m, v) + ProbeEnding(pos, m, v, e),
                    if eof then Pass(None) else if IsTransient(e) then Pass(Some(e)) else Stop(Fail(e)))
  {
    var e := if v.stream.end == Eof then EMPTY_STREAM(m) else v.stream.end.err;
    assert Opening(pos, m, v) + [Closed(pos), Failure(m, e, v)]
        == [Called(m, v.calledAt), Opened(pos), Closed(pos), Failure(m, e, v)];
    assert Opening(pos, m, v) + ([Closed(pos), Failure(m, e, v)] + ErrorTail(e))
        == [Called(m, v.calledAt), Opened(pos), Closed(pos), Failure(m, e, v)] + ErrorTail(e);
  }

  class Server {
    const health: H.Tracker
    const limiter: L.Model?
    const providerOf: map<string, string>
    const providers: set<string>
    ghost var trace: seq<Event>

    constructor (health: H.Tracker, limiter: L.Model?, providerOf: map<string, string>, providers: set<string>)
      ensures this.health == health && this.limiter == limiter
      ensures this.providerOf == providerOf && this.providers == providers && trace == []
    {
      this.health, this.limiter := health, limiter;
      this.providerOf, this.providers := providerOf, providers;
      trace := [];
    }

    ghost function Repr(): set<object> {
      {this, health} + if limiter == null then {} else {limiter}
    }

    ghost function Now(): Books
      reads Repr()
    {
      Books(health.records, if limiter == null then map[] else limiter.cooldowns, limiter != null,
            providerOf, providers)
    }

    /** The checks before a call; their only effect is dropping m's expired cooldown. */
    method Admit(m: string, v: Visit) returns (blocked: Option<Error>)
      modifies Repr()
      ensures blocked == Blocked(old(Now()), m, v)
      ensures Now() == AfterChecks(old(Now()), m, v) && trace == old(trace)
    {
      var ok := health.Available(m, v.healthAt);
      if !ok {
        return Some(InCooldown("health", m));
      }
      if limiter != null {
        var _, ready := limiter.Check(m, v.limitAt);
        if !ready {
          return Some(InCooldown("ratelimit", m));
        }
      }
      return None;
    }

    method PickProvider(m: string) returns (err: Option<Error>)
      ensures err == if ProviderName(Now(), m) in providers then None else Some(NoClient(Now(), m))
      ensures err.None? <==>
              (if m in providerOf && providerOf[m] != "" then providerOf[m] else "openai") in providers
      ensures err.Some? ==> err.value.Provider? && err.value.kind == Auth
    {
      var name := "openai";
      if m in providerOf && providerOf[m] != "" {
        name := providerOf[m];
      }
      if name !in providers {
        return Some(Provider(Auth, name, m, "no client configured for provider " + name));
      }
      return None;
    }

    method RecordFailure(m: string, err: Error, v: Visit)
      modifies Repr()
      ensures Now() == ApplyEvent(old(Now()), Failure(m, err, v))
      ensures trace == old(trace) + [Failure(m, err, v)]
    {
      var kind := KindOf(err);
      health.RecordFailure(m, kind, v.settledAt);
      if limiter != null && kind == RateLimit {
        limiter.Record(m, 0, v.cooledAt);
      }
      trace := trace + [Failure(m, err, v)];
    }

    method RecordSuccess(m: string, v: Visit)
      modifies Repr()
      ensures Now() == ApplyEvent(old(Now()), Succeeded(m, v.settledAt))
      ensures trace == old(trace) + [Succeeded(m, v.settledAt)]
    {
      health.RecordSuccess(m, v.settledAt);
      trace := trace + [Succeeded(m, v.settledAt)];
    }

    /** The body of the batch loop: one position of the chain. */
    method CompleteAt(pos: nat, m: string, v: Visit) returns (verdict: Verdict)
      modifies Repr()
      ensures var t := TurnOf(Batch, old(Now()), pos, m, v);
              && verdict == t.verdict
              && trace == old(trace) + t.events
              && Now() == Apply(AfterChecks(old(Now()), m, v), t.events)
    {
      var blocked := Admit(m, v);
      if blocked.Some? {
        return Pass(blocked);
      }
      var noClient := PickProvider(m);
      if noClient.Some? {
        return Stop(Fail(noClient.value));
      }
      verdict := BatchCall(pos, m, v);
    }

    /** The batch call past the gate. */
    method BatchCall(pos: nat, m: string, v: Visit) returns (verdict: Verdict)
      modifies Repr()
      ensures verdict == BatchTurn(pos, m, v).verdict
      ensures trace == old(trace) + BatchTurn(pos, m, v).events
      ensures Now() == Apply(old(Now()), BatchTurn(pos, m, v).events)
    {
      ghost var before, call := Now(), Called(m, v.calledAt);
      trace := trace + [call];
      match v.batch {
        case Answered(resp) =>
          RecordSuccess(m, v);
          CallThenResult(before, call, Succeeded(m, v.settledAt));
          return Stop(Answer(if pos > 0 then resp.(model := m) else resp));
        case Refused(err) =>
          RecordFailure(m, err, v);
          CallThenResult(before, call, Failure(m, err, v));
          return if IsTransient(err) then Pass(Some(err)) else Stop(Fail(err));
      }
    }

    /** The batch loop: the walk over the chain, books and all. */
    method CompleteWithFallback(chain: seq<string>, visits: seq<Visit>) returns (r: Outcome)
      requires |chain| == |visits|
      modifies Repr()
      ensures var w := Walk(Batch, old(Now()), chain, visits, 0, None);
              r == w.outcome && Now() == w.after && trace == old(trace) + w.events
    {
      var lastErr: Option<Error> := None;
      ghost var whole := Walk(Batch, Now(), chain, visits, 0, None);
      for i := 0 to |chain|
        invariant var w := Walk(Batch, Now(), chain, visits, i, lastErr);
                  && w.outcome == whole.outcome && w.after == whole.after
                  && trace + w.events == old(trace) + whole.events
      {
        ghost var was, before := trace, Now();
        var verdict := CompleteAt(i, chain[i], visits[i]);
        ghost var t := TurnOf(Batch, before, i, chain[i], visits[i]);
        match verdict {
          case Stop(outcome) =>
            return outcome;
          case Pass(why) =>
            if why.Some? {
              lastErr := why;
            }
            Regroup(was, t.events, Walk(Batch, Now(), chain, visits, i + 1, lastErr).events);
        }
      }
      return Fail(if lastErr.Some? then lastErr.value else NO_MODELS);
    }

    ghost function LogOf(w: ResponseWriter): Log
      reads Repr(), w
    {
      Log(Now(), trace, w.out)
    }

    method Write(w: ResponseWriter, f: Frame)
      modifies this`trace, w
      ensures LogOf(w) == Push(old(LogOf(w)), [Wrote(f)])
    {
      PushOne(LogOf(w), Wrote(f));
      w.out := w.out + [f];
      trace := trace + [Wrote(f)];
    }

    method WriteStreamError(w: ResponseWriter, err: Error)
      modifies this`trace, w
      ensures LogOf(w) == Push(old(LogOf(w)), ErrorTail(err))
    {
      PushTwo(LogOf(w), Wrote(ErrorFrame(err)), Wrote(DoneFrame));
      Write(w, ErrorFrame(err));
      Write(w, DoneFrame);
    }

    method CloseIter(w: ResponseWriter, iter: StreamIter, pos: nat)
      modifies this`trace, iter`closes
      ensures iter.closes == old(iter.closes) + 1
      ensures LogOf(w) == Push(old(LogOf(w)), [Closed(pos)])
    {
      PushOne(LogOf(w), Closed(pos));
      iter.Close();
      trace := trace + [Closed(pos)];
    }

    /** Copies chunks until the iterator reports its end. */
    method CopyChunks(w: ResponseWriter, iter: StreamIter) returns (end: End)
      requires iter.next == 1 <= |iter.items|
      modifies this`trace, w, iter`next
      ensures end == iter.end
      ensures LogOf(w) == Push(old(LogOf(w)), Chunks(iter.items))
    {
      ghost var s, items := LogOf(w), iter.items;
      assert Push(s, Chunks(items[..0])) == s;
      PushChunks(s, items, 0);
      Write(w, Chunk(iter.items[0]));
      while true
        invariant 1 <= iter.next <= |items|
        invariant LogOf(w) == Push(s, Chunks(items[..iter.next]))
        decreases |items| - iter.next
      {
        ghost var k := iter.next;
        var next := iter.Next();
        if next.Finished? {
          assert items[..k] == items;
          return next.end;
        }
        PushChunks(s, items, k);
        Write(w, Chunk(next.text));
      }
    }

    /** The rest of a stream whose first chunk is in hand: no way back from here. */
    method Relay(w: ResponseWriter, iter: StreamIter, pos: nat, m: string, v: Visit) returns (outcome: Outcome)
      requires iter.next == 1 <= |iter.items|
      modifies Repr(), w, iter
      ensures iter.closes == old(iter.closes) + 1
      ensures outcome == if iter.end == Eof then Delivered(pos) else Broken(pos, iter.end.err)
      ensures LogOf(w) == Push(old(LogOf(w)), Chunks(iter.items) + Ending(pos, m, v, iter.end))
    {
      ghost var s := LogOf(w);
      var end := CopyChunks(w, iter);
      PushPush(s, Chunks(iter.items), Ending(pos, m, v, end));
      if end == Eof {
        Finish(w, iter, pos, m, v);
        return Delivered(pos);
      }
      Abort(w, iter, pos, m, v);
      return Broken(pos, end.err);
    }

    method Finish(w: ResponseWriter, iter: StreamIter, pos: nat, m: string, v: Visit)
      requires iter.end == Eof
      modifies Repr(), w, iter
      ensures iter.closes == old(iter.closes) + 1
      ensures LogOf(w) == Push(old(LogOf(w)), Ending(pos, m, v, iter.end))
    {
      ghost var s := LogOf(w);
      Write(w, DoneFrame);
      PushTwo(s, Wrote(DoneFrame), Closed(pos));
      CloseIter(w, iter, pos);
      PushOne(LogOf(w), Succeeded(m, v.settledAt));
      RecordSuccess(m, v);
      PushPush(s, [Wrote(DoneFrame), Closed(pos)], [Succeeded(m, v.settledAt)]);
      assert [Wrote(DoneFrame), Closed(pos)] + [Succeeded(m, v.settledAt)] == Ending(pos, m, v, iter.end);
    }

    method Abort(w: ResponseWriter, iter: StreamIter, pos: nat, m: string, v: Visit)
      requires iter.end.Cut?
      modifies Repr(), w, iter
      ensures iter.closes == old(iter.closes) + 1
      ensures LogOf(w) == Push(old(LogOf(w)), Ending(pos, m, v, iter.end))
    {
      var err := iter.end.err;
      ghost var s := LogOf(w);
      WriteStreamError(w, err);
      PushPush(s, ErrorTail(err), [Closed(pos), Failure(m, err, v)]);
      PushTwo(LogOf(w), Closed(pos), Failure(m, err, v));
      CloseIter(w, iter, pos);
      PushOne(LogOf(w), Failure(m, err, v));
      RecordFailure(m, err, v);
    }

    /** A provider that failed before its first chunk: recorded, and fatal or not. */
    method Unstarted(w: ResponseWriter, m: string, err: Error, v: Visit) returns (verdict: Verdict)
      modifies Repr(), w
      ensures verdict == if IsTransient(err) then Pass(Some(err)) else Stop(Fail(err))
      ensures LogOf(w) == Push(old(LogOf(w)), [Failure(m, err, v)] + if IsTransient(err) then [] else ErrorTail(err))
    {
      PushOne(LogOf(w), Failure(m, err, v));
      PushPush(LogOf(w), [Failure(m, err, v)], ErrorTail(err));
      RecordFailure(m, err, v);
      if IsTransient(err) {
        return Pass(Some(err));
      }
      WriteStreamError(w, err);
      return Stop(Fail(err));
    }

    /** A stream that ended or failed on the probe of its first chunk. */
    method GiveUp(w: ResponseWriter, iter: StreamIter, pos: nat, m: string, v: Visit) returns (verdict: Verdict)
      requires v.stream == Stream([], iter.end)
      modifies Repr(), w, iter
      ensures iter.closes == old(iter.closes) + 1
      ensures var eof, e := iter.end == Eof, if iter.end == Eof then EMPTY_STREAM(m) else iter.end.err;
              && verdict == (if eof then Pass(None) else if IsTransient(e) then Pass(Some(e)) else Stop(Fail(e)))
              && LogOf(w) == Push(old(LogOf(w)), ProbeEnding(pos, m, v, e))
    {
      ghost var s := LogOf(w);
      CloseIter(w, iter, pos);
      if iter.end == Eof {
        var e := EMPTY_STREAM(m);
        PushOne(LogOf(w), Failure(m, e, v));
        RecordFailure(m, e, v);
        PushTwo(s, Closed(pos), Failure(m, e, v));
        assert [Closed(pos), Failure(m, e, v)] == ProbeEnding(pos, m, v, e);
        return Pass(None);
      }
      var e := iter.end.err;
      verdict := Unstarted(w, m, e, v);
      PushPush(s, [Closed(pos)], [Failure(m, e, v)] + if IsTransient(e) then [] else ErrorTail(e));
      assert [Closed(pos)] + ([Failure(m, e, v)] + if IsTransient(e) then [] else ErrorTail(e))
          == ProbeEnding(pos, m, v, e);
    }

    /** An open stream: probe the first chunk, then commit to it or give up on it. */
    method Consume(w: ResponseWriter, iter: StreamIter, pos: nat, m: string, v: Visit) returns (verdict: Verdict)
      requires iter.next == 0 && v.stream == Stream(iter.items, iter.end)
      modifies Repr(), w, iter
      ensures iter.closes == old(iter.closes) + 1
      ensures verdict == StreamTurn(pos, m, v).verdict
      ensures forall s | old(LogOf(w)) == Push(s, Opening(pos, m, v)) ::
                LogOf(w) == Push(s, StreamTurn(pos, m, v).events)
    {
      ghost var start := LogOf(w);
      var first := iter.Next();
      if first.Finished? {
        verdict := GiveUp(w, iter, pos, m, v);
        UncommittedTurn(pos, m, v);
        ghost var e := if iter.end == Eof then EMPTY_STREAM(m) else iter.end.err;
        forall s | start == Push(s, Opening(pos, m, v)) ensures LogOf(w) == Push(s, StreamTurn(pos, m, v).events) {
          PushPush(s, Opening(pos, m, v), ProbeEnding(pos, m, v, e));
        }
      } else {
        var outcome := Relay(w, iter, pos, m, v);
        verdict := Stop(outcome);
        CommittedTurn(pos, m, v);
        forall s | start == Push(s, Opening(pos, m, v)) ensures LogOf(w) == Push(s, StreamTurn(pos, m, v).events) {
          PushPush(s, Opening(pos, m, v), Chunks(iter.items) + Ending(pos, m, v, iter.end));
        }
      }
    }

    /** The streaming call past the gate. */
    method StreamCall(w: ResponseWriter, pos: nat, m: string, v: Visit)
      returns (verdict: Verdict, ghost iters: seq<StreamIter>)
      modifies Repr(), w
      ensures verdict == StreamTurn(pos, m, v).verdict
      ensures LogOf(w) == Push(old(LogOf(w)), StreamTurn(pos, m, v).events)
      ensures |iters| == |Look(StreamTurn(pos, m, v).events).opens|
      ensures forall it | it in iters :: fresh(it) && it.closes == 1
    {
      ghost var s := LogOf(w);
      PushOne(s, Called(m, v.calledAt));
      trace := trace + [Called(m, v.calledAt)];
      match v.stream {
        case NotOpened(err) =>
          iters := [];
          LookUnopened(pos, m, err, v);
          verdict := Refuse(w, pos, m, err, v, s);
        case Stream(_, _) =>
          OneOpen(pos, m, v);
          var iter;
          verdict, iter := OpenStream(w, pos, m, v, s);
          iters := [iter];
      }
    }

    /** The provider opened no stream for a call already made. */
    method Refuse(w: ResponseWriter, pos: nat, m: string, err: Error, v: Visit, ghost s: Log) returns (verdict: Verdict)
      requires v.stream == NotOpened(err) && LogOf(w) == Push(s, [Called(m, v.calledAt)])
      modifies Repr(), w
      ensures verdict == StreamTurn(pos, m, v).verdict
      ensures LogOf(w) == Push(s, StreamTurn(pos, m, v).events)
    {
      verdict := Unstarted(w, m, err, v);
      NotOpenedTurn(s, pos, m, v);
    }

    /** The provider opened a stream for a call already made. */
    method OpenStream(w: ResponseWriter, pos: nat, m: string, v: Visit, ghost s: Log)
      returns (verdict: Verdict, iter: StreamIter)
      requires v.stream.Stream? && LogOf(w) == Push(s, [Called(m, v.calledAt)])
      modifies Repr(), w
      ensures verdict == StreamTurn(pos, m, v).verdict
      ensures LogOf(w) == Push(s, StreamTurn(pos, m, v).events)
      ensures fresh(iter) && iter.closes == 1
    {
      iter := new StreamIter(v.stream.items, v.stream.end);
      PushOne(LogOf(w), Opened(pos));
      trace := trace + [Opened(pos)];
      PushTwo(s, Called(m, v.calledAt), Opened(pos));
      verdict := Consume(w, iter, pos, m, v);
    }

    /** The body of the streaming loop: one position of the chain. */
    method StreamAt(w: ResponseWriter, pos: nat, m: string, v: Visit)
      returns (verdict: Verdict, ghost iters: seq<StreamIter>)
      modifies Repr(), w
      ensures var t, before := TurnOf(Streaming, old(Now()), pos, m, v), old(LogOf(w));
              && verdict == t.verdict
              && LogOf(w) == Push(before.(books := AfterChecks(before.books, m, v)), t.events)
              && |iters| == |Look(t.events).opens|
      ensures forall it | it in iters :: fresh(it) && it.closes == 1
    {
      var blocked := Admit(m, v);
      if blocked.Some? {
        return Pass(blocked), [];
      }
      var noClient := PickProvider(m);
      if noClient.Some? {
        WriteStreamError(w, noClient.value);
        LookTwo(Wrote(ErrorFrame(noClient.value)), Wrote(DoneFrame));
        return Stop(Fail(noClient.value)), [];
      }
      verdict, iters := StreamCall(w, pos, m, v);
    }

    /** The streaming loop: it stops at a position, or leaves the last error. */
    method TryChain(w: ResponseWriter, chain: seq<string>, visits: seq<Visit>)
      returns (stopped: bool, lastErr: Option<Error>, ghost past: seq<Event>)
      requires |chain| == |visits|
      modifies Repr(), w
      ensures Follows(old(LogOf(w)), past, LogOf(w))
      ensures var whole := Walk(Streaming, old(Now()), chain, visits, 0, None);
              if stopped then Now() == whole.after && past == whole.events
              else Remains(whole, past, Walk(Streaming, Now(), chain, visits, |chain|, lastErr))
    {
      lastErr := None;
      past := [];
      ghost var whole, start := Walk(Streaming, Now(), chain, visits, 0, None), LogOf(w);
      for i := 0 to |chain|
        invariant Follows(start, past, LogOf(w))
        invariant Remains(whole, past, Walk(Streaming, Now(), chain, visits, i, lastErr))
      {
        var verdict;
        verdict, past := TryNext(w, chain, visits, i, lastErr, whole, start, past);
        if verdict.Stop? {
          return true, lastErr, past;
        }
        if verdict.why.Some? {
          lastErr := verdict.why;
        }
      }
      return false, lastErr, past;
    }

    /** One position further along. */
    method TryNext(w: ResponseWriter, chain: seq<string>, visits: seq<Visit>, i: nat, lastErr: Option<Error>,
                   ghost whole: Run, ghost start: Log, ghost past: seq<Event>)
      returns (verdict: Verdict, ghost now: seq<Event>)
      requires i < |chain| == |visits|
      requires Follows(start, past, LogOf(w)) && Remains(whole, past, Walk(Streaming, Now(), chain, visits, i, lastErr))
      modifies Repr(), w
      ensures Follows(start, now, LogOf(w))
      ensures match verdict
              case Stop(_) => Now() == whole.after && now == whole.events
              case Pass(why) =>
                Remains(whole, now, Walk(Streaming, Now(), chain, visits, i + 1, if why.Some? then why else lastErr))
    {
      ghost var before := LogOf(w);
      ghost var t := TurnOf(Streaming, before.books, i, chain[i], visits[i]);
      WalkOn(whole, past, Streaming, before.books, chain, visits, i, lastErr);
      FollowsOn(start, past, before, AfterChecks(before.books, chain[i], visits[i]), t.events);
      ghost var iters;
      verdict, iters := StreamAt(w, i, chain[i], visits[i]);
      now := past + t.events;
    }

    /** The streaming entry point: it needs a response writer that can flush. */
    method StreamWithFallback(w: ResponseWriter, chain: seq<string>, visits: seq<Visit>)
      requires |chain| == |visits|
      modifies Repr(), w
      ensures !w.canFlush ==> LogOf(w) == old(LogOf(w)).(out := old(w.out) + [HttpError(500)])
      ensures w.canFlush ==>
                var run := Walk(Streaming, old(Now()), chain, visits, 0, None);
                && Now() == run.after && trace == old(trace) + run.events
                && w.out == old(w.out) + Look(run.events).frames
    {
      if !w.canFlush {
        w.out := w.out + [HttpError(500)];
        return;
      }
      ghost var past, start := [], LogOf(w);
      var stopped, lastErr;
      stopped, lastErr, past := TryChain(w, chain, visits);
      if !stopped {
        var err := if lastErr.Some? then lastErr.value else NO_MODELS;
        FollowsOn(start, past, LogOf(w), Now(), ErrorTail(err));
        ApplyIdle(Now(), ErrorTail(err));
        WriteStreamError(w, err);
      }
    }
  }

  /** One position further along a walk. */
  lemma WalkOn(
      whole: Run, past: seq<Event>, mode: Mode, b: Books, chain: seq<string>, visits: seq<Visit>, i: nat,
      lastErr: Option<Error>)
    requires i < |chain| == |visits|
    requires Remains(whole, past, Walk(mode, b, chain, visits, i, lastErr))
    ensures var t := TurnOf(mode, b, i, chain[i], visits[i]);
            var b' := Apply(AfterChecks(b, chain[i], visits[i]), t.events);
            match t.verdict
            case Stop(o) => whole == Run(b', past + t.events, o)
            case Pass(why) =>
              Remains(whole, past + t.events, Walk(mode, b', chain, visits, i + 1, if why.Some? then why else lastErr))
  {
    var t := TurnOf(mode, b, i, chain[i], visits[i]);
    if t.verdict.Pass? {
      var b' := Apply(AfterChecks(b, chain[i], visits[i]), t.events);
      Regroup(past, t.events,
              Walk(mode, b', chain, visits, i + 1, if t.verdict.why.Some? then t.verdict.why else lastErr).events);
    }
  }

  /** `past` is what happened since start. */
  ghost predicate Follows(start: Log, past: seq<Event>, now: Log) {
    now.trace == start.trace + past && now.out == start.out + Look(past).frames
  }

  lemma FollowsOn(start: Log, past: seq<Event>, now: Log, books: Books, events: seq<Event>)
    requires Follows(start, past, now)
    ensures Follows(start, past + events, Push(now.(books := books), events))
  {
    LookAppend(past, events);
    Regroup(start.trace, past, events);
    Regroup(start.out, Look(past).frames, Look(events).frames);
  }

  /** The part of a walk still ahead, once `past` has happened. */
  ghost predicate Remains(whole: Run, past: seq<Event>, ahead: Run) {
    ahead.outcome == whole.outcome && ahead.after == whole.after && past + ahead.events == whole.events
  }

  lemma NotOpenedTurn(s: Log, pos: nat, m: string, v: Visit)
    requires v.stream.NotOpened?
    ensures var e := v.stream.err;
            Push(Push(s, [Called(m, v.calledAt)]), [Failure(m, e, v)] + if IsTransient(e) then [] else ErrorTail(e))
            == Push(s, StreamTurn(pos, m, v).events)
  {
    var e := v.stream.err;
    var rest := [Failure(m, e, v)] + if IsTransient(e) then [] else ErrorTail(e);
    PushPush(s, [Called(m, v.calledAt)], rest);
    assert [Called(m, v.calledAt)] + rest == StreamTurn(pos, m, v).events;
  }

  lemma OneOpen(pos: nat, m: string, v: Visit)
    requires v.stream.Stream?
    ensures |Look(StreamTurn(pos, m, v).events).opens| == 1
  {
    if v.stream.items != [] {
      LookCommitted(pos, m, v.stream.items, v.stream.end, v);
    } else {
      var e := if v.stream.end == Eof then EMPTY_STREAM(m) else v.stream.end.err;
      ProbeTurn(pos, m, v);
      LookProbe(pos, m, e, v);
      LookFatalProbe(pos, m, e, v);
    }
  }
}
