/** The text of a server-sent event stream: what the proxy writes frame by frame, and what the
    line reader of the provider client makes of it. */
module Sse {
  import opened Common
  import opened Errors
  import opened Text
  import opened Dispatch
  import S = StreamShape

  const DONE := "[DONE]"
  const DATA := "data:"

  // ---------------------------------------------------------------------------------
  // The writer. A chunk is given by its encoding, an error by the payload made of it.

  function Rendered(f: Frame, payloadOf: Error -> string): string {
    match f
    case Chunk(p) => "data: " + p + "\n\n"
    case ErrorFrame(e) => "event: error\ndata: " + payloadOf(e) + "\n\n"
    case DoneFrame => "data: [DONE]\n\n"
    case HttpError(_) => ""
  }

  function Wire(frames: seq<Frame>, payloadOf: Error -> string): string {
    if frames == [] then "" else Rendered(frames[0], payloadOf) + Wire(frames[1..], payloadOf)
  }

  // ---------------------------------------------------------------------------------
  // The reader. Decoding a payload succeeds or fails as the given predicate says.

  datatype Read = Payload(text: string) | Ended(end: End)

  const CANCELED := Provider(Canceled, "openai", "", "canceled")
  const BROKEN := Provider(Network, "openai", "", "read")
  const UNDECODED := Provider(ServerError, "openai", "", "sse decode")

  /** A response body: its text, and whether the connection breaks after it. */
  datatype Body = Body(text: string, broken: bool)

  /** The position of the first newline, or the length if there is none. */
  function Newline(s: string): (i: nat)
    ensures i <= |s| && '\n' !in s[..i]
    ensures i < |s| ==> s[i] == '\n'
  {
    if s == "" || s[0] == '\n' then 0
    else
      var i := 1 + Newline(s[1..]);
      assert s[..i] == [s[0]] + s[1..][..i - 1];
      i
  }

  predicate Prefixed(line: string) {
    |line| >= |DATA| && line[..|DATA|] == DATA
  }

  /** What a line of the stream amounts to: nothing, a payload, or the end. */
  function Line(line: string, decodes: string -> bool): Option<Read> {
    var l := WithoutLineEnd(line);
    if l == "" || !Prefixed(l) then None
    else
      var payload := TrimSpace(l[|DATA|..]);
      Some(if payload == DONE then Ended(Eof) else if decodes(payload) then Payload(payload) else Ended(Cut(UNDECODED)))
  }

  /** The first line that amounts to something, and the text after it; a last line without a
      newline does not count. */
  function NextRead(body: Body, decodes: string -> bool): (r: (Read, Body))
    ensures |r.1.text| <= |body.text| && r.1.broken == body.broken
    ensures r.0.Payload? ==> |r.1.text| < |body.text|
    decreases |body.text|
  {
    var n := Newline(body.text);
    if n == |body.text| then (Ended(if body.broken then Cut(BROKEN) else Eof), body.(text := ""))
    else
      var rest := body.(text := body.text[n + 1..]);
      match Line(body.text[..n + 1], decodes)
      case Some(read) => (read, rest)
      case None => NextRead(rest, decodes)
  }

  /** The same under a context that may be canceled: it is looked at before every line. */
  function NextUnder(body: Body, decodes: string -> bool, canceled: nat -> bool, i: nat): (Read, Body)
    decreases |body.text|
  {
    var n := Newline(body.text);
    if canceled(i) then (Ended(Cut(CANCELED)), body)
    else if n == |body.text| then (Ended(if body.broken then Cut(BROKEN) else Eof), body.(text := ""))
    else
      var rest := body.(text := body.text[n + 1..]);
      match Line(body.text[..n + 1], decodes)
      case Some(read) => (read, rest)
      case None => NextUnder(rest, decodes, canceled, i + 1)
  }

  /** Without a cancellation that is the plain reader; and a canceled read loses nothing: reading
      on from where it stopped gives what it would have given. */
  lemma {:induction false} CancelLosesNothing(body: Body, decodes: string -> bool, canceled: nat -> bool, i: nat)
    ensures var r := NextUnder(body, decodes, canceled, i);
            || r == NextRead(body, decodes)
            || (r.0 == Ended(Cut(CANCELED)) && (exists k :: k >= i && canceled(k))
                 && NextRead(r.1, decodes) == NextRead(body, decodes))
    decreases |body.text|
  {
    var n := Newline(body.text);
    if !canceled(i) && n < |body.text| && Line(body.text[..n + 1], decodes).None? {
      CancelLosesNothing(body.(text := body.text[n + 1..]), decodes, canceled, i + 1);
    }
  }

  /** Everything the reader yields before its first end, and that end. */
  function ReadAll(body: Body, decodes: string -> bool): (seq<string>, End)
    decreases |body.text|
  {
    var (read, rest) := NextRead(body, decodes);
    match read
    case Ended(end) => ([], end)
    case Payload(p) => var (ps, end) := ReadAll(rest, decodes); ([p] + ps, end)
  }

  class LineReader {
    var body: Body
    var done: bool

    constructor (body: Body)
      ensures this.body == body && !done
    {
      this.body := body;
      done := false;
    }

    method ReadString() returns (line: Option<string>)
      modifies this`body
      ensures var n := Newline(old(body.text));
              if n < |old(body.text)|
              then line == Some(old(body.text)[..n + 1]) && body == old(body).(text := old(body.text)[n + 1..])
              else line == None && body == old(body).(text := "")
    {
      var i := 0;
      var text := body.text;
      while i < |text| && text[i] != '\n'
        invariant i <= |text| && '\n' !in text[..i]
      {
        i := i + 1;
      }
      NewlineIsFirst(text, i);
      if i == |text| {
        body := body.(text := "");
        return None;
      }
      body := body.(text := text[i + 1..]);
      return Some(text[..i + 1]);
    }

    method Next(decodes: string -> bool, canceled: nat -> bool) returns (r: Read)
      modifies this`body
      ensures done == old(done)
      ensures if done then r == Ended(Eof) && body == old(body)
              else (r, body) == NextUnder(old(body), decodes, canceled, 0)
    {
      if done {
        return Ended(Eof);
      }
      var i := 0;
      while true
        invariant NextUnder(body, decodes, canceled, i) == NextUnder(old(body), decodes, canceled, 0)
        decreases |body.text|
      {
        if canceled(i) {
          return Ended(Cut(CANCELED));
        }
        i := i + 1;
        var line := ReadString();
        if line.None? {
          return Ended(if body.broken then Cut(BROKEN) else Eof);
        }
        var read := ReadLine(line.value, decodes);
        if read.Some? {
          return read.value;
        }
      }
    }

    method ReadLine(line: string, decodes: string -> bool) returns (read: Option<Read>)
      ensures read == Line(line, decodes)
    {
      var l := WithoutLineEnd(line);
      if l == "" || !Prefixed(l) {
        return None;
      }
      var payload := TrimSpace(l[|DATA|..]);
      if payload == DONE {
        return Some(Ended(Eof));
      }
      if !decodes(payload) {
        return Some(Ended(Cut(UNDECODED)));
      }
      return Some(Payload(payload));
    }

    method Close()
      modifies this`done
      ensures done
    {
      done := true;
    }
  }

  lemma NewlineIsFirst(s: string, i: nat)
    requires i <= |s| && '\n' !in s[..i] && (i < |s| ==> s[i] == '\n')
    ensures Newline(s) == i
  {
    var n := Newline(s);
    assert forall j | 0 <= j < n :: s[..n][j] == s[j];
    assert forall j | 0 <= j < i :: s[..i][j] == s[j];
  }

  // ---------------------------------------------------------------------------------
  // The round trip.

  /** What survives the trip: one line, no white space around it, not the end marker. */
  predicate Clean(p: string) {
    '\n' !in p && IsTrimmed(p) && p != DONE
  }

  lemma WithoutLineEndOfClean(head: string, p: string)
    requires IsTrimmed(p) && '\n' !in p
    requires head == "data: "
    ensures WithoutLineEnd(head + p + "\n") == head + p
  {
    var line := head + p;
    TrimEndSkips(line, "\n", IsLineEnd);
    assert line[|line| - 1] == if p == "" then ' ' else p[|p| - 1];
  }

  lemma DataLine(p: string, decodes: string -> bool)
    requires IsTrimmed(p) && '\n' !in p
    ensures Line("data: " + p + "\n", decodes)
            == Some(if p == DONE then Ended(Eof) else if decodes(p) then Payload(p) else Ended(Cut(UNDECODED)))
  {
    WithoutLineEndOfClean("data: ", p);
    var l := "data: " + p;
    assert l[..5] == DATA;
    assert l[5..] == " " + p;
    TrimmedIsFixed(" ", p);
  }

  /** The reader takes one line off the front. */
  lemma TakeLine(line: string, rest: string, broken: bool, decodes: string -> bool)
    requires '\n' !in line
    ensures NextRead(Body(line + "\n" + rest, broken), decodes)
            == match Line(line + "\n", decodes)
               case Some(read) => (read, Body(rest, broken))
               case None => NextRead(Body(rest, broken), decodes)
  {
    var text := line + "\n" + rest;
    NewlineIsFirst(text, |line|);
    assert text[..|line| + 1] == line + "\n";
    assert text[|line| + 1..] == rest;
  }

  lemma SkipBlank(rest: string, broken: bool, decodes: string -> bool)
    ensures NextRead(Body("\n" + rest, broken), decodes) == NextRead(Body(rest, broken), decodes)
  {
    TakeLine("", rest, broken, decodes);
    assert "" + "\n" + rest == "\n" + rest;
    assert "" + "\n" == "\n";
    assert WithoutLineEnd("\n") == "" by {
      assert "\n"[..0] == "";
    }
  }

  lemma SkipEvent(rest: string, broken: bool, decodes: string -> bool)
    ensures NextRead(Body("event: error\n" + rest, broken), decodes) == NextRead(Body(rest, broken), decodes)
  {
    var line := "event: error";
    EventLine(decodes);
    TakeLine(line, rest, broken, decodes);
    assert line + "\n" == "event: error\n";
  }

  lemma EventLine(decodes: string -> bool)
    ensures Line("event: error" + "\n", decodes) == None
  {
    var line := "event: error";
    TrimEndSkips(line, "\n", IsLineEnd);
    assert WithoutLineEnd(line + "\n") == line;
    assert line[..5][0] == 'e' && DATA[0] == 'd';
  }

  /** Reading on after the blank line that ends an event. */
  lemma ReadAllSkipsBlank(rest: string, broken: bool, decodes: string -> bool)
    ensures ReadAll(Body("\n" + rest, broken), decodes) == ReadAll(Body(rest, broken), decodes)
  {
    SkipBlank(rest, broken, decodes);
  }

  lemma ReadAllSkipsEvent(rest: string, broken: bool, decodes: string -> bool)
    ensures ReadAll(Body("event: error\n" + rest, broken), decodes) == ReadAll(Body(rest, broken), decodes)
  {
    SkipEvent(rest, broken, decodes);
  }

  lemma EventThenData(p: string, rest: string)
    ensures "event: error\ndata: " + p + "\n\n" + rest == "event: error\n" + ("data: " + p + "\n\n" + rest)
  {
    var event, data := "event: error\n", "data: ";
    assert "event: error\ndata: " == event + data;
  }

  lemma ReadChunk(p: string, rest: string, broken: bool, decodes: string -> bool)
    requires Clean(p) && decodes(p)
    ensures ReadAll(Body("data: " + p + "\n\n" + rest, broken), decodes)
            == ([p] + ReadAll(Body(rest, broken), decodes).0, ReadAll(Body(rest, broken), decodes).1)
  {
    var line := "data: " + p;
    TakeLine(line, "\n" + rest, broken, decodes);
    DataLine(p, decodes);
    assert line + "\n" + ("\n" + rest) == "data: " + p + "\n\n" + rest;
    ReadAllSkipsBlank(rest, broken, decodes);
  }

  lemma ReadDone(rest: string, broken: bool, decodes: string -> bool)
    ensures ReadAll(Body("data: [DONE]\n\n" + rest, broken), decodes) == ([], Eof)
  {
    var line := "data: [DONE]";
    assert line == "data: " + DONE;
    TakeLine(line, "\n" + rest, broken, decodes);
    DataLine(DONE, decodes);
    assert line + "\n" + ("\n" + rest) == "data: [DONE]\n\n" + rest;
  }

  lemma ReadError(p: string, rest: string, broken: bool, decodes: string -> bool)
    requires Clean(p) && decodes(p)
    ensures ReadAll(Body("event: error\ndata: " + p + "\n\n" + rest, broken), decodes)
            == ([p] + ReadAll(Body(rest, broken), decodes).0, ReadAll(Body(rest, broken), decodes).1)
  {
    ReadAllSkipsEvent("data: " + p + "\n\n" + rest, broken, decodes);
    EventThenData(p, rest);
    ReadChunk(p, rest, broken, decodes);
  }

  /** The payloads among the frames before the first end marker. */
  function Payloads(frames: seq<Frame>, payloadOf: Error -> string): seq<string> {
    if frames == [] || frames[0].DoneFrame? then []
    else PayloadOf(frames[0], payloadOf) + Payloads(frames[1..], payloadOf)
  }

  function PayloadOf(f: Frame, payloadOf: Error -> string): seq<string> {
    match f
    case Chunk(p) => [p]
    case ErrorFrame(e) => [payloadOf(e)]
    case _ => []
  }

  predicate AllClean(frames: seq<Frame>, payloadOf: Error -> string, decodes: string -> bool) {
    forall i | 0 <= i < |frames| ::
      && (frames[i].Chunk? ==> Clean(frames[i].text) && decodes(frames[i].text))
      && (frames[i].ErrorFrame? ==> Clean(payloadOf(frames[i].err)) && decodes(payloadOf(frames[i].err)))
  }

  /** Whatever follows on the wire, the frames up to an end marker read back as their payloads
      and an end of stream. */
  lemma {:induction false} FramesReadBack(
      frames: seq<Frame>, payloadOf: Error -> string, decodes: string -> bool, rest: string, broken: bool)
    requires AllClean(frames, payloadOf, decodes) && DoneFrame in frames
    ensures ReadAll(Body(Wire(frames, payloadOf) + rest, broken), decodes) == (Payloads(frames, payloadOf), Eof)
  {
    var f, tail := frames[0], Wire(frames[1..], payloadOf) + rest;
    Regroup(Rendered(f, payloadOf), Wire(frames[1..], payloadOf), rest);
    FrameReads(f, tail, payloadOf, decodes, broken);
    if !f.DoneFrame? {
      FramesReadBack(frames[1..], payloadOf, decodes, rest, broken);
    }
  }

  /** One frame at the front of the wire. */
  lemma FrameReads(f: Frame, tail: string, payloadOf: Error -> string, decodes: string -> bool, broken: bool)
    requires AllClean([f], payloadOf, decodes)
    ensures ReadAll(Body(Rendered(f, payloadOf) + tail, broken), decodes)
            == if f.DoneFrame? then ([], Eof)
               else (PayloadOf(f, payloadOf) + ReadAll(Body(tail, broken), decodes).0,
                     ReadAll(Body(tail, broken), decodes).1)
  {
    assert [f][0] == f;
    match f {
      case DoneFrame => ReadDone(tail, broken, decodes);
      case Chunk(p) => ReadChunk(p, tail, broken, decodes);
      case ErrorFrame(e) => ReadError(payloadOf(e), tail, broken, decodes);
      case HttpError(_) =>
        assert "" + tail == tail;
        assert [] + ReadAll(Body(tail, broken), decodes).0 == ReadAll(Body(tail, broken), decodes).0;
    }
  }

  lemma {:induction false} PayloadsOfChunks(items: seq<string>, tail: seq<Frame>, payloadOf: Error -> string)
    ensures Payloads(S.ChunkFrames(items) + tail, payloadOf) == items + Payloads(tail, payloadOf)
  {
    if items == [] {
      assert S.ChunkFrames(items) + tail == tail;
    } else {
      var rest := S.ChunkFrames(items[1..]) + tail;
      assert S.ChunkFrames(items) + tail == [Chunk(items[0])] + rest;
      PayloadsOfChunks(items[1..], tail, payloadOf);
      PayloadsCons(Chunk(items[0]), rest, payloadOf);
      assert items == [items[0]] + items[1..];
    }
  }

  lemma PayloadsCons(f: Frame, rest: seq<Frame>, payloadOf: Error -> string)
    requires !f.DoneFrame?
    ensures Payloads([f] + rest, payloadOf) == PayloadOf(f, payloadOf) + Payloads(rest, payloadOf)
  {
    assert ([f] + rest)[1..] == rest;
  }

  /** What a client sees of a streaming dispatch: the chunks of the provider that answered, all
      of them, and a normal end; an error, early or late, is one more payload before that end. */
  lemma DispatchReadsBack(
      b: Books, chain: seq<string>, visits: seq<Visit>,
      payloadOf: Error -> string, decodes: string -> bool, broken: bool)
    requires |chain| == |visits|
    requires AllClean(S.Look(Walk(Streaming, b, chain, visits, 0, None).events).frames, payloadOf, decodes)
    ensures var r := Walk(Streaming, b, chain, visits, 0, None);
            var read := ReadAll(Body(Wire(S.Look(r.events).frames, payloadOf), broken), decodes);
            match r.outcome
            case Answer(_) => false
            case Fail(e) => read == ([payloadOf(e)], Eof)
            case Delivered(n) => n < |visits| && visits[n].stream.Stream? && read == (visits[n].stream.items, Eof)
            case Broken(n, e) =>
              n < |visits| && visits[n].stream.Stream? && visits[n].stream.end == Cut(e)
              && read == (visits[n].stream.items + [payloadOf(e)], Eof)
  {
    S.StreamRuns(b, chain, visits);
    var r := Walk(Streaming, b, chain, visits, 0, None);
    var frames := S.Look(r.events).frames;
    PayloadsWritten(visits, frames, r.outcome, payloadOf);
    FramesReadBack(frames, payloadOf, decodes, "", broken);
    assert Wire(frames, payloadOf) + "" == Wire(frames, payloadOf);
  }

  lemma PayloadsWritten(visits: seq<Visit>, frames: seq<Frame>, outcome: Outcome, payloadOf: Error -> string)
    requires S.Writes(visits, frames, outcome)
    ensures DoneFrame in frames
    ensures Payloads(frames, payloadOf)
            == match outcome
               case Fail(e) => [payloadOf(e)]
               case Delivered(n) => visits[n].stream.items
               case Broken(n, e) => visits[n].stream.items + [payloadOf(e)]
  {
    assert frames[|frames| - 1] == DoneFrame;
    match outcome {
      case Fail(e) => PayloadsOfError(e, payloadOf);
      case Delivered(n) => PayloadsOfChunks(visits[n].stream.items, [DoneFrame], payloadOf);
      case Broken(n, e) =>
        PayloadsOfChunks(visits[n].stream.items, [ErrorFrame(e), DoneFrame], payloadOf);
        PayloadsOfError(e, payloadOf);
    }
  }

  lemma PayloadsOfError(e: Error, payloadOf: Error -> string)
    ensures Payloads([ErrorFrame(e), DoneFrame], payloadOf) == [payloadOf(e)]
  {
    assert [ErrorFrame(e), DoneFrame][1..] == [DoneFrame];
  }

  // ---------------------------------------------------------------------------------
  // Exactly when one payload survives.

  lemma {:induction false} WithoutLineEndHasNone(s: string)
    ensures WithoutLineEnd(s) <= s
  {
    if s != "" {
      WithoutLineEndHasNone(s[..|s| - 1]);
    }
  }

  /** A payload that is read is clean. */
  lemma ReadIsClean(line: string, decodes: string -> bool)
    requires '\n' !in line && Line(line + "\n", decodes).Some? && Line(line + "\n", decodes).value.Payload?
    ensures Clean(Line(line + "\n", decodes).value.text) && decodes(Line(line + "\n", decodes).value.text)
  {
    var l := WithoutLineEnd(line + "\n");
    assert (line + "\n")[..|line|] == line;
    WithoutLineEndHasNone(line);
    var left, right := TrimSplits(l[|DATA|..]);
    var p := TrimSpace(l[|DATA|..]);
    assert forall j | 0 <= j < |p| :: p[j] == l[|DATA| + |left| + j];
  }

  lemma CleanLine(line: string, decodes: string -> bool)
    requires '\n' !in line
    ensures var r := Line(line + "\n", decodes);
            r.Some? && r.value.Payload? ==> Clean(r.value.text) && decodes(r.value.text)
  {
    var r := Line(line + "\n", decodes);
    if r.Some? && r.value.Payload? {
      ReadIsClean(line, decodes);
    }
  }

  /** Every payload the reader ever yields is clean and decodes. */
  lemma {:induction false} NextIsClean(body: Body, decodes: string -> bool)
    requires NextRead(body, decodes).0.Payload?
    ensures Clean(NextRead(body, decodes).0.text) && decodes(NextRead(body, decodes).0.text)
    decreases |body.text|
  {
    var n := Newline(body.text);
    var line := body.text[..n];
    assert body.text[..n + 1] == line + "\n";
    CleanLine(line, decodes);
    if Line(line + "\n", decodes).None? {
      NextIsClean(body.(text := body.text[n + 1..]), decodes);
    }
  }

  /** The first read of a chunk gives back its payload if and only if the payload is clean
      and decodes. */
  lemma ChunkSurvives(p: string, payloadOf: Error -> string, rest: string, broken: bool, decodes: string -> bool)
    ensures NextRead(Body(Rendered(Chunk(p), payloadOf) + rest, broken), decodes).0 == Payload(p)
        <==> Clean(p) && decodes(p)
  {
    var text := Rendered(Chunk(p), payloadOf) + rest;
    if Clean(p) && decodes(p) {
      assert text == ("data: " + p) + "\n" + ("\n" + rest);
      TakeLine("data: " + p, "\n" + rest, broken, decodes);
      DataLine(p, decodes);
    } else if NextRead(Body(text, broken), decodes).0.Payload? {
      NextIsClean(Body(text, broken), decodes);
    }
  }

  predicate CutShort(cut: (seq<string>, End), whole: (seq<string>, End), broken: bool) {
    cut.0 <= whole.0 && (cut == whole || cut.1 == if broken then Cut(BROKEN) else Eof)
  }

  /** A stream cut anywhere, even within a line, reads back as a prefix of its payloads, never
      with a payload of its own; but unless the connection breaks it ends like a whole one. */
  lemma {:induction false} TruncationIsPrefix(text: string, n: nat, broken: bool, decodes: string -> bool)
    requires n <= |text|
    ensures CutShort(ReadAll(Body(text[..n], broken), decodes), ReadAll(Body(text, broken), decodes), broken)
    decreases |text|
  {
    var i := Newline(text);
    var cut := text[..n];
    if n <= i {
      assert cut == text[..i][..n];
      NoLineNoRead(cut, broken, decodes);
    } else {
      var rest := text[i + 1..];
      TruncationIsPrefix(rest, n - i - 1, broken, decodes);
      CutAfterLine(text, i, n);
      OneLineMore(text[..i], rest[..n - i - 1], rest, broken, decodes);
    }
  }

  /** A cut that loses payloads goes unnoticed exactly if the connection does not break: then it
      ends like a stream that was read to its end. */
  lemma LossIsUnnoticedIff(text: string, n: nat, broken: bool, decodes: string -> bool)
    requires n <= |text|
    ensures var cut, whole := ReadAll(Body(text[..n], broken), decodes), ReadAll(Body(text, broken), decodes);
            cut.0 != whole.0 ==> (cut.1 == Eof <==> !broken)
  {
    TruncationIsPrefix(text, n, broken, decodes);
  }

  /** Cut between two frames, a stream reads back as the payloads so far and a normal end. */
  lemma {:induction false} CutBetweenFrames(
    frames: seq<Frame>, k: nat, payloadOf: Error -> string, decodes: string -> bool)
    requires AllClean(frames, payloadOf, decodes) && k <= |frames| && DoneFrame !in frames[..k]
    ensures Wire(frames[..k], payloadOf) <= Wire(frames, payloadOf)
    ensures ReadAll(Body(Wire(frames[..k], payloadOf), false), decodes) == (Payloads(frames[..k], payloadOf), Eof)
  {
    if k == 0 {
      NoLineNoRead("", false, decodes);
    } else {
      var f, rest := frames[0], frames[1..];
      assert frames[..k][1..] == rest[..k - 1];
      CutBetweenFrames(rest, k - 1, payloadOf, decodes);
      assert f in frames[..k];
      FrameReads(f, Wire(rest[..k - 1], payloadOf), payloadOf, decodes, false);
    }
  }

  /** So any stream of chunks, cut before its last ones, reads as the first ones and a normal end. */
  lemma LostChunks(items: seq<string>, k: nat, payloadOf: Error -> string, decodes: string -> bool)
    requires k < |items| && forall i | 0 <= i < |items| :: Clean(items[i]) && decodes(items[i])
    ensures var whole := Wire(S.ChunkFrames(items) + [DoneFrame], payloadOf);
            var cut := Wire(S.ChunkFrames(items[..k]), payloadOf);
            && cut <= whole
            && ReadAll(Body(whole, false), decodes) == (items, Eof)
            && ReadAll(Body(cut, false), decodes) == (items[..k], Eof)
  {
    var frames := S.ChunkFrames(items) + [DoneFrame];
    ChunkPayloads(items, k, payloadOf);
    CleanChunks(items, payloadOf, decodes);
    CutBetweenFrames(frames, k, payloadOf, decodes);
    FramesReadBack(frames, payloadOf, decodes, "", false);
    assert Wire(frames, payloadOf) + "" == Wire(frames, payloadOf);
  }

  lemma CleanChunks(items: seq<string>, payloadOf: Error -> string, decodes: string -> bool)
    requires forall i | 0 <= i < |items| :: Clean(items[i]) && decodes(items[i])
    ensures AllClean(S.ChunkFrames(items) + [DoneFrame], payloadOf, decodes)
  {
  }

  lemma ChunkPayloads(items: seq<string>, k: nat, payloadOf: Error -> string)
    requires k <= |items|
    ensures var frames := S.ChunkFrames(items) + [DoneFrame];
            && frames[..k] == S.ChunkFrames(items[..k]) && DoneFrame in frames && DoneFrame !in frames[..k]
            && Payloads(frames, payloadOf) == items && Payloads(frames[..k], payloadOf) == items[..k]
  {
    var frames, some := S.ChunkFrames(items) + [DoneFrame], S.ChunkFrames(items[..k]);
    assert frames[..k] == some && frames[|items|] == DoneFrame;
    PayloadsOfChunks(items, [DoneFrame], payloadOf);
    PayloadsOfChunks(items[..k], [], payloadOf);
    assert some + [] == some;
  }

  /** Without a newline there is nothing to read. */
  lemma NoLineNoRead(text: string, broken: bool, decodes: string -> bool)
    requires '\n' !in text
    ensures ReadAll(Body(text, broken), decodes) == ([], if broken then Cut(BROKEN) else Eof)
  {
    NewlineIsFirst(text, |text|);
  }

  lemma CutAfterLine(text: string, i: nat, n: nat)
    requires i < n <= |text| && text[i] == '\n'
    ensures text == text[..i] + "\n" + text[i + 1..]
    ensures text[..n] == text[..i] + "\n" + text[i + 1..][..n - i - 1]
  {
  }

  lemma OneLineMore(line: string, a: string, b: string, broken: bool, decodes: string -> bool)
    requires '\n' !in line
    requires CutShort(ReadAll(Body(a, broken), decodes), ReadAll(Body(b, broken), decodes), broken)
    ensures CutShort(ReadAll(Body(line + "\n" + a, broken), decodes),
                     ReadAll(Body(line + "\n" + b, broken), decodes), broken)
  {
    TakeLine(line, a, broken, decodes);
    TakeLine(line, b, broken, decodes);
  }
}
