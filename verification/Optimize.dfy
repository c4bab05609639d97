/** Compaction of a message list before dispatch, in its safe mode: white space collapsed in
    every text, tool outputs that repeat an earlier head dropped. */
module Optimize {
  import opened Common
  import opened Text

  // ---------------------------------------------------------------------------------
  // Replacing runs of characters, as the two regular expressions do.

  /** The length of the longest start of s within the class. */
  function Run(s: string, inClass: char -> bool): (n: nat)
    ensures n <= |s| && (forall i | 0 <= i < n :: inClass(s[i])) && (n < |s| ==> !inClass(s[n]))
  {
    if s == "" || !inClass(s[0]) then 0 else 1 + Run(s[1..], inClass)
  }

  /** A replacement rule: maximal runs of at least `least` characters of the class become `to`. */
  datatype Rule = Rule(inClass: char -> bool, least: nat, to: string)

  function Replace(s: string, r: Rule): string
    decreases |s|
  {
    if s == "" then ""
    else
      var n := Run(s, r.inClass);
      if n == 0 then [s[0]] + Replace(s[1..], r)
      else (if n >= r.least then r.to else s[..n]) + Replace(s[n..], r)
  }

  predicate IsBlank(c: char) { c == ' ' || c == '\t' }

  predicate IsNewline(c: char) { c == '\n' }

  const BLANKS := Rule(IsBlank, 1, " ")
  const NEWLINES := Rule(IsNewline, 3, "\n\n")

  function Collapse(s: string): string {
    TrimSpace(Replace(Replace(s, BLANKS), NEWLINES))
  }

  // ---------------------------------------------------------------------------------
  // What collapsing does to one text.

  /** Rules that trade white space for white space, and never for more bytes. */
  ghost predicate Harmless(r: Rule) {
    && (forall c | r.inClass(c) :: IsSpace(c) && c as int < 0x80)
    && AllSpace(r.to) && 0 < |r.to| && |Utf8(r.to)| <= r.least
  }

  lemma RulesAreHarmless()
    ensures Harmless(BLANKS) && Harmless(NEWLINES)
  {
    assert "\n\n"[1..] == "\n";
    assert |Utf8("\n")| == 1;
  }

  lemma {:induction false} ReplaceKeepsWords(s: string, r: Rule, open: string)
    requires Harmless(r)
    ensures WordsFrom(Replace(s, r), open) == WordsFrom(s, open)
    decreases |s|
  {
    if s != "" {
      var n := Run(s, r.inClass);
      if n == 0 {
        ReplaceKeepsWords(s[1..], r, if IsSpace(s[0]) then "" else open + [s[0]]);
        assert ([s[0]] + Replace(s[1..], r))[1..] == Replace(s[1..], r);
      } else {
        ReplaceKeepsWords(s[n..], r, "");
        assert s == s[..n] + s[n..];
        SpaceCloses(s[..n], s[n..], open);
        SpaceCloses(if n >= r.least then r.to else s[..n], Replace(s[n..], r), open);
      }
    }
  }

  lemma {:induction false} AsciiBytes(s: string)
    requires forall i | 0 <= i < |s| :: s[i] as int < 0x80
    ensures |Utf8(s)| == |s|
  {
    if s != "" {
      AsciiBytes(s[1..]);
    }
  }

  lemma {:induction false} ReplaceNeverGrows(s: string, r: Rule)
    requires Harmless(r)
    ensures |Utf8(Replace(s, r))| <= |Utf8(s)|
    decreases |s|
  {
    if s != "" {
      var n := Run(s, r.inClass);
      if n == 0 {
        ReplaceNeverGrows(s[1..], r);
        Utf8Append([s[0]], Replace(s[1..], r));
        Utf8Append([s[0]], s[1..]);
        assert s == [s[0]] + s[1..];
      } else {
        ReplaceNeverGrows(s[n..], r);
        assert s == s[..n] + s[n..];
        Utf8Append(s[..n], s[n..]);
        Utf8Append(if n >= r.least then r.to else s[..n], Replace(s[n..], r));
        AsciiBytes(s[..n]);
      }
    }
  }

  /** Collapsing keeps every word, in order and whole, and costs no bytes. */
  lemma CollapseKeepsWords(s: string)
    ensures Words(Collapse(s)) == Words(s)
    ensures |Utf8(Collapse(s))| <= |Utf8(s)|
  {
    RulesAreHarmless();
    var a := Replace(s, BLANKS);
    var b := Replace(a, NEWLINES);
    ReplaceKeepsWords(s, BLANKS, "");
    ReplaceKeepsWords(a, NEWLINES, "");
    TrimKeepsWords(b);
    ReplaceNeverGrows(s, BLANKS);
    ReplaceNeverGrows(a, NEWLINES);
    var left, right := TrimSplits(b);
    Utf8Append(left + TrimSpace(b), right);
    Utf8Append(left, TrimSpace(b));
  }

  lemma FirstAgrees(a: string, b: string, r: Rule)
    requires a != "" && (b != "" ==> !r.inClass(a[|a| - 1]) || !r.inClass(b[0]))
    ensures FirstRun(a + b, r) == FirstRun(a, r) && Replaced(a + b, r) == Replaced(a, r)
    ensures (a + b)[FirstRun(a, r)..] == a[FirstRun(a, r)..] + b
  {
    assert forall i | 0 <= i < |a| :: (a + b)[i] == a[i];
    assert b != "" ==> (a + b)[|a|] == b[0];
    assert Run(a + b, r.inClass) == Run(a, r.inClass);
    assert (a + b)[..Run(a, r.inClass)] == a[..Run(a, r.inClass)];
  }

  /** Away from runs that go across the seam, replacing works piece by piece. */
  lemma {:induction false} ReplaceAppend(a: string, b: string, r: Rule)
    requires a != "" && b != "" ==> !r.inClass(a[|a| - 1]) || !r.inClass(b[0])
    ensures Replace(a + b, r) == Replace(a, r) + Replace(b, r)
    decreases |a|
  {
    if a == "" {
      assert a + b == b;
    } else {
      var rest := a[FirstRun(a, r)..];
      ReplaceStep(a, r);
      ReplaceStep(a + b, r);
      FirstAgrees(a, b, r);
      ReplaceAppend(rest, b, r);
      Regroup(Replaced(a, r), Replace(rest, r), Replace(b, r));
    }
  }

  /** A longest run of these characters. */
  predicate LongestRun(a: string, run: string, b: string, chars: set<char>) {
    && run != "" && (forall i | 0 <= i < |run| :: run[i] in chars)
    && (a != "" ==> a[|a| - 1] !in chars) && (b != "" ==> b[0] !in chars)
  }

  lemma ReplaceWhole(run: string, r: Rule)
    requires run != "" && forall i | 0 <= i < |run| :: r.inClass(run[i])
    ensures Replace(run, r) == if |run| >= r.least then r.to else run
  {
    assert Run(run, r.inClass) == |run| && run[|run|..] == "" && run[..|run|] == run;
    assert Replace(run, r) == (if |run| >= r.least then r.to else run) + "";
  }

  lemma ReplaceRun(a: string, run: string, b: string, r: Rule, chars: set<char>)
    requires LongestRun(a, run, b, chars) && forall c :: c in chars <==> r.inClass(c)
    ensures Replace(a + run + b, r) == Replace(a, r) + (if |run| >= r.least then r.to else run) + Replace(b, r)
  {
    ReplaceAppend(a + run, b, r);
    ReplaceAppend(a, run, r);
    ReplaceWhole(run, r);
  }

  /** What the first rule is: wherever it stands, a longest run of blanks becomes a single space. */
  lemma BlanksBecome(a: string, run: string, b: string)
    requires LongestRun(a, run, b, {' ', '\t'})
    ensures Replace(a + run + b, BLANKS) == Replace(a, BLANKS) + " " + Replace(b, BLANKS)
  {
    ReplaceRun(a, run, b, BLANKS, {' ', '\t'});
  }

  /** And the second: a longest run of newlines becomes at most two. */
  lemma NewlinesBecome(a: string, run: string, b: string)
    requires LongestRun(a, run, b, {'\n'})
    ensures var kept := if |run| == 1 then "\n" else "\n\n";
            Replace(a + run + b, NEWLINES) == Replace(a, NEWLINES) + kept + Replace(b, NEWLINES)
  {
    ReplaceRun(a, run, b, NEWLINES, {'\n'});
    assert |run| == 1 ==> run == "\n";
    assert |run| == 2 ==> run == "\n\n";
  }

  predicate TwoSpaces(s: string, i: nat) {
    i + 1 < |s| && s[i] == ' ' && s[i + 1] == ' '
  }

  predicate ThreeNewlines(s: string, i: nat) {
    i + 2 < |s| && s[i] == '\n' && s[i + 1] == '\n' && s[i + 2] == '\n'
  }

  /** No tabs and no two spaces in a row. */
  predicate Squeezed(s: string) {
    '\t' !in s && forall i | 0 <= i < |s| :: !TwoSpaces(s, i)
  }

  /** No three newlines in a row. */
  predicate Capped(s: string) {
    forall i | 0 <= i < |s| :: !ThreeNewlines(s, i)
  }

  /** Replacing leaves a character outside the class at the front, and puts none there. */
  lemma ReplaceHead(s: string, r: Rule)
    requires r.to != "" && r.inClass(r.to[0])
    ensures Replace(s, r) == "" <==> s == ""
    ensures s != "" ==> (r.inClass(Replace(s, r)[0]) <==> r.inClass(s[0]))
    ensures s != "" && !r.inClass(s[0]) ==> Replace(s, r)[0] == s[0]
  {
  }

  /** The first step of a replacement. */
  function FirstRun(s: string, r: Rule): (k: nat)
    requires s != ""
    ensures 0 < k <= |s| && k == if Run(s, r.inClass) == 0 then 1 else Run(s, r.inClass)
  {
    if Run(s, r.inClass) == 0 then 1 else Run(s, r.inClass)
  }

  function Replaced(s: string, r: Rule): string
    requires s != ""
  {
    var n := Run(s, r.inClass);
    if n == 0 then [s[0]] else if n >= r.least then r.to else s[..n]
  }

  lemma ReplaceStep(s: string, r: Rule)
    requires s != ""
    ensures Replace(s, r) == Replaced(s, r) + Replace(s[FirstRun(s, r)..], r)
    ensures s == s[..FirstRun(s, r)] + s[FirstRun(s, r)..]
  {
  }

  lemma SqueezedJoin(a: string, b: string)
    requires Squeezed(a) && Squeezed(b)
    requires a != "" && b != "" ==> a[|a| - 1] != ' ' || b[0] != ' '
    ensures Squeezed(a + b)
  {
    forall i | 0 <= i < |a + b| ensures !TwoSpaces(a + b, i) {
      if i + 1 < |a| {
        assert !TwoSpaces(a, i);
      } else if |a| <= i {
        assert !TwoSpaces(b, i - |a|);
      }
    }
  }

  lemma CappedJoin(a: string, b: string)
    requires |a| <= 2 && Capped(b)
    requires (|a| == 1 && a[0] != '\n') || b == "" || b[0] != '\n'
    ensures Capped(a + b)
  {
    forall i | 0 <= i < |a + b| ensures !ThreeNewlines(a + b, i) {
      if |a| <= i { assert !ThreeNewlines(b, i - |a|); }
    }
  }

  lemma SqueezedSplit(a: string, b: string)
    requires Squeezed(a + b)
    ensures Squeezed(a) && Squeezed(b)
    ensures a != "" && b != "" ==> a[|a| - 1] != ' ' || b[0] != ' '
  {
    forall i | 0 <= i < |a| ensures !TwoSpaces(a, i) { assert !TwoSpaces(a + b, i); }
    forall i | 0 <= i < |b| ensures !TwoSpaces(b, i) { assert !TwoSpaces(a + b, |a| + i); }
    if a != "" { assert !TwoSpaces(a + b, |a| - 1); }
  }

  lemma CappedSplit(a: string, b: string)
    requires Capped(a + b)
    ensures Capped(a) && Capped(b)
  {
    forall i | 0 <= i < |a| ensures !ThreeNewlines(a, i) { assert !ThreeNewlines(a + b, i); }
    forall i | 0 <= i < |b| ensures !ThreeNewlines(b, i) { assert !ThreeNewlines(a + b, |a| + i); }
  }

  lemma {:induction false} BlanksSqueezes(s: string)
    ensures Squeezed(Replace(s, BLANKS))
    decreases |s|
  {
    if s != "" {
      var rest := s[FirstRun(s, BLANKS)..];
      BlanksSqueezes(rest);
      ReplaceHead(rest, BLANKS);
      SqueezedJoin(Replaced(s, BLANKS), Replace(rest, BLANKS));
      ReplaceStep(s, BLANKS);
    }
  }

  lemma {:induction false} NewlinesCaps(s: string)
    ensures Capped(Replace(s, NEWLINES))
    decreases |s|
  {
    if s != "" {
      var rest := s[FirstRun(s, NEWLINES)..];
      NewlinesCaps(rest);
      ReplaceHead(rest, NEWLINES);
      CappedJoin(Replaced(s, NEWLINES), Replace(rest, NEWLINES));
      ReplaceStep(s, NEWLINES);
    }
  }

  lemma {:induction false} NewlinesKeepsSqueezed(s: string)
    requires Squeezed(s)
    ensures Squeezed(Replace(s, NEWLINES))
    decreases |s|
  {
    if s != "" {
      var k := FirstRun(s, NEWLINES);
      ReplaceStep(s, NEWLINES);
      SqueezedSplit(s[..k], s[k..]);
      NewlinesKeepsSqueezed(s[k..]);
      ReplaceHead(s[k..], NEWLINES);
      SqueezedJoin(Replaced(s, NEWLINES), Replace(s[k..], NEWLINES));
    }
  }

  lemma SqueezedFirst(s: string)
    requires s != "" && Squeezed(s)
    ensures Replaced(s, BLANKS) == s[..FirstRun(s, BLANKS)]
  {
    assert !TwoSpaces(s, 0);
    if |s| > 1 { assert s[1] in s; }
    assert s[0] in s;
  }

  lemma CappedFirst(s: string)
    requires s != "" && Capped(s)
    ensures Replaced(s, NEWLINES) == s[..FirstRun(s, NEWLINES)]
  {
    assert !ThreeNewlines(s, 0);
  }

  lemma {:induction false} SqueezedIsFixed(s: string)
    requires Squeezed(s)
    ensures Replace(s, BLANKS) == s
    decreases |s|
  {
    if s != "" {
      var k := FirstRun(s, BLANKS);
      ReplaceStep(s, BLANKS);
      SqueezedSplit(s[..k], s[k..]);
      SqueezedIsFixed(s[k..]);
      SqueezedFirst(s);
    }
  }

  lemma {:induction false} CappedIsFixed(s: string)
    requires Capped(s)
    ensures Replace(s, NEWLINES) == s
    decreases |s|
  {
    if s != "" {
      var k := FirstRun(s, NEWLINES);
      ReplaceStep(s, NEWLINES);
      CappedSplit(s[..k], s[k..]);
      CappedIsFixed(s[k..]);
      CappedFirst(s);
    }
  }

  lemma InfixStaysTidy(left: string, s: string, right: string)
    requires Squeezed(left + s + right) && Capped(left + s + right)
    ensures Squeezed(s) && Capped(s)
  {
    SqueezedSplit(left + s, right);
    SqueezedSplit(left, s);
    CappedSplit(left + s, right);
    CappedSplit(left, s);
  }

  /** Collapsing leaves a text alone if and only if there is nothing to collapse, and there is
      nothing left to collapse after it. */
  lemma CollapseIsTidy(s: string)
    ensures Collapse(s) == s <==> Squeezed(s) && Capped(s) && IsTrimmed(s)
    ensures Collapse(Collapse(s)) == Collapse(s)
  {
    TidyAfter(s);
    TidyIsFixed(Collapse(s));
    if Squeezed(s) && Capped(s) && IsTrimmed(s) {
      TidyIsFixed(s);
    }
  }

  lemma TidyAfter(s: string)
    ensures Squeezed(Collapse(s)) && Capped(Collapse(s)) && IsTrimmed(Collapse(s))
  {
    var a := Replace(s, BLANKS);
    var b := Replace(a, NEWLINES);
    BlanksSqueezes(s);
    NewlinesKeepsSqueezed(a);
    NewlinesCaps(a);
    var left, right := TrimSplits(b);
    InfixStaysTidy(left, TrimSpace(b), right);
  }

  lemma TidyIsFixed(s: string)
    requires Squeezed(s) && Capped(s) && IsTrimmed(s)
    ensures Collapse(s) == s
  {
    SqueezedIsFixed(s);
    CappedIsFixed(s);
    TrimmedIsFixed("", s);
    assert "" + s == s;
  }

  // ---------------------------------------------------------------------------------
  // Messages.

  /** A raw content field: absent, a JSON string, null, or any other JSON value. */
  datatype Content = Absent | Text(text: string) | Null | Other(raw: string)

  datatype Message = Message(role: string, content: Content, name: string, toolCalls: seq<string>, toolCallID: string)

  datatype Mode = Off | Safe

  /** The decoder of strings accepts null as an empty one. */
  function Decoded(c: Content): Option<string> {
    match c
    case Text(s) => Some(s)
    case Null => Some("")
    case _ => None
  }

  function CollapsedOne(m: Message): Message {
    match Decoded(m.content)
    case Some(s) => if Collapse(s) == s then m else m.(content := Text(Collapse(s)))
    case None => m
  }

  function Collapsed(msgs: seq<Message>): (r: seq<Message>)
    ensures |r| == |msgs| && forall i | 0 <= i < |r| :: r[i] == CollapsedOne(msgs[i])
  {
    seq(|msgs|, i requires 0 <= i < |msgs| => CollapsedOne(msgs[i]))
  }

  /** The first 256 bytes of a text, which may end within a character. */
  function Head(text: string): seq<byte> {
    var b := Utf8(text);
    if |b| > 256 then b[..256] else b
  }

  /** Two texts have the same head exactly if they are the same bytes, or both have 256 and more and
      agree on the first 256. */
  lemma HeadsAgreeIff(s: string, t: string)
    ensures var a, b := Utf8(s), Utf8(t);
            Head(s) == Head(t) <==> a == b || (|a| >= 256 && |b| >= 256 && a[..256] == b[..256])
  {
    var a, b := Utf8(s), Utf8(t);
    assert |a| == 256 ==> a[..256] == a;
    assert |b| == 256 ==> b[..256] == b;
  }

  /** The head a message is compared by; only tool outputs with a text have one. */
  function Key(m: Message): Option<seq<byte>> {
    if m.role == "tool" && Decoded(m.content).Some? then Some(Head(Decoded(m.content).value)) else None
  }

  predicate Repeats(msgs: seq<Message>, i: nat)
    requires i < |msgs|
  {
    Key(msgs[i]).Some? && exists j | 0 <= j < i :: Key(msgs[j]) == Key(msgs[i])
  }

  /** The messages that repeat no earlier one. */
  function Dedup(msgs: seq<Message>): seq<Message> {
    if msgs == [] then []
    else
      var n := |msgs| - 1;
      Dedup(msgs[..n]) + if Repeats(msgs, n) then [] else [msgs[n]]
  }

  function Compact(msgs: seq<Message>): seq<Message> {
    Dedup(Collapsed(msgs))
  }

  function LenOf(msgs: seq<Message>, size: Content -> nat): nat {
    if msgs == [] then 0 else LenOf(msgs[..|msgs| - 1], size) + size(msgs[|msgs| - 1].content)
  }

  datatype Result = Result(
    messages: array<Message>, originalLen: nat, newLen: nat, bytesSaved: nat, applied: seq<string>)

  method MeasureLen(msgs: array<Message>, size: Content -> nat) returns (n: nat)
    ensures n == LenOf(msgs[..], size)
  {
    n := 0;
    for i := 0 to msgs.Length
      invariant n == LenOf(msgs[..i], size)
    {
      assert msgs[..i + 1][..i] == msgs[..i];
      n := n + size(msgs[i].content);
    }
    assert msgs[..msgs.Length] == msgs[..];
  }

  method CollapseWhitespace(msgs: array<Message>) returns (applied: bool)
    modifies msgs
    ensures msgs[..] == Collapsed(old(msgs[..]))
    ensures applied <==> msgs[..] != old(msgs[..])
  {
    applied := false;
    ghost var was := msgs[..];
    for i := 0 to msgs.Length
      invariant Partly(msgs[..], was, i)
      invariant applied <==> AnyCollapses(was, i)
    {
      AnyCollapsesNext(was, i);
      PartlyNext(msgs[..], was, i);
      var m := CollapseMessage(msgs[i]);
      if m.Some? {
        applied := true;
        msgs[i] := m.value;
      }
    }
    assert msgs[..] == Collapsed(was) by {
      assert was[..msgs.Length] == was && was[msgs.Length..] == [];
    }
    CollapsedDiffers(was);
  }

  ghost predicate Partly(now: seq<Message>, was: seq<Message>, n: nat) {
    n <= |was| && now == Collapsed(was[..n]) + was[n..]
  }

  lemma PartlyNext(now: seq<Message>, was: seq<Message>, i: nat)
    requires i < |was| && Partly(now, was, i)
    ensures now[i] == was[i] && Partly(now[i := CollapsedOne(was[i])], was, i + 1)
    ensures CollapsedOne(was[i]) == was[i] ==> Partly(now, was, i + 1)
  {
    assert now[i := CollapsedOne(was[i])] == Collapsed(was[..i + 1]) + was[i + 1..];
    if CollapsedOne(was[i]) == was[i] { assert now[i := CollapsedOne(was[i])] == now; }
  }

  lemma AnyCollapsesNext(msgs: seq<Message>, i: nat)
    requires i < |msgs|
    ensures AnyCollapses(msgs, i + 1) <==> AnyCollapses(msgs, i) || CollapsedOne(msgs[i]) != msgs[i]
  {
  }

  lemma CollapsedDiffers(msgs: seq<Message>)
    ensures AnyCollapses(msgs, |msgs|) <==> Collapsed(msgs) != msgs
  {
    if forall j | 0 <= j < |msgs| :: Collapsed(msgs)[j] == msgs[j] {
      assert Collapsed(msgs) == msgs;
    }
  }

  ghost predicate AnyCollapses(msgs: seq<Message>, n: nat)
    requires n <= |msgs|
  {
    exists j | 0 <= j < n :: CollapsedOne(msgs[j]) != msgs[j]
  }

  /** The new message, if its text changes. */
  method CollapseMessage(m: Message) returns (r: Option<Message>)
    ensures r == if CollapsedOne(m) == m then None else Some(CollapsedOne(m))
  {
    var text := Decoded(m.content);
    if text.None? {
      return None;
    }
    var tidy := Collapse(text.value);
    if tidy == text.value {
      return None;
    }
    NullIsTidy(m.content);
    return Some(m.(content := Text(tidy)));
  }

  lemma NullIsTidy(c: Content)
    requires Decoded(c).Some? && Collapse(Decoded(c).value) != Decoded(c).value
    ensures c.Text?
  {
    if c.Null? {
      TidyIsFixed("");
    }
  }

  ghost predicate SeenIn(seen: set<seq<byte>>, msgs: seq<Message>, n: nat)
    requires n <= |msgs|
  {
    forall h :: h in seen <==> exists j | 0 <= j < n :: Key(msgs[j]) == Some(h)
  }

  lemma DedupNext(msgs: seq<Message>, i: nat, seen: set<seq<byte>>)
    requires i < |msgs| && SeenIn(seen, msgs, i)
    ensures var k := Key(msgs[i]);
            && Dedup(msgs[..i + 1]) == Dedup(msgs[..i]) + (if k.Some? && k.value in seen then [] else [msgs[i]])
            && SeenIn(if k.Some? then seen + {k.value} else seen, msgs, i + 1)
            && (k.Some? && k.value in seen ==> SeenIn(seen, msgs, i + 1))
  {
    assert msgs[..i + 1][..i] == msgs[..i];
    RepeatsIffSeen(msgs, i, seen);
    SeenNext(msgs, i, seen);
    assert Key(msgs[i]).Some? && Key(msgs[i]).value in seen ==> seen + {Key(msgs[i]).value} == seen;
  }

  lemma RepeatsIffSeen(msgs: seq<Message>, i: nat, seen: set<seq<byte>>)
    requires i < |msgs| && SeenIn(seen, msgs, i)
    ensures Repeats(msgs[..i + 1], i) <==> Key(msgs[i]).Some? && Key(msgs[i]).value in seen
  {
    assert forall j | 0 <= j <= i :: msgs[..i + 1][j] == msgs[j];
  }

  lemma SeenNext(msgs: seq<Message>, i: nat, seen: set<seq<byte>>)
    requires i < |msgs| && SeenIn(seen, msgs, i)
    ensures SeenIn(if Key(msgs[i]).Some? then seen + {Key(msgs[i]).value} else seen, msgs, i + 1)
  {
  }

  method DedupRepeatedToolOutputs(msgs: array<Message>) returns (out: array<Message>, skipped: bool)
    ensures fresh(out) && out[..] == Dedup(msgs[..])
    ensures skipped <==> out.Length < msgs.Length
  {
    var seen: set<seq<byte>> := {};
    var kept: seq<Message> := [];
    skipped := false;
    for i := 0 to msgs.Length
      invariant kept == Dedup(msgs[..i])
      invariant SeenIn(seen, msgs[..], i)
      invariant if skipped then |kept| < i else |kept| == i
    {
      var m := msgs[i];
      DedupNext(msgs[..], i, seen);
      if m.role != "tool" || Decoded(m.content).None? {
        kept := kept + [m];
        continue;
      }
      var head := Head(Decoded(m.content).value);
      if head in seen {
        skipped := true;
        continue;
      }
      seen := seen + {head};
      kept := kept + [m];
    }
    assert msgs[..msgs.Length] == msgs[..];
    out := new Message[|kept|](i requires 0 <= i < |kept| => kept[i]);
    assert out[..] == kept;
  }

  method CloneMessages(msgs: array<Message>) returns (out: array<Message>)
    ensures fresh(out) && out[..] == msgs[..]
  {
    out := new Message[msgs.Length](i requires 0 <= i < msgs.Length reads msgs => msgs[i]);
    assert forall i | 0 <= i < msgs.Length :: out[i] == msgs[i];
  }

  /** Off hands the caller's own messages back; safe mode leaves them as they are and returns
      others. */
  method Apply(msgs: array<Message>, mode: Mode, size: Content -> nat) returns (r: Result)
    ensures r.originalLen == LenOf(msgs[..], size) && r.newLen == LenOf(r.messages[..], size)
    ensures r.bytesSaved == if r.newLen < r.originalLen then r.originalLen - r.newLen else 0
    ensures mode.Off? ==> r.messages == msgs && r.applied == []
    ensures mode.Safe? ==> fresh(r.messages) && r.messages[..] == Compact(msgs[..])
    ensures mode.Safe? ==> ("whitespace" in r.applied <==> Collapsed(msgs[..]) != msgs[..])
    ensures mode.Safe? ==> ("dedup_tool_outputs" in r.applied <==> r.messages.Length < msgs.Length)
  {
    var originalLen := MeasureLen(msgs, size);
    if mode.Off? {
      return Result(msgs, originalLen, originalLen, 0, []);
    }
    var cloned := CloneMessages(msgs);
    var collapsed := CollapseWhitespace(cloned);
    var out, skipped := DedupRepeatedToolOutputs(cloned);
    var newLen := MeasureLen(out, size);
    r := Result(out, originalLen, newLen, if newLen < originalLen then originalLen - newLen else 0,
                (if collapsed then ["whitespace"] else []) + (if skipped then ["dedup_tool_outputs"] else []));
  }

  // ---------------------------------------------------------------------------------
  // What compaction does to a list.

  predicate NoRepeats(msgs: seq<Message>) {
    forall i | 0 <= i < |msgs| :: !Repeats(msgs, i)
  }

  lemma RepeatsBefore(msgs: seq<Message>, n: nat, i: nat)
    requires i < n <= |msgs|
    ensures Repeats(msgs[..n], i) <==> Repeats(msgs, i)
  {
    assert forall j | 0 <= j < n :: msgs[..n][j] == msgs[j];
  }

  lemma {:induction false} DedupOfNoRepeats(msgs: seq<Message>)
    requires NoRepeats(msgs)
    ensures Dedup(msgs) == msgs
  {
    if msgs != [] {
      var n := |msgs| - 1;
      forall i | 0 <= i < n ensures !Repeats(msgs[..n], i) {
        RepeatsBefore(msgs, n, i);
      }
      DedupOfNoRepeats(msgs[..n]);
      assert !Repeats(msgs, n);
      assert msgs == msgs[..n] + [msgs[n]];
    }
  }

  lemma {:induction false} DedupFromList(msgs: seq<Message>)
    ensures forall m | m in Dedup(msgs) :: m in msgs
    ensures NoRepeats(Dedup(msgs))
  {
    if msgs != [] {
      var n := |msgs| - 1;
      var before := Dedup(msgs[..n]);
      DedupFromList(msgs[..n]);
      if !Repeats(msgs, n) {
        forall x | x in before ensures Key(x).None? || Key(x) != Key(msgs[n]) {
          var j :| 0 <= j < n && msgs[..n][j] == x;
          assert msgs[j] == x;
        }
        NoRepeatsSnoc(before, msgs[n]);
        assert Dedup(msgs) == before + [msgs[n]];
      } else {
        assert Dedup(msgs) == before;
      }
    }
  }

  lemma NoRepeatsSnoc(msgs: seq<Message>, m: Message)
    requires NoRepeats(msgs)
    requires forall x | x in msgs :: Key(x).None? || Key(x) != Key(m)
    ensures NoRepeats(msgs + [m])
  {
    var all := msgs + [m];
    forall i | 0 <= i < |all| ensures !Repeats(all, i) {
      if i < |msgs| {
        assert !Repeats(msgs, i);
        assert forall j | 0 <= j <= i :: all[j] == msgs[j];
      } else {
        assert forall j | 0 <= j < i :: all[j] in msgs;
      }
    }
  }

  lemma {:induction false} DedupPrefix(msgs: seq<Message>, i: nat)
    requires i <= |msgs|
    ensures Dedup(msgs[..i]) <= Dedup(msgs)
  {
    if i < |msgs| {
      var n := |msgs| - 1;
      assert msgs[..n][..i] == msgs[..i];
      DedupPrefix(msgs[..n], i);
    } else {
      assert msgs[..i] == msgs;
    }
  }

  /** A tool output that repeats is dropped behind an earlier one with its head that stays. */
  lemma {:induction false} DroppedHasSurvivor(msgs: seq<Message>, i: nat)
    requires i < |msgs| && Repeats(msgs, i)
    ensures exists m :: m in Dedup(msgs[..i]) && Key(m) == Key(msgs[i])
    decreases i
  {
    var j :| 0 <= j < i && Key(msgs[j]) == Key(msgs[i]);
    if Repeats(msgs, j) {
      DroppedHasSurvivor(msgs, j);
      var m :| m in Dedup(msgs[..j]) && Key(m) == Key(msgs[j]);
      assert msgs[..i][..j] == msgs[..j];
      DedupPrefix(msgs[..i], j);
    } else {
      assert Repeats(msgs[..i], j) <==> Repeats(msgs, j);
      UnrepeatedStays(msgs[..i], j);
    }
  }

  /** The messages that dropping never looks at. */
  function Keyless(): Message -> bool {
    (m: Message) => Key(m).None?
  }

  lemma {:induction false} FilterSnoc(msgs: seq<Message>, m: Message)
    ensures Filter(msgs + [m], Keyless()) == Filter(msgs, Keyless()) + if Keyless()(m) then [m] else []
  {
    if msgs == [] {
      assert [] + [m] == [m];
    } else {
      FilterSnoc(msgs[1..], m);
      assert (msgs + [m])[1..] == msgs[1..] + [m];
    }
  }

  lemma {:induction false} DedupKeepsKeyless(msgs: seq<Message>)
    ensures Filter(Dedup(msgs), Keyless()) == Filter(msgs, Keyless())
  {
    if msgs != [] {
      var n := |msgs| - 1;
      DedupKeepsKeyless(msgs[..n]);
      assert msgs == msgs[..n] + [msgs[n]];
      FilterSnoc(msgs[..n], msgs[n]);
      FilterSnoc(Dedup(msgs[..n]), msgs[n]);
      assert Dedup(msgs) == if Repeats(msgs, n) then Dedup(msgs[..n]) else Dedup(msgs[..n]) + [msgs[n]];
    }
  }

  /** m says what n says: everything the same but for the white space of its text, which takes
      no more bytes than before. */
  ghost predicate SaysTheSame(m: Message, n: Message) {
    && m.(content := n.content) == n
    && (Decoded(n.content).None? ==> m == n)
    && (Decoded(n.content).Some? ==>
          Decoded(m.content).Some?
          && Words(Decoded(m.content).value) == Words(Decoded(n.content).value)
          && |Utf8(Decoded(m.content).value)| <= |Utf8(Decoded(n.content).value)|)
  }

  lemma CollapsedSaysTheSame(m: Message)
    ensures SaysTheSame(CollapsedOne(m), m)
    ensures CollapsedOne(CollapsedOne(m)) == CollapsedOne(m)
    ensures Keyless()(CollapsedOne(m)) <==> Keyless()(m)
  {
    if Decoded(m.content).Some? {
      CollapseKeepsWords(Decoded(m.content).value);
      CollapseIsTidy(Decoded(m.content).value);
    }
  }

  lemma {:induction false} CollapsedFilter(msgs: seq<Message>)
    ensures Filter(Collapsed(msgs), Keyless()) == Collapsed(Filter(msgs, Keyless()))
  {
    if msgs != [] {
      CollapsedFilter(msgs[1..]);
      CollapsedSaysTheSame(msgs[0]);
      assert Collapsed(msgs)[1..] == Collapsed(msgs[1..]);
      CollapsedCons(msgs[0], Filter(msgs[1..], Keyless()));
    }
  }

  lemma CollapsedCons(m: Message, rest: seq<Message>)
    ensures Collapsed([m] + rest) == [CollapsedOne(m)] + Collapsed(rest)
    ensures Collapsed([] + rest) == [] + Collapsed(rest)
  {
    assert [] + rest == rest;
  }

  /** Compacting twice is compacting once. */
  lemma CompactIsIdempotent(msgs: seq<Message>)
    ensures Compact(Compact(msgs)) == Compact(msgs)
  {
    var once := Compact(msgs);
    DedupFromList(Collapsed(msgs));
    forall i | 0 <= i < |once| ensures CollapsedOne(once[i]) == once[i] {
      assert once[i] in once;
      var j :| 0 <= j < |msgs| && once[i] == Collapsed(msgs)[j];
      CollapsedSaysTheSame(msgs[j]);
    }
    assert Collapsed(once) == once;
    DedupOfNoRepeats(once);
  }

  /** Compacting keeps the meaning: the messages that are not tool outputs with a text stay, all
      of them and in order, and say the same; every other message that is not there any more
      comes after one that is and begins with the same bytes; and nothing is made up. */
  lemma CompactKeepsMeaning(msgs: seq<Message>)
    ensures var kept := Filter(msgs, Keyless());
            var now := Filter(Compact(msgs), Keyless());
            |now| == |kept| && forall i | 0 <= i < |now| :: SaysTheSame(now[i], kept[i])
    ensures forall i | 0 <= i < |msgs| && Repeats(Collapsed(msgs), i) ::
              exists m :: m in Compact(msgs[..i]) && Key(m) == Key(CollapsedOne(msgs[i]))
    ensures forall i | 0 <= i < |msgs| && !Repeats(Collapsed(msgs), i) :: CollapsedOne(msgs[i]) in Compact(msgs)
    ensures forall i | 0 <= i <= |msgs| :: Compact(msgs[..i]) <= Compact(msgs)
    ensures forall m | m in Compact(msgs) :: exists n :: n in msgs && SaysTheSame(m, n)
  {
    CollapsedFilter(msgs);
    DedupKeepsKeyless(Collapsed(msgs));
    forall n ensures SaysTheSame(CollapsedOne(n), n) {
      CollapsedSaysTheSame(n);
    }
    forall i | 0 <= i <= |msgs|
      ensures Collapsed(msgs[..i]) == Collapsed(msgs)[..i] && Compact(msgs[..i]) <= Compact(msgs) {
      assert Collapsed(msgs[..i]) == Collapsed(msgs)[..i];
      DedupPrefix(Collapsed(msgs), i);
    }
    forall i | 0 <= i < |msgs| && Repeats(Collapsed(msgs), i)
      ensures exists m :: m in Compact(msgs[..i]) && Key(m) == Key(CollapsedOne(msgs[i]))
    {
      DroppedHasSurvivor(Collapsed(msgs), i);
    }
    forall i | 0 <= i < |msgs| && !Repeats(Collapsed(msgs), i) ensures CollapsedOne(msgs[i]) in Compact(msgs) {
      UnrepeatedStays(Collapsed(msgs), i);
    }
    DedupFromList(Collapsed(msgs));
    forall m | m in Compact(msgs) ensures exists n :: n in msgs && SaysTheSame(m, n) {
      var j :| 0 <= j < |msgs| && m == Collapsed(msgs)[j];
      assert msgs[j] in msgs;
    }
  }

  lemma UnrepeatedStays(msgs: seq<Message>, i: nat)
    requires i < |msgs| && !Repeats(msgs, i)
    ensures msgs[i] in Dedup(msgs)
  {
    var upTo := msgs[..i + 1];
    assert upTo[..i] == msgs[..i];
    assert Repeats(upTo, i) <==> Repeats(msgs, i);
    DedupPrefix(msgs, i + 1);
    assert Dedup(upTo)[|Dedup(upTo[..i])|] == msgs[i];
  }
}
