/** The two-stage matcher: the embedding ranking decides, and an LLM reranks its shortlist
    only when the top two are close. */
module Cascade {
  import opened Common
  import opened Semantic
  import T = Text

  /** Case folding, as given functions. */
  datatype Folding = Folding(equalFold: (string, string) -> bool, lower: string -> string)

  /** The length of a string is the number of its bytes. */
  function Len(s: string): (n: nat)
    ensures n == 0 <==> s == ""
  {
    |T.Utf8(s)|
  }

  // ---------------------------------------------------------------------------------
  // Cleaning a reply of what small models put around an answer.

  predicate IsQuote(c: char) {
    c == '`' || c == '*' || c == '"' || c == '\'' || c == ' '
  }

  predicate IsStop(c: char) {
    c == '.' || c == ',' || c == ';' || c == ':' || c == '!' || c == '?'
  }

  /** The position of the first character of the class, or the length. */
  function FirstOf(s: string, p: char -> bool): (i: nat)
    ensures i <= |s| && (i < |s| ==> p(s[i])) && forall k | 0 <= k < i :: !p(s[k])
  {
    if s == "" || p(s[0]) then 0 else 1 + FirstOf(s[1..], p)
  }

  predicate IsColon(c: char) {
    c == ':'
  }

  /** The text starts with a label: "skill:" or "answer:", in any case. */
  predicate Labelled(t: Folding, s: string) {
    var i := FirstOf(s, IsColon);
    i < |s| && Len(s[..i]) < 16 && t.lower(s[..i]) in ["skill", "answer"]
  }

  function Unlabelled(t: Folding, s: string): string {
    if Labelled(t, s) then T.TrimSpace(s[FirstOf(s, IsColon) + 1..]) else s
  }

  function Unquoted(s: string): string {
    T.TrimEnd(T.Trim(s, IsQuote), IsStop)
  }

  function FirstLine(s: string): string {
    var i := FirstOf(s, T.IsLineEnd);
    if i < |s| then Unquoted(T.TrimSpace(s[..i])) else s
  }

  function Cleaned(t: Folding, s: string): string {
    FirstLine(T.TrimSpace(Unquoted(Unlabelled(t, T.TrimSpace(s)))))
  }

  method IndexOf(s: string, p: char -> bool) returns (i: nat)
    ensures i == FirstOf(s, p)
  {
    i := 0;
    while i < |s| && !p(s[i])
      invariant i <= |s| && forall k | 0 <= k < i :: !p(s[k])
    {
      i := i + 1;
    }
  }

  method CleanReply(t: Folding, raw: string) returns (s: string)
    ensures s == Cleaned(t, raw)
  {
    s := T.TrimSpace(raw);
    if s == "" {
      return;
    }
    s := StripLabel(t, s);
    s := T.Trim(s, IsQuote);
    s := T.TrimEnd(s, IsStop);
    s := T.TrimSpace(s);
    var end := IndexOf(s, T.IsLineEnd);
    if end < |s| {
      s := T.TrimSpace(s[..end]);
      s := T.Trim(s, IsQuote);
      s := T.TrimEnd(s, IsStop);
    }
  }

  method StripLabel(t: Folding, s: string) returns (rest: string)
    ensures rest == Unlabelled(t, s)
  {
    rest := s;
    var idx := IndexOf(s, IsColon);
    if idx < |s| && Len(s[..idx]) < 16 {
      var prefix := t.lower(s[..idx]);
      if prefix == "skill" || prefix == "answer" {
        rest := T.TrimSpace(s[idx + 1..]);
      }
    }
  }

  /** A name that cleaning has no business with. */
  predicate Bare(name: string) {
    && name != "" && T.IsTrimmed(name)
    && !IsQuote(name[0]) && !IsQuote(name[|name| - 1]) && !IsStop(name[|name| - 1])
    && forall i | 0 <= i < |name| :: !T.IsLineEnd(name[i])
  }

  /** An answer as a small model may dress it: quoted, and with punctuation at its end. */
  ghost predicate Dresses(body: string, open: string, name: string, stops: string, close: string) {
    && body == open + (name + (stops + close)) && T.IsTrimmed(body) && Bare(name)
    && (forall i | 0 <= i < |open| :: IsQuote(open[i])) && (forall i | 0 <= i < |close| :: IsQuote(close[i]))
    && forall i | 0 <= i < |stops| :: IsStop(stops[i])
  }

  lemma Undressed(body: string, open: string, name: string, stops: string, close: string)
    requires Dresses(body, open, name, stops, close)
    ensures body != "" && Unquoted(body) == name
  {
    T.TrimStartSkips(open, name + (stops + close), IsQuote);
    assert (name + (stops + close))[0] == name[0];
    Regroup(name, stops, close);
    T.TrimEndSkips(name + stops, close, IsQuote);
    assert stops != "" ==> (name + stops)[|name + stops| - 1] == stops[|stops| - 1];
    T.TrimEndSkips(name, stops, IsStop);
  }

  lemma BareIsOneLine(name: string)
    requires Bare(name)
    ensures FirstLine(T.TrimSpace(name)) == name
  {
    T.TrimmedBetween("", name, "");
    assert "" + name + "" == name;
  }

  /** A word that labels an answer when a colon follows it. */
  predicate IsLabel(t: Folding, word: string) {
    && t.lower(word) in ["skill", "answer"] && 0 < Len(word) < 16 && !T.IsSpace(word[0])
    && forall i | 0 <= i < |word| :: !IsColon(word[i])
  }

  /** Cleaning undresses an answer, with or without a label in front of it. */
  lemma DressedIsCleaned(t: Folding, before: string, word: string, space: string, body: string, after: string,
                         open: string, name: string, stops: string, close: string)
    requires Dresses(body, open, name, stops, close)
    requires T.AllSpace(before) && T.AllSpace(space) && T.AllSpace(after)
    ensures !Labelled(t, body) ==> Cleaned(t, before + body + after) == name
    ensures IsLabel(t, word) ==>
              Cleaned(t, before + (word + ":" + (space + body)) + after) == name
  {
    Undressed(body, open, name, stops, close);
    BareIsOneLine(name);
    T.TrimmedBetween(before, body, after);
    if IsLabel(t, word) {
      var s := word + ":" + (space + body);
      assert s[|s| - 1] == body[|body| - 1] && s[0] == word[0];
      T.TrimmedBetween(before, s, after);
      assert s[|word|] == ':' && s[..|word|] == word;
      assert forall k | 0 <= k < |word| :: s[k] == word[k];
      assert FirstOf(s, IsColon) == |word|;
      assert s[|word| + 1..] == space + body;
      T.TrimmedBetween(space, body, "");
      assert space + body + "" == space + body;
    }
  }

  lemma TrimmedTail(name: string, close: string)
    requires Bare(name) && forall i | 0 <= i < |close| :: IsQuote(close[i])
    ensures T.TrimSpace(name + close) == name <==> forall i | 0 <= i < |close| :: close[i] == ' '
    ensures forall i | 0 <= i < |T.TrimSpace(name + close)| :: !T.IsLineEnd(T.TrimSpace(name + close)[i])
  {
    var s := name + close;
    assert s[0] == name[0];
    var right := T.TrimRightSplits(s);
    var u := T.TrimSpace(s);
    forall i | 0 <= i < |u| ensures !T.IsLineEnd(u[i]) {
      assert u[i] == s[i];
    }
    if u == name { assert right == s[|name|..] == close; }
    if forall i | 0 <= i < |close| :: close[i] == ' ' {
      T.TrimmedBetween("", name, close);
      assert "" + name + close == s;
    }
  }

  lemma {:induction false} NoneFound(s: string, p: char -> bool)
    requires forall i | 0 <= i < |s| :: !p(s[i])
    ensures FirstOf(s, p) == |s|
  {
    if s != "" { NoneFound(s[1..], p); }
  }

  lemma QuotesUnderStops(body: string, open: string, name: string, close: string, stops: string)
    requires body == open + (name + (close + stops)) && Bare(name) && stops != ""
    requires (forall i | 0 <= i < |open| :: IsQuote(open[i])) && (forall i | 0 <= i < |close| :: IsQuote(close[i]))
    requires forall i | 0 <= i < |stops| :: IsStop(stops[i])
    ensures Unquoted(body) == name + close && body != ""
  {
    var rest := name + close;
    Regroup(name, close, stops);
    assert body == open + (rest + stops);
    T.TrimStartSkips(open, rest + stops, IsQuote);
    assert (rest + stops)[0] == name[0];
    assert (rest + stops)[|rest + stops| - 1] == stops[|stops| - 1];
    T.TrimEndSkips(rest, stops, IsStop);
    assert rest[|rest| - 1] == if close == "" then name[|name| - 1] else close[|close| - 1];
  }

  /** But punctuation outside the quotes keeps the closing quotes on: quotes are stripped before
      punctuation. Such an answer is cleaned exactly if only spaces stand between. */
  lemma StopOutsideQuotes(t: Folding, body: string, open: string, name: string, close: string, stops: string)
    requires body == open + (name + (close + stops)) && T.IsTrimmed(body) && Bare(name) && stops != ""
        && !Labelled(t, body)
    requires (forall i | 0 <= i < |open| :: IsQuote(open[i])) && (forall i | 0 <= i < |close| :: IsQuote(close[i]))
    requires forall i | 0 <= i < |stops| :: IsStop(stops[i])
    ensures Cleaned(t, body) == name <==> forall i | 0 <= i < |close| :: close[i] == ' '
  {
    T.TrimmedBetween("", body, "");
    assert "" + body + "" == body;
    QuotesUnderStops(body, open, name, close, stops);
    TrimmedTail(name, close);
    NoneFound(T.TrimSpace(name + close), T.IsLineEnd);
  }

  lemma {:induction false} TrimIsInfix(s: string, cut: char -> bool)
    ensures forall c | c in T.TrimStart(s, cut) :: c in s
    ensures forall c | c in T.TrimEnd(s, cut) :: c in s
  {
    if s != "" {
      TrimIsInfix(s[1..], cut);
      TrimIsInfix(s[..|s| - 1], cut);
    }
  }

  /** Whatever the reply, what is left of it is a single line. */
  lemma CleanedIsOneLine(t: Folding, s: string)
    ensures forall c | c in Cleaned(t, s) :: !T.IsLineEnd(c)
  {
    var u := T.TrimSpace(Unquoted(Unlabelled(t, T.TrimSpace(s))));
    var i := FirstOf(u, T.IsLineEnd);
    if i < |u| {
      var a := u[..i];
      TrimIsInfix(a, T.IsSpace);
      TrimIsInfix(T.TrimStart(a, T.IsSpace), T.IsSpace);
      var b := T.TrimSpace(a);
      TrimIsInfix(b, IsQuote);
      TrimIsInfix(T.TrimStart(b, IsQuote), IsQuote);
      TrimIsInfix(T.Trim(b, IsQuote), IsStop);
    }
  }

  predicate OccursAt(s: string, part: string, i: int) {
    0 <= i <= |s| - |part| && s[i..i + |part|] == part
  }

  predicate Contains(s: string, part: string) {
    exists i | 0 <= i <= |s| - |part| :: OccursAt(s, part, i)
  }

  /** The reply mentions the skill. */
  predicate Mentions(t: Folding, reply: string, name: string) {
    name != "" && Contains(t.lower(reply), t.lower(name))
  }

  ghost predicate First(skills: seq<Skill>, i: nat, p: string -> bool) {
    i < |skills| && p(skills[i].name) && forall j | 0 <= j < i :: !p(skills[j].name)
  }

  /** Skill i is the longest one mentioned, and the first of that length. */
  ghost predicate LongestMention(t: Folding, reply: string, skills: seq<Skill>, i: nat) {
    && i < |skills| && Mentions(t, reply, skills[i].name)
    && (forall j | 0 <= j < |skills| && Mentions(t, reply, skills[j].name) ::
         Len(skills[j].name) <= Len(skills[i].name))
    && (forall j | 0 <= j < i && Mentions(t, reply, skills[j].name) :: Len(skills[j].name) < Len(skills[i].name))
  }

  /** What a cleaned reply means: exact before case-insensitive before longest mention. */
  ghost predicate Parses(t: Folding, reply: string, skills: seq<Skill>, d: Decision) {
    if reply == "" || t.equalFold(reply, "none") then d == NO_DECISION
    else if exists s | s in skills :: s.name == reply then d == Decision(reply, 1.0, 0.0, false)
    else if exists s | s in skills :: t.equalFold(reply, s.name) then
      exists i: nat :: First(skills, i, n => t.equalFold(reply, n)) && d == Decision(skills[i].name, 0.9, 0.0, false)
    else if exists s | s in skills :: Mentions(t, reply, s.name) then
      exists i: nat :: LongestMention(t, reply, skills, i) && d == Decision(skills[i].name, 0.7, 0.0, false)
    else d == NO_DECISION
  }

  method ParseSkill(t: Folding, raw: string, skills: seq<Skill>) returns (d: Decision)
    ensures Parses(t, Cleaned(t, raw), skills, d)
    ensures d.fellThrough || exists s | s in skills :: s.name == d.skill
  {
    var reply := CleanReply(t, raw);
    d := Match(t, reply, skills);
  }

  method Match(t: Folding, reply: string, skills: seq<Skill>) returns (d: Decision)
    ensures Parses(t, reply, skills, d)
    ensures d.fellThrough || exists s | s in skills :: s.name == d.skill
  {
    if reply == "" || t.equalFold(reply, "none") {
      return NO_DECISION;
    }
    var i := FirstNamed(skills, n => n == reply);
    if i < |skills| {
      assert skills[i] in skills;
      return Decision(skills[i].name, 1.0, 0.0, false);
    }
    i := FirstNamed(skills, n => t.equalFold(reply, n));
    if i < |skills| {
      assert skills[i] in skills;
      return Decision(skills[i].name, 0.9, 0.0, false);
    }
    i := FindMention(t, reply, skills);
    if i < |skills| {
      assert skills[i] in skills;
      return Decision(skills[i].name, 0.7, 0.0, false);
    }
    return NO_DECISION;
  }

  /** The first skill whose name satisfies p, or the number of skills. */
  method FirstNamed(skills: seq<Skill>, p: string -> bool) returns (i: nat)
    ensures i <= |skills| && (i < |skills| ==> First(skills, i, p))
    ensures i == |skills| ==> forall s | s in skills :: !p(s.name)
  {
    i := 0;
    while i < |skills| && !p(skills[i].name)
      invariant i <= |skills| && forall j | 0 <= j < i :: !p(skills[j].name)
    {
      i := i + 1;
    }
  }

  /** The longest skill mentioned, or the number of skills. */
  method FindMention(t: Folding, reply: string, skills: seq<Skill>) returns (at: nat)
    ensures at <= |skills| && (at < |skills| ==> LongestMention(t, reply, skills, at))
    ensures at == |skills| ==> forall s | s in skills :: !Mentions(t, reply, s.name)
  {
    var best := "";
    at := |skills|;
    for i := 0 to |skills|
      invariant forall j | 0 <= j < i && Mentions(t, reply, skills[j].name) :: Len(skills[j].name) <= Len(best)
      invariant best == "" ==> at == |skills|
      invariant best != "" ==>
                  && at < i && skills[at].name == best && Mentions(t, reply, best)
                  && forall j | 0 <= j < at && Mentions(t, reply, skills[j].name) :: Len(skills[j].name) < Len(best)
    {
      var name := skills[i].name;
      if name == "" {
        continue;
      }
      if Contains(t.lower(reply), t.lower(name)) && Len(name) > Len(best) {
        best, at := name, i;
      }
    }
  }

  /** The LLM behind the rerank: missing, unreachable, or answering with a reply. */
  datatype Llm = Absent | Failing | Answering(reply: string)

  datatype Cascade = Cascade(primary: Matcher, minMargin: real, shortlistK: nat)

  /** Resolves ranked names back to catalog entries, in the ranking's order. */
  method MakeShortlist(skills: seq<Skill>, ranked: seq<Ranked>) returns (out: seq<Skill>)
    requires forall r | r in ranked :: exists s | s in skills :: s.name == r.skill
    ensures |out| == |ranked|
    ensures forall i | 0 <= i < |out| :: out[i].name == ranked[i].skill && out[i] in skills
  {
    var byName: map<string, Skill> := map[];
    for i := 0 to |skills|
      invariant forall j | 0 <= j < i :: skills[j].name in byName
      invariant forall n | n in byName :: byName[n].name == n && byName[n] in skills
    {
      byName := byName[skills[i].name := skills[i]];
    }
    out := [];
    for i := 0 to |ranked|
      invariant |out| == i
      invariant forall j | 0 <= j < i :: out[j].name == ranked[j].skill && out[j] in skills
    {
      assert ranked[i].skill in byName;
      if ranked[i].skill in byName {
        out := out + [byName[ranked[i].skill]];
      }
    }
  }

  /** The embedding side's own verdict on the top of the ranking. */
  function OwnVerdict(c: Cascade, prompt: string): Decision
    requires c.primary.Valid() && Ranking(c.primary, prompt, c.shortlistK).Some?
    requires |Ranking(c.primary, prompt, c.shortlistK).value| > 0
  {
    Verdict(Ranking(c.primary, prompt, c.shortlistK).value, c.primary.minScore)
  }

  lemma ShortlistIsPrefix(c: Cascade, prompt: string)
    requires c.primary.Valid() && Ranking(c.primary, prompt, 0).Some?
    ensures var full := Ranking(c.primary, prompt, 0).value;
            && Ranking(c.primary, prompt, c.shortlistK)
               == Some(if 0 < c.shortlistK < |full| then full[..c.shortlistK] else full)
            && |full| == |c.primary.skills|
            && (forall r | r in full :: exists s | s in c.primary.skills :: s.name == r.skill)
            && (forall r | r in Ranking(c.primary, prompt, c.shortlistK).value :: r in full)
  {
    var q := c.primary.embed(prompt).value;
    FullIsRanking(c.primary, q);
    var scored := Scored(c.primary, q);
    forall r | r in Full(c.primary, q) ensures exists s | s in c.primary.skills :: s.name == r.skill {
      assert r in multiset(Full(c.primary, q)) && r in multiset(scored);
      var i :| 0 <= i < |scored| && scored[i] == r;
      assert c.primary.skills[i].name == r.skill && c.primary.skills[i] in c.primary.skills;
    }
  }

  /** The LLM is asked only above the threshold and below the margin, if there is one. */
  predicate Consults(c: Cascade, own: Decision, llm: Llm) {
    !own.fellThrough && own.margin < c.minMargin && !llm.Absent?
  }

  /** Which prompts are taken to the second stage, in scores: those whose top entry reaches the threshold
      with a lead below the configured margin; a lone entry has no lead. */
  lemma ConsultsIff(c: Cascade, prompt: string, llm: Llm)
    requires c.primary.Valid() && Ranking(c.primary, prompt, c.shortlistK).Some?
    requires |Ranking(c.primary, prompt, c.shortlistK).value| > 0
    ensures var ranked := Ranking(c.primary, prompt, c.shortlistK).value;
            Consults(c, OwnVerdict(c, prompt), llm) <==>
              && !llm.Absent? && ranked[0].score >= c.primary.minScore
              && if |ranked| == 1 then c.minMargin > 0.0 else ranked[1].score + c.minMargin > ranked[0].score
  {
  }

  /** d is what the reply means for the ranked names, with the embedding side's margin. */
  ghost predicate Reranked(t: Folding, reply: string, ranked: seq<Ranked>, own: Decision, d: Decision) {
    exists shortlist: seq<Skill>, parsed: Decision ::
      && |shortlist| == |ranked|
      && (forall i | 0 <= i < |ranked| :: shortlist[i].name == ranked[i].skill)
      && Parses(t, Cleaned(t, reply), shortlist, parsed)
      && d == if parsed.fellThrough then parsed else parsed.(margin := own.margin)
  }

  method Route(c: Cascade, prompt: string, llm: Llm, t: Folding) returns (r: Result)
    requires c.primary.Valid()
    ensures r.Error? <==> Ranking(c.primary, prompt, 0).None?
    ensures r.Decided? ==>
              && Ranking(c.primary, prompt, c.shortlistK).Some?
              && |Ranking(c.primary, prompt, c.shortlistK).value| > 0
              && var own := OwnVerdict(c, prompt);
              && (!(Consults(c, own, llm) && llm.Answering?) ==> r.d == own)
              && (Consults(c, own, llm) && llm.Answering? ==>
                    && Reranked(t, llm.reply, Ranking(c.primary, prompt, c.shortlistK).value, own, r.d)
                    && (r.d.fellThrough || exists x | x in Ranking(c.primary, prompt, c.shortlistK).value ::
                         x.skill == r.d.skill))
  {
    var ranking := Rank(c.primary, prompt, c.shortlistK);
    if ranking.None? {
      return Error;
    }
    ShortlistIsPrefix(c, prompt);
    var ranked := ranking.value;
    if |ranked| == 0 {
      return Decided(NO_DECISION);
    }
    var top := ranked[0];
    var margin := 0.0;
    if |ranked| > 1 {
      margin := top.score - ranked[1].score;
    }
    if top.score < c.primary.minScore {
      return Decided(Decision("", top.score, margin, true));
    }
    if margin >= c.minMargin || llm.Absent? {
      return Decided(Decision(top.skill, top.score, margin, false));
    }
    var shortlist := MakeShortlist(c.primary.skills, ranked);
    if llm.Failing? {
      return Decided(Decision(top.skill, top.score, margin, false));
    }
    var d := Rerank(t, llm.reply, shortlist, ranked, Decision(top.skill, top.score, margin, false));
    return Decided(d);
  }

  /** What a reply makes of the shortlist. */
  method Rerank(t: Folding, reply: string, shortlist: seq<Skill>, ghost ranked: seq<Ranked>, own: Decision)
    returns (d: Decision)
    requires |shortlist| == |ranked| && forall i | 0 <= i < |ranked| :: shortlist[i].name == ranked[i].skill
    ensures Reranked(t, reply, ranked, own, d)
    ensures d.fellThrough || exists x | x in ranked :: x.skill == d.skill
  {
    d := ParseSkill(t, reply, shortlist);
    if !d.fellThrough {
      var s :| s in shortlist && s.name == d.skill;
      var i :| 0 <= i < |shortlist| && shortlist[i] == s;
      assert ranked[i] in ranked && ranked[i].skill == d.skill;
    }
    if !d.fellThrough && d.margin == 0.0 {
      d := d.(margin := own.margin);
    }
  }

  /** With no LLM to ask, the cascade decides what its primary alone would, for every prompt
      and catalog, unless its shortlist is a single entry of a larger catalog whose top two
      differ: then it sees no runner-up, and reports no margin. */
  lemma CascadeRefinesPrimary(c: Cascade, prompt: string)
    requires c.primary.Valid() && Ranking(c.primary, prompt, 0).Some?
    ensures var full := Ranking(c.primary, prompt, 0).value;
            var cut := Ranking(c.primary, prompt, c.shortlistK);
            && |full| > 0 && cut.Some? && |cut.value| > 0
            && (OwnVerdict(c, prompt) == Verdict(full, c.primary.minScore)
                <==> c.shortlistK != 1 || |full| == 1 || full[0].score == full[1].score)
  {
    ShortlistIsPrefix(c, prompt);
  }
}
