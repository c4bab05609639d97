/** The WordPiece tokenizer: vocabulary loading, word splitting, greedy longest matching and
    fixed-length encoding, and the decoding that undoes them. */
module Tokenizer {
  import opened Common
  import opened Text

  /** The character classes and the normalisation (lower-casing and accent stripping) of the
      Unicode tables, as given functions. */
  datatype Unicode = Unicode(isSpace: char -> bool, isPunctuation: char -> bool, normal: string -> string)

  datatype Config = Config(maxLen: int, lowerCase: bool, cls: string, sep: string, pad: string, unk: string)

  type Vocab = map<string, nat>

  datatype Tokenizer = Tokenizer(cfg: Config, vocab: Vocab, cls: nat, sep: nat, pad: nat, unk: nat)

  // ---------------------------------------------------------------------------------
  // Loading.

  /** Every token of the file, at the number of the first line that holds it. */
  ghost predicate IsVocab(vocab: Vocab, lines: seq<string>) {
    && (forall i | 0 <= i < |lines| :: WithoutLineEnd(lines[i]) in vocab)
    && (forall t | t in vocab ::
          && vocab[t] < |lines| && WithoutLineEnd(lines[vocab[t]]) == t
          && forall k | 0 <= k < vocab[t] :: WithoutLineEnd(lines[k]) != t)
  }

  predicate OnALine(lines: seq<string>, token: string) {
    exists i | 0 <= i < |lines| :: WithoutLineEnd(lines[i]) == token
  }

  lemma VocabGrows(vocab: Vocab, lines: seq<string>, line: string)
    requires IsVocab(vocab, lines)
    ensures var token := WithoutLineEnd(line);
            IsVocab(if token in vocab then vocab else vocab[token := |lines|], lines + [line])
  {
    var all := lines + [line];
    assert forall k | 0 <= k < |lines| :: all[k] == lines[k];
    assert all[|lines|] == line;
  }

  method ReadVocab(lines: seq<string>) returns (vocab: Vocab)
    ensures IsVocab(vocab, lines)
  {
    vocab := map[];
    for idx := 0 to |lines|
      invariant IsVocab(vocab, lines[..idx])
    {
      var token := WithoutLineEnd(lines[idx]);
      VocabGrows(vocab, lines[..idx], lines[idx]);
      assert lines[..idx + 1] == lines[..idx] + [lines[idx]];
      if token !in vocab {
        vocab := vocab[token := idx];
      }
    }
    assert lines[..|lines|] == lines;
  }

  /** A tokenizer, or an error if the file lacks one of the four special tokens. */
  method Load(cfg: Config, lines: seq<string>) returns (r: Option<Tokenizer>)
    ensures r.Some? <==> forall token | token in [cfg.cls, cfg.sep, cfg.pad, cfg.unk] :: OnALine(lines, token)
    ensures r.Some? ==>
              var t := r.value;
              && t.cfg == cfg && IsVocab(t.vocab, lines)
              && cfg.cls in t.vocab && t.cls == t.vocab[cfg.cls] && cfg.sep in t.vocab && t.sep == t.vocab[cfg.sep]
              && cfg.pad in t.vocab && t.pad == t.vocab[cfg.pad] && cfg.unk in t.vocab && t.unk == t.vocab[cfg.unk]
  {
    var vocab := ReadVocab(lines);
    assert forall s :: s in vocab <==> OnALine(lines, s);
    if cfg.cls !in vocab || cfg.sep !in vocab || cfg.pad !in vocab || cfg.unk !in vocab {
      return None;
    }
    return Some(Tokenizer(cfg, vocab, vocab[cfg.cls], vocab[cfg.sep], vocab[cfg.pad], vocab[cfg.unk]));
  }

  /** A maximum length that is not positive is repaired before loading; so of the configured
      ones exactly 1 is left too short for the markers. */
  method LoadTokenizer(cfg: Config, lines: seq<string>) returns (r: Option<Tokenizer>)
    ensures r.Some? <==> forall token | token in [cfg.cls, cfg.sep, cfg.pad, cfg.unk] :: OnALine(lines, token)
    ensures r.Some? ==> IsVocab(r.value.vocab, lines) && r.value.cfg == cfg.(maxLen := r.value.cfg.maxLen)
    ensures r.Some? ==> r.value.cfg.maxLen > 0 && (cfg.maxLen > 0 ==> r.value.cfg.maxLen == cfg.maxLen)
    ensures r.Some? ==> (r.value.cfg.maxLen < 2 <==> cfg.maxLen == 1)
  {
    var repaired := cfg;
    if repaired.maxLen <= 0 {
      repaired := repaired.(maxLen := 128);
    }
    r := Load(repaired, lines);
  }

  /** Different tokens have different ids, whatever the file repeats. */
  lemma IdsAreInjective(vocab: Vocab, lines: seq<string>, s: string, t: string)
    requires IsVocab(vocab, lines) && s in vocab && t in vocab && vocab[s] == vocab[t]
    ensures s == t
  {
  }

  // ---------------------------------------------------------------------------------
  // Splitting.

  predicate IsPunct(u: Unicode, c: char) {
    u.isPunctuation(c)
    || 33 <= c as int <= 47 || 58 <= c as int <= 64 || 91 <= c as int <= 96 || 123 <= c as int <= 126
  }

  /** The ASCII punctuation marks, in their order. */
  const MARKS := "!\"#$%&'()*+,-./:;<=>?@[\\]^_`{|}~"

  predicate InRanges(marks: string) {
    |marks| == 32 && forall i | 0 <= i < 32 ::
      marks[i] as int == if i < 15 then i + 33 else if i < 22 then i + 43 else if i < 28 then i + 69 else i + 95
  }

  lemma RangesHold(u: Unicode, c: char, marks: string)
    requires InRanges(marks)
    ensures IsPunct(u, c) <==> c in marks || u.isPunctuation(c)
  {
    var code := c as int;
    var i := if code < 58 then code - 33 else if code < 91 then code - 43
             else if code < 123 then code - 69 else code - 95;
    assert 0 <= i < 32 && marks[i] == c ==> c in marks;
  }

  /** They stand alone whatever the Unicode tables say, and no other character does unless these do. */
  lemma AsciiPunctuation(u: Unicode, c: char)
    ensures IsPunct(u, c) <==> c in MARKS || u.isPunctuation(c)
  {
    assert InRanges(MARKS);
    RangesHold(u, c, MARKS);
  }

  predicate IsPlain(u: Unicode, c: char) {
    !u.isSpace(c) && !IsPunct(u, c)
  }

  predicate AllPlain(u: Unicode, w: string) {
    forall i | 0 <= i < |w| :: IsPlain(u, w[i])
  }

  function Flush(cur: string): seq<string> {
    if cur == "" then [] else [cur]
  }

  /** The words of text, when cur has been gathered so far. */
  function SplitFrom(u: Unicode, cur: string, text: string): seq<string>
    decreases |text|
  {
    if text == "" then Flush(cur)
    else if u.isSpace(text[0]) then Flush(cur) + SplitFrom(u, "", text[1..])
    else if IsPunct(u, text[0]) then Flush(cur) + [[text[0]]] + SplitFrom(u, "", text[1..])
    else SplitFrom(u, cur + [text[0]], text[1..])
  }

  function Split(u: Unicode, text: string): seq<string> {
    SplitFrom(u, "", text)
  }

  method SplitBasic(u: Unicode, text: string) returns (out: seq<string>)
    ensures out == Split(u, text)
  {
    out := [];
    var cur := "";
    for i := 0 to |text|
      invariant out + SplitFrom(u, cur, text[i..]) == Split(u, text)
    {
      var r := text[i];
      assert text[i..][0] == r && text[i..][1..] == text[i + 1..];
      if u.isSpace(r) {
        if |cur| > 0 {
          out := out + [cur];
          cur := "";
        }
      } else if IsPunct(u, r) {
        if |cur| > 0 {
          out := out + [cur];
          cur := "";
        }
        out := out + [[r]];
      } else {
        cur := cur + [r];
      }
    }
    if |cur| > 0 {
      out := out + [cur];
    }
  }

  function Flat(words: seq<string>): string {
    if words == [] then "" else words[0] + Flat(words[1..])
  }

  function NoSpaces(u: Unicode, text: string): string {
    if text == "" then ""
    else (if u.isSpace(text[0]) then "" else [text[0]]) + NoSpaces(u, text[1..])
  }

  lemma {:induction false} FlatAppend(a: seq<string>, b: seq<string>)
    ensures Flat(a + b) == Flat(a) + Flat(b)
  {
    if a == [] {
      assert a + b == b;
    } else {
      FlatAppend(a[1..], b);
      assert (a + b)[1..] == a[1..] + b;
      Regroup(a[0], Flat(a[1..]), Flat(b));
    }
  }

  lemma FlatOne(w: string)
    ensures Flat([w]) == w && Flat(Flush(w)) == w
  {
    assert [w][1..] == [];
    assert w + "" == w;
  }

  lemma {:induction false} SplitFromKeepsText(u: Unicode, cur: string, text: string)
    ensures Flat(SplitFrom(u, cur, text)) == cur + NoSpaces(u, text)
    decreases |text|
  {
    FlatOne(cur);
    if text != "" {
      var c, rest := text[0], text[1..];
      FlatOne([c]);
      if u.isSpace(c) {
        SplitFromKeepsText(u, "", rest);
        FlatAppend(Flush(cur), Split(u, rest));
      } else if IsPunct(u, c) {
        SplitFromKeepsText(u, "", rest);
        FlatAppend(Flush(cur) + [[c]], Split(u, rest));
        FlatAppend(Flush(cur), [[c]]);
      } else {
        SplitFromKeepsText(u, cur + [c], rest);
      }
    }
  }

  predicate IsWord(u: Unicode, w: string) {
    w != "" && (AllPlain(u, w) || (|w| == 1 && !u.isSpace(w[0]) && IsPunct(u, w[0])))
  }

  lemma {:induction false} SplitFromWords(u: Unicode, cur: string, text: string)
    requires AllPlain(u, cur)
    ensures forall w | w in SplitFrom(u, cur, text) :: IsWord(u, w)
    decreases |text|
  {
    if text != "" {
      SplitFromWords(u, if IsPlain(u, text[0]) then cur + [text[0]] else "", text[1..]);
    }
  }

  lemma {:induction false} SplitFromCut(u: Unicode, cur: string, a: string, c: char, b: string)
    requires u.isSpace(c) || IsPunct(u, c)
    ensures SplitFrom(u, cur, a + [c] + b)
            == SplitFrom(u, cur, a) + (if u.isSpace(c) then [] else [[c]]) + Split(u, b)
    decreases |a|
  {
    var text := a + [c] + b;
    if a == "" {
      assert text[0] == c && text[1..] == b;
    } else {
      assert text[0] == a[0] && text[1..] == a[1..] + [c] + b;
      SplitFromCut(u, if IsPlain(u, a[0]) then cur + [a[0]] else "", a[1..], c, b);
    }
  }

  lemma {:induction false} SplitFromPlain(u: Unicode, cur: string, w: string)
    requires AllPlain(u, w)
    ensures SplitFrom(u, cur, w) == Flush(cur + w)
    decreases |w|
  {
    if w == "" {
      assert cur + w == cur;
    } else {
      SplitFromPlain(u, cur + [w[0]], w[1..]);
      assert cur + [w[0]] + w[1..] == cur + w;
    }
  }

  /** Splitting is determined by this: a plain text is one word, a space separates, and a
      punctuation rune is a word of its own. Nothing but the spaces is lost. */
  lemma SplitIsBasic(u: Unicode, a: string, c: char, b: string)
    ensures AllPlain(u, a) ==> Split(u, a) == if a == "" then [] else [a]
    ensures !IsPlain(u, c) ==>
              Split(u, a + [c] + b) == Split(u, a) + (if u.isSpace(c) then [] else [[c]]) + Split(u, b)
    ensures Flat(Split(u, a)) == NoSpaces(u, a)
    ensures forall w | w in Split(u, a) :: IsWord(u, w)
  {
    if AllPlain(u, a) {
      SplitFromPlain(u, "", a);
      assert "" + a == a;
    }
    if !IsPlain(u, c) { SplitFromCut(u, "", a, c, b); }
    SplitFromKeepsText(u, "", a);
    SplitFromWords(u, "", a);
  }

  // ---------------------------------------------------------------------------------
  // Matching.

  const MAX_RUNES: nat := 100

  /** The vocabulary form of word[start..end]. */
  function Piece(word: string, start: nat, end: nat): string
    requires start <= end <= |word|
  {
    (if start > 0 then "##" else "") + word[start..end]
  }

  /** The end of the longest match at start that is no longer than `end`, or start. */
  function LongestEnd(vocab: Vocab, word: string, start: nat, end: nat): (e: nat)
    requires start <= end <= |word|
    ensures start <= e <= end
  {
    if end == start then start
    else if Piece(word, start, end) in vocab then end
    else LongestEnd(vocab, word, start, end - 1)
  }

  /** The ends of the greedy pieces from start on, or nothing if some position has no match. */
  function Greedy(vocab: Vocab, word: string, start: nat): Option<seq<nat>>
    requires start <= |word|
    decreases |word| - start
  {
    if start == |word| then Some([])
    else
      var e := LongestEnd(vocab, word, start, |word|);
      if e == start then None
      else
        var rest := Greedy(vocab, word, e);
        if rest.None? then None else Some([e] + rest.value)
  }

  /** The pieces that end at the given ends, the first starting at start, are all there. */
  ghost predicate Covers(vocab: Vocab, word: string, start: nat, ends: seq<nat>)
    decreases |ends|
  {
    if ends == [] then start == |word|
    else start < ends[0] <= |word| && Piece(word, start, ends[0]) in vocab && Covers(vocab, word, ends[0], ends[1..])
  }

  function Ids(vocab: Vocab, word: string, start: nat, ends: seq<nat>): seq<nat>
    requires Covers(vocab, word, start, ends)
    decreases |ends|
  {
    if ends == [] then [] else [vocab[Piece(word, start, ends[0])]] + Ids(vocab, word, ends[0], ends[1..])
  }

  lemma {:induction false} LongestEndIsLongest(vocab: Vocab, word: string, start: nat, end: nat)
    requires start <= end <= |word|
    ensures var e := LongestEnd(vocab, word, start, end);
            && (e > start ==> Piece(word, start, e) in vocab)
            && forall x | e < x <= end :: Piece(word, start, x) !in vocab
  {
    if end > start && Piece(word, start, end) !in vocab { LongestEndIsLongest(vocab, word, start, end - 1); }
  }

  /** Each piece is the longest vocabulary match at its position. */
  ghost predicate AllLongest(vocab: Vocab, word: string, start: nat, ends: seq<nat>)
    decreases |ends|
  {
    ends != [] ==>
      && start < ends[0] <= |word|
      && (forall x | ends[0] < x <= |word| :: Piece(word, start, x) !in vocab)
      && AllLongest(vocab, word, ends[0], ends[1..])
  }

  lemma {:induction false} GreedyCovers(vocab: Vocab, word: string, start: nat)
    requires start <= |word|
    ensures var g := Greedy(vocab, word, start);
            g.Some? ==> Covers(vocab, word, start, g.value) && AllLongest(vocab, word, start, g.value)
    decreases |word| - start
  {
    if start < |word| {
      LongestEndIsLongest(vocab, word, start, |word|);
      var e := LongestEnd(vocab, word, start, |word|);
      if e > start { GreedyCovers(vocab, word, e); }
    }
  }

  /** Known words are those that are short enough and that greedy matching gets through. */
  predicate Known(vocab: Vocab, word: string) {
    |word| <= MAX_RUNES && Greedy(vocab, word, 0).Some?
  }

  function WordIds(vocab: Vocab, unk: nat, word: string): seq<nat> {
    if word == "" then []
    else if !Known(vocab, word) then [unk]
    else
      GreedyCovers(vocab, word, 0);
      Ids(vocab, word, 0, Greedy(vocab, word, 0).value)
  }

  lemma IdsStep(vocab: Vocab, word: string, start: nat)
    requires start < |word| && Greedy(vocab, word, start).Some?
    ensures var g, e := Greedy(vocab, word, start).value, LongestEnd(vocab, word, start, |word|);
            && e > start && Piece(word, start, e) in vocab && Greedy(vocab, word, e).Some?
            && g == [e] + Greedy(vocab, word, e).value
            && Covers(vocab, word, start, g) && Covers(vocab, word, e, Greedy(vocab, word, e).value)
            && Ids(vocab, word, start, g)
                 == [vocab[Piece(word, start, e)]] + Ids(vocab, word, e, Greedy(vocab, word, e).value)
  {
    GreedyCovers(vocab, word, start);
    LongestEndIsLongest(vocab, word, start, |word|);
    var e := LongestEnd(vocab, word, start, |word|);
    GreedyCovers(vocab, word, e);
    var g := Greedy(vocab, word, start).value;
    assert g[1..] == Greedy(vocab, word, e).value;
  }

  method WordPiece(vocab: Vocab, unk: nat, word: string) returns (out: seq<nat>)
    ensures out == WordIds(vocab, unk, word)
  {
    if word == "" {
      return [];
    }
    if |word| > MAX_RUNES {
      return [unk];
    }
    out := [];
    var start := 0;
    GreedyCovers(vocab, word, 0);
    while start < |word|
      invariant 0 <= start <= |word|
      invariant Greedy(vocab, word, 0).Some? <==> Greedy(vocab, word, start).Some?
      invariant Greedy(vocab, word, start).Some? ==>
                  && Covers(vocab, word, start, Greedy(vocab, word, start).value)
                  && out + Ids(vocab, word, start, Greedy(vocab, word, start).value) == WordIds(vocab, unk, word)
    {
      var end := |word|;
      var matched := false;
      while end > start
        invariant start <= end <= |word|
        invariant LongestEnd(vocab, word, start, |word|) == LongestEnd(vocab, word, start, end)
      {
        if Piece(word, start, end) in vocab {
          matched := true;
          break;
        }
        end := end - 1;
      }
      if !matched {
        return [unk];
      }
      if Greedy(vocab, word, start).Some? { IdsStep(vocab, word, start); }
      out := out + [vocab[Piece(word, start, end)]];
      start := end;
    }
  }

  function BodyOf(vocab: Vocab, unk: nat, words: seq<string>): seq<nat> {
    if words == [] then [] else WordIds(vocab, unk, words[0]) + BodyOf(vocab, unk, words[1..])
  }

  function Normal(u: Unicode, t: Tokenizer, text: string): string {
    if t.cfg.lowerCase then u.normal(text) else text
  }

  function Body(u: Unicode, t: Tokenizer, text: string): seq<nat> {
    BodyOf(t.vocab, t.unk, Split(u, Normal(u, t, text)))
  }

  method Tokenize(u: Unicode, t: Tokenizer, text: string) returns (out: seq<nat>)
    ensures out == Body(u, t, text)
  {
    var words := SplitBasic(u, Normal(u, t, text));
    out := [];
    for i := 0 to |words|
      invariant out + BodyOf(t.vocab, t.unk, words[i..]) == Body(u, t, text)
    {
      var ids := WordPiece(t.vocab, t.unk, words[i]);
      assert words[i..][0] == words[i] && words[i..][1..] == words[i + 1..];
      out := out + ids;
    }
  }

  // ---------------------------------------------------------------------------------
  // Encoding.

  /** How much of the body fits between the two markers. */
  function Fits(t: Tokenizer, body: seq<nat>): nat
    requires t.cfg.maxLen >= 2
  {
    if |body| > t.cfg.maxLen - 2 then t.cfg.maxLen - 2 else |body|
  }

  /** A maximum length below two leaves no room for the markers: the allocation or the slicing
      panics. */
  method Encode(u: Unicode, t: Tokenizer, text: string)
    returns (panics: bool, ids: array<nat>, mask: array<nat>, types: array<nat>)
    ensures panics <==> t.cfg.maxLen < 2
    ensures fresh(ids) && fresh(mask) && fresh(types)
    ensures !panics ==>
              var body := Body(u, t, text);
              var n := Fits(t, body);
              var padding := t.cfg.maxLen - 2 - n;
              && ids[..] == [t.cls] + body[..n] + [t.sep] + seq(padding, _ => t.pad)
              && mask[..] == seq(n + 2, _ => 1) + seq(padding, _ => 0)
              && types[..] == seq(t.cfg.maxLen, _ => 0)
  {
    var maxLen := t.cfg.maxLen;
    panics := maxLen < 0;
    if panics {
      ids, mask, types := new nat[0], new nat[0], new nat[0];
      return;
    }
    ids := new nat[maxLen](_ => 0);
    mask := new nat[maxLen](_ => 0);
    types := new nat[maxLen](_ => 0);
    var body := Tokenize(u, t, text);
    if |body| > maxLen - 2 {
      panics := maxLen - 2 < 0;
      if panics {
        return;
      }
      body := body[..maxLen - 2];
    }
    Fill(ids, mask, t, body);
  }

  /** Markers, body and padding, into arrays that hold zeros. */
  method Fill(ids: array<nat>, mask: array<nat>, t: Tokenizer, body: seq<nat>)
    requires ids != mask && |body| + 2 <= ids.Length == mask.Length
    requires forall k | 0 <= k < mask.Length :: mask[k] == 0
    modifies ids, mask
    ensures ids[..] == [t.cls] + body + [t.sep] + seq(ids.Length - 2 - |body|, _ => t.pad)
    ensures mask[..] == seq(|body| + 2, _ => 1) + seq(mask.Length - 2 - |body|, _ => 0)
  {
    ids[0] := t.cls;
    mask[0] := 1;
    CopyBody(ids, mask, body);
    ids[1 + |body|] := t.sep;
    mask[1 + |body|] := 1;
    Pad(ids, 1 + |body| + 1, t.pad);
  }

  /** The body, behind the first marker. */
  method CopyBody(ids: array<nat>, mask: array<nat>, body: seq<nat>)
    requires ids != mask && 1 + |body| < ids.Length == mask.Length
    modifies ids, mask
    ensures ids[..] == [old(ids[0])] + body + old(ids[1 + |body|..])
    ensures mask[..] == [old(mask[0])] + seq(|body|, _ => 1) + old(mask[1 + |body|..])
  {
    for i := 0 to |body|
      invariant ids[0] == old(ids[0]) && mask[0] == old(mask[0])
      invariant forall k | 1 <= k <= i :: ids[k] == body[k - 1] && mask[k] == 1
      invariant forall k | 1 + i <= k < ids.Length :: ids[k] == old(ids[k]) && mask[k] == old(mask[k])
    {
      ids[1 + i] := body[i];
      mask[1 + i] := 1;
    }
  }

  method Pad(ids: array<nat>, from: nat, pad: nat)
    requires from <= ids.Length
    modifies ids
    ensures ids[..] == old(ids[..from]) + seq(ids.Length - from, _ => pad)
  {
    for i := from to ids.Length
      invariant forall k | 0 <= k < from :: ids[k] == old(ids[k])
      invariant forall k | from <= k < i :: ids[k] == pad
    {
      ids[i] := pad;
    }
  }

  // ---------------------------------------------------------------------------------
  // Decoding.

  function Strip(token: string): string {
    if "##" <= token then token[2..] else token
  }

  /** The text of a list of ids, looked up in the vocabulary file. */
  function Decode(lines: seq<string>, ids: seq<nat>): string {
    if ids == [] then ""
    else Spelling(lines, ids[0]) + Decode(lines, ids[1..])
  }

  function Spelling(lines: seq<string>, id: nat): string {
    if id < |lines| then Strip(WithoutLineEnd(lines[id])) else ""
  }

  lemma {:induction false} DecodeAppend(lines: seq<string>, a: seq<nat>, b: seq<nat>)
    ensures Decode(lines, a + b) == Decode(lines, a) + Decode(lines, b)
  {
    if a == [] {
      assert a + b == b;
    } else {
      DecodeAppend(lines, a[1..], b);
      assert (a + b)[1..] == a[1..] + b;
      Regroup(Spelling(lines, a[0]), Decode(lines, a[1..]), Decode(lines, b));
    }
  }

  /** Only continuations carry the marker, as words do not contain its rune. */
  lemma StripPiece(word: string, start: nat, e: nat)
    requires start < e <= |word| && ('#' !in word || |word| == 1)
    ensures Strip(Piece(word, start, e)) == word[start..e]
  {
    var p := Piece(word, start, e);
    if start == 0 {
      assert p[0] == word[0] && word[0] in word;
    } else {
      assert p[2..] == word[start..e];
    }
  }

  lemma {:induction false} PiecesSpell(vocab: Vocab, lines: seq<string>, word: string, start: nat, ends: seq<nat>)
    requires IsVocab(vocab, lines) && start <= |word| && Covers(vocab, word, start, ends)
    requires '#' !in word || |word| == 1
    ensures Decode(lines, Ids(vocab, word, start, ends)) == word[start..]
    decreases |ends|
  {
    if ends != [] {
      var e := ends[0];
      PiecesSpell(vocab, lines, word, e, ends[1..]);
      PieceSpells(vocab, lines, word, start, e);
      DecodeCons(lines, vocab[Piece(word, start, e)], Ids(vocab, word, e, ends[1..]));
      assert word[start..e] + word[e..] == word[start..];
    }
  }

  lemma PieceSpells(vocab: Vocab, lines: seq<string>, word: string, start: nat, e: nat)
    requires IsVocab(vocab, lines) && start < e <= |word| && Piece(word, start, e) in vocab
    requires '#' !in word || |word| == 1
    ensures Spelling(lines, vocab[Piece(word, start, e)]) == word[start..e]
  {
    StripPiece(word, start, e);
  }

  lemma DecodeCons(lines: seq<string>, id: nat, ids: seq<nat>)
    ensures Decode(lines, [id] + ids) == Spelling(lines, id) + Decode(lines, ids)
  {
    assert ([id] + ids)[1..] == ids;
  }

  lemma {:induction false} WordsSpell(u: Unicode, vocab: Vocab, unk: nat, lines: seq<string>, words: seq<string>)
    requires IsVocab(vocab, lines)
    requires forall w | w in words :: IsWord(u, w) && Known(vocab, w)
    ensures Decode(lines, BodyOf(vocab, unk, words)) == Flat(words)
  {
    if words != [] {
      var w := words[0];
      assert w in words;
      WordsSpell(u, vocab, unk, lines, words[1..]);
      GreedyCovers(vocab, w, 0);
      assert '#' in w ==> IsPunct(u, '#');
      PiecesSpell(vocab, lines, w, 0, Greedy(vocab, w, 0).value);
      DecodeAppend(lines, WordIds(vocab, unk, w), BodyOf(vocab, unk, words[1..]));
    }
  }

  /** The round trip across loading, splitting, matching and encoding: when every word is known and the
      body fits, the ids between the markers spell the text without its spaces, normalised if the
      configuration asks for that. */
  lemma RoundTrip(u: Unicode, t: Tokenizer, lines: seq<string>, text: string, ids: seq<nat>)
    requires IsVocab(t.vocab, lines) && t.cfg.maxLen >= 2
    requires forall w | w in Split(u, Normal(u, t, text)) :: Known(t.vocab, w)
    requires |Body(u, t, text)| <= t.cfg.maxLen - 2
    requires var body := Body(u, t, text);
             ids == [t.cls] + body[..Fits(t, body)] + [t.sep] + seq(t.cfg.maxLen - 2 - Fits(t, body), _ => t.pad)
    ensures Decode(lines, ids[1..|Body(u, t, text)| + 1])
            == NoSpaces(u, if t.cfg.lowerCase then u.normal(text) else text)
  {
    var words, body := Split(u, Normal(u, t, text)), Body(u, t, text);
    SplitFromWords(u, "", Normal(u, t, text));
    SplitFromKeepsText(u, "", Normal(u, t, text));
    WordsSpell(u, t.vocab, t.unk, lines, words);
    assert ids[1..|body| + 1] == body;
  }

  // ---------------------------------------------------------------------------------
  // Unknown words.

  function RunePiece(word: string, i: nat): string
    requires i < |word|
  {
    Piece(word, i, i + 1)
  }

  lemma {:induction false} RunesMatch(vocab: Vocab, word: string, start: nat)
    requires start <= |word|
    requires forall i | start <= i < |word| :: RunePiece(word, i) in vocab
    ensures Greedy(vocab, word, start).Some?
    decreases |word| - start
  {
    if start < |word| {
      LongestEndIsLongest(vocab, word, start, |word|);
      var e := LongestEnd(vocab, word, start, |word|);
      assert RunePiece(word, start) == Piece(word, start, start + 1);
      RunesMatch(vocab, word, e);
    }
  }

  /** A word whose one-rune pieces are all in the vocabulary is known exactly if it has at most
      100 runes. */
  lemma RunesSuffice(vocab: Vocab, word: string)
    requires forall i | 0 <= i < |word| :: RunePiece(word, i) in vocab
    ensures Known(vocab, word) <==> |word| <= 100
  {
    RunesMatch(vocab, word, 0);
  }

  /** A word that no pieces make up is unknown ... */
  lemma UndecomposableIsUnknown(vocab: Vocab, unk: nat, word: string)
    requires word != "" && forall ends :: !Covers(vocab, word, 0, ends)
    ensures WordIds(vocab, unk, word) == [unk]
  {
    GreedyCovers(vocab, word, 0);
  }

  /** ... but so are some that pieces do make up: matching is greedy and never backs off. */
  lemma GreedyCanMissADecomposition()
    ensures var vocab: Vocab := map["ab" := 0, "a" := 1, "##bc" := 2];
            Covers(vocab, "abc", 0, [1, 3]) && !Known(vocab, "abc")
  {
    var vocab: Vocab := map["ab" := 0, "a" := 1, "##bc" := 2];
    var w := "abc";
    assert Piece(w, 0, 1) == "a" && Piece(w, 1, 3) == "##bc";
    assert Covers(vocab, w, 3, []);
    assert [1, 3][1..] == [3] && [3][1..] == [];
    assert Covers(vocab, w, 1, [3]);
    assert |Piece(w, 0, 3)| == 3 && Piece(w, 0, 2) == "ab";
    assert Piece(w, 2, 3) == "##c";
    assert LongestEnd(vocab, w, 0, 3) == LongestEnd(vocab, w, 0, 2) == 2;
    assert LongestEnd(vocab, w, 2, 3) == LongestEnd(vocab, w, 2, 2) == 2;
  }

  /** Greedy matching finds any decomposition into longest matches, so there is at most one. */
  lemma {:induction false} LongestIsGreedy(vocab: Vocab, word: string, start: nat, ends: seq<nat>)
    requires start <= |word| && Covers(vocab, word, start, ends) && AllLongest(vocab, word, start, ends)
    ensures Greedy(vocab, word, start) == Some(ends)
    decreases |ends|
  {
    if ends != [] {
      LongestEndIsLongest(vocab, word, start, |word|);
      assert LongestEnd(vocab, word, start, |word|) == ends[0];
      LongestIsGreedy(vocab, word, ends[0], ends[1..]);
      assert [ends[0]] + ends[1..] == ends;
    }
  }

  ghost predicate Decomposes(vocab: Vocab, word: string, start: nat) {
    exists ends :: Covers(vocab, word, start, ends)
  }

  ghost predicate ByLongest(vocab: Vocab, word: string, ends: seq<nat>) {
    Covers(vocab, word, 0, ends) && AllLongest(vocab, word, 0, ends)
  }

  /** Exactly the words that are short enough and decompose into longest matches are known. */
  lemma KnownIff(vocab: Vocab, word: string)
    ensures Known(vocab, word) <==> |word| <= MAX_RUNES && exists ends :: ByLongest(vocab, word, ends)
  {
    GreedyCovers(vocab, word, 0);
    var g := Greedy(vocab, word, 0);
    assert g.Some? ==> ByLongest(vocab, word, g.value);
    if ends :| ByLongest(vocab, word, ends) {
      LongestIsGreedy(vocab, word, 0, ends);
    }
  }

  /** Matching gets through wherever pieces do. */
  ghost predicate NeverMisses(vocab: Vocab) {
    forall word, start: nat | start <= |word| && Decomposes(vocab, word, start) :: Greedy(vocab, word, start).Some?
  }

  /** Taking the longest match never spoils what is left. */
  ghost predicate LongestIsSafe(vocab: Vocab) {
    forall word, start: nat | start < |word| && Decomposes(vocab, word, start) ::
      LongestEnd(vocab, word, start, |word|) > start
      && Decomposes(vocab, word, LongestEnd(vocab, word, start, |word|))
  }

  lemma {:induction false} SafeGetsThrough(vocab: Vocab, word: string, start: nat)
    requires LongestIsSafe(vocab) && start <= |word| && Decomposes(vocab, word, start)
    ensures Greedy(vocab, word, start).Some?
    decreases |word| - start
  {
    if start < |word| {
      SafeGetsThrough(vocab, word, LongestEnd(vocab, word, start, |word|));
    }
  }

  /** The vocabularies over which greedy matching is complete. */
  lemma GreedyIsCompleteIff(vocab: Vocab)
    ensures NeverMisses(vocab) <==> LongestIsSafe(vocab)
  {
    if NeverMisses(vocab) {
      forall word, start: nat | start < |word| && Decomposes(vocab, word, start)
        ensures LongestEnd(vocab, word, start, |word|) > start
                && Decomposes(vocab, word, LongestEnd(vocab, word, start, |word|))
      {
        var e := LongestEnd(vocab, word, start, |word|);
        assert Greedy(vocab, word, start).Some?;
        GreedyCovers(vocab, word, e);
        assert Covers(vocab, word, e, Greedy(vocab, word, e).value);
      }
    }
    if LongestIsSafe(vocab) {
      forall word, start: nat | start <= |word| && Decomposes(vocab, word, start)
        ensures Greedy(vocab, word, start).Some? {
        SafeGetsThrough(vocab, word, start);
      }
    }
  }
}
