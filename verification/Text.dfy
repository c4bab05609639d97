/** White space and trimming, as Go's strings and unicode packages define them. */
module Text {
  import opened Common

  /** The code points of the Unicode property White_Space. */
  predicate IsSpace(c: char) {
    var u := c as int;
    || 9 <= u <= 13 || u == 32 || u == 0x85 || u == 0xA0 || u == 0x1680
    || 0x2000 <= u <= 0x200A || u == 0x2028 || u == 0x2029 || u == 0x202F || u == 0x205F || u == 0x3000
  }

  predicate IsLineEnd(c: char) {
    c == '\r' || c == '\n'
  }

  /** s without the characters of the class at its start. */
  function TrimStart(s: string, cut: char -> bool): string {
    if s != "" && cut(s[0]) then TrimStart(s[1..], cut) else s
  }

  /** s without the characters of the class at its end. */
  function TrimEnd(s: string, cut: char -> bool): string {
    if s != "" && cut(s[|s| - 1]) then TrimEnd(s[..|s| - 1], cut) else s
  }

  function Trim(s: string, cut: char -> bool): string {
    TrimEnd(TrimStart(s, cut), cut)
  }

  /** A line without trailing carriage returns and newlines. */
  function WithoutLineEnd(line: string): string {
    TrimEnd(line, IsLineEnd)
  }

  function TrimLeft(s: string): string {
    TrimStart(s, IsSpace)
  }

  function TrimRight(s: string): string {
    TrimEnd(s, IsSpace)
  }

  function TrimSpace(s: string): string {
    TrimRight(TrimLeft(s))
  }

  predicate AllSpace(s: string) {
    forall i | 0 <= i < |s| :: IsSpace(s[i])
  }

  /** No white space at either end. */
  predicate IsTrimmed(s: string) {
    s == "" || (!IsSpace(s[0]) && !IsSpace(s[|s| - 1]))
  }

  lemma {:induction false} TrimLeftSplits(s: string) returns (left: string)
    ensures s == left + TrimLeft(s) && AllSpace(left)
    ensures TrimLeft(s) == "" || !IsSpace(TrimLeft(s)[0])
  {
    left := "";
    if s != "" && IsSpace(s[0]) {
      var l := TrimLeftSplits(s[1..]);
      left := [s[0]] + l;
    }
  }

  lemma {:induction false} TrimRightSplits(s: string) returns (right: string)
    ensures s == TrimRight(s) + right && AllSpace(right)
    ensures TrimRight(s) == "" || !IsSpace(TrimRight(s)[|TrimRight(s)| - 1])
  {
    right := "";
    var m := |s| - 1;
    if s != "" && IsSpace(s[m]) {
      var r := TrimRightSplits(s[..m]);
      right := r + [s[m]];
    }
  }

  /** Trimming cuts white space off both ends, all of it and nothing else. */
  lemma TrimSplits(s: string) returns (left: string, right: string)
    ensures s == left + TrimSpace(s) + right && AllSpace(left) && AllSpace(right)
    ensures IsTrimmed(TrimSpace(s))
  {
    left := TrimLeftSplits(s);
    right := TrimRightSplits(TrimLeft(s));
    var t, u := TrimLeft(s), TrimSpace(s);
    if u != "" {
      assert (u + right)[0] == u[0];
    }
    Regroup(left, u, right);
  }

  lemma {:induction false} TrimLeftSkips(left: string, s: string)
    requires AllSpace(left)
    ensures TrimLeft(left + s) == TrimLeft(s)
  {
    if left == "" {
      assert left + s == s;
    } else {
      TrimLeftSkips(left[1..], s);
      assert (left + s)[1..] == left[1..] + s;
    }
  }

  /** A text without white space at its ends is what is left of it between any. */
  lemma TrimmedIsFixed(left: string, s: string)
    requires AllSpace(left) && IsTrimmed(s)
    ensures TrimSpace(left + s) == s
  {
    TrimLeftSkips(left, s);
  }

  lemma {:induction false} TrimStartSkips(left: string, s: string, cut: char -> bool)
    requires forall i | 0 <= i < |left| :: cut(left[i])
    ensures TrimStart(left + s, cut) == TrimStart(s, cut)
  {
    if left == "" {
      assert left + s == s;
    } else {
      assert (left + s)[1..] == left[1..] + s;
      TrimStartSkips(left[1..], s, cut);
    }
  }

  lemma {:induction false} TrimEndSkips(s: string, right: string, cut: char -> bool)
    requires forall i | 0 <= i < |right| :: cut(right[i])
    ensures TrimEnd(s + right, cut) == TrimEnd(s, cut)
  {
    if right == "" {
      assert s + right == s;
    } else {
      var n := |right| - 1;
      assert (s + right)[..|s + right| - 1] == s + right[..n];
      TrimEndSkips(s, right[..n], cut);
    }
  }

  lemma TrimmedBetween(left: string, s: string, right: string)
    requires AllSpace(left) && AllSpace(right) && IsTrimmed(s) && s != ""
    ensures TrimSpace(left + s + right) == s
  {
    Regroup(left, s, right);
    TrimStartSkips(left, s + right, IsSpace);
    assert (s + right)[0] == s[0];
    TrimEndSkips(s, right, IsSpace);
  }

  function Closed(open: string): seq<string> {
    if open == "" then [] else [open]
  }

  /** The words of s, the first of them begun by what is open. */
  function WordsFrom(s: string, open: string): seq<string> {
    if s == "" then Closed(open)
    else if IsSpace(s[0]) then Closed(open) + WordsFrom(s[1..], "")
    else WordsFrom(s[1..], open + [s[0]])
  }

  /** The maximal pieces of s without white space, in order. */
  function Words(s: string): seq<string> {
    WordsFrom(s, "")
  }

  /** Any white space between words is as good as any other. */
  lemma {:induction false} SpaceCloses(w: string, t: string, open: string)
    requires AllSpace(w) && w != ""
    ensures WordsFrom(w + t, open) == Closed(open) + WordsFrom(t, "")
  {
    assert (w + t)[1..] == w[1..] + t;
    if |w| == 1 {
      assert w[1..] + t == t;
    } else {
      SpaceCloses(w[1..], t, "");
    }
  }

  lemma {:induction false} TrailingSpace(s: string, right: string, open: string)
    requires AllSpace(right)
    ensures WordsFrom(s + right, open) == WordsFrom(s, open)
  {
    if s == "" {
      assert s + right == right;
      if right != "" {
        SpaceCloses(right, "", open);
        assert right + "" == right;
      }
    } else {
      assert (s + right)[1..] == s[1..] + right;
      TrailingSpace(s[1..], right, if IsSpace(s[0]) then "" else open + [s[0]]);
    }
  }

  lemma TrimKeepsWords(s: string)
    ensures Words(TrimSpace(s)) == Words(s)
  {
    var left, right := TrimSplits(s);
    TrailingSpace(left + TrimSpace(s), right, "");
    if left == "" {
      assert left + TrimSpace(s) == TrimSpace(s);
    } else {
      SpaceCloses(left, TrimSpace(s), "");
    }
  }

  // ---------------------------------------------------------------------------------
  // UTF-8, as in RFC 3629, section 3.

  type byte = x: int | 0 <= x < 256

  function Utf8Of(c: char): (b: seq<byte>)
    ensures 1 <= |b| <= 4 && (c as int < 0x80 ==> |b| == 1)
  {
    var u := c as int;
    if u < 0x80 then [u]
    else if u < 0x800 then [0xC0 + u / 0x40, 0x80 + u % 0x40]
    else if u < 0x1_0000 then [0xE0 + u / 0x1000, 0x80 + u / 0x40 % 0x40, 0x80 + u % 0x40]
    else [0xF0 + u / 0x4_0000, 0x80 + u / 0x1000 % 0x40, 0x80 + u / 0x40 % 0x40, 0x80 + u % 0x40]
  }

  function Utf8(s: string): seq<byte> {
    if s == "" then [] else Utf8Of(s[0]) + Utf8(s[1..])
  }

  lemma {:induction false} Utf8Append(s: string, t: string)
    ensures Utf8(s + t) == Utf8(s) + Utf8(t)
  {
    if s == "" {
      assert s + t == t;
    } else {
      Utf8Append(s[1..], t);
      assert (s + t)[1..] == s[1..] + t;
      Regroup(Utf8Of(s[0]), Utf8(s[1..]), Utf8(t));
    }
  }
}
