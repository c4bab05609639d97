/** Reciprocal rank fusion of several matchers over one catalog. */
module Fused {
  import opened Common
  import opened StableSort
  import opened Semantic
  import Vectors

  /** One ranking's contribution to a skill, over the first n positions. */
  function Share(ranking: seq<Ranked>, k: real, skill: string, n: nat): real
    requires k > 0.0 && n <= |ranking|
  {
    if n == 0 then 0.0
    else Share(ranking, k, skill, n - 1) + if ranking[n - 1].skill == skill then 1.0 / (k + (n - 1) as real) else 0.0
  }

  /** The fused score: the sum over all rankings of 1 / (k + rank). */
  function Score(rankings: seq<seq<Ranked>>, k: real, skill: string): real
    requires k > 0.0
  {
    if rankings == [] then 0.0
    else
      var last := rankings[|rankings| - 1];
      Score(rankings[..|rankings| - 1], k, skill) + Share(last, k, skill, |last|)
  }

  predicate Named(ranking: seq<Ranked>, skill: string) {
    exists i | 0 <= i < |ranking| :: ranking[i].skill == skill
  }

  predicate NamedIn(rankings: seq<seq<Ranked>>, skill: string) {
    exists i | 0 <= i < |rankings| :: Named(rankings[i], skill)
  }

  datatype Entry = Entry(skill: string, score: real)

  function HighestFirst(): Entry -> real {
    (e: Entry) => -e.score
  }

  /** d is the top of the fused scores: nobody scores higher, and the margin is the distance to
      the best of the others, or zero if there are none. */
  ghost predicate IsTop(rankings: seq<seq<Ranked>>, k: real, d: Decision)
    requires k > 0.0
  {
    && !d.fellThrough && NamedIn(rankings, d.skill) && d.confidence == Score(rankings, k, d.skill)
    && (forall s | NamedIn(rankings, s) && s != d.skill :: Score(rankings, k, s) <= d.confidence - d.margin)
    && d.margin >= 0.0
    && if exists s :: NamedIn(rankings, s) && s != d.skill
       then exists s :: NamedIn(rankings, s) && s != d.skill && Score(rankings, k, s) == d.confidence - d.margin
       else d.margin == 0.0
  }

  /** Every matcher finds even its best skill below its own threshold. */
  ghost predicate AllUnviable(ms: seq<Matcher>, rankings: seq<seq<Ranked>>)
    requires |ms| == |rankings|
  {
    forall i | 0 <= i < |ms| :: rankings[i] == [] || rankings[i][0].score < ms[i].minScore
  }

  /** Adds up the shares of all rankings, skill by skill. */
  method Accumulate(rankings: seq<seq<Ranked>>, k: real) returns (fused: map<string, real>)
    requires k > 0.0
    ensures forall s :: s in fused <==> NamedIn(rankings, s)
    ensures forall s | s in fused :: fused[s] == Score(rankings, k, s)
  {
    fused := map[];
    for i := 0 to |rankings|
      invariant forall s :: s in fused <==> NamedIn(rankings[..i], s)
      invariant forall s :: Get(fused, s) == Score(rankings[..i], k, s)
    {
      ghost var before := fused;
      fused := AddShares(fused, rankings[i], k);
      assert rankings[..i + 1] == rankings[..i] + [rankings[i]];
      assert rankings[..i + 1][..i] == rankings[..i];
      NamedInSnoc(rankings[..i], rankings[i]);
    }
    assert rankings[..|rankings|] == rankings;
    assert forall s | s in fused :: fused[s] == Get(fused, s);
  }

  function Get(fused: map<string, real>, s: string): real {
    if s in fused then fused[s] else 0.0
  }

  method AddShares(before: map<string, real>, ranked: seq<Ranked>, k: real) returns (fused: map<string, real>)
    requires k > 0.0
    ensures forall s :: s in fused <==> s in before || Named(ranked, s)
    ensures forall s :: Get(fused, s) == Get(before, s) + Share(ranked, k, s, |ranked|)
  {
    fused := before;
    for rank := 0 to |ranked|
      invariant forall s :: s in fused <==> s in before || Named(ranked[..rank], s)
      invariant forall s :: Get(fused, s) == Get(before, s) + Share(ranked, k, s, rank)
    {
      var s := ranked[rank].skill;
      assert ranked[..rank + 1] == ranked[..rank] + [ranked[rank]];
      NamedSnoc(ranked[..rank], ranked[rank]);
      fused := fused[s := Get(fused, s) + 1.0 / (k + rank as real)];
    }
    assert ranked[..|ranked|] == ranked;
  }

  lemma NamedSnoc(a: seq<Ranked>, r: Ranked)
    ensures forall s :: Named(a + [r], s) <==> Named(a, s) || r.skill == s
  {
    forall s ensures Named(a + [r], s) <==> Named(a, s) || r.skill == s {
      assert forall i | 0 <= i < |a| :: (a + [r])[i] == a[i];
      assert (a + [r])[|a|] == r;
    }
  }

  lemma NamedInSnoc(a: seq<seq<Ranked>>, r: seq<Ranked>)
    ensures forall s :: NamedIn(a + [r], s) <==> NamedIn(a, s) || Named(r, s)
  {
    forall s ensures NamedIn(a + [r], s) <==> NamedIn(a, s) || Named(r, s) {
      assert forall i | 0 <= i < |a| :: (a + [r])[i] == a[i];
      assert (a + [r])[|a|] == r;
    }
  }

  /** The entries of the map in whatever order iteration yields them. */
  method Enumerate(fused: map<string, real>) returns (entries: seq<Entry>)
    ensures |entries| == |fused| && Distinct(entries)
    ensures forall e :: e in entries <==> e.skill in fused && e.score == fused[e.skill]
  {
    entries := [];
    var left := fused.Keys;
    while left != {}
      invariant left <= fused.Keys && |entries| + |left| == |fused.Keys| && Distinct(entries)
      invariant forall e :: e in entries <==> e.skill in fused && e.skill !in left && e.score == fused[e.skill]
      decreases |left|
    {
      var s :| s in left;
      left := left - {s};
      entries := entries + [Entry(s, fused[s])];
    }
  }

  /** The top of the entries, however they were enumerated. */
  method PickTop(entries: array<Entry>) returns (d: Decision)
    requires entries.Length > 0
    modifies entries
    ensures multiset(entries[..]) == old(multiset(entries[..]))
    ensures !d.fellThrough && entries[0] == Entry(d.skill, d.confidence)
    ensures d.margin == if entries.Length > 1 then d.confidence - entries[1].score else 0.0
    ensures forall i, j | 0 <= i < j < entries.Length :: entries[i].score >= entries[j].score
  {
    ghost var was := entries[..];
    SortInPlace(entries, HighestFirst());
    SortedIsPermutation(entries[..], was, HighestFirst());
    forall i, j | 0 <= i < j < entries.Length ensures entries[i].score >= entries[j].score {
      assert HighestFirst()(entries[..][i]) <= HighestFirst()(entries[..][j]);
    }
    var top := entries[0];
    var margin := 0.0;
    if entries.Length > 1 {
      margin := top.score - entries[1].score;
    }
    return Decision(top.skill, top.score, margin, false);
  }

  method Route(ms: seq<Matcher>, k: real, prompt: string) returns (r: Result)
    requires k > 0.0 && |ms| >= 2 && forall i | 0 <= i < |ms| :: ms[i].Valid()
    ensures r.Error? <==> exists i | 0 <= i < |ms| :: Ranking(ms[i], prompt, 0).None?
    ensures r.Decided? ==>
              var rankings := seq(|ms|, i requires 0 <= i < |ms| =>
                if Ranking(ms[i], prompt, 0).Some? then Ranking(ms[i], prompt, 0).value else []);
              if AllUnviable(ms, rankings) then r.d == NO_DECISION else IsTop(rankings, k, r.d)
  {
    var allRanked: seq<seq<Ranked>> := [];
    var allUnviable := true;
    for i := 0 to |ms|
      invariant |allRanked| == i
      invariant forall j | 0 <= j < i :: Ranking(ms[j], prompt, 0) == Some(allRanked[j])
      invariant allUnviable <==> AllUnviable(ms[..i], allRanked)
    {
      var ranked := Rank(ms[i], prompt, 0);
      if ranked.None? {
        return Error;
      }
      if |ranked.value| > 0 && ranked.value[0].score >= ms[i].minScore {
        allUnviable := false;
      }
      UnviableSnoc(ms, allRanked, ranked.value);
      allRanked := allRanked + [ranked.value];
    }
    assert ms[..|ms|] == ms;
    ghost var rankings := seq(|ms|, i requires 0 <= i < |ms| =>
      if Ranking(ms[i], prompt, 0).Some? then Ranking(ms[i], prompt, 0).value else []);
    assert allRanked == rankings;
    if allUnviable {
      return Decided(NO_DECISION);
    }
    SomeNamed(ms, allRanked);
    var d := Fuse(allRanked, k);
    return Decided(d);
  }

  lemma SomeNamed(ms: seq<Matcher>, rankings: seq<seq<Ranked>>)
    requires |ms| == |rankings| && !AllUnviable(ms, rankings)
    ensures exists s :: NamedIn(rankings, s)
  {
    var i :| 0 <= i < |ms| && rankings[i] != [] && rankings[i][0].score >= ms[i].minScore;
    assert Named(rankings[i], rankings[i][0].skill);
    assert NamedIn(rankings, rankings[i][0].skill);
  }

  lemma UnviableSnoc(ms: seq<Matcher>, rankings: seq<seq<Ranked>>, r: seq<Ranked>)
    requires |rankings| < |ms|
    ensures var n := |rankings|;
            AllUnviable(ms[..n + 1], rankings + [r])
            <==> AllUnviable(ms[..n], rankings) && (r == [] || r[0].score < ms[n].minScore)
  {
    var n := |rankings|;
    assert forall i | 0 <= i < n :: (rankings + [r])[i] == rankings[i] && ms[..n + 1][i] == ms[..n][i];
    assert (rankings + [r])[n] == r && ms[..n + 1][n] == ms[n];
  }

  method Fuse(rankings: seq<seq<Ranked>>, k: real) returns (d: Decision)
    requires k > 0.0
    ensures (exists s :: NamedIn(rankings, s)) ==> IsTop(rankings, k, d)
    ensures (forall s :: !NamedIn(rankings, s)) ==> d == NO_DECISION
  {
    var fused := Accumulate(rankings, k);
    var listed := Enumerate(fused);
    if |listed| == 0 {
      assert fused == map[];
      return NO_DECISION;
    }
    var entries := new Entry[|listed|](i requires 0 <= i < |listed| => listed[i]);
    assert entries[..] == listed;
    d := PickTop(entries);
    TopOfEntries(rankings, k, fused, listed, entries[..], d);
  }

  lemma TopOfEntries(
      rankings: seq<seq<Ranked>>, k: real, fused: map<string, real>, listed: seq<Entry>, es: seq<Entry>,
      d: Decision)
    requires k > 0.0 && |es| > 0
    requires forall s :: s in fused <==> NamedIn(rankings, s)
    requires forall s | s in fused :: fused[s] == Score(rankings, k, s)
    requires Distinct(listed) && forall e :: e in listed <==> e.skill in fused && e.score == fused[e.skill]
    requires multiset(es) == multiset(listed)
    requires !d.fellThrough && es[0] == Entry(d.skill, d.confidence)
    requires d.margin == if |es| > 1 then d.confidence - es[1].score else 0.0
    requires forall i, j | 0 <= i < j < |es| :: es[i].score >= es[j].score
    ensures IsTop(rankings, k, d)
  {
    forall e ensures e in es <==> e in listed {
      assert e in es <==> e in multiset(es);
      assert e in listed <==> e in multiset(listed);
    }
    PermutationKeepsDistinct(listed, es);
    assert es[0] in es;
    forall s | NamedIn(rankings, s) && s != d.skill ensures Score(rankings, k, s) <= d.confidence - d.margin {
      assert Entry(s, fused[s]) in es;
      var i :| 0 <= i < |es| && es[i] == Entry(s, fused[s]);
      assert i >= 1;
      if i > 1 { assert es[1].score >= es[i].score; }
    }
    if |es| > 1 {
      assert es[1] in es;
      assert NamedIn(rankings, es[1].skill) && es[1].skill != d.skill;
    } else {
      forall s | NamedIn(rankings, s) ensures s == d.skill {
        assert Entry(s, fused[s]) in es;
      }
    }
  }

  // ---------------------------------------------------------------------------------
  // What the fused score means, for rankings of one catalog of distinct names.

  predicate NamesDistinct(ranking: seq<Ranked>) {
    forall i, j | 0 <= i < j < |ranking| :: ranking[i].skill != ranking[j].skill
  }

  ghost predicate OneCatalog(rankings: seq<seq<Ranked>>) {
    && (forall i | 0 <= i < |rankings| :: NamesDistinct(rankings[i]))
    && (forall i, j, s | 0 <= i < |rankings| && 0 <= j < |rankings| && Named(rankings[i], s) :: Named(rankings[j], s))
  }

  ghost function RankOf(ranking: seq<Ranked>, skill: string): (i: nat)
    requires Named(ranking, skill)
    ensures i < |ranking| && ranking[i].skill == skill
  {
    var i :| 0 <= i < |ranking| && ranking[i].skill == skill;
    i
  }

  /** In every ranking a stands no lower than b. */
  ghost predicate NoLower(rankings: seq<seq<Ranked>>, a: string, b: string) {
    forall i | 0 <= i < |rankings| ::
      Named(rankings[i], a) && Named(rankings[i], b) && RankOf(rankings[i], a) <= RankOf(rankings[i], b)
  }

  /** No lower anywhere, and higher somewhere. */
  ghost predicate Dominates(rankings: seq<seq<Ranked>>, a: string, b: string) {
    NoLower(rankings, a, b)
    && exists i | 0 <= i < |rankings| :: RankOf(rankings[i], a) < RankOf(rankings[i], b)
  }

  /** A name found once contributes one reciprocal, a name not found nothing. */
  lemma {:induction false} ShareOfPlace(ranking: seq<Ranked>, k: real, skill: string, n: nat)
    requires k > 0.0 && n <= |ranking| && NamesDistinct(ranking)
    ensures Share(ranking, k, skill, n)
            == if Named(ranking, skill) && RankOf(ranking, skill) < n
               then 1.0 / (k + RankOf(ranking, skill) as real) else 0.0
  {
    if n > 0 {
      ShareOfPlace(ranking, k, skill, n - 1);
    }
  }

  lemma InversePositive(p: real, x: real)
    requires p * x == 1.0 && x > 0.0
    ensures p > 0.0
  {
  }

  lemma ProductPositive(x: real, y: real, product: real)
    requires x > 0.0 && y > 0.0 && product == x * y
    ensures product > 0.0
  {
  }

  /** Of two inverses, the one of the larger number is smaller, by this much. */
  lemma InverseGap(x: real, y: real, p: real, q: real)
    requires p * x == 1.0 && q * y == 1.0 && 0.0 < x < y
    ensures 0.0 < q < p && p - q == p * q * (y - x)
  {
    InversePositive(p, x);
    InversePositive(q, y);
    assert p - q == p * (q * y) - q * (p * x);
    ProductPositive(p, q, p * q);
    ProductPositive(p * q, y - x, p * q * (y - x));
  }

  lemma Reciprocals(x: real, y: real)
    requires 0.0 < x <= y
    ensures 0.0 < 1.0 / y <= 1.0 / x && (x < y ==> 1.0 / y < 1.0 / x)
  {
    var p, q := 1.0 / x, 1.0 / y;
    assert p * x == 1.0 && q * y == 1.0;
    if x < y { InverseGap(x, y, p, q); } else { InversePositive(p, x); }
  }

  lemma HigherScoresMore(ranking: seq<Ranked>, k: real, a: string, b: string)
    requires k > 0.0 && NamesDistinct(ranking) && Named(ranking, a) && Named(ranking, b)
    requires RankOf(ranking, a) <= RankOf(ranking, b)
    ensures var x, y := Share(ranking, k, a, |ranking|), Share(ranking, k, b, |ranking|);
            x >= y && (RankOf(ranking, a) < RankOf(ranking, b) ==> x > y)
  {
    ShareOfPlace(ranking, k, a, |ranking|);
    ShareOfPlace(ranking, k, b, |ranking|);
    Reciprocals(k + RankOf(ranking, a) as real, k + RankOf(ranking, b) as real);
  }

  /** Two names never share a place, so no lower and not the same is higher everywhere. */
  lemma {:induction false} NoLowerScoresNoLess(rankings: seq<seq<Ranked>>, k: real, a: string, b: string)
    requires k > 0.0 && NoLower(rankings, a, b)
    requires forall i | 0 <= i < |rankings| :: NamesDistinct(rankings[i])
    ensures Score(rankings, k, a) >= Score(rankings, k, b)
    ensures a != b && rankings != [] ==> Score(rankings, k, a) > Score(rankings, k, b)
  {
    if rankings != [] {
      var n := |rankings| - 1;
      var before := rankings[..n];
      assert forall i | 0 <= i < n :: before[i] == rankings[i];
      NoLowerScoresNoLess(before, k, a, b);
      HigherScoresMore(rankings[n], k, a, b);
    }
  }

  lemma DominatorScoresMore(rankings: seq<seq<Ranked>>, k: real, a: string, b: string)
    requires k > 0.0 && Dominates(rankings, a, b)
    requires forall i | 0 <= i < |rankings| :: NamesDistinct(rankings[i])
    ensures a != b && NamedIn(rankings, a) && Score(rankings, k, a) > Score(rankings, k, b)
  {
    NoLowerScoresNoLess(rankings, k, a, b);
  }

  /** The fused score of a catalog skill is positive and at most n / k. */
  lemma {:induction false} ScoreWithin(rankings: seq<seq<Ranked>>, k: real, skill: string)
    requires k > 0.0 && forall i | 0 <= i < |rankings| :: NamesDistinct(rankings[i])
    ensures 0.0 <= Score(rankings, k, skill) <= |rankings| as real / k
    ensures NamedIn(rankings, skill) ==> Score(rankings, k, skill) > 0.0
  {
    if rankings != [] {
      var n := |rankings| - 1;
      var before, last := rankings[..n], rankings[n];
      assert forall i | 0 <= i < n :: before[i] == rankings[i];
      ScoreWithin(before, k, skill);
      ShareOfPlace(last, k, skill, |last|);
      if Named(last, skill) {
        Reciprocals(k, k + RankOf(last, skill) as real);
      } else if NamedIn(rankings, skill) {
        var i :| 0 <= i < |rankings| && Named(rankings[i], skill);
        assert Named(before[i], skill);
      }
      Reciprocals(k, k);
      OneMoreShare(n as real, k);
    }
  }

  lemma OneMoreShare(n: real, k: real)
    requires k > 0.0
    ensures (n + 1.0) / k == n / k + 1.0 / k
  {
  }

  /** The winner is never a skill that another one beats everywhere it does not tie with it,
      and its confidence keeps within the documented maximum. */
  lemma WinnerUndominated(rankings: seq<seq<Ranked>>, k: real, d: Decision)
    requires k > 0.0 && OneCatalog(rankings) && IsTop(rankings, k, d)
    ensures 0.0 < d.confidence <= |rankings| as real / k
    ensures forall s :: !Dominates(rankings, s, d.skill)
    ensures forall s | NamedIn(rankings, s) && Dominates(rankings, d.skill, s) :: d.confidence > Score(rankings, k, s)
  {
    ScoreWithin(rankings, k, d.skill);
    forall s ensures !Dominates(rankings, s, d.skill) {
      if Dominates(rankings, s, d.skill) { DominatorScoresMore(rankings, k, s, d.skill); }
    }
    forall s | NamedIn(rankings, s) && Dominates(rankings, d.skill, s) ensures d.confidence > Score(rankings, k, s) {
      DominatorScoresMore(rankings, k, d.skill, s);
    }
  }

  /** Strict convexity of the reciprocal. */
  lemma SpreadReciprocals(x: real, d: real)
    requires 0.0 < d < x
    ensures 1.0 / (x - d) + 1.0 / (x + d) > 2.0 / x
  {
    var low, high := x - d, x + d;
    var p, q, r := 1.0 / low, 1.0 / high, 1.0 / x;
    assert p * low == 1.0 && q * high == 1.0 && r * x == 1.0;
    Convexity(x, d, p, q, r);
    assert 2.0 / x == 2.0 * r;
  }

  lemma Convexity(x: real, d: real, p: real, q: real, r: real)
    requires 0.0 < d < x && p * (x - d) == 1.0 && q * (x + d) == 1.0 && r * x == 1.0
    ensures p + q > 2.0 * r
  {
    InverseGap(x - d, x, p, r);
    InverseGap(x, x + d, r, q);
    assert p - r == p * r * d && r - q == r * q * d;
    var rd := r * d;
    ProductPositive(r, d, rd);
    ProductPositive(p - q, rd, (p - q) * rd);
    assert (p - q) * rd == (p - r) - (r - q);
  }

  /** First in one ranking and third in the other beats second in both; and so does any place
      d above in one and d below in the other. */
  lemma SpreadBeatsMiddle(one: seq<Ranked>, two: seq<Ranked>, k: real, s: string, t: string, d: nat)
    requires k > 0.0 && d > 0 && NamesDistinct(one) && NamesDistinct(two)
    requires Named(one, s) && Named(one, t) && Named(two, s) && Named(two, t)
    requires RankOf(one, t) == RankOf(two, t)
    requires RankOf(one, s) + d == RankOf(one, t) && RankOf(two, s) == RankOf(two, t) + d
    ensures Score([one, two], k, s) > Score([one, two], k, t)
  {
    ScoreOfTwo(one, two, k, s);
    ScoreOfTwo(one, two, k, t);
    ShareOfPlace(one, k, s, |one|);
    ShareOfPlace(two, k, s, |two|);
    ShareOfPlace(one, k, t, |one|);
    ShareOfPlace(two, k, t, |two|);
    var x := k + RankOf(one, t) as real;
    assert k + RankOf(one, s) as real == x - d as real;
    assert k + RankOf(two, s) as real == x + d as real;
    SpreadReciprocals(x, d as real);
  }

  lemma ScoreOfTwo(one: seq<Ranked>, two: seq<Ranked>, k: real, s: string)
    requires k > 0.0
    ensures Score([one, two], k, s) == Share(one, k, s, |one|) + Share(two, k, s, |two|)
  {
    assert [one, two][..1] == [one];
    assert [one][..0] == [];
    assert Score([one], k, s) == Score([], k, s) + Share(one, k, s, |one|);
  }

  ghost predicate NeverAbove(ranking: seq<Ranked>, k: real)
    requires k > 0.0
  {
    forall r: seq<Ranked>, s | multiset(r) == multiset(ranking) :: Share(r, k, s, |r|) <= 1.0 / k
  }

  /** What one matcher adds is at most 1 / k, whatever order the scores put the catalog in, exactly
      if no name is repeated. */
  lemma MaximumNeedsDistinctNames(ranking: seq<Ranked>, k: real)
    requires k > 0.0
    ensures NeverAbove(ranking, k) <==> NamesDistinct(ranking)
  {
    if NamesDistinct(ranking) {
      forall r: seq<Ranked>, s | multiset(r) == multiset(ranking) ensures Share(r, k, s, |r|) <= 1.0 / k {
        OncePerName(ranking, r, k, s);
      }
    } else {
      var i, j :| 0 <= i < j < |ranking| && ranking[i].skill == ranking[j].skill;
      var r := PairFirst(ranking, i, j);
      TwiceOnTop(r, k);
    }
  }

  lemma OncePerName(ranking: seq<Ranked>, r: seq<Ranked>, k: real, s: string)
    requires k > 0.0 && NamesDistinct(ranking) && multiset(r) == multiset(ranking)
    ensures Share(r, k, s, |r|) <= 1.0 / k
  {
    ReorderedNamesDistinct(ranking, r);
    ShareOfPlace(r, k, s, |r|);
    Reciprocals(k, if Named(r, s) then k + RankOf(r, s) as real else k);
  }

  lemma PairFirst<T>(s: seq<T>, i: nat, j: nat) returns (r: seq<T>)
    requires i < j < |s|
    ensures multiset(r) == multiset(s) && |r| >= 2 && r[0] == s[i] && r[1] == s[j]
  {
    r := [s[i], s[j]] + (s[..i] + s[i + 1..j] + s[j + 1..]);
    CutAt(s, i, j);
    Shuffled(s[..i], s[i], s[i + 1..j], s[j], s[j + 1..]);
  }

  lemma CutAt<T>(s: seq<T>, i: nat, j: nat)
    requires i < j < |s|
    ensures s == s[..i] + [s[i]] + s[i + 1..j] + [s[j]] + s[j + 1..]
  {
    assert s[i..j] == [s[i]] + s[i + 1..j] && s[j..] == [s[j]] + s[j + 1..];
    assert s == s[..i] + s[i..j] + s[j..];
  }

  lemma Shuffled<T>(a: seq<T>, x: T, b: seq<T>, y: T, c: seq<T>)
    ensures multiset([x, y] + (a + b + c)) == multiset(a + [x] + b + [y] + c)
  {
    assert multiset(a + [x] + b + [y] + c) == multiset(a) + multiset{x} + multiset(b) + multiset{y} + multiset(c);
  }

  lemma {:induction false} ShareGrows(r: seq<Ranked>, k: real, s: string, m: nat, n: nat)
    requires k > 0.0 && m <= n <= |r|
    ensures Share(r, k, s, m) <= Share(r, k, s, n)
  {
    if m < n {
      ShareGrows(r, k, s, m, n - 1);
      Reciprocals(k, k + (n - 1) as real);
    }
  }

  lemma TwiceOnTop(r: seq<Ranked>, k: real)
    requires k > 0.0 && |r| >= 2 && r[0].skill == r[1].skill
    ensures Share(r, k, r[0].skill, |r|) > 1.0 / k
  {
    var s := r[0].skill;
    assert Share(r, k, s, 0) == 0.0;
    assert Share(r, k, s, 1) == 1.0 / k;
    assert Share(r, k, s, 2) == 1.0 / k + 1.0 / (k + 1.0);
    Reciprocals(k, k + 1.0);
    ShareGrows(r, k, s, 2, |r|);
  }

  function NamesOf(ranking: seq<Ranked>): seq<string> {
    seq(|ranking|, i requires 0 <= i < |ranking| => ranking[i].skill)
  }

  lemma DistinctNames(ranking: seq<Ranked>)
    requires Distinct(NamesOf(ranking))
    ensures NamesDistinct(ranking)
  {
    assert forall i | 0 <= i < |ranking| :: NamesOf(ranking)[i] == ranking[i].skill;
  }

  /** n rankings, each of them these names in some order. */
  ghost predicate RankingsOf(rankings: seq<seq<Ranked>>, names: seq<string>, n: nat) {
    |rankings| == n && forall i | 0 <= i < n :: multiset(NamesOf(rankings[i])) == multiset(names)
  }

  /** No way to rank the catalog fuses to more than n / k. */
  ghost predicate WithinMaximum(names: seq<string>, n: nat, k: real)
    requires k > 0.0
  {
    forall rankings, s | RankingsOf(rankings, names, n) :: Score(rankings, k, s) <= n as real / k
  }

  lemma {:induction false} CopiesScore(n: nat, r: seq<Ranked>, k: real, s: string)
    requires k > 0.0 && Share(r, k, s, |r|) > 1.0 / k
    ensures Score(seq(n, _ => r), k, s) >= n as real / k
    ensures n > 0 ==> Score(seq(n, _ => r), k, s) > n as real / k
  {
    if n > 0 {
      CopiesScore(n - 1, r, k, s);
      assert seq(n, _ => r)[..n - 1] == seq(n - 1, _ => r);
      OneMoreShare((n - 1) as real, k);
    }
  }

  /** The documented maximum of the fused score, n / k for n matchers over one catalog, holds for
      every way to rank it exactly if no name is repeated, which the constructor does not
      check. */
  lemma FusedMaximumIff(names: seq<string>, n: nat, k: real)
    requires n > 0 && k > 0.0
    ensures WithinMaximum(names, n, k) <==> Distinct(names)
  {
    if Distinct(names) {
      forall rankings, s | RankingsOf(rankings, names, n) ensures Score(rankings, k, s) <= n as real / k {
        forall i | 0 <= i < n ensures NamesDistinct(rankings[i]) {
          PermutationKeepsDistinct(names, NamesOf(rankings[i]));
          DistinctNames(rankings[i]);
        }
        ScoreWithin(rankings, k, s);
      }
    } else {
      var i, j :| 0 <= i < j < |names| && names[i] == names[j];
      var twice := PairFirst(names, i, j);
      var r := seq(|twice|, p requires 0 <= p < |twice| => Ranked(twice[p], 0.0));
      var rankings := seq(n, _ => r);
      TwiceOnTop(r, k);
      CopiesScore(n, r, k, twice[0]);
      assert NamesOf(r) == twice;
      assert RankingsOf(rankings, names, n);
    }
  }

  lemma ReorderedNamesDistinct(was: seq<Ranked>, r: seq<Ranked>)
    requires multiset(r) == multiset(was) && NamesDistinct(was)
    ensures NamesDistinct(r)
  {
    PermutationKeepsDistinct(was, r);
    forall i, j | 0 <= i < j < |r| ensures r[i].skill != r[j].skill {
      assert r[i] in multiset(was) && r[j] in multiset(was);
      var a, b :| 0 <= a < |was| && 0 <= b < |was| && was[a] == r[i] && was[b] == r[j];
      assert a != b;
    }
  }

  /** Matchers built over one catalog of distinct names produce rankings of one catalog. */
  lemma MatchersShareCatalog(ms: seq<Matcher>, prompt: string, rankings: seq<seq<Ranked>>)
    requires |rankings| == |ms| > 0
    requires forall i | 0 <= i < |ms| :: ms[i].Valid() && Ranking(ms[i], prompt, 0) == Some(rankings[i])
    requires forall i | 0 <= i < |ms| :: ms[i].skills == ms[0].skills
    requires forall a, b | 0 <= a < b < |ms[0].skills| :: ms[0].skills[a].name != ms[0].skills[b].name
    ensures OneCatalog(rankings)
  {
    forall i | 0 <= i < |ms|
      ensures NamesDistinct(rankings[i])
      ensures forall s :: Named(rankings[i], s) <==> InCatalog(ms[0].skills, s)
    {
      FullIsRanking(ms[i], ms[i].embed(prompt).value);
      ReorderedNamesDistinct(Scored(ms[i], ms[i].embed(prompt).value), rankings[i]);
      NamesOfRanking(ms[i], ms[i].embed(prompt).value);
    }
  }

  predicate InCatalog(skills: seq<Skill>, s: string) {
    exists a | 0 <= a < |skills| :: skills[a].name == s
  }

  lemma NamesOfRanking(m: Matcher, q: Vectors.Vec)
    requires m.Valid()
    ensures forall s :: Named(Full(m, q), s) <==> InCatalog(m.skills, s)
  {
    FullIsRanking(m, q);
    var full, scored := Full(m, q), Scored(m, q);
    forall s ensures Named(full, s) <==> InCatalog(m.skills, s) {
      if Named(full, s) {
        assert full[RankOf(full, s)] in multiset(scored);
        var a :| 0 <= a < |scored| && scored[a] == full[RankOf(full, s)];
        assert m.skills[a].name == s;
      }
      if InCatalog(m.skills, s) {
        var a :| 0 <= a < |m.skills| && m.skills[a].name == s;
        assert scored[a] in multiset(full);
      }
    }
  }
}
