/** The embedding matcher: every skill scored by its best prototype, ranked, and decided. */
module Semantic {
  import opened Common
  import opened StableSort
  import opened Vectors

  datatype Skill = Skill(name: string, description: string)

  /** A matcher as its constructor leaves it: prototypes for every skill, none without one. */
  datatype Matcher = Matcher(
    skills: seq<Skill>, protos: seq<seq<Vec>>, minScore: real, embed: string -> Option<Vec>)
  {
    predicate Valid() {
      |skills| > 0 && |protos| == |skills| && forall i | 0 <= i < |protos| :: |protos[i]| > 0
    }
  }

  datatype Ranked = Ranked(skill: string, score: real)

  datatype Decision = Decision(skill: string, confidence: real, margin: real, fellThrough: bool)

  const NO_DECISION := Decision("", 0.0, 0.0, true)

  datatype Result = Decided(d: Decision) | Error

  /** Sorting by this key is sorting by score, highest first. */
  function Descending(): Ranked -> real {
    (r: Ranked) => -r.score
  }

  ghost predicate IsBest(q: Vec, vecs: seq<Vec>, best: real) {
    && (exists i | 0 <= i < |vecs| :: best == Cosine(q, vecs[i]))
    && (forall i | 0 <= i < |vecs| :: Cosine(q, vecs[i]) <= best)
  }

  function Best(q: Vec, vecs: seq<Vec>): real
    requires |vecs| > 0
  {
    var last := Cosine(q, vecs[|vecs| - 1]);
    if |vecs| == 1 then last
    else
      var before := Best(q, vecs[..|vecs| - 1]);
      if last > before then last else before
  }

  lemma {:induction false} BestIsBest(q: Vec, vecs: seq<Vec>)
    requires |vecs| > 0
    ensures IsBest(q, vecs, Best(q, vecs))
  {
    var n := |vecs| - 1;
    if n > 0 {
      BestIsBest(q, vecs[..n]);
      var i :| 0 <= i < n && Best(q, vecs[..n]) == Cosine(q, vecs[..n][i]);
      assert vecs[..n][i] == vecs[i];
      forall j | 0 <= j < n ensures Cosine(q, vecs[j]) <= Best(q, vecs[..n]) {
        assert vecs[..n][j] == vecs[j];
      }
    } else {
      assert Best(q, vecs) == Cosine(q, vecs[0]);
    }
  }

  function Scored(m: Matcher, q: Vec): seq<Ranked>
    requires m.Valid()
  {
    seq(|m.skills|, i requires 0 <= i < |m.skills| => Ranked(m.skills[i].name, Best(q, m.protos[i])))
  }

  /** The whole catalog, best first, ties in catalog order. */
  function Full(m: Matcher, q: Vec): seq<Ranked>
    requires m.Valid()
  {
    Sort(Scored(m, q), Descending())
  }

  lemma FullIsRanking(m: Matcher, q: Vec)
    requires m.Valid()
    ensures var full := Full(m, q);
            && |full| == |m.skills|
            && multiset(full) == multiset(Scored(m, q))
            && forall i, j | 0 <= i < j < |full| :: full[i].score >= full[j].score
  {
    SortIsStable(Scored(m, q), Descending());
    SortedIsPermutation(Full(m, q), Scored(m, q), Descending());
    forall i, j | 0 <= i < j < |Full(m, q)| ensures Full(m, q)[i].score >= Full(m, q)[j].score {
      assert Descending()(Full(m, q)[i]) <= Descending()(Full(m, q)[j]);
    }
  }

  method BestOf(q: Vec, vecs: seq<Vec>) returns (best: real)
    requires |vecs| > 0
    ensures best == Best(q, vecs)
  {
    best := ComputeCosine(q, vecs[0]);
    assert vecs[..1] == [vecs[0]];
    for i := 1 to |vecs|
      invariant best == Best(q, vecs[..i])
    {
      var c := ComputeCosine(q, vecs[i]);
      assert vecs[..i + 1][..i] == vecs[..i];
      if c > best {
        best := c;
      }
    }
    assert vecs[..|vecs|] == vecs;
  }

  /** What Rank returns: the ranking cut to k, or all of it for k = 0. */
  function Ranking(m: Matcher, prompt: string, k: nat): Option<seq<Ranked>>
    requires m.Valid()
  {
    if prompt == "" || m.embed(prompt).None? then None
    else
      var full := Full(m, m.embed(prompt).value);
      Some(if 0 < k < |full| then full[..k] else full)
  }

  method Rank(m: Matcher, prompt: string, k: nat) returns (r: Option<seq<Ranked>>)
    requires m.Valid()
    ensures r == Ranking(m, prompt, k)
  {
    if prompt == "" {
      return None;
    }
    var qv := m.embed(prompt);
    if qv.None? {
      return None;
    }
    var q := qv.value;
    var out := new Ranked[|m.skills|](_ => Ranked("", 0.0));
    for i := 0 to |m.skills|
      invariant forall j | 0 <= j < i :: out[j] == Scored(m, q)[j]
    {
      var best := BestOf(q, m.protos[i]);
      out[i] := Ranked(m.skills[i].name, best);
    }
    assert out[..] == Scored(m, q);
    SortInPlace(out, Descending());
    SortIsTheSort(out[..], Scored(m, q), Descending());
    var ranked := out[..];
    if k > 0 && k < |ranked| {
      ranked := ranked[..k];
    }
    return Some(ranked);
  }

  function Margin(ranked: seq<Ranked>): real
    requires |ranked| > 0
  {
    if |ranked| > 1 then ranked[0].score - ranked[1].score else 0.0
  }

  /** The verdict on a ranking: its top, unless even that is below the threshold. */
  function Verdict(ranked: seq<Ranked>, minScore: real): Decision
    requires |ranked| > 0
  {
    if ranked[0].score < minScore then Decision("", ranked[0].score, Margin(ranked), true)
    else Decision(ranked[0].skill, ranked[0].score, Margin(ranked), false)
  }

  method Route(m: Matcher, prompt: string) returns (r: Result)
    requires m.Valid()
    ensures Ranking(m, prompt, 0).None? ==> r == Error
    ensures Ranking(m, prompt, 0).Some? ==>
              && |Ranking(m, prompt, 0).value| > 0
              && r == Decided(Verdict(Ranking(m, prompt, 0).value, m.minScore))
  {
    var ranked := Rank(m, prompt, 0);
    if ranked.None? {
      return Error;
    }
    FullIsRanking(m, m.embed(prompt).value);
    if |ranked.value| == 0 {
      return Decided(NO_DECISION);
    }
    var top := ranked.value[0];
    var margin := 0.0;
    if |ranked.value| > 1 {
      margin := top.score - ranked.value[1].score;
    }
    if top.score < m.minScore {
      return Decided(Decision("", top.score, margin, true));
    }
    return Decided(Decision(top.skill, top.score, margin, false));
  }

  /** The verdict means what it says: no skill of the catalog scores higher than the top, the
      margin is what separates it from the best of the others, and it falls through exactly
      when every skill is below the threshold. */
  lemma VerdictIsBest(m: Matcher, q: Vec)
    requires m.Valid()
    ensures |Full(m, q)| == |m.skills|
    ensures var d := Verdict(Full(m, q), m.minScore);
            && d.margin >= 0.0
            && (forall j | 1 <= j < |Full(m, q)| :: Full(m, q)[j].score <= d.confidence - d.margin)
            && (|Full(m, q)| > 1 ==> Full(m, q)[1].score == d.confidence - d.margin)
            && (forall i | 0 <= i < |m.skills| :: Best(q, m.protos[i]) <= d.confidence)
            && (d.fellThrough <==> forall i | 0 <= i < |m.skills| :: Best(q, m.protos[i]) < m.minScore)
            && (!d.fellThrough ==>
                 exists i | 0 <= i < |m.skills| :: m.skills[i].name == d.skill && Best(q, m.protos[i]) == d.confidence)
  {
    FullIsRanking(m, q);
    var full, scored := Full(m, q), Scored(m, q);
    forall i | 0 <= i < |m.skills| ensures Best(q, m.protos[i]) <= full[0].score {
      assert scored[i] in multiset(full);
      var j :| 0 <= j < |full| && full[j] == scored[i];
      assert full[0].score >= full[j].score == Best(q, m.protos[i]);
    }
    assert full[0] in multiset(scored);
    var i :| 0 <= i < |scored| && scored[i] == full[0];
    assert m.skills[i].name == full[0].skill && Best(q, m.protos[i]) == full[0].score;
  }

  // ---------------------------------------------------------------------------------
  // What the scores mean, for prototypes of unit length.

  /** Every prototype is a unit vector of the prompt's dimension. */
  predicate UnitPrototypes(m: Matcher, q: Vec) {
    forall i, k | 0 <= i < |m.protos| && 0 <= k < |m.protos[i]| ::
      |m.protos[i][k]| == |q| && IsUnit(m.protos[i][k])
  }

  /** The squared distance from the prompt to a prototype of a skill. */
  function Distance(m: Matcher, q: Vec, i: nat, k: nat): real
    requires UnitPrototypes(m, q) && i < |m.protos| && k < |m.protos[i]|
  {
    SquaredDistance(q, m.protos[i][k])
  }

  /** The squared distance that a score stands for: 2.0 - 2.0 * score, if the prompt has unit length. */
  function DistanceOf(q: Vec, score: real): real {
    Dot(q, q) + 1.0 - 2.0 * score
  }

  /** This prototype of this skill is as near to the prompt as any. */
  ghost predicate Nearest(m: Matcher, q: Vec, i: nat, k: nat)
    requires UnitPrototypes(m, q) && i < |m.protos| && k < |m.protos[i]|
  {
    forall i', k' | 0 <= i' < |m.protos| && 0 <= k' < |m.protos[i']| :: Distance(m, q, i, k) <= Distance(m, q, i', k')
  }

  lemma BestIsNear(m: Matcher, q: Vec, i: nat) returns (k: nat)
    requires m.Valid() && UnitPrototypes(m, q) && i < |m.protos|
    ensures k < |m.protos[i]| && Distance(m, q, i, k) == DistanceOf(q, Best(q, m.protos[i]))
    ensures forall k' | 0 <= k' < |m.protos[i]| :: Distance(m, q, i, k) <= Distance(m, q, i, k')
  {
    BestIsBest(q, m.protos[i]);
    k :| k < |m.protos[i]| && Best(q, m.protos[i]) == Cosine(q, m.protos[i][k]);
    forall k' | 0 <= k' < |m.protos[i]|
      ensures Distance(m, q, i, k') == DistanceOf(q, Cosine(q, m.protos[i][k']))
    {
      CosineIsNearness(q, m.protos[i][k']);
    }
  }

  /** The verdict names a skill that owns a nearest prototype, and there is none exactly if even the
      nearest is farther away than the threshold allows. */
  lemma NearestWins(m: Matcher, q: Vec)
    requires m.Valid() && UnitPrototypes(m, q)
    ensures |Full(m, q)| == |m.skills|
    ensures var d := Verdict(Full(m, q), m.minScore);
            && (!d.fellThrough ==>
                  exists i, k | 0 <= i < |m.protos| && 0 <= k < |m.protos[i]| ::
                    && m.skills[i].name == d.skill && Nearest(m, q, i, k)
                    && Distance(m, q, i, k) == DistanceOf(q, d.confidence))
            && (d.fellThrough <==>
                  forall i, k | 0 <= i < |m.protos| && 0 <= k < |m.protos[i]| ::
                    Distance(m, q, i, k) > DistanceOf(q, m.minScore))
  {
    VerdictIsBest(m, q);
    var d := Verdict(Full(m, q), m.minScore);
    forall i, k | 0 <= i < |m.protos| && 0 <= k < |m.protos[i]|
      ensures Distance(m, q, i, k) >= DistanceOf(q, Best(q, m.protos[i]))
    {
      var _ := BestIsNear(m, q, i);
    }
    if d.fellThrough {
      forall i, k | 0 <= i < |m.protos| && 0 <= k < |m.protos[i]|
        ensures Distance(m, q, i, k) > DistanceOf(q, m.minScore)
      {
        assert Best(q, m.protos[i]) < m.minScore;
      }
    } else {
      var i :| 0 <= i < |m.skills| && m.skills[i].name == d.skill && Best(q, m.protos[i]) == d.confidence;
      var k := BestIsNear(m, q, i);
      assert Nearest(m, q, i, k);
    }
  }
}
