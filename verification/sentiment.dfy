/**
 * Keyword sentiment scoring of an interpretation's explanation and the
 * per-sector impact sum that `update_stock_prices` builds from a day's
 * interpretations.  The uniform draws of the source are parameters.
 */
module Sentiment {
  import opened Strings
  import opened News

  const PositiveKeywords: seq<string> :=
    ["성장", "증가", "호황", "개발 성공", "수출 증가", "인기", "기대", "긍정적", "개선", "호조", "확대"]
  const NegativeKeywords: seq<string> :=
    ["감소", "하락", "부진", "어려움", "위기", "경쟁 심화", "규제", "부정적", "악화", "축소", "둔화"]

  /** The most keyword hits a single article's impact is scaled by. */
  const ScoreCap := 3

  predicate NonEmptyWords(words: seq<string>) {
    forall k :: 0 <= k < |words| ==> |words[k]| > 0
  }

  /** Σ over `words` of `text.count(word)`. */
  function Hits(text: string, words: seq<string>): (n: nat)
    requires NonEmptyWords(words)
    ensures n == 0 <==> forall k :: 0 <= k < |words| ==> !Contains(text, words[k])
  {
    if words == [] then 0 else Count(text, words[0]) + Hits(text, words[1..])
  }

  /** The sentiment score of an explanation: positive hits minus negative hits. */
  function Score(explanation: string): int {
    Hits(explanation, PositiveKeywords) - Hits(explanation, NegativeKeywords)
  }

  /** A positive score needs a positive keyword in the explanation, and a
      negative score a negative one. */
  lemma ScoreSign(explanation: string)
    ensures Score(explanation) > 0 ==>
      exists k :: 0 <= k < |PositiveKeywords| && Contains(explanation, PositiveKeywords[k])
    ensures Score(explanation) < 0 ==>
      exists k :: 0 <= k < |NegativeKeywords| && Contains(explanation, NegativeKeywords[k])
  {
  }

  /** An explanation that mentions no keyword at all is neutral. */
  lemma NoKeywordsNeutral(explanation: string)
    requires forall k :: 0 <= k < |PositiveKeywords| ==> !Contains(explanation, PositiveKeywords[k])
    requires forall k :: 0 <= k < |NegativeKeywords| ==> !Contains(explanation, NegativeKeywords[k])
    ensures Score(explanation) == 0
  {
  }

  /** The capped magnitude `min(|score|, 3)` the draw is scaled by. */
  function Capped(score: int): (m: int)
    ensures 0 <= m <= ScoreCap
    ensures m == 0 <==> score == 0
  {
    var a := if score < 0 then -score else score;
    if a < ScoreCap then a else ScoreCap
  }

  /** The range `random.uniform` draws from for a score: [0.01, 0.04] when it
      is positive, [-0.04, -0.01] when it is negative; none is drawn at 0. */
  predicate DrawFits(score: int, draw: real) {
    if score > 0 then 0.01 <= draw <= 0.04
    else if score < 0 then -0.04 <= draw <= -0.01
    else true
  }

  /** The impact of one interpretation with the given score and draw. */
  function Impact(score: int, draw: real): (i: real)
    requires DrawFits(score, draw)
    ensures score == 0 <==> i == 0.0
    ensures score > 0 ==> 0.01 <= i <= 0.12
    ensures score < 0 ==> -0.12 <= i <= -0.01
  {
    var m := Capped(score);
    assert m == 0 || m == 1 || m == 2 || m == 3;
    if score > 0 then draw * m as real
    else if score < 0 then draw * m as real
    else 0.0
  }

  /** Scores beyond the cap weigh no more than the cap itself. */
  lemma ImpactSaturates(score: int, draw: real)
    requires score >= ScoreCap && DrawFits(score, draw)
    ensures Impact(score, draw) == Impact(ScoreCap, draw) == 3.0 * draw
  {
  }

  /** Every interpretation of the day has a draw of the right sign. */
  predicate DrawsFit(meanings: seq<Interpretation>, draws: seq<real>) {
    |draws| == |meanings| &&
    forall k :: 0 <= k < |meanings| ==> DrawFits(Score(meanings[k].explanation), draws[k])
  }

  /** The impact of each interpretation, in order. */
  function Impacts(meanings: seq<Interpretation>, draws: seq<real>): (r: seq<real>)
    requires DrawsFit(meanings, draws)
    ensures |r| == |meanings|
    ensures forall k :: 0 <= k < |r| ==> -0.12 <= r[k] <= 0.12
  {
    seq(|meanings|, k requires 0 <= k < |meanings| => Impact(Score(meanings[k].explanation), draws[k]))
  }

  /** Entry `k` is the impact of interpretation `k`'s score with draw `k`, so
      a positive explanation pushes up and a negative one pushes down. */
  lemma ImpactsEntries(meanings: seq<Interpretation>, draws: seq<real>)
    requires DrawsFit(meanings, draws)
    ensures var r := Impacts(meanings, draws);
      forall k :: 0 <= k < |meanings| ==>
        && r[k] == Impact(Score(meanings[k].explanation), draws[k])
        && (Score(meanings[k].explanation) > 0 ==> 0.01 <= r[k])
        && (Score(meanings[k].explanation) < 0 ==> r[k] <= -0.01)
  {
  }

  /** The total impulse a sector receives: each interpretation adds its impact
      once for every time it lists the sector. */
  function SectorImpact(sector: string, meanings: seq<Interpretation>, impacts: seq<real>): real
    requires |impacts| == |meanings|
  {
    if meanings == [] then 0.0
    else
      var n := |meanings| - 1;
      SectorImpact(sector, meanings[..n], impacts[..n]) + Added(sector, meanings[n].sectors, impacts[n])
  }

  /** A sector that no interpretation lists receives no impulse. */
  lemma {:induction false} UnlistedSectorUnmoved(sector: string, meanings: seq<Interpretation>, impacts: seq<real>)
    requires |impacts| == |meanings|
    requires forall k :: 0 <= k < |meanings| ==> sector !in meanings[k].sectors
    ensures SectorImpact(sector, meanings, impacts) == 0.0
  {
    if meanings != [] {
      var n := |meanings| - 1;
      AddedUnlisted(sector, meanings[n].sectors, impacts[n]);
      UnlistedSectorUnmoved(sector, meanings[..n], impacts[..n]);
    }
  }

  /** What one interpretation listing `related` adds to `sector`: its impact
      once for every time the sector is listed. */
  function Added(sector: string, related: seq<string>, impact: real): real {
    if related == [] then 0.0
    else
      var n := |related| - 1;
      Added(sector, related[..n], impact) + (if related[n] == sector then impact else 0.0)
  }

  lemma {:induction false} AddedBound(sector: string, related: seq<string>, impact: real)
    requires -0.12 <= impact <= 0.12
    ensures var o := Occurrences(sector, related) as real;
      -0.12 * o <= Added(sector, related, impact) <= 0.12 * o
  {
    if related != [] {
      AddedBound(sector, related[..|related| - 1], impact);
    }
  }

  lemma {:induction false} AddedUnlisted(sector: string, related: seq<string>, impact: real)
    requires sector !in related
    ensures Added(sector, related, impact) == 0.0
  {
    if related != [] {
      AddedUnlisted(sector, related[..|related| - 1], impact);
    }
  }

  /** A sector's impulse is bounded by 0.12 for every time it is listed. */
  lemma {:induction false} SectorImpactBound(sector: string, meanings: seq<Interpretation>, impacts: seq<real>, listed: nat)
    requires |impacts| == |meanings|
    requires forall k :: 0 <= k < |impacts| ==> -0.12 <= impacts[k] <= 0.12
    requires listed == TimesListed(sector, meanings)
    ensures -0.12 * listed as real <= SectorImpact(sector, meanings, impacts) <= 0.12 * listed as real
  {
    if meanings != [] {
      var n := |meanings| - 1;
      SectorImpactBound(sector, meanings[..n], impacts[..n], TimesListed(sector, meanings[..n]));
      AddedBound(sector, meanings[n].sectors, impacts[n]);
    }
  }

  /** An interpretation whose impact is at least 0.01 adds at least 0.01 for
      each listing of the sector. */
  lemma {:induction false} AddedAtLeast(sector: string, related: seq<string>, impact: real)
    requires sector in related ==> 0.01 <= impact
    ensures Added(sector, related, impact) >= 0.01 * Occurrences(sector, related) as real
  {
    if related != [] {
      var n := |related| - 1;
      assert related[n] == sector ==> sector in related;
      assert sector in related[..n] ==> sector in related;
      AddedAtLeast(sector, related[..n], impact);
    }
  }

  /** An interpretation whose impact is at most -0.01 takes at least 0.01 off
      for each listing of the sector. */
  lemma {:induction false} AddedAtMost(sector: string, related: seq<string>, impact: real)
    requires sector in related ==> impact <= -0.01
    ensures Added(sector, related, impact) <= -0.01 * Occurrences(sector, related) as real
  {
    if related != [] {
      var n := |related| - 1;
      assert related[n] == sector ==> sector in related;
      assert sector in related[..n] ==> sector in related;
      AddedAtMost(sector, related[..n], impact);
    }
  }

  /** When every interpretation listing a sector has an impact of at least
      0.01, the sector's impulse is at least 0.01 for each listing. */
  lemma {:induction false} SectorImpactAtLeast(sector: string, meanings: seq<Interpretation>, impacts: seq<real>)
    requires |impacts| == |meanings|
    requires forall k :: 0 <= k < |meanings| && sector in meanings[k].sectors ==> 0.01 <= impacts[k]
    ensures SectorImpact(sector, meanings, impacts) >= 0.01 * TimesListed(sector, meanings) as real
  {
    if meanings != [] {
      var n := |meanings| - 1;
      forall k | 0 <= k < n && sector in meanings[..n][k].sectors
        ensures 0.01 <= impacts[..n][k]
      {
        assert meanings[..n][k] == meanings[k];
      }
      SectorImpactAtLeast(sector, meanings[..n], impacts[..n]);
      AddedAtLeast(sector, meanings[n].sectors, impacts[n]);
    }
  }

  /** When every interpretation listing a sector has an impact of at most
      -0.01, the sector's impulse is at most -0.01 for each listing. */
  lemma {:induction false} SectorImpactAtMost(sector: string, meanings: seq<Interpretation>, impacts: seq<real>)
    requires |impacts| == |meanings|
    requires forall k :: 0 <= k < |meanings| && sector in meanings[k].sectors ==> impacts[k] <= -0.01
    ensures SectorImpact(sector, meanings, impacts) <= -0.01 * TimesListed(sector, meanings) as real
  {
    if meanings != [] {
      var n := |meanings| - 1;
      forall k | 0 <= k < n && sector in meanings[..n][k].sectors
        ensures impacts[..n][k] <= -0.01
      {
        assert meanings[..n][k] == meanings[k];
      }
      SectorImpactAtMost(sector, meanings[..n], impacts[..n]);
      AddedAtMost(sector, meanings[n].sectors, impacts[n]);
    }
  }

  /** Good news raises a sector: when every interpretation that lists it scores
      positive, its impulse is at least 0.01 per listing. */
  lemma GoodNewsRaises(sector: string, meanings: seq<Interpretation>, draws: seq<real>)
    requires DrawsFit(meanings, draws)
    requires forall k :: 0 <= k < |meanings| && sector in meanings[k].sectors ==> Score(meanings[k].explanation) > 0
    ensures SectorImpact(sector, meanings, Impacts(meanings, draws)) >= 0.01 * TimesListed(sector, meanings) as real
  {
    var impacts := Impacts(meanings, draws);
    forall k | 0 <= k < |meanings| && sector in meanings[k].sectors
      ensures 0.01 <= impacts[k]
    {
      ImpactsEntries(meanings, draws);
    }
    SectorImpactAtLeast(sector, meanings, impacts);
  }

  /** Bad news lowers a sector: when every interpretation that lists it scores
      negative, its impulse is at most -0.01 per listing. */
  lemma BadNewsLowers(sector: string, meanings: seq<Interpretation>, draws: seq<real>)
    requires DrawsFit(meanings, draws)
    requires forall k :: 0 <= k < |meanings| && sector in meanings[k].sectors ==> Score(meanings[k].explanation) < 0
    ensures SectorImpact(sector, meanings, Impacts(meanings, draws)) <= -0.01 * TimesListed(sector, meanings) as real
  {
    var impacts := Impacts(meanings, draws);
    forall k | 0 <= k < |meanings| && sector in meanings[k].sectors
      ensures impacts[k] <= -0.01
    {
      ImpactsEntries(meanings, draws);
    }
    SectorImpactAtMost(sector, meanings, impacts);
  }

  /** How many times a sector is listed over all of a day's interpretations. */
  function TimesListed(sector: string, meanings: seq<Interpretation>): nat {
    if meanings == [] then 0
    else
      var n := |meanings| - 1;
      TimesListed(sector, meanings[..n]) + Occurrences(sector, meanings[n].sectors)
  }

  /** The aggregation loop of `update_stock_prices`: `sector_impacts` starts
      at 0.0 for every known sector, and each interpretation's impact is added
      to each listed sector that is known; other names are ignored. */
  method AggregateImpacts(sectors: seq<string>, meanings: seq<Interpretation>, draws: seq<real>)
    returns (impacts: map<string, real>)
    requires DrawsFit(meanings, draws)
    ensures impacts.Keys == set s | s in sectors
    ensures forall s :: s in impacts ==> impacts[s] == SectorImpact(s, meanings, Impacts(meanings, draws))
  {
    ghost var all := Impacts(meanings, draws);
    impacts := map s | s in sectors :: 0.0;
    var k := 0;
    while k < |meanings|
      invariant 0 <= k <= |meanings|
      invariant impacts.Keys == set s | s in sectors
      invariant forall s :: s in impacts ==> impacts[s] == SectorImpact(s, meanings[..k], all[..k])
    {
      var impact := Impact(Score(meanings[k].explanation), draws[k]);
      assert impact == all[k];
      var related := meanings[k].sectors;
      ghost var before := impacts;
      var j := 0;
      while j < |related|
        invariant 0 <= j <= |related|
        invariant impacts.Keys == before.Keys
        invariant forall s :: s in impacts ==> impacts[s] == before[s] + Added(s, related[..j], impact)
      {
        AddedStep(related, j, impact);
        if related[j] in impacts {
          impacts := impacts[related[j] := impacts[related[j]] + impact];
        }
        j := j + 1;
      }
      assert related[..j] == related;
      SectorImpactStep(meanings, all, k);
      k := k + 1;
    }
    assert meanings[..k] == meanings;
    assert all[..k] == all;
  }

  /** One more listed name adds the impact to that name only. */
  lemma AddedStep(related: seq<string>, j: nat, impact: real)
    requires j < |related|
    ensures forall s ::
      Added(s, related[..j + 1], impact) == Added(s, related[..j], impact) + (if related[j] == s then impact else 0.0)
  {
    assert related[..j + 1][..j] == related[..j];
  }

  /** One more interpretation adds what it gives each sector. */
  lemma SectorImpactStep(meanings: seq<Interpretation>, impacts: seq<real>, k: nat)
    requires |impacts| == |meanings| && k < |meanings|
    ensures forall s ::
      SectorImpact(s, meanings[..k + 1], impacts[..k + 1]) == SectorImpact(s, meanings[..k], impacts[..k]) + Added(s, meanings[k].sectors, impacts[k])
  {
    assert meanings[..k + 1][..k] == meanings[..k];
    assert impacts[..k + 1][..k] == impacts[..k];
  }
}
