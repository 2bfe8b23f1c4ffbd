/** `AIAnalyzer.calculate_advanced_match_score` (backend/ai_analyzer.py): how much of the
    weighted keyword list the start of the résumé already mentions, as integer percentages. */
module Scorer {
  import opened Wrappers
  import opened Seqs
  import opened Strings
  import opened Records

  /** One entry of `keyword_details`. */
  datatype Detail = Detail(keyword: string, matched: bool, importance: string, weight: nat)

  /** The returned dictionary. */
  datatype Score = Score(overall: nat, keywordScore: nat, quality: nat, details: seq<Detail>, recommendations: seq<string>)

  const QualityScore: nat := 50
  /** The score when no keyword carries weight. */
  const UnweightedScore: nat := 85
  const Recommendations: seq<string> :=
    ["Add relevant technical keywords from the job description", "Include quantifiable achievements"]

  /** `{'high': 3, 'medium': 2, 'low': 1}.get(importance, 2)`. */
  function ImportanceWeight(importance: string): (w: nat)
    ensures 1 <= w <= 3
    ensures importance == "high" ==> w == 3
    ensures importance == "low" ==> w == 1
    ensures importance != "high" && importance != "low" ==> w == 2
  {
    if importance == "high" then 3
    else if importance == "medium" then 2
    else if importance == "low" then 1
    else 2
  }

  /** Sentinel keywords the scorer ignores, whatever their case. */
  predicate Skipped(k: Keyword) {
    Lower(k.keyword) == "none" || Lower(k.keyword) == "analysis error"
  }

  function Weight(k: Keyword): nat {
    ImportanceWeight(k.importance) * k.frequency
  }

  /** The part of the résumé a keyword is looked for in: its first 200 characters, lower-cased. */
  function Window(resume: string): (r: string)
    ensures |r| <= 200
  {
    Prefix(Lower(resume), 200)
  }

  /** The detail of a keyword that is not skipped. */
  function DetailOf(window: string): Keyword -> Option<Detail> {
    (k: Keyword) =>
      if Skipped(k) then None
      else Some(Detail(k.keyword, Contains(window, Lower(k.keyword)), k.importance, Weight(k)))
  }

  /** `keyword_details`: one entry per keyword that is not skipped, in list order. */
  function Details(window: string, ks: seq<Keyword>): seq<Detail> {
    FilterMap(DetailOf(window), ks)
  }

  /** `total_weight` over a list of details. */
  function TotalWeight(ds: seq<Detail>): nat
    decreases |ds|
  {
    if |ds| == 0 then 0 else TotalWeight(ds[..|ds| - 1]) + ds[|ds| - 1].weight
  }

  /** `matched_keywords`: the weight of the matched details. */
  function MatchedWeight(ds: seq<Detail>): (m: nat)
    ensures m <= TotalWeight(ds)
    decreases |ds|
  {
    if |ds| == 0 then 0
    else MatchedWeight(ds[..|ds| - 1]) + (if ds[|ds| - 1].matched then ds[|ds| - 1].weight else 0)
  }

  /** `int(matched / total * 100)` for a positive total, else 85; the floor of the exact
      percentage, so always between 0 and 100. */
  function KeywordScore(matched: nat, total: nat): (s: nat)
    requires matched <= total
    ensures s <= 100
    ensures total == 0 ==> s == UnweightedScore
    ensures total > 0 ==> s * total <= 100 * matched < (s + 1) * total
  {
    if total > 0 then (100 * matched) / total else UnweightedScore
  }

  /** `int(keyword_score * 0.7 + 50 * 0.3)`: the floor of 0.7 k + 15. */
  function Overall(keywordScore: nat): (o: nat)
    ensures 10 * o <= 7 * keywordScore + 150 < 10 * (o + 1)
  {
    (7 * keywordScore + 150) / 10
  }

  /** `calculate_advanced_match_score`; the job description is not read. */
  function MatchScore(resume: string, keywords: seq<Keyword>, jobDescription: string): Score {
    var ds := Details(Window(resume), keywords);
    var k := KeywordScore(MatchedWeight(ds), TotalWeight(ds));
    Score(Overall(k), k, QualityScore, ds, Recommendations)
  }

  /** The same computation as the source's single loop over the keywords. */
  method MatchScoreLoop(resume: string, keywords: seq<Keyword>, jobDescription: string) returns (s: Score)
    ensures s == MatchScore(resume, keywords, jobDescription)
  {
    var window := Window(resume);
    var details: seq<Detail> := [];
    var total: nat := 0;
    var matched: nat := 0;
    var i := 0;
    while i < |keywords|
      invariant i <= |keywords|
      invariant details == Details(window, keywords[..i])
      invariant total == TotalWeight(details) && matched == MatchedWeight(details)
    {
      var k := keywords[i];
      FilterMapAppend(DetailOf(window), keywords[..i], [k]);
      assert keywords[..i + 1] == keywords[..i] + [k];
      FilterMapCons(DetailOf(window), k, []);
      if !Skipped(k) {
        var weight := Weight(k);
        var isMatched := Contains(window, Lower(k.keyword));
        var d := Detail(k.keyword, isMatched, k.importance, weight);
        assert (details + [d])[..|details|] == details;
        details := details + [d];
        total := total + weight;
        if isMatched {
          matched := matched + weight;
        }
      } else {
        assert details + [] == details;
      }
      i := i + 1;
    }
    assert keywords[..i] == keywords;
    var k := KeywordScore(matched, total);
    s := Score(Overall(k), k, QualityScore, details, Recommendations);
  }

  // ---------------------------------------------------------------------------
  // Properties

  /** Both scores are bounded: the keyword score by 0 and 100, the overall one by 15 and 85. */
  lemma ScoreBounds(resume: string, keywords: seq<Keyword>, jobDescription: string)
    ensures var s := MatchScore(resume, keywords, jobDescription);
            s.keywordScore <= 100 && 15 <= s.overall <= 85 && s.quality == 50
  {
  }

  lemma MulMono(a: nat, b: nat, c: nat)
    requires a <= b
    ensures a * c <= b * c
  {
    assert b * c == a * c + (b - a) * c;
  }

  lemma MulCancelLess(a: nat, b: nat, c: nat)
    requires a * c < b * c
    ensures a < b
  {
    if a >= b {
      MulMono(b, a, c);
    }
  }

  /** When every weighted keyword matches, the keyword score is 100; when none does, it is 0. */
  lemma AllOrNothing(matched: nat, total: nat)
    requires matched <= total && total > 0
    ensures matched == total ==> KeywordScore(matched, total) == 100
    ensures matched == 0 ==> KeywordScore(matched, total) == 0
  {
    var s := KeywordScore(matched, total);
    if matched == total {
      MulCancelLess(100, s + 1, total);
    }
    if matched == 0 && s > 0 {
      MulMono(1, s, total);
    }
  }

  /** Adding weight that matches never lowers the keyword score. */
  lemma MatchedWeightRaisesScore(matched: nat, total: nat, w: nat)
    requires matched <= total
    ensures KeywordScore(matched, total) <= KeywordScore(matched + w, total + w)
  {
    var s := KeywordScore(matched, total);
    var t := KeywordScore(matched + w, total + w);
    if total > 0 {
      MulMono(s, 100, w);
      assert s * (total + w) == s * total + s * w;
      assert s * (total + w) < (t + 1) * (total + w);
      MulCancelLess(s, t + 1, total + w);
    } else if w > 0 {
      AllOrNothing(matched + w, total + w);
    }
  }

  /** The overall score never decreases as the keyword score grows. */
  lemma OverallMonotone(a: nat, b: nat)
    requires a <= b
    ensures Overall(a) <= Overall(b)
  {
  }

  /** Appending a keyword the résumé mentions, or one that is skipped, never lowers the score. */
  lemma AppendMatchedKeyword(resume: string, keywords: seq<Keyword>, jobDescription: string, k: Keyword)
    requires Skipped(k) || Contains(Window(resume), Lower(k.keyword))
    ensures MatchScore(resume, keywords, jobDescription).keywordScore <=
            MatchScore(resume, keywords + [k], jobDescription).keywordScore
  {
    var window := Window(resume);
    var ds := Details(window, keywords);
    FilterMapAppend(DetailOf(window), keywords, [k]);
    FilterMapCons(DetailOf(window), k, []);
    if Skipped(k) {
      assert Details(window, keywords + [k]) == ds + [];
      assert ds + [] == ds;
    } else {
      var d := DetailOf(window)(k).value;
      var ds' := ds + [d];
      assert Details(window, keywords + [k]) == ds';
      assert ds'[..|ds'| - 1] == ds;
      MatchedWeightRaisesScore(MatchedWeight(ds), TotalWeight(ds), d.weight);
    }
  }

  /** The details are those of the keywords that are not skipped, in list order: each records
      its keyword's name and importance, whether the window mentions it, and its weight. */
  lemma DetailsTrace(resume: string, keywords: seq<Keyword>)
    ensures var window := Window(resume);
            var ds := Details(window, keywords);
            var os := Origins(DetailOf(window), keywords);
            (forall i :: 0 <= i < |ds| ==>
               os[i] < |keywords| && !Skipped(keywords[os[i]]) &&
               ds[i] == Detail(keywords[os[i]].keyword, Contains(window, Lower(keywords[os[i]].keyword)),
                               keywords[os[i]].importance, Weight(keywords[os[i]]))) &&
            (forall i, j :: 0 <= i < j < |os| ==> os[i] < os[j]) &&
            (forall n :: 0 <= n < |keywords| && !Skipped(keywords[n]) ==> n in os)
  {
    var window := Window(resume);
    OriginsSource(DetailOf(window), keywords);
    OriginsIncrease(DetailOf(window), keywords);
    OriginsComplete(DetailOf(window), keywords);
  }

  /** Only the first 200 characters of the résumé matter, and the job description not at all. */
  lemma WindowDecides(r1: string, r2: string, keywords: seq<Keyword>, j1: string, j2: string)
    requires Window(r1) == Window(r2)
    ensures MatchScore(r1, keywords, j1) == MatchScore(r2, keywords, j2)
  {
  }
}
