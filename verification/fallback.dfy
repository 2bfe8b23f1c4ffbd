/** `AIAnalyzer.fallback_analysis` (backend/ai_analyzer.py): which local analysis a prompt gets,
    decided by words in its lower-cased text. */
module Fallback {
  import opened Seqs
  import opened Strings
  import Segments
  import opened Records
  import KeywordParser
  import ImprovementParser
  import KeywordFallback
  import BulletFallback

  const NoAnalysisText: string := "No analysis available"

  /** `fallback_analysis`: "keyword" picks the keyword report; otherwise "bullet" or "improve"
      picks the improvement block; otherwise a fixed sentence. */
  function FallbackAnalysis(prompt: string): string {
    var lowered := Lower(prompt);
    if Contains(lowered, "keyword") then KeywordFallback.KeywordText(prompt)
    else if Contains(lowered, "bullet") || Contains(lowered, "improve") then BulletFallback.BulletText(prompt)
    else NoAnalysisText
  }

  /** A prompt that asks for keywords gets the keyword report, which `parse_keywords` reads back. */
  lemma KeywordPromptFallback(prompt: string)
    requires Contains(Lower(prompt), "keyword")
    ensures KeywordParser.ParseKeywords(FallbackAnalysis(prompt)) == KeywordFallback.ShippedKeywordReport(prompt)
  {
    KeywordFallback.KeywordTextParses(prompt);
  }

  /** The keyword report holds no `ORIGINAL:` block, so `parse_improvements` reads a prompt
      that asks for keywords as the "no improvements" sentinel. */
  lemma KeywordPromptBulletSentinel(prompt: string)
    requires Contains(Lower(prompt), "keyword")
    ensures ImprovementParser.ParseImprovements(FallbackAnalysis(prompt)) == [ImprovementParser.NoImprovements]
  {
    KeywordFallback.KeywordTextUntagged(prompt);
    ImprovementParser.UntaggedResponse(KeywordFallback.KeywordText(prompt));
  }

  /** A prompt that asks for bullet improvements (and not keywords) gets the improvement block,
      which `parse_improvements` reads back, provided the first bullet is readable. */
  lemma BulletPromptFallback(prompt: string)
    requires !Contains(Lower(prompt), "keyword")
    requires Contains(Lower(prompt), "bullet") || Contains(Lower(prompt), "improve")
    requires var bs := BulletFallback.Bullets(Segments.ExperienceText(prompt));
             |bs| > 0 ==> bs[0] != "" && !Contains(bs[0], ImprovementParser.OriginalTag)
    ensures ImprovementParser.ParseImprovements(FallbackAnalysis(prompt)) == [BulletFallback.BulletSuggestion(prompt)]
  {
    BulletFallback.BulletTextParses(prompt);
  }

  /** A prompt that asks for bullet improvements (and not keywords) but whose first bullet is
      empty, as an experience line of only "-" gives, gets the "Performed duties" sentinel. */
  lemma BulletPromptEmptyBullet(prompt: string)
    requires !Contains(Lower(prompt), "keyword")
    requires Contains(Lower(prompt), "bullet") || Contains(Lower(prompt), "improve")
    requires var bs := BulletFallback.Bullets(Segments.ExperienceText(prompt)); |bs| > 0 && bs[0] == ""
    ensures ImprovementParser.ParseImprovements(FallbackAnalysis(prompt)) == [ImprovementParser.NoImprovements]
  {
    BulletFallback.EmptyBulletSentinel(prompt);
  }

  /** One line of text without `|` parses to the "no keywords" sentinel. */
  lemma LineWithoutPipe(s: string)
    requires Strip(s) != "" && '|' !in s && '\n' !in s
    ensures KeywordParser.ParseKeywords(s) == [KeywordParser.NoKeywords]
  {
    SplitNoSeparator(s, '\n');
    StripFree(s, '|');
    assert KeywordParser.ParseLine(s).None?;
    FilterMapCons(KeywordParser.ParseLine, s, []);
    assert [s] + [] == [s];
  }

  /** A line without `ORIGINAL:` or a line break is a single block. */
  lemma SingleBlock(s: string)
    requires '\n' !in s && 'O' !in s
    ensures ImprovementParser.Blocks(s) == [s]
  {
    assert ImprovementParser.OriginalTag[0] == 'O';
    forall k | 0 <= k < |s| ensures !ImprovementParser.CutAt((s + "")[k..]) {
      assert (s + "")[k..] == s[k..];
      assert s[k] != '\n' && s[k] != 'O';
    }
    ImprovementParser.ScanPlain(s, "", "");
    assert s + "" == s && "" + s == s;
  }

  /** A stripped line that starts with no tag names no original text. */
  lemma UntaggedBlock(s: string)
    requires s != "" && IsStripped(s) && '\n' !in s && s[0] != 'O' && s[0] != 'I' && s[0] != 'R'
    ensures ImprovementParser.BlockImprovement(s).None?
  {
    SplitNoSeparator(s, '\n');
    StripStripped(s);
    assert ImprovementParser.OriginalTag[0] == 'O' && ImprovementParser.ImprovedTag[0] == 'I';
    assert ImprovementParser.ReasonTag[0] == 'R' && ImprovementParser.ImpactTag[0] == 'I';
    assert ImprovementParser.ReadLine(ImprovementParser.Start, s) == ImprovementParser.Start;
    assert [s][1..] == [];
    assert FoldLeft(ImprovementParser.ReadLine, ImprovementParser.Start, [s]) ==
           FoldLeft(ImprovementParser.ReadLine, ImprovementParser.ReadLine(ImprovementParser.Start, s), []);
  }

  /** One line of text that starts with no tag parses to the "no improvements" sentinel. */
  lemma LineWithoutTag(s: string)
    requires s != "" && IsStripped(s) && '\n' !in s && 'O' !in s && s[0] != 'I' && s[0] != 'R'
    ensures ImprovementParser.ParseImprovements(s) == [ImprovementParser.NoImprovements]
  {
    SingleBlock(s);
    UntaggedBlock(s);
    FilterMapCons(ImprovementParser.BlockImprovement, s, []);
    assert [s] + [] == [s];
    StripStripped(s);
  }

  lemma NoAnalysisShape()
    ensures BulletFallback.Phrase(NoAnalysisText) && NoAnalysisText[0] == 'N'
  {
  }

  /** A prompt that names none of the markers gets the fixed sentence, which both parsers read
      as their "nothing found" sentinel. */
  lemma UnmarkedPromptFallback(prompt: string)
    requires !Contains(Lower(prompt), "keyword") && !Contains(Lower(prompt), "bullet") && !Contains(Lower(prompt), "improve")
    ensures FallbackAnalysis(prompt) == NoAnalysisText
    ensures KeywordParser.ParseKeywords(FallbackAnalysis(prompt)) == [KeywordParser.NoKeywords]
    ensures ImprovementParser.ParseImprovements(FallbackAnalysis(prompt)) == [ImprovementParser.NoImprovements]
  {
    var s := NoAnalysisText;
    NoAnalysisShape();
    assert BulletFallback.Words(s[1..]) by {
      forall i | 0 <= i < |s[1..]| ensures IsLowerChar(s[1..][i]) || s[1..][i] == ' ' {
        assert s[1..][i] == s[i + 1];
      }
    }
    BulletFallback.WordsLack(s[1..], '|');
    BulletFallback.WordsLack(s[1..], '\n');
    BulletFallback.WordsLack(s[1..], 'O');
    assert s == [s[0]] + s[1..];
    assert Strip(s) != "" by { StripStripped(s); }
    LineWithoutPipe(s);
    LineWithoutTag(s);
  }
}
