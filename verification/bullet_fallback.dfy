/** `AIAnalyzer._fallback_bullet_analysis` (backend/ai_analyzer.py): one improvement block for
    the first bullet of the prompt's experience text. */
module BulletFallback {
  import opened Wrappers
  import opened Seqs
  import opened Strings
  import opened Records
  import opened Segments
  import ImprovementParser

  predicate IsMarker(c: char) {
    c == '•' || c == '-' || c == ' '
  }

  /** `line.lstrip('•- ')`. */
  function TrimMarkers(s: string): (r: string)
    ensures |r| <= |s| && r == s[|s| - |r|..]
    ensures forall i :: 0 <= i < |s| - |r| ==> IsMarker(s[i])
    ensures |r| > 0 ==> !IsMarker(r[0])
  {
    if |s| > 0 && IsMarker(s[0]) then
      var r := TrimMarkers(s[1..]);
      assert s[1..][|s| - 1 - |r|..] == s[|s| - |r|..];
      assert forall i :: 1 <= i < |s| - |r| ==> s[i] == s[1..][i - 1];
      r
    else s
  }

  /** The bullet text of a line that starts with `•` or `-` and is not blank. */
  function BulletOf(line: string): Option<string> {
    if Strip(line) != "" && (StartsWith(line, "•") || StartsWith(line, "-")) then Some(Strip(TrimMarkers(line)))
    else None
  }

  /** The bullets of the experience text, in line order. */
  function Bullets(experience: string): seq<string> {
    FilterMap(BulletOf, Split(experience, '\n'))
  }

  /** The suggestion for a first bullet `b`. */
  function Improvement(b: string): BulletImprovement {
    BulletImprovement(b, "Enhanced " + Lower(b) + " with modern technologies", "Added impact", 8)
  }

  /** The suggestion when the prompt has no bullet. */
  const DefaultImprovement: BulletImprovement :=
    BulletImprovement("Developed software", "Developed scalable software solutions", "Added specificity", 7)

  function BulletSuggestion(prompt: string): BulletImprovement {
    var bs := Bullets(ExperienceText(prompt));
    if |bs| == 0 then DefaultImprovement else Improvement(bs[0])
  }

  /** `_fallback_bullet_analysis`: one `ORIGINAL:/IMPROVED:/REASON:/IMPACT:` block. */
  function BulletText(prompt: string): string {
    ImprovementParser.FormatImprovement(BulletSuggestion(prompt))
  }

  lemma TrimmedFree(line: string)
    requires '\n' !in line
    ensures var b := Strip(TrimMarkers(line)); IsStripped(b) && '\n' !in b
  {
    var t := TrimMarkers(line);
    assert forall i :: 0 <= i < |t| ==> t[i] == line[|line| - |t| + i];
    StripFree(t, '\n');
  }

  /** Every bullet is stripped and on one line. */
  lemma BulletsShape(experience: string)
    ensures forall i :: 0 <= i < |Bullets(experience)| ==> IsStripped(Bullets(experience)[i]) && '\n' !in Bullets(experience)[i]
  {
    var lines := Split(experience, '\n');
    SplitPiecesFree(experience, '\n');
    forall line | '\n' !in line && BulletOf(line).Some?
      ensures IsStripped(BulletOf(line).value) && '\n' !in BulletOf(line).value
    {
      TrimmedFree(line);
    }
    OriginsSource(BulletOf, lines);
  }

  /** A text lacking the first letters of `ORIGINAL:` and of `tag` reads back after `tag`. */
  lemma TextWithout(s: string, tag: string, c: char)
    requires s != "" && IsStripped(s) && '\n' !in s && 'O' !in s
    requires |tag| > 0 && tag[0] == c && c !in s
    ensures ImprovementParser.IsText(s, tag)
  {
    assert ImprovementParser.OriginalTag[0] == 'O';
    NotContainsMissingChar(s, ImprovementParser.OriginalTag, 0);
    NotContainsMissingChar(s, tag, 0);
  }

  /** Lower-case letters and spaces. */
  predicate Words(s: string) {
    forall i :: 0 <= i < |s| ==> IsLowerChar(s[i]) || s[i] == ' '
  }

  lemma WordsLack(s: string, c: char)
    requires Words(s) && !IsLowerChar(c) && c != ' '
    ensures c !in s
  {
  }

  /** A capital letter followed by lower-case words. */
  predicate Phrase(s: string) {
    |s| >= 2 && IsUpperChar(s[0]) && s[|s| - 1] != ' ' &&
    forall i :: 1 <= i < |s| ==> IsLowerChar(s[i]) || s[i] == ' '
  }

  /** A phrase whose capital is neither `O` nor the tag's first letter reads back after the tag. */
  lemma PhraseText(s: string, tag: string)
    requires Phrase(s) && s[0] != 'O'
    requires |tag| > 0 && IsUpperChar(tag[0]) && s[0] != tag[0]
    ensures ImprovementParser.IsText(s, tag)
  {
    TextWithout(s, tag, tag[0]);
  }

  /** No upper-case letter occurs in a lower-cased text, and neither does a line break the
      text lacked. */
  lemma LowerLacks(s: string, c: char)
    requires IsUpperChar(c) || (c !in s && !IsLowerChar(c) && !IsUpperChar(c))
    ensures c !in Lower(s)
  {
    if !IsUpperChar(c) {
      forall i | 0 <= i < |s| ensures Lower(s)[i] != c {
        assert s[i] != c;
      }
    }
  }

  lemma ImprovedText(b: string)
    requires '\n' !in b
    ensures ImprovementParser.IsText("Enhanced " + Lower(b) + " with modern technologies", ImprovementParser.ImprovedTag)
  {
    var head := "Enhanced ";
    var tail := " with modern technologies";
    var improved := head + Lower(b) + tail;
    LowerLacks(b, 'O');
    LowerLacks(b, 'I');
    LowerLacks(b, '\n');
    assert head == "E" + "nhanced ";
    assert Words("nhanced ") && Words(tail);
    WordsLack("nhanced ", 'O');
    WordsLack("nhanced ", 'I');
    WordsLack("nhanced ", '\n');
    WordsLack(tail, 'O');
    WordsLack(tail, 'I');
    WordsLack(tail, '\n');
    assert improved[0] == 'E' && improved[|improved| - 1] == 's';
    assert ImprovementParser.ImprovedTag[0] == 'I';
    TextWithout(improved, ImprovementParser.ImprovedTag, 'I');
  }

  /** Both fixed reasons of the fallback, "Added impact" and "Added specificity", read back. */
  lemma ReasonText(reason: string)
    requires reason == "Added impact" || reason == "Added specificity"
    ensures ImprovementParser.IsText(reason, ImprovementParser.ReasonTag)
  {
    if reason == "Added impact" {
      assert Phrase("Added impact");
    } else {
      assert Phrase("Added specificity");
    }
    PhraseText(reason, ImprovementParser.ReasonTag);
  }

  /** The suggestion for a non-empty bullet that does not itself start a block reads back. */
  lemma ImprovementPrintable(b: string)
    requires b != "" && IsStripped(b) && '\n' !in b && !Contains(b, ImprovementParser.OriginalTag)
    ensures ImprovementParser.Printable(Improvement(b))
  {
    ImprovedText(b);
    ReasonText("Added impact");
  }

  lemma DefaultOriginalText()
    ensures ImprovementParser.IsText("Developed software", ImprovementParser.OriginalTag)
  {
    assert Phrase("Developed software");
    PhraseText("Developed software", ImprovementParser.OriginalTag);
  }

  lemma DefaultImprovedText()
    ensures ImprovementParser.IsText("Developed scalable software solutions", ImprovementParser.ImprovedTag)
  {
    assert Phrase("Developed scalable software solutions");
    PhraseText("Developed scalable software solutions", ImprovementParser.ImprovedTag);
  }

  lemma DefaultPrintable()
    ensures ImprovementParser.Printable(DefaultImprovement)
  {
    DefaultOriginalText();
    DefaultImprovedText();
    ReasonText("Added specificity");
  }

  /** `parse_improvements` reads the bullet fallback's block back as its suggestion: the fixed
      one when there is no bullet, else the one for the first bullet, provided that bullet is
      not empty and does not itself hold `ORIGINAL:`. */
  lemma BulletTextParses(prompt: string)
    requires var bs := Bullets(ExperienceText(prompt));
             |bs| > 0 ==> bs[0] != "" && !Contains(bs[0], ImprovementParser.OriginalTag)
    ensures ImprovementParser.ParseImprovements(BulletText(prompt)) == [BulletSuggestion(prompt)]
  {
    SuggestionPrintable(prompt);
    OneBlockParses(BulletSuggestion(prompt));
  }

  /** A first bullet that is empty (an experience line of only markers, such as "-") gives a
      block with an empty `ORIGINAL:`, which `parse_improvements` skips, so the result is the
      "Performed duties" sentinel. */
  lemma EmptyBulletSentinel(prompt: string)
    requires var bs := Bullets(ExperienceText(prompt)); |bs| > 0 && bs[0] == ""
    ensures ImprovementParser.ParseImprovements(BulletText(prompt)) == [ImprovementParser.NoImprovements]
  {
    var b := Improvement("");
    assert BulletSuggestion(prompt) == b;
    ImprovedText("");
    ReasonText("Added impact");
    assert !Contains("", ImprovementParser.OriginalTag) by {
      NotContainsShorter("", ImprovementParser.OriginalTag);
    }
    assert ImprovementParser.Writable(b);
    ImprovementParser.EmptyOriginalSentinel(b);
  }

  lemma SuggestionPrintable(prompt: string)
    requires var bs := Bullets(ExperienceText(prompt));
             |bs| > 0 ==> bs[0] != "" && !Contains(bs[0], ImprovementParser.OriginalTag)
    ensures ImprovementParser.Printable(BulletSuggestion(prompt))
  {
    var bs := Bullets(ExperienceText(prompt));
    if |bs| == 0 {
      DefaultPrintable();
    } else {
      BulletsShape(ExperienceText(prompt));
      ImprovementPrintable(bs[0]);
    }
  }

  lemma OneBlockParses(x: BulletImprovement)
    requires ImprovementParser.Printable(x)
    ensures ImprovementParser.ParseImprovements(ImprovementParser.FormatImprovement(x)) == [x]
  {
    ImprovementParser.ParseImprovementsRoundTrip([x]);
    assert ImprovementParser.FormatAll([x]) == [ImprovementParser.FormatImprovement(x)];
  }
}
