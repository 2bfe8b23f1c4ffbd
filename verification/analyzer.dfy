/** `AIAnalyzer.extract_keywords_advanced` and `improve_bullets_advanced`
    (backend/ai_analyzer.py): the prompts built from the user's texts, sent through the
    gateway and parsed back into records. */
module Analyzer {
  import opened Wrappers
  import opened Strings
  import opened Records
  import opened ResumeSections
  import KeywordParser
  import ImprovementParser
  import KeywordFallback
  import BulletFallback
  import Fallback
  import Gateway
  import Segments

  // ---------------------------------------------------------------------------
  // Prompts. The fixed texts are written in short pieces so that facts about their
  // letters stay cheap to prove.

  /** The keyword prompt up to the job description. */
  const KeywordIntro: string := "Analyze " + "job " + KeywordTask + "resume.\n" + KeywordFormat + "JOB: "
  const KeywordTask: string := "description for " + "missing" + " technical " + "skills in "
  const KeywordFormat: string := "Format: skill|" + "importance|" + "frequency|" + "context\n"
  const ResumeLabel: string := "\nRESUME: "

  /** The prompt of `extract_keywords_advanced`: at most 200 characters of each text. */
  function KeywordPrompt(jobDescription: string, resume: string): string {
    KeywordIntro + Prefix(jobDescription, 200) + ResumeLabel + Prefix(resume, 200)
  }

  /** The bullet prompt up to the experience text. */
  const BulletIntro: string :=
    "Improve resume bullet " + "points for job " + "requirements.\n" + "Format:\n" +
    "ORIGINAL: [text]\n" + "IMPROVED: [text]\n" + "REASON: " + "[explanation]\n" +
    "IMPACT: [1-10]\n\n" + "EXPERIENCE: "
  const JobLabel: string := "\nJOB: "
  const GeneralExperience: string := "General work " + "experience"

  /** `resume_sections.get('experience', '')[:100]`. */
  function ExperiencePart(sections: map<Section, string>): (r: string)
    ensures |r| <= 100
  {
    Prefix(if Experience in sections then sections[Experience] else "", 100)
  }

  /** The experience text of the bullet prompt: the section's first 100 characters, or a
      stand-in when that is empty. */
  function ExperienceBlurb(sections: map<Section, string>): (r: string)
    ensures r != "" && |r| <= 100
    ensures ExperiencePart(sections) != "" ==> r == ExperiencePart(sections)
    ensures ExperiencePart(sections) == "" ==> r == GeneralExperience
  {
    var part := ExperiencePart(sections);
    if part == "" then GeneralExperience else part
  }

  /** The prompt of `improve_bullets_advanced`. */
  function BulletPrompt(sections: map<Section, string>, jobDescription: string): string {
    BulletIntro + ExperienceBlurb(sections) + JobLabel + Prefix(jobDescription, 100)
  }

  // ---------------------------------------------------------------------------
  // The two analyses

  /** `extract_keywords_advanced`: never empty, and every importance a known level. */
  function ExtractKeywords(jobDescription: string, resume: string, net: Gateway.Network): (r: seq<Keyword>)
    ensures |r| >= 1
    ensures forall i :: 0 <= i < |r| ==> KeywordParser.IsLevel(r[i].importance)
  {
    KeywordParser.ParseKeywords(Gateway.Analyze(KeywordPrompt(jobDescription, resume), Gateway.DefaultRetries, net).text)
  }

  /** `improve_bullets_advanced`: never empty, and every improvement well formed. */
  function ImproveBullets(sections: map<Section, string>, jobDescription: string, net: Gateway.Network): (r: seq<BulletImprovement>)
    ensures |r| >= 1
    ensures forall i :: 0 <= i < |r| ==> ImprovementParser.WellFormed(r[i])
  {
    ImprovementParser.ParseImprovements(Gateway.Analyze(BulletPrompt(sections, jobDescription), Gateway.DefaultRetries, net).text)
  }

  /** The service is not used for this prompt: it is short, or the probe failed. */
  predicate Offline(prompt: string, net: Gateway.Network) {
    |prompt| < Gateway.ShortPrompt || !Gateway.ModelAvailable(net.probe)
  }

  // ---------------------------------------------------------------------------
  // Prompt shapes

  /** The keyword prompt carries 121 fixed characters and at most 200 of each text, so it
      can exceed 500 characters and be cut before it is sent. */
  lemma KeywordPromptLength(jobDescription: string, resume: string)
    ensures |KeywordPrompt(jobDescription, resume)| ==
            121 + |Prefix(jobDescription, 200)| + |Prefix(resume, 200)|
    ensures |KeywordPrompt(jobDescription, resume)| <= 521
  {
  }

  /** The bullet prompt is never longer than 500 characters, so it is sent as it is and the
      fallback after failed requests sees the same prompt. */
  lemma BulletPromptUncut(sections: map<Section, string>, jobDescription: string)
    ensures var p := BulletPrompt(sections, jobDescription);
            |p| <= Gateway.PromptLimit && Gateway.Truncate(p) == p && |p| >= 150
  {
  }

  /** No character of `s` is `c` or `d`. */
  predicate Lacks(s: string, c: char, d: char) {
    forall i :: 0 <= i < |s| ==> s[i] != c && s[i] != d
  }

  /** A text with neither case of a letter has no such letter once lower-cased. */
  lemma LowerWithout(s: string, c: char, d: char)
    requires Lacks(s, c, d) && IsLowerChar(c) && d as int == c as int - 32
    ensures c !in Lower(s)
  {
    forall i | 0 <= i < |s| ensures Lower(s)[i] != c {
      assert s[i] != c && s[i] != d;
    }
  }

  /** In `intro + a + middle + b` whose fixed parts lack `w` and cannot join a match across
      their edges, `w` occurs (case-insensitively) iff it occurs in `a` or in `b`. */
  lemma {:induction false} MarkerFromUserText(intro: string, a: string, middle: string, b: string, w: string)
    requires |intro| > 0 && |middle| > 0
    requires !Contains(Lower(intro), w) && !Contains(Lower(middle), w)
    requires Lower(intro)[|intro| - 1] !in w && Lower(middle)[0] !in w && Lower(middle)[|middle| - 1] !in w
    ensures Contains(Lower(intro + a + middle + b), w) <==> Contains(Lower(a), w) || Contains(Lower(b), w)
  {
    var li, la, ll, lb := Lower(intro), Lower(a), Lower(middle), Lower(b);
    LowerAppend(intro, a);
    LowerAppend(intro + a, middle);
    LowerAppend(intro + a + middle, b);
    assert Lower(intro + a + middle + b) == li + la + ll + lb;
    if Contains(la, w) {
      ContainsInfix(li, la, ll + lb, w);
      assert li + la + (ll + lb) == li + la + ll + lb;
    }
    if Contains(lb, w) {
      ContainsInfix(li + la + ll, lb, "", w);
      assert li + la + ll + lb + "" == li + la + ll + lb;
    }
    if !Contains(la, w) && !Contains(lb, w) {
      NotContainsJoined(li, la, w);
      NotContainsJoined(li + la, ll, w);
      assert (li + la + ll)[|li + la + ll| - 1] == ll[|ll| - 1];
      NotContainsJoined(li + la + ll, lb, w);
    }
  }

  lemma KeywordIntroLacksW()
    ensures Lacks(KeywordIntro, 'w', 'W') && Lacks(ResumeLabel, 'w', 'W')
  {
    var a1, a2, a3, a4 := "description for ", "missing", " technical ", "skills in ";
    var b1, b2, b3, b4 := "Format: skill|", "importance|", "frequency|", "context\n";
    assert Lacks(a1, 'w', 'W') && Lacks(a2, 'w', 'W') && Lacks(a3, 'w', 'W') && Lacks(a4, 'w', 'W');
    assert Lacks(b1, 'w', 'W') && Lacks(b2, 'w', 'W') && Lacks(b3, 'w', 'W') && Lacks(b4, 'w', 'W');
    LacksAppend(a1, a2, 'w', 'W');
    LacksAppend(a1 + a2, a3, 'w', 'W');
    LacksAppend(a1 + a2 + a3, a4, 'w', 'W');
    LacksAppend(b1, b2, 'w', 'W');
    LacksAppend(b1 + b2, b3, 'w', 'W');
    LacksAppend(b1 + b2 + b3, b4, 'w', 'W');
    var c1, c2, c3 := "Analyze ", "job ", "resume.\n";
    assert Lacks(c1, 'w', 'W') && Lacks(c2, 'w', 'W') && Lacks(c3, 'w', 'W') && Lacks("JOB: ", 'w', 'W');
    LacksAppend(c1, c2, 'w', 'W');
    LacksAppend(c1 + c2, KeywordTask, 'w', 'W');
    LacksAppend(c1 + c2 + KeywordTask, c3, 'w', 'W');
    LacksAppend(c1 + c2 + KeywordTask + c3, KeywordFormat, 'w', 'W');
    LacksAppend(c1 + c2 + KeywordTask + c3 + KeywordFormat, "JOB: ", 'w', 'W');
  }

  lemma LacksAppend(a: string, b: string, c: char, d: char)
    requires Lacks(a, c, d) && Lacks(b, c, d)
    ensures Lacks(a + b, c, d)
  {
    forall i | 0 <= i < |a + b| ensures (a + b)[i] != c && (a + b)[i] != d {
      if i >= |a| {
        assert (a + b)[i] == b[i - |a|];
      }
    }
  }

  lemma BulletHeadLacksW()
    ensures Lacks("Improve resume bullet " + "points for job " + "requirements.\n" + "Format:\n" +
                  "ORIGINAL: [text]\n", 'w', 'W')
  {
    assert Lacks("Improve resume bullet ", 'w', 'W');
    assert Lacks("points for job ", 'w', 'W');
    assert Lacks("requirements.\n", 'w', 'W');
    assert Lacks("Format:\n", 'w', 'W');
    assert Lacks("ORIGINAL: [text]\n", 'w', 'W');
  }

  lemma BulletIntroLacksW()
    ensures Lacks(BulletIntro, 'w', 'W') && Lacks(JobLabel, 'w', 'W')
  {
    BulletHeadLacksW();
    assert Lacks("IMPROVED: [text]\n", 'w', 'W');
    assert Lacks("REASON: ", 'w', 'W');
    assert Lacks("[explanation]\n", 'w', 'W');
    assert Lacks("IMPACT: [1-10]\n\n", 'w', 'W');
    assert Lacks("EXPERIENCE: ", 'w', 'W');
  }

  /** The stand-in experience text has no `y`, so it never mentions "keyword". */
  lemma GeneralExperienceQuiet()
    ensures !Contains(Lower(GeneralExperience), "keyword")
  {
    assert Lacks("General work ", 'y', 'Y');
    assert Lacks("experience", 'y', 'Y');
    LowerWithout(GeneralExperience, 'y', 'Y');
    NotContainsMissingChar(Lower(GeneralExperience), "keyword", 2);
  }

  /** A text with no `w` in either case, ending with a space, as the keyword marker needs. */
  lemma QuietPart(s: string)
    requires |s| > 0 && Lacks(s, 'w', 'W')
    ensures !Contains(Lower(s), "keyword")
  {
    LowerWithout(s, 'w', 'W');
    NotContainsMissingChar(Lower(s), "keyword", 3);
  }

  /** The keyword prompt itself never says "keyword": whether the fallback treats it as a
      keyword request depends only on the user's two texts. */
  lemma KeywordPromptMarker(jobDescription: string, resume: string)
    ensures Contains(Lower(KeywordPrompt(jobDescription, resume)), "keyword") <==>
            Contains(Lower(Prefix(jobDescription, 200)), "keyword") || Contains(Lower(Prefix(resume, 200)), "keyword")
  {
    KeywordIntroLacksW();
    KeywordEdges();
    MarkerOutsideFixedParts(KeywordIntro, Prefix(jobDescription, 200), ResumeLabel, Prefix(resume, 200));
  }

  lemma KeywordEdges()
    ensures KeywordIntro[|KeywordIntro| - 1] == ' '
    ensures ResumeLabel[0] == '\n' && ResumeLabel[|ResumeLabel| - 1] == ' '
  {
  }

  lemma BulletEdges()
    ensures BulletIntro[|BulletIntro| - 1] == ' '
    ensures JobLabel[0] == '\n' && JobLabel[|JobLabel| - 1] == ' '
  {
  }

  /** Fixed parts without `w` that end in a space, the middle one opening with a line break,
      leave the word "keyword" to the two texts between them. */
  lemma MarkerOutsideFixedParts(intro: string, a: string, middle: string, b: string)
    requires |intro| > 0 && |middle| > 0 && Lacks(intro, 'w', 'W') && Lacks(middle, 'w', 'W')
    requires intro[|intro| - 1] == ' ' && middle[0] == '\n' && middle[|middle| - 1] == ' '
    ensures Contains(Lower(intro + a + middle + b), "keyword") <==>
            Contains(Lower(a), "keyword") || Contains(Lower(b), "keyword")
  {
    QuietPart(intro);
    QuietPart(middle);
    MarkerFromUserText(intro, a, middle, b, "keyword");
  }

  /** The bullet prompt says "keyword" only when the user's experience or job text does. */
  lemma BulletPromptMarker(sections: map<Section, string>, jobDescription: string)
    ensures Contains(Lower(BulletPrompt(sections, jobDescription)), "keyword") <==>
            Contains(Lower(ExperiencePart(sections)), "keyword") || Contains(Lower(Prefix(jobDescription, 100)), "keyword")
  {
    BulletIntroLacksW();
    BulletEdges();
    MarkerOutsideFixedParts(BulletIntro, ExperienceBlurb(sections), JobLabel, Prefix(jobDescription, 100));
    if ExperiencePart(sections) == "" {
      GeneralExperienceQuiet();
      assert Lower("") == "";
    }
  }

  /** The bullet prompt always asks to "improve". */
  lemma BulletPromptAsksToImprove(sections: map<Section, string>, jobDescription: string)
    ensures Contains(Lower(BulletPrompt(sections, jobDescription)), "improve")
  {
    var p := BulletPrompt(sections, jobDescription);
    var lead := "Improve resume bullet ";
    assert p[..7] == lead[..7] == "Improve";
    LeadingImprove(p);
  }

  lemma LeadingImprove(p: string)
    requires |p| >= 7 && p[..7] == "Improve"
    ensures Contains(Lower(p), "improve")
  {
    assert p == "Improve" + p[7..];
    LowerAppend("Improve", p[7..]);
    LowerImprove();
    assert Contains("improve", "improve");
    ContainsInfix("", "improve", Lower(p[7..]), "improve");
    assert "" + "improve" + Lower(p[7..]) == Lower(p);
  }

  lemma LowerImprove()
    ensures Lower("Improve") == "improve"
  {
    assert LowerChar('I') == 'i';
  }

  // ---------------------------------------------------------------------------
  // What the analyses return without the service

  /** Offline, a user text that mentions "keyword" gets the report of the keyword fallback,
      built from the segments its `JOB:?` and `RESUME:?` patterns cut out of the prompt.
      Those segments never tell the user's texts apart, so the report is always that every
      key skill is present (`KeywordSegments.KeywordsOfflineAllPresent`). */
  lemma KeywordsOfflineWithMarker(jobDescription: string, resume: string, net: Gateway.Network)
    requires Offline(KeywordPrompt(jobDescription, resume), net)
    requires Contains(Lower(Prefix(jobDescription, 200)), "keyword") || Contains(Lower(Prefix(resume, 200)), "keyword")
    ensures ExtractKeywords(jobDescription, resume, net) ==
            KeywordFallback.ShippedKeywordReport(KeywordPrompt(jobDescription, resume))
  {
    KeywordPromptMarker(jobDescription, resume);
    Fallback.KeywordPromptFallback(KeywordPrompt(jobDescription, resume));
  }

  /** Offline, a user text that never says "keyword" does not get the keyword fallback at
      all: a prompt that says "bullet" or "improve" gets what the bullet fallback's text
      parses to, and any other gets the "no keywords" sentinel. */
  lemma KeywordsOfflineWithoutMarker(jobDescription: string, resume: string, net: Gateway.Network)
    requires Offline(KeywordPrompt(jobDescription, resume), net)
    requires !Contains(Lower(Prefix(jobDescription, 200)), "keyword") && !Contains(Lower(Prefix(resume, 200)), "keyword")
    ensures var p := Lower(KeywordPrompt(jobDescription, resume));
            var r := ExtractKeywords(jobDescription, resume, net);
            (Contains(p, "bullet") || Contains(p, "improve") ==>
               r == KeywordParser.ParseKeywords(BulletFallback.BulletText(KeywordPrompt(jobDescription, resume)))) &&
            (!Contains(p, "bullet") && !Contains(p, "improve") ==> r == [KeywordParser.NoKeywords])
  {
    var p := KeywordPrompt(jobDescription, resume);
    KeywordPromptMarker(jobDescription, resume);
    if !Contains(Lower(p), "bullet") && !Contains(Lower(p), "improve") {
      Fallback.UnmarkedPromptFallback(p);
    }
  }

  /** Offline, a bullet request whose user texts never say "keyword" gets the bullet
      fallback's single suggestion, provided the first bullet reads back. */
  lemma BulletsOffline(sections: map<Section, string>, jobDescription: string, net: Gateway.Network)
    requires Offline(BulletPrompt(sections, jobDescription), net)
    requires !Contains(Lower(ExperiencePart(sections)), "keyword") && !Contains(Lower(Prefix(jobDescription, 100)), "keyword")
    requires var bs := BulletFallback.Bullets(Segments.ExperienceText(BulletPrompt(sections, jobDescription)));
             |bs| > 0 ==> bs[0] != "" && !Contains(bs[0], ImprovementParser.OriginalTag)
    ensures ImproveBullets(sections, jobDescription, net) ==
            [BulletFallback.BulletSuggestion(BulletPrompt(sections, jobDescription))]
  {
    var p := BulletPrompt(sections, jobDescription);
    BulletPromptMarker(sections, jobDescription);
    BulletPromptAsksToImprove(sections, jobDescription);
    Fallback.BulletPromptFallback(p);
  }

  /** Offline, a bullet request whose experience or job excerpt mentions "keyword" gets the
      keyword fallback's report, in which the parser finds no original bullet: the answer is
      the "Performed duties" sentinel. */
  lemma BulletsOfflineWithMarker(sections: map<Section, string>, jobDescription: string, net: Gateway.Network)
    requires Offline(BulletPrompt(sections, jobDescription), net)
    requires Contains(Lower(ExperiencePart(sections)), "keyword") || Contains(Lower(Prefix(jobDescription, 100)), "keyword")
    ensures ImproveBullets(sections, jobDescription, net) == [ImprovementParser.NoImprovements]
  {
    BulletPromptMarker(sections, jobDescription);
    Fallback.KeywordPromptBulletSentinel(BulletPrompt(sections, jobDescription));
  }

  /** Offline, a bullet request whose first bullet is empty gets the "Performed duties"
      sentinel. */
  lemma BulletsOfflineEmptyBullet(sections: map<Section, string>, jobDescription: string, net: Gateway.Network)
    requires Offline(BulletPrompt(sections, jobDescription), net)
    requires !Contains(Lower(ExperiencePart(sections)), "keyword") && !Contains(Lower(Prefix(jobDescription, 100)), "keyword")
    requires var bs := BulletFallback.Bullets(Segments.ExperienceText(BulletPrompt(sections, jobDescription)));
             |bs| > 0 && bs[0] == ""
    ensures ImproveBullets(sections, jobDescription, net) == [ImprovementParser.NoImprovements]
  {
    var p := BulletPrompt(sections, jobDescription);
    BulletPromptMarker(sections, jobDescription);
    BulletPromptAsksToImprove(sections, jobDescription);
    BulletFallback.EmptyBulletSentinel(p);
  }
}
