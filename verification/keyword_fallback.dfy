/** `AIAnalyzer._fallback_keyword_analysis` (backend/ai_analyzer.py): the vocabulary terms the
    job text names and the résumé text does not, as `term|importance|count|context` lines. */
module KeywordFallback {
  import opened Wrappers
  import opened Seqs
  import opened Strings
  import opened Records
  import opened Segments
  import KeywordParser

  /** `AIAnalyzer.tech_keywords`, in its order. */
  const TechTerms: seq<string> :=
    ["python", "javascript", "react", "nodejs", "node.js", "java",
     "aws", "docker", "sql", "git", "agile", "typescript",
     "kubernetes", "mongodb", "express", "angular", "vue"]

  /** Importance from a term's count in the job text. */
  function Level(freq: nat): (r: string)
    ensures KeywordParser.IsLevel(r)
    ensures r == "high" <==> freq > 2
    ensures r == "low" <==> freq <= 1
  {
    if freq > 2 then "high" else if freq > 1 then "medium" else "low"
  }

  /** The term is named in the job text and not in the résumé text. */
  predicate IsMissing(job: string, resume: string, term: string) {
    Contains(job, Lower(term)) && !Contains(resume, Lower(term))
  }

  /** The report line for a missing term. */
  function Reported(job: string, term: string): Keyword {
    var freq := Count(job, Lower(term));
    Keyword(term, Level(freq), freq, "Required skill")
  }

  /** The report for one term, when it is missing. */
  function MissingTerm(job: string, resume: string): string -> Option<Keyword> {
    (term: string) => if IsMissing(job, resume, term) then Some(Reported(job, term)) else None
  }

  /** The missing terms of a vocabulary, in vocabulary order. */
  function MissingSkills(job: string, resume: string, terms: seq<string>): seq<Keyword> {
    FilterMap(MissingTerm(job, resume), terms)
  }

  const NoJobDescription: Keyword := Keyword("None", "low", 0, "No job description provided")
  const AllSkillsPresent: Keyword := Keyword("None", "low", 0, "All key skills present")

  /** What the keyword fallback reports from a vocabulary: a sentinel when the job text is
      empty or no term is missing, else the first three missing terms. */
  function Report(job: string, resume: string, terms: seq<string>): (r: seq<Keyword>)
    ensures 1 <= |r| <= 3
    ensures job == "" ==> r == [NoJobDescription]
  {
    if job == "" then [NoJobDescription]
    else
      var ms := MissingSkills(job, resume, terms);
      if |ms| == 0 then [AllSkillsPresent]
      else if |ms| <= 3 then ms else ms[..3]
  }

  /** The report as `_fallback_keyword_analysis` builds it, from the segments its patterns
      `JOB:?` and `RESUME:?` cut out. */
  function ShippedKeywordReport(prompt: string): seq<Keyword> {
    Report(JobText(prompt), ResumeText(prompt), TechTerms)
  }

  /** The corrected report, from the texts after the labels "JOB:" and "RESUME:", the colon
      required. The fallback itself uses the shipped segments. */
  function KeywordReport(prompt: string): seq<Keyword> {
    Report(LabelledJobText(prompt), LabelledResumeText(prompt), TechTerms)
  }

  /** `_fallback_keyword_analysis`: the report built from the segments its patterns cut out,
      one `term|importance|count|context` line each. */
  function KeywordText(prompt: string): string {
    Join(KeywordParser.FormatAll(ShippedKeywordReport(prompt)), "\n")
  }

  /** The same lines for the report cut at the labels. */
  function LabelledKeywordText(prompt: string): string {
    Join(KeywordParser.FormatAll(KeywordReport(prompt)), "\n")
  }

  /** `ks` lists terms of the vocabulary at the increasing positions `pos`. */
  predicate InVocabularyOrder(ks: seq<Keyword>, terms: seq<string>, pos: seq<nat>) {
    |pos| == |ks| &&
    (forall i :: 0 <= i < |pos| ==> pos[i] < |terms| && ks[i].keyword == terms[pos[i]]) &&
    (forall i, j :: 0 <= i < j < |pos| ==> pos[i] < pos[j])
  }

  /** The missing skills are vocabulary terms listed in vocabulary order. */
  lemma MissingSkillsOrder(job: string, resume: string, terms: seq<string>)
    ensures InVocabularyOrder(MissingSkills(job, resume, terms), terms, Origins(MissingTerm(job, resume), terms))
  {
    OriginsSource(MissingTerm(job, resume), terms);
    OriginsIncrease(MissingTerm(job, resume), terms);
  }

  /** Each missing skill is in the job text and not in the résumé text, and carries its count
      in the job text and the importance that count gives. */
  lemma MissingSkillsSound(job: string, resume: string, terms: seq<string>)
    ensures var ms := MissingSkills(job, resume, terms);
            forall i :: 0 <= i < |ms| ==> IsMissing(job, resume, ms[i].keyword) && ms[i] == Reported(job, ms[i].keyword)
  {
    FilterMapKeeps(MissingTerm(job, resume), terms,
                   (k: Keyword) => IsMissing(job, resume, k.keyword) && k == Reported(job, k.keyword));
  }

  /** Every vocabulary term in the job text and not in the résumé text is reported. */
  lemma MissingSkillsComplete(job: string, resume: string, terms: seq<string>, k: nat)
    requires k < |terms| && IsMissing(job, resume, terms[k])
    ensures exists i :: 0 <= i < |MissingSkills(job, resume, terms)| && MissingSkills(job, resume, terms)[i].keyword == terms[k]
  {
    var f := MissingTerm(job, resume);
    var ms := MissingSkills(job, resume, terms);
    var pos := Origins(f, terms);
    OriginsSource(f, terms);
    OriginsComplete(f, terms);
    assert f(terms[k]).Some?;
    var i :| 0 <= i < |pos| && pos[i] == k;
    assert ms[i].keyword == terms[k];
  }

  // ---------------------------------------------------------------------------
  // The keyword report reads back through `parse_keywords`

  /** Lower-case letters and dots only, as every vocabulary term is. */
  predicate Plain(s: string) {
    |s| > 0 && forall i :: 0 <= i < |s| ==> IsLowerChar(s[i]) || s[i] == '.'
  }

  lemma VocabularyPlain()
    ensures forall k :: 0 <= k < |TechTerms| ==> Plain(TechTerms[k])
  {
  }

  lemma PlainIsField(s: string)
    requires Plain(s)
    ensures KeywordParser.IsField(s)
  {
    assert !IsSpace(s[0]) && !IsSpace(s[|s| - 1]);
  }

  /** Every line the report can hold reproduces its keyword. */
  lemma ReportedPrintable(job: string, term: string)
    requires Plain(term)
    ensures KeywordParser.Printable(Reported(job, term))
  {
    PlainIsField(term);
    assert "Required skill"[0] == 'R' && "Required skill"[13] == 'l';
  }

  lemma NoJobDescriptionPrintable()
    ensures KeywordParser.Printable(NoJobDescription)
  {
    SentenceIsField("None");
    SentenceIsField("No job description provided");
  }

  lemma AllSkillsPresentPrintable()
    ensures KeywordParser.Printable(AllSkillsPresent)
  {
    SentenceIsField("None");
    SentenceIsField("All key skills present");
  }

  /** Words of letters separated by single spaces make a field. */
  lemma SentenceIsField(s: string)
    requires |s| > 0 && s[0] != ' ' && s[|s| - 1] != ' '
    requires forall i :: 0 <= i < |s| ==> IsLowerChar(s[i]) || IsUpperChar(s[i]) || s[i] == ' '
    ensures KeywordParser.IsField(s)
  {
    assert !IsSpace(s[0]) && !IsSpace(s[|s| - 1]);
  }

  /** Every keyword of a report from a plain vocabulary is printable. */
  lemma ReportPrintable(job: string, resume: string, terms: seq<string>)
    requires forall k :: 0 <= k < |terms| ==> Plain(terms[k])
    ensures forall i :: 0 <= i < |Report(job, resume, terms)| ==> KeywordParser.Printable(Report(job, resume, terms)[i])
  {
    if job == "" {
      NoJobDescriptionPrintable();
    } else {
      var ms := MissingSkills(job, resume, terms);
      if |ms| == 0 {
        AllSkillsPresentPrintable();
      } else {
        MissingSkillsOrder(job, resume, terms);
        MissingSkillsSound(job, resume, terms);
        forall i | 0 <= i < |ms| ensures KeywordParser.Printable(ms[i]) {
          ReportedPrintable(job, ms[i].keyword);
        }
      }
    }
  }

  /** `parse_keywords` reads the keyword fallback's text back as exactly the report. */
  lemma KeywordTextParses(prompt: string)
    ensures KeywordParser.ParseKeywords(KeywordText(prompt)) == ShippedKeywordReport(prompt)
  {
    VocabularyPlain();
    ReportPrintable(JobText(prompt), ResumeText(prompt), TechTerms);
    KeywordParser.ParseKeywordsRoundTrip(ShippedKeywordReport(prompt));
  }

  /** The same round trip for the report cut at the labels. */
  lemma LabelledTextParses(prompt: string)
    ensures KeywordParser.ParseKeywords(LabelledKeywordText(prompt)) == KeywordReport(prompt)
  {
    VocabularyPlain();
    ReportPrintable(LabelledJobText(prompt), LabelledResumeText(prompt), TechTerms);
    KeywordParser.ParseKeywordsRoundTrip(KeywordReport(prompt));
  }

  /** A keyword line whose texts have no capital 'O' has none: the count is digits. */
  lemma FormattedLacksO(k: Keyword)
    requires 'O' !in k.keyword && 'O' !in k.importance && 'O' !in k.context
    ensures 'O' !in KeywordParser.FormatKeyword(k)
  {
    var ds := NatToString(k.frequency);
    assert forall i :: 0 <= i < |ds| ==> ds[i] != 'O';
    JoinFree(KeywordParser.Fields(k), "|", 'O');
  }

  /** A reported skill's line has no capital 'O': its term is lower-case. */
  lemma ReportedLacksO(job: string, term: string)
    requires Plain(term)
    ensures 'O' !in KeywordParser.FormatKeyword(Reported(job, term))
  {
    assert forall j :: 0 <= j < |term| ==> term[j] != 'O';
    FormattedLacksO(Reported(job, term));
  }

  /** The sentinel texts have no capital 'O'. */
  lemma SentinelTextLacksO(s: string)
    requires s == "None" || s == "low" || s == "No job description provided" || s == "All key skills present"
    ensures 'O' !in s
  {
  }

  lemma SentinelLacksO(k: Keyword)
    requires k == NoJobDescription || k == AllSkillsPresent
    ensures 'O' !in KeywordParser.FormatKeyword(k)
  {
    SentinelTextLacksO(k.keyword);
    SentinelTextLacksO(k.importance);
    SentinelTextLacksO(k.context);
    FormattedLacksO(k);
  }

  /** No line of a report over lower-case terms has a capital 'O'. */
  lemma ReportLacksO(job: string, resume: string, terms: seq<string>)
    requires forall k :: 0 <= k < |terms| ==> Plain(terms[k])
    ensures forall i :: 0 <= i < |Report(job, resume, terms)| ==> 'O' !in KeywordParser.FormatKeyword(Report(job, resume, terms)[i])
  {
    if job == "" {
      SentinelLacksO(NoJobDescription);
    } else {
      var ms := MissingSkills(job, resume, terms);
      if |ms| > 0 {
        MissingSkillsOrder(job, resume, terms);
        MissingSkillsSound(job, resume, terms);
        forall i | 0 <= i < |ms| ensures 'O' !in KeywordParser.FormatKeyword(ms[i]) {
          ReportedLacksO(job, ms[i].keyword);
        }
      } else {
        SentinelLacksO(AllSkillsPresent);
      }
    }
  }

  /** The lines of a printable report without a capital 'O' make a text that is not blank
      and has no capital 'O'. */
  lemma LinesUntagged(ks: seq<Keyword>)
    requires |ks| >= 1
    requires forall i :: 0 <= i < |ks| ==> KeywordParser.Printable(ks[i]) && 'O' !in KeywordParser.FormatKeyword(ks[i])
    ensures var text := Join(KeywordParser.FormatAll(ks), "\n");
            'O' !in text && Strip(text) != ""
  {
    var lines := KeywordParser.FormatAll(ks);
    JoinFree(lines, "\n", 'O');
    KeywordParser.FormattedLine(ks[0]);
    KeywordParser.JoinedNotBlank(lines, '|');
  }

  /** The keyword fallback's text is not blank and has no capital 'O', so no `ORIGINAL:` line. */
  lemma KeywordTextUntagged(prompt: string)
    ensures 'O' !in KeywordText(prompt) && Strip(KeywordText(prompt)) != ""
  {
    VocabularyPlain();
    ReportLacksO(JobText(prompt), ResumeText(prompt), TechTerms);
    ReportPrintable(JobText(prompt), ResumeText(prompt), TechTerms);
    LinesUntagged(ShippedKeywordReport(prompt));
  }

  /** With a job text, a report is the "all present" sentinel exactly when no term is missing. */
  lemma ReportSentinel(job: string, resume: string, terms: seq<string>)
    requires job != ""
    requires forall k :: 0 <= k < |terms| ==> Plain(terms[k])
    ensures Report(job, resume, terms) == [AllSkillsPresent] <==>
            forall k :: 0 <= k < |terms| ==> !IsMissing(job, resume, terms[k])
  {
    var ms := MissingSkills(job, resume, terms);
    if |ms| == 0 {
      forall k | 0 <= k < |terms| ensures !IsMissing(job, resume, terms[k]) {
        if IsMissing(job, resume, terms[k]) {
          MissingSkillsComplete(job, resume, terms, k);
        }
      }
    } else {
      var pos := Origins(MissingTerm(job, resume), terms);
      MissingSkillsOrder(job, resume, terms);
      MissingSkillsSound(job, resume, terms);
      assert !Plain("None") by { assert !IsLowerChar("None"[0]); }
      assert ms[0].keyword == terms[pos[0]];
      assert Report(job, resume, terms)[0] == ms[0];
    }
  }

  /** Otherwise a report lists missing terms in vocabulary order, each with its count and
      importance, and leaves none out unless it already holds three. */
  lemma ReportListed(job: string, resume: string, terms: seq<string>)
    requires job != "" && |MissingSkills(job, resume, terms)| > 0
    ensures var r := Report(job, resume, terms);
            (exists pos :: InVocabularyOrder(r, terms, pos)) &&
            (forall i :: 0 <= i < |r| ==> IsMissing(job, resume, r[i].keyword) && r[i] == Reported(job, r[i].keyword)) &&
            (|r| < 3 ==> forall k :: 0 <= k < |terms| && IsMissing(job, resume, terms[k]) ==>
               exists i :: 0 <= i < |r| && r[i].keyword == terms[k])
  {
    var ms := MissingSkills(job, resume, terms);
    var n := if |ms| <= 3 then |ms| else 3;
    assert Report(job, resume, terms) == ms[..n];
    MissingSkillsOrder(job, resume, terms);
    MissingSkillsSound(job, resume, terms);
    PrefixInOrder(ms, terms, Origins(MissingTerm(job, resume), terms), n);
    PrefixSound(job, resume, ms, n);
    if n < 3 {
      assert ms[..n] == ms;
      forall k | 0 <= k < |terms| && IsMissing(job, resume, terms[k])
        ensures exists i :: 0 <= i < |ms| && ms[i].keyword == terms[k]
      {
        MissingSkillsComplete(job, resume, terms, k);
      }
    }
  }

  /** A prefix of a list in vocabulary order is in vocabulary order. */
  lemma PrefixInOrder(ks: seq<Keyword>, terms: seq<string>, pos: seq<nat>, n: nat)
    requires InVocabularyOrder(ks, terms, pos) && n <= |ks|
    ensures InVocabularyOrder(ks[..n], terms, pos[..n])
  {
  }

  /** A prefix of a list of reported missing terms holds only reported missing terms. */
  lemma PrefixSound(job: string, resume: string, ks: seq<Keyword>, n: nat)
    requires forall i :: 0 <= i < |ks| ==> IsMissing(job, resume, ks[i].keyword) && ks[i] == Reported(job, ks[i].keyword)
    requires n <= |ks|
    ensures forall i :: 0 <= i < |ks[..n]| ==> IsMissing(job, resume, ks[..n][i].keyword) && ks[..n][i] == Reported(job, ks[..n][i].keyword)
  {
  }

  /** The keyword fallback's report, read against the prompt's job and résumé texts: the
      sentinel exactly when no vocabulary term is missing, else missing terms in vocabulary
      order with their counts and importance, none left out unless three are listed. */
  lemma KeywordReportSpec(prompt: string)
    requires LabelledJobText(prompt) != ""
    ensures var job, resume, r := LabelledJobText(prompt), LabelledResumeText(prompt), KeywordReport(prompt);
            (r == [AllSkillsPresent] <==> forall k :: 0 <= k < |TechTerms| ==> !IsMissing(job, resume, TechTerms[k])) &&
            (r != [AllSkillsPresent] ==>
               (exists pos :: InVocabularyOrder(r, TechTerms, pos)) &&
               (forall i :: 0 <= i < |r| ==> IsMissing(job, resume, r[i].keyword) && r[i] == Reported(job, r[i].keyword)) &&
               (|r| < 3 ==> forall k :: 0 <= k < |TechTerms| && IsMissing(job, resume, TechTerms[k]) ==>
                  exists i :: 0 <= i < |r| && r[i].keyword == TechTerms[k]))
  {
    var job, resume := LabelledJobText(prompt), LabelledResumeText(prompt);
    VocabularyPlain();
    ReportSentinel(job, resume, TechTerms);
    if |MissingSkills(job, resume, TechTerms)| > 0 {
      ReportListed(job, resume, TechTerms);
    }
  }
}
