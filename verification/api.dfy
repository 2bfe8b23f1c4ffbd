/** The request rules of the HTTP layer (backend/main.py): upload and analysis validation,
    the background upload step, the take-once status lookup, the analysis pipeline and the
    enhanced résumé. Transport, task ids and the clock are left to the caller: a task store
    is a map, the text extractors and the language-model service are parameters, and the
    timestamp is passed in. */
module Api {
  import opened Wrappers
  import opened Seqs
  import opened Strings
  import opened Records
  import opened ResumeSections
  import Segments
  import KeywordParser
  import ImprovementParser
  import Analyzer
  import Scorer
  import Gateway

  /** `HTTPException(status_code, detail)`. */
  datatype HttpError = HttpError(status: nat, detail: string)

  const MaxUploadBytes: nat := 5 * 1024 * 1024
  const MaxResumeChars: nat := 10000

  const NoFile := HttpError(400, "No file provided")
  const UnsupportedType := HttpError(400, "Only PDF and DOCX files are supported")
  const TooLarge := HttpError(400, "File size exceeds 5MB limit")
  const ResumeTooLong := HttpError(400, "Resume text exceeds 10000 characters")
  const NothingExtracted := HttpError(400, "Could not extract text from the uploaded file")
  const EmptyResume := HttpError(400, "Resume text cannot be empty")
  const EmptyJobDescription := HttpError(400, "Job description cannot be empty")
  const TaskNotFound := HttpError(404, "Task not found")
  const NothingReplaced :=
    HttpError(400, "No bullet points could be replaced. Ensure improvements match resume content.")

  /** `s.endswith(suffix)`. */
  predicate EndsWith(s: string, suffix: string) {
    |suffix| <= |s| && s[|s| - |suffix|..] == suffix
  }

  // ---------------------------------------------------------------------------
  // Upload

  /** The lower-cased name ends in `.pdf`, `.docx` or `.doc`. */
  predicate SupportedName(filename: string) {
    var l := Lower(filename);
    EndsWith(l, ".pdf") || EndsWith(l, ".docx") || EndsWith(l, ".doc")
  }

  /** The checks of `upload_resume` before a task is created, in the source's order; a
      missing file name is the empty name. */
  function ValidateUpload(filename: string, size: nat): (r: Option<HttpError>)
    ensures r.None? <==> filename != "" && SupportedName(filename) && size <= MaxUploadBytes
    ensures filename == "" ==> r == Some(NoFile)
    ensures filename != "" && !SupportedName(filename) ==> r == Some(UnsupportedType)
    ensures r.Some? ==> r.value.status == 400
  {
    if filename == "" then Some(NoFile)
    else if !SupportedName(filename) then Some(UnsupportedType)
    else if size > MaxUploadBytes then Some(TooLarge)
    else None
  }

  /** The size limit is checked last: an oversized file with a bad name is refused for
      its name. */
  lemma UploadChecksInOrder(filename: string, size: nat)
    requires filename != "" && SupportedName(filename)
    ensures ValidateUpload(filename, size) == (if size > MaxUploadBytes then Some(TooLarge) else None)
  {
  }

  /** The two extractors. */
  datatype Format = Pdf | Docx

  /** `.pdf` (in any case) is read as PDF; every other accepted name as DOCX. */
  function FormatOf(filename: string): Format {
    if EndsWith(Lower(filename), ".pdf") then Pdf else Docx
  }

  /** What the background step stores. */
  datatype Upload = Upload(filename: string, text: string, sections: map<Section, string>)

  /** Why a task failed: a request error it raised itself, or an exception from elsewhere
      (here, an extractor) with its message. */
  datatype Problem = Rejected(error: HttpError) | Raised(message: string)

  /** An entry of `upload_results` or `analysis_results`. */
  datatype TaskState<R> = Processing | Completed(result: R) | Failed(problem: Problem)

  /** `process_upload`: extract with the extractor the name selects, then refuse overly
      long or blank text, then split into sections. */
  function ProcessUpload(filename: string, extract: Format -> Result<string, string>): (r: TaskState<Upload>)
    ensures r != Processing
    ensures r.Completed? ==>
              extract(FormatOf(filename)) == Success(r.result.text) &&
              |r.result.text| <= MaxResumeChars && Strip(r.result.text) != "" &&
              r.result.filename == filename &&
              r.result.sections == ParseResumeSections(r.result.text) &&
              r.result.sections.Keys == AllSections
    ensures extract(FormatOf(filename)).Failure? ==> r == Failed(Raised(extract(FormatOf(filename)).error))
  {
    match extract(FormatOf(filename))
    case Failure(message) => Failed(Raised(message))
    case Success(text) =>
      if |text| > MaxResumeChars then Failed(Rejected(ResumeTooLong))
      else if Strip(text) == "" then Failed(Rejected(NothingExtracted))
      else Completed(Upload(filename, text, ParseResumeSections(text)))
  }

  /** Too long is checked before blank: 10001 spaces are refused for their length. */
  lemma UploadLengthBeforeBlank(filename: string, extract: Format -> Result<string, string>)
    requires extract(FormatOf(filename)).Success?
    ensures var text := extract(FormatOf(filename)).value;
            (|text| > MaxResumeChars ==> ProcessUpload(filename, extract) == Failed(Rejected(ResumeTooLong))) &&
            (|text| <= MaxResumeChars && Strip(text) == "" ==>
               ProcessUpload(filename, extract) == Failed(Rejected(NothingExtracted)))
  {
  }

  // ---------------------------------------------------------------------------
  // Task status: take once

  /** `get_upload_status` / `get_analysis_status`: the entry and the store afterwards. A
      finished entry is handed out once and removed; one still processing stays. */
  function TakeStatus<R>(store: map<string, TaskState<R>>, id: string): (r: (Result<TaskState<R>, HttpError>, map<string, TaskState<R>>))
    ensures id !in store ==> r.0 == Failure(TaskNotFound) && r.1 == store
    ensures id in store ==> r.0 == Success(store[id])
    ensures id in store && store[id].Processing? ==> r.1 == store
    ensures id in store && !store[id].Processing? ==> id !in r.1 && r.1 == store - {id}
    ensures forall other :: other != id ==> (other in r.1 <==> other in store)
  {
    if id !in store then (Failure(TaskNotFound), store)
    else if store[id].Processing? then (Success(store[id]), store)
    else (Success(store[id]), store - {id})
  }

  /** Asking twice: a finished task is found the first time and unknown the second; a task
      still processing is found both times. */
  lemma {:induction false} TakeOnce<R>(store: map<string, TaskState<R>>, id: string)
    requires id in store
    ensures var (first, after) := TakeStatus(store, id);
            var (second, _) := TakeStatus(after, id);
            first == Success(store[id]) &&
            (store[id].Processing? ==> second == Success(store[id])) &&
            (!store[id].Processing? ==> second == Failure(TaskNotFound))
  {
    var (first, after) := TakeStatus(store, id);
    if !store[id].Processing? {
      assert id !in after;
    }
  }

  /** Taking one task leaves every other task's entry as it was. */
  lemma OtherTasksUntouched<R>(store: map<string, TaskState<R>>, id: string, other: string)
    requires other != id && other in store
    ensures var (_, after) := TakeStatus(store, id);
            other in after && after[other] == store[other]
  {
  }

  // ---------------------------------------------------------------------------
  // Analysis

  /** The checks of `analyze_resume`, in the source's order. The job description has no
      length limit. */
  function ValidateAnalysis(resume: string, jobDescription: string): (r: Option<HttpError>)
    ensures r.None? <==> Strip(resume) != "" && Strip(jobDescription) != "" && |resume| <= MaxResumeChars
    ensures Strip(resume) == "" ==> r == Some(EmptyResume)
    ensures Strip(resume) != "" && Strip(jobDescription) == "" ==> r == Some(EmptyJobDescription)
  {
    if Strip(resume) == "" then Some(EmptyResume)
    else if Strip(jobDescription) == "" then Some(EmptyJobDescription)
    else if |resume| > MaxResumeChars then Some(ResumeTooLong)
    else None
  }

  /** The response of `analyze_resume`. */
  datatype Analysis = Analysis(matchScore: nat, missingKeywords: seq<Keyword>,
                               improvedBullets: seq<BulletImprovement>, suggestions: seq<string>)

  /** `analyze_resume`: validate, then extract keywords, score them against the résumé and
      improve the experience bullets; the two analyses each talk to the service once. */
  function AnalyzeResume(resume: string, jobDescription: string,
                         keywordNet: Gateway.Network, bulletNet: Gateway.Network): (r: Result<Analysis, HttpError>)
    ensures r.Failure? <==> ValidateAnalysis(resume, jobDescription).Some?
    ensures r.Success? ==>
              |r.value.missingKeywords| >= 1 && |r.value.improvedBullets| >= 1 &&
              15 <= r.value.matchScore <= 85 &&
              (forall i :: 0 <= i < |r.value.missingKeywords| ==>
                 KeywordParser.IsLevel(r.value.missingKeywords[i].importance)) &&
              (forall i :: 0 <= i < |r.value.improvedBullets| ==>
                 ImprovementParser.WellFormed(r.value.improvedBullets[i]))
  {
    match ValidateAnalysis(resume, jobDescription)
    case Some(e) => Failure(e)
    case None =>
      var keywords := Analyzer.ExtractKeywords(jobDescription, resume, keywordNet);
      var score := Scorer.MatchScore(resume, keywords, jobDescription);
      Scorer.ScoreBounds(resume, keywords, jobDescription);
      var bullets := Analyzer.ImproveBullets(ParseResumeSections(resume), jobDescription, bulletNet);
      Success(Analysis(score.overall, keywords, bullets, score.recommendations))
  }

  // ---------------------------------------------------------------------------
  // Enhanced résumé

  /** Regex `^\s*[•-]`: the text after leading whitespace and one bullet marker, or the whole
      text when there is no marker. */
  function Unmarked(t: string): (r: string)
    ensures |r| <= |t|
  {
    var k := Segments.SpaceRun(t);
    if k < |t| && (t[k] == '•' || t[k] == '-') then t[k + 1..] else t
  }

  /** Lower-casing keeps a stripped text stripped. */
  lemma LowerStripped(s: string)
    requires IsStripped(s)
    ensures IsStripped(Lower(s))
  {
    if |s| > 0 {
      assert Lower(s)[0] == LowerChar(s[0]);
      assert Lower(s)[|s| - 1] == LowerChar(s[|s| - 1]);
    }
  }

  /** `normalize_text`: drop leading whitespace, one `•` or `-` marker and the whitespace
      after it, then strip and lower-case. */
  function NormalizeText(t: string): (r: string)
    ensures IsStripped(r)
    ensures forall i :: 0 <= i < |r| ==> !IsUpperChar(r[i])
  {
    var s := Strip(Unmarked(t));
    LowerStripped(s);
    Lower(s)
  }

  /** One entry of the improvements list: the text to look for and its replacement. */
  datatype Replacement = Replacement(original: string, improved: string)

  /** A line matches when it normalises to the same text as the improvement's original. */
  predicate Matches(line: string, rep: Replacement) {
    NormalizeText(line) == NormalizeText(rep.original)
  }

  /** The line a match becomes. */
  function Bulleted(rep: Replacement): string {
    ['•', ' '] + Strip(rep.improved)
  }

  /** The line test of one improvement. */
  function Hit(rep: Replacement): string -> bool {
    (line: string) => Matches(line, rep)
  }

  /** One pass over the lines for one improvement: matching lines become the improved
      bullet, the rest stay. */
  function RewriteLines(lines: seq<string>, rep: Replacement): (r: seq<string>)
    ensures |r| == |lines|
  {
    ReplaceWhere(lines, Hit(rep), Bulleted(rep))
  }

  /** The experience text so far and whether any line has been replaced. */
  datatype Progress = Progress(experience: string, replaced: bool)

  /** Some line of `text` matches the improvement. */
  predicate SomeLineMatches(text: string, rep: Replacement) {
    var lines := Split(text, '\n');
    exists i :: 0 <= i < |lines| && Matches(lines[i], rep)
  }

  /** One improvement: split into lines, rewrite, join again. */
  function ApplyOne(p: Progress, rep: Replacement): Progress {
    Progress(Join(RewriteLines(Split(p.experience, '\n'), rep), "\n"),
             p.replaced || SomeLineMatches(p.experience, rep))
  }

  /** All improvements in list order, each seeing the lines earlier ones rewrote. */
  function ApplyAll(experience: string, reps: seq<Replacement>): Progress {
    FoldLeft(ApplyOne, Progress(experience, false), reps)
  }

  /** The inner loop of the source, over the lines of the current experience text. */
  method RewriteLoop(lines: seq<string>, rep: Replacement) returns (out: seq<string>, replaced: bool)
    ensures out == RewriteLines(lines, rep)
    ensures replaced <==> exists i :: 0 <= i < |lines| && Matches(lines[i], rep)
  {
    out, replaced := ReplaceWhereLoop(lines, Hit(rep), Bulleted(rep));
  }

  lemma UnmarkedMarker(s: string, marker: char)
    requires marker == '•' || marker == '-'
    ensures Unmarked([marker, ' '] + s) == " " + s
  {
    assert Segments.SpaceRun([marker, ' '] + s) == 0;
  }

  lemma UnmarkedPlain(s: string)
    requires var k := Segments.SpaceRun(s); k == |s| || (s[k] != '•' && s[k] != '-')
    ensures Unmarked(s) == s
  {
  }

  lemma StripLeadingSpace(s: string)
    ensures Strip(" " + s) == Strip(s)
  {
    assert (" " + s)[1..] == s;
  }

  /** A bullet marker in front of a line does not change what it matches. */
  lemma MarkerIgnored(s: string, marker: char)
    requires marker == '•' || marker == '-'
    requires var k := Segments.SpaceRun(s); k == |s| || (s[k] != '•' && s[k] != '-')
    ensures NormalizeText([marker, ' '] + s) == NormalizeText(s) == Lower(Strip(s))
  {
    UnmarkedMarker(s, marker);
    StripLeadingSpace(s);
    UnmarkedPlain(s);
  }

  /** A replaced line matches what the stripped improved text matches: the rewrite keeps the
      words and adds only the marker. */
  lemma BulletedNormalizes(rep: Replacement)
    requires var s := Strip(rep.improved); s == "" || (s[0] != '•' && s[0] != '-')
    ensures NormalizeText(Bulleted(rep)) == Lower(Strip(rep.improved))
  {
    var s := Strip(rep.improved);
    assert IsStripped(s);
    StripStripped(s);
    assert Segments.SpaceRun(s) == 0;
    MarkerIgnored(s, '•');
  }

  /** Lines that hold no line break keep the experience text's line count. */
  lemma {:induction false} ApplyOneKeepsLines(p: Progress, rep: Replacement)
    requires '\n' !in Strip(rep.improved)
    ensures |Split(ApplyOne(p, rep).experience, '\n')| == |Split(p.experience, '\n')|
  {
    var lines := Split(p.experience, '\n');
    var out := RewriteLines(lines, rep);
    SplitPiecesFree(p.experience, '\n');
    forall i | 0 <= i < |out| ensures '\n' !in out[i] {
      if Matches(lines[i], rep) {
        assert out[i] == ['•', ' '] + Strip(rep.improved);
      }
    }
    SplitJoin(out, '\n');
  }

  /** `c * n`. */
  function Repeat(c: char, n: nat): (r: string)
    ensures |r| == n
    ensures forall i :: 0 <= i < n ==> r[i] == c
  {
    if n == 0 then "" else [c] + Repeat(c, n - 1)
  }

  const Rule: string := Repeat('=', 50)
  const Dashes: string := Repeat('-', 30)

  /** `f"{name}\n{'-' * 30}\n{text}\n\n"`. */
  function Block(name: string, text: string): string {
    name + "\n" + Dashes + "\n" + text + "\n\n"
  }

  /** A block for a section only when its text is not empty. */
  function BlockIf(name: string, text: string): string {
    if text == "" then "" else Block(name, text)
  }

  function Header(): string {
    "Enhanced Resume\n" + Rule + "\n"
  }

  function Footer(timestamp: string): string {
    Rule + "\nGenerated on: " + timestamp + "\n"
  }

  /** The text file: header, the non-empty sections in the order Summary, Experience,
      Skills, Education, and the footer with the generation time. */
  function Render(sections: map<Section, string>, experience: string, timestamp: string): (r: string)
    requires sections.Keys == AllSections
    ensures StartsWith(r, Header())
    ensures EndsWith(r, Footer(timestamp))
  {
    var r := Header() + BlockIf("Summary", sections[Summary]) + BlockIf("Experience", experience) +
             BlockIf("Skills", sections[Skills]) + BlockIf("Education", sections[Education]) + Footer(timestamp);
    assert r[..|Header()|] == Header();
    r
  }

  /** With every section empty the file is only the frame. */
  lemma EmptyResumeFrame(sections: map<Section, string>, experience: string, timestamp: string)
    requires sections.Keys == AllSections
    requires sections[Summary] == "" && experience == "" && sections[Skills] == "" && sections[Education] == ""
    ensures Render(sections, experience, timestamp) == Header() + Footer(timestamp)
  {
  }

  /** Each non-empty section appears in the file as its own block; the experience block
      holds the rewritten text. */
  lemma RenderShowsSections(sections: map<Section, string>, experience: string, timestamp: string)
    requires sections.Keys == AllSections
    ensures var r := Render(sections, experience, timestamp);
            (sections[Summary] != "" ==> Contains(r, Block("Summary", sections[Summary]))) &&
            (experience != "" ==> Contains(r, Block("Experience", experience))) &&
            (sections[Skills] != "" ==> Contains(r, Block("Skills", sections[Skills]))) &&
            (sections[Education] != "" ==> Contains(r, Block("Education", sections[Education])))
  {
    var b1 := BlockIf("Summary", sections[Summary]);
    var b2 := BlockIf("Experience", experience);
    var b3 := BlockIf("Skills", sections[Skills]);
    var b4 := BlockIf("Education", sections[Education]);
    EveryPartContained(Header(), b1, b2, b3, b4, Footer(timestamp));
  }

  /** Each part of a concatenation occurs in it. */
  lemma EveryPartContained(h: string, b1: string, b2: string, b3: string, b4: string, f: string)
    ensures var r := h + b1 + b2 + b3 + b4 + f;
            Contains(r, b1) && Contains(r, b2) && Contains(r, b3) && Contains(r, b4)
  {
    ContainsEnd(h, b1);
    ContainsExtend(h + b1, b2, b1);
    ContainsExtend(h + b1 + b2, b3, b1);
    ContainsExtend(h + b1 + b2 + b3, b4, b1);
    ContainsExtend(h + b1 + b2 + b3 + b4, f, b1);
    ContainsEnd(h + b1, b2);
    ContainsExtend(h + b1 + b2, b3, b2);
    ContainsExtend(h + b1 + b2 + b3, b4, b2);
    ContainsExtend(h + b1 + b2 + b3 + b4, f, b2);
    ContainsEnd(h + b1 + b2, b3);
    ContainsExtend(h + b1 + b2 + b3, b4, b3);
    ContainsExtend(h + b1 + b2 + b3 + b4, f, b3);
    ContainsEnd(h + b1 + b2 + b3, b4);
    ContainsExtend(h + b1 + b2 + b3 + b4, f, b4);
  }

  lemma ContainsEnd(a: string, w: string)
    ensures Contains(a + w, w)
  {
    assert OccursAt(a + w, w, |a|);
    ContainsIff(a + w, w);
  }

  lemma ContainsExtend(x: string, y: string, w: string)
    requires Contains(x, w)
    ensures Contains(x + y, w)
  {
    ContainsIff(x, w);
    var i :| OccursAt(x, w, i);
    assert (x + y)[i..i + |w|] == x[i..i + |w|];
    assert OccursAt(x + y, w, i);
    ContainsIff(x + y, w);
  }

  /** `generate_enhanced_resume` with `re` imported: the corrected behaviour. */
  function GenerateEnhancedResume(originalText: string, reps: seq<Replacement>, timestamp: string): (r: Result<string, HttpError>)
    ensures r.Failure? ==> r.error == NothingReplaced
    ensures r.Success? ==> StartsWith(r.value, Header()) && EndsWith(r.value, Footer(timestamp))
  {
    var sections := ParseResumeSections(originalText);
    var p := ApplyAll(sections[Experience], reps);
    if !p.replaced then Failure(NothingReplaced)
    else Success(Render(sections, p.experience, timestamp))
  }

  /** `generate_enhanced_resume` as shipped: `normalize_text` names `re`, which main.py never
      imports, so the first improvement raises a NameError that the generic handler turns into
      a 500; only an empty list gets as far as the "nothing replaced" check. */
  function GenerateEnhancedResumeAsShipped(originalText: string, reps: seq<Replacement>, timestamp: string): (r: Result<string, HttpError>)
    ensures r.Failure?
  {
    if |reps| > 0 then Failure(HttpError(500, "Error generating enhanced resume: name 're' is not defined"))
    else Failure(NothingReplaced)
  }

  lemma {:induction false} ApplyAllKeepsReplaced(p: Progress, reps: seq<Replacement>)
    requires p.replaced
    ensures FoldLeft(ApplyOne, p, reps).replaced
    decreases |reps|
  {
    if |reps| > 0 {
      ApplyAllKeepsReplaced(ApplyOne(p, reps[0]), reps[1..]);
    }
  }

  /** The experience text as the first `k` improvements left it. */
  function Prior(p: Progress, reps: seq<Replacement>, k: nat): string
    requires k <= |reps|
  {
    FoldPrefix(ApplyOne, p, reps, k).experience
  }

  /** The flag ends up set iff it was set already or some improvement matched a line of the
      text the improvements before it left. */
  lemma ReplacedIffSomeMatch(p: Progress, reps: seq<Replacement>)
    ensures FoldLeft(ApplyOne, p, reps).replaced <==>
            p.replaced || exists k :: 0 <= k < |reps| && SomeLineMatches(Prior(p, reps, k), reps[k])
  {
    var hit := (q: Progress, rep: Replacement) => SomeLineMatches(q.experience, rep);
    FoldLeftFlag(ApplyOne, (q: Progress) => q.replaced, hit, p, reps);
    assert forall k :: 0 <= k < |reps| ==>
      (hit(FoldPrefix(ApplyOne, p, reps, k), reps[k]) <==> SomeLineMatches(Prior(p, reps, k), reps[k]));
  }

  /** The corrected endpoint succeeds iff some improvement matches a line of the experience
      section as the improvements before it rewrote it. */
  lemma GenerateSucceedsIffMatched(originalText: string, reps: seq<Replacement>, timestamp: string)
    ensures var start := Progress(ParseResumeSections(originalText)[Experience], false);
            GenerateEnhancedResume(originalText, reps, timestamp).Success? <==>
            exists k :: 0 <= k < |reps| && SomeLineMatches(Prior(start, reps, k), reps[k])
  {
    ReplacedIffSomeMatch(Progress(ParseResumeSections(originalText)[Experience], false), reps);
  }

  /** The first improvement matching a line of the experience section makes the corrected
      endpoint succeed, while the shipped one answers 500 for the same request. */
  lemma ShippedRejectsMatchingImprovement(originalText: string, rep: Replacement, more: seq<Replacement>, timestamp: string, line: nat)
    requires var lines := Split(ParseResumeSections(originalText)[Experience], '\n');
             line < |lines| && Matches(lines[line], rep)
    ensures GenerateEnhancedResume(originalText, [rep] + more, timestamp).Success?
    ensures GenerateEnhancedResumeAsShipped(originalText, [rep] + more, timestamp).error.status == 500
  {
    var sections := ParseResumeSections(originalText);
    var start := Progress(sections[Experience], false);
    var reps := [rep] + more;
    assert reps[0] == rep && reps[1..] == more;
    assert ApplyOne(start, rep).replaced;
    ApplyAllKeepsReplaced(ApplyOne(start, rep), more);
  }

  /** Without improvements both versions give the "nothing replaced" error. */
  lemma NoImprovementsNothingReplaced(originalText: string, timestamp: string)
    ensures GenerateEnhancedResume(originalText, [], timestamp) == Failure(NothingReplaced)
    ensures GenerateEnhancedResumeAsShipped(originalText, [], timestamp) == Failure(NothingReplaced)
  {
  }
}
