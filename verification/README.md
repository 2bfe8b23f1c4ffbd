# Resume Enhancer core, modelled in Dafny

This project models the core of the AI Resume Enhancer backend in Dafny. The backend reads a résumé and a job
description, splits the résumé into sections, and asks a local language model (Ollama, `llama3`) for:

- missing keywords;
- improved experience bullets.

When the model cannot be used, the backend falls back to local rules. It scores the résumé against the keywords and
writes an enhanced résumé as a text file.

The model covers these parts of the backend:

- **Document processing** (`backend/document_processor.py`):
  - `clean_text`: collapse whitespace, blank out characters outside the whitelist, apply the terminology table in order, strip.
  - `parse_resume_sections`: a cursor over the lines that heading-shaped lines move between the four sections.
- **Analyser** (`backend/ai_analyzer.py`):
  - `analyze_with_ollama` and `test_ollama_connection`. The HTTP exchanges are replaced by an oracle: the probe's reply, and the outcome of each generation request in turn.
  - The three fallbacks:
    - the dispatcher `fallback_analysis`;
    - `_fallback_keyword_analysis`, with the case-insensitive `JOB:?`/`RESUME:?` regex groups as shipped. A variant cut at the "JOB:" and "RESUME:" labels is kept apart as the corrected version (see "## Findings");
    - `_fallback_bullet_analysis`, with its `EXPERIENCE:` group.
  - The prompts of `extract_keywords_advanced` and `improve_bullets_advanced`.
  - The parsers `parse_keywords` and `parse_improvements`. The latter includes the `re.split` on blank lines and before `ORIGINAL:`.
  - `calculate_advanced_match_score`.
- **API** (`backend/main.py`):
  - the upload and analysis request checks;
  - the background upload step;
  - the take-once status lookup of both task stores;
  - the analysis response;
  - `generate_enhanced_resume`: bullet matching through `normalize_text`, the line rewrite, and the rendered file.

Strings are `seq<char>` with Python's ASCII semantics:

- whitespace is `str.isspace` / regex `\s` below code point 128;
- `\w` is `[A-Za-z0-9_]`;
- `lower` changes only `A`–`Z`.

Other characters, such as `•`, are kept as they are. They are neither word characters, whitespace nor cased.

Modules, in dependency order:

| module | what it models |
|---|---|
| `Wrappers`, `Seqs`, `Strings` | Shared vocabulary. |
| `Records` | The `Keyword` and `BulletImprovement` dataclasses. |
| `TextCleaner` | `clean_text`. |
| `ResumeSections` | `parse_resume_sections`. |
| `KeywordParser` | `parse_keywords`. |
| `ImprovementParser` | `parse_improvements`. |
| `Segments` | The regex groups the fallbacks extract. |
| `KeywordFallback` | `_fallback_keyword_analysis` as shipped, and the report cut at the labels. |
| `BulletFallback` | `_fallback_bullet_analysis`. |
| `Fallback` | The `fallback_analysis` dispatcher. |
| `Gateway` | `analyze_with_ollama` and the probe. |
| `Analyzer` | The two prompt builders and their parsers. |
| `KeywordSegments` | What the keyword fallback's shipped patterns cut out of the keyword prompt, and what a cut at the labels would give. |
| `Scorer` | `calculate_advanced_match_score`. |
| `Api` | The endpoints of `main.py`. |

Among the proved facts:

- The keyword prompt never contains the word "keyword" itself (`Analyzer.KeywordPromptMarker`). So, offline, `extract_keywords_advanced` reaches the keyword fallback only when the user's own text says "keyword" (`Analyzer.KeywordsOfflineWithMarker`). Otherwise it gets whatever the parser reads from the bullet fallback's text when the prompt says "bullet" or "improve", and the "no keywords" sentinel when it says neither (`Analyzer.KeywordsOfflineWithoutMarker`).
- The shipped keyword fallback reports "All key skills present" for every keyword prompt (`KeywordSegments.ShippedReportAllPresent`). Its `JOB:?` pattern first matches the "job" of the prompt's opening "Analyze job description". Its `RESUME:?` pattern first matches the "resume" of "…in resume." at the end of that line. So the job text starts in the instruction text, and the résumé text starts 50 characters later and reaches at least as far. No vocabulary term occurs in the instruction text between the two starts. Every term the job text holds is therefore in the résumé text too. Offline, `extract_keywords_advanced` on texts that say "keyword" always returns that sentinel (`KeywordSegments.KeywordsOfflineAllPresent`). Read after the "JOB:" and "RESUME:" labels instead, the report would compare the user's own job description with the résumé (`KeywordSegments.LabelledReport`); the model keeps that version apart as `KeywordFallback.KeywordReport` and does not use it in the pipeline.
- Offline, `improve_bullets_advanced` on texts that say "keyword" gets the keyword fallback's report. That text has no capital "O", so no `ORIGINAL:` line, and the parser returns the "Performed duties" sentinel (`Analyzer.BulletsOfflineWithMarker`).
- `clean_text` is not idempotent. "ReactJSJS" cleans to "ReactJS", which cleans to "React".
- `clean_text` can leave runs of spaces. "a # b" cleans to "a   b".

## Model

| member | source | states |
|---|---|---|
| TextCleaner.CollapseShape | backend/document_processor.py:22 | `\s+` → one space: every whitespace character left is a space, none follows another, and the result starts with whitespace exactly when the input does |
| TextCleaner.CollapseSpaceRun | backend/document_processor.py:22 | a non-empty run of whitespace, alone, becomes exactly one space |
| TextCleaner.CollapseAppend | backend/document_processor.py:22 | the substitution works run by run: text cut at an end or next to a non-whitespace character collapses piecewise, so each `\s+` run (leading, inner or trailing) becomes one space and nothing else changes |
| TextCleaner.CollapseKeepsText | backend/document_processor.py:65 | collapsing whitespace keeps every other character, in order |
| TextCleaner.BlankDisallowed | backend/document_processor.py:23 | the character-class substitution keeps the length (one space per removed character) |
| TextCleaner.CleanText | backend/document_processor.py:64-69 | cleaned text is stripped, holds only whitelisted characters with the space as its only whitespace, and has no line break |
| TextCleaner.ReplacementsKeepClean | backend/document_processor.py:24-32 | applying the table keeps clean text clean, because every replacement is clean |
| TextCleaner.TableSkips | backend/document_processor.py:67-68 | text without any pattern's first letter passes through the table unchanged |
| TextCleaner.CleanTextNotIdempotent | backend/document_processor.py:67-68 | the table is applied once, so "ReactJSJS" cleans to "ReactJS" and cleaning again gives "React" |
| TextCleaner.CleanTextKeepsSpaceRuns | backend/document_processor.py:65-66 | characters are blanked after the collapse, so "a # b" cleans to "a   b" with three spaces |
| TextCleaner.CollapseSingleSpaces | backend/document_processor.py:65 | text already single-spaced is a fixed point of the collapse |
| ResumeSections.DetectInFirstMatch | backend/document_processor.py:84-89 | a line is a heading iff it is heading-shaped (under 60 characters, upper-case or without `.!?`) and mentions some section's keyword; it then selects the first such section in table order |
| ResumeSections.ParseResumeSections | backend/document_processor.py:71-98 | the result has exactly the four sections as keys |
| ResumeSections.SectionsAreTaggedLines | backend/document_processor.py:72-95 | each section holds exactly the non-blank, non-heading lines read while the cursor was on it, stripped, in input order, joined by newlines; the cursor starts at the summary |
| ResumeSections.WalkCollects | backend/document_processor.py:76-92 | the loop appends to each section exactly what the tagged lines give it, each line followed by `\n` |
| ResumeSections.StripTerminated | backend/document_processor.py:94-95 | the final strip removes only the newline after the last stored line |
| ResumeSections.ClassifyBody | backend/document_processor.py:77-92 | a stored line is stripped, not blank, and not a heading |
| ResumeSections.BlankLineChangesNothing | backend/document_processor.py:78-79 | inserting a whitespace-only line anywhere leaves every section unchanged |
| ResumeSections.SectionsPartitionLines | backend/document_processor.py:91-92 | every stored line is counted in exactly one section |
| ResumeSections.SectionsOfOneLine | backend/document_processor.py:71-98 | a single stripped line (such as cleaned text) lands in the summary unless it is itself a heading |
| KeywordParser.Importance | backend/ai_analyzer.py:184 | the importance is the lower-cased field when that is high/medium/low, else "medium" |
| KeywordParser.Frequency | backend/ai_analyzer.py:185 | a frequency field that is not all digits reads as 1 |
| KeywordParser.ParseLineAccepts | backend/ai_analyzer.py:176-181 | a line yields a keyword iff, once stripped, it holds at least two `\|` (three fields) |
| KeywordParser.ParseLineFields | backend/ai_analyzer.py:180-187 | a parsed keyword has a known level, the first stripped field as its name, frequency 1 for a non-numeric field, and "<name> skill" as context when there are only three fields |
| KeywordParser.ParseKeywords | backend/ai_analyzer.py:171-191 | never empty; blank input gives the "No analysis available" sentinel, input with no parsable line the "No keywords identified" sentinel; every importance is a known level |
| KeywordParser.ParseLinesAppend | backend/ai_analyzer.py:176-189 | parsing is line by line: keywords keep the order of their lines |
| KeywordParser.FormatParses | backend/ai_analyzer.py:176-187 | a printable keyword's `keyword\|importance\|frequency\|context` line parses back to that keyword |
| KeywordParser.ParseKeywordsRoundTrip | backend/ai_analyzer.py:171-191 | writing printable keywords one per line and parsing the text gives the same list back |
| ImprovementParser.BreakLen | backend/ai_analyzer.py:198 | the `\s*\n` part of the blank-line separator never reaches past the text |
| ImprovementParser.Pieces | backend/ai_analyzer.py:198 | the splitter always yields at least one piece |
| ImprovementParser.FirstNumberAfter | backend/ai_analyzer.py:212-215 | the first `\d+` after non-digits is the numeral that follows them |
| ImprovementParser.ReadImpact | backend/ai_analyzer.py:212-215 | an `IMPACT:` line sets the impact to its number, and a number above 10 to 10 |
| ImprovementParser.ImpactWithoutDigit | backend/ai_analyzer.py:212-215 | an `IMPACT:` line without a digit leaves the impact as it was |
| ImprovementParser.TwoLineBlockDefaults | backend/ai_analyzer.py:203-217 | a block with only `ORIGINAL:` and `IMPROVED:` lines gets the reason "Enhanced impact" and the impact 7 |
| ImprovementParser.EmptyOriginalSentinel | backend/ai_analyzer.py:216-219 | a response that is one block with an empty `ORIGINAL:` yields no improvement, so the "Performed duties" sentinel is returned |
| ImprovementParser.ReadLineGood | backend/ai_analyzer.py:204-215 | the line reader keeps its texts stripped and the impact at most 10 |
| ImprovementParser.BlockWellFormed | backend/ai_analyzer.py:202-217 | a block that yields an improvement yields one with non-empty stripped texts and an impact of at most 10 |
| ImprovementParser.PiecesLackO | backend/ai_analyzer.py:198 | a text without a capital "O" is cut only at blank-line breaks, into pieces without "O" |
| ImprovementParser.ReadLinesKeepOriginal | backend/ai_analyzer.py:204-206 | lines without a capital "O" never set the original bullet |
| ImprovementParser.BlockWithoutOriginal | backend/ai_analyzer.py:199-217 | a block without a capital "O" yields no improvement |
| ImprovementParser.UntaggedResponse | backend/ai_analyzer.py:193-219 | a response that is not blank and holds no capital "O" parses to the "Performed duties" sentinel |
| ImprovementParser.ParseImprovements | backend/ai_analyzer.py:193-219 | never empty; blank input gives "No experience", input without a complete block gives "Performed duties"; every improvement is well formed |
| ImprovementParser.BlockReads | backend/ai_analyzer.py:204-217 | a printable improvement's four-line block reads back as that improvement |
| ImprovementParser.ParseBlocks | backend/ai_analyzer.py:198-217 | blocks formatted from printable improvements and joined by blank lines split back into those blocks |
| ImprovementParser.ParseImprovementsRoundTrip | backend/ai_analyzer.py:193-219 | formatting printable improvements as blocks separated by blank lines and parsing gives the same list back |
| Segments.SpaceRun | backend/ai_analyzer.py:133 | the `\s*` run is all whitespace and maximal |
| Segments.GroupEnd | backend/ai_analyzer.py:133-134 | the lazy group ends at the first place where the closing word (any case) or `$` matches |
| Segments.Group | backend/ai_analyzer.py:133-137 | there is a match iff the lower-cased prompt contains the opening word, and the group is the text between the optional colon and whitespace and the first close |
| Segments.JobText | backend/ai_analyzer.py:136 | the job text is at most 200 characters |
| Segments.LabelGroup | backend/ai_analyzer.py:133-134 | with the label's colon required, there is a match iff the lower-cased prompt contains the label, and the group starts after the label's first occurrence and the whitespace after it, and ends at the first close |
| Segments.ExperienceText | backend/ai_analyzer.py:156-157 | the experience text is at most 100 characters |
| KeywordFallback.Level | backend/ai_analyzer.py:146 | importance is "high" iff the count exceeds 2 and "low" iff it is at most 1 |
| KeywordFallback.Report | backend/ai_analyzer.py:139-149 | one to three keywords; an empty job text gives the "No job description provided" sentinel |
| KeywordFallback.MissingSkillsSound | backend/ai_analyzer.py:143-147 | each reported term occurs in the job text and not in the résumé text, with its count in the job text and the importance that count gives |
| KeywordFallback.MissingSkillsComplete | backend/ai_analyzer.py:143-147 | every vocabulary term in the job text and not in the résumé text is reported |
| KeywordFallback.MissingSkillsOrder | backend/ai_analyzer.py:143 | missing terms come in vocabulary order |
| KeywordFallback.ReportSentinel | backend/ai_analyzer.py:149 | with a job text, the "All key skills present" sentinel comes back iff no term is missing |
| KeywordFallback.ReportListed | backend/ai_analyzer.py:142-149 | otherwise the report lists missing terms in vocabulary order and leaves none out unless it already holds three |
| KeywordFallback.KeywordReportSpec | backend/ai_analyzer.py:131-149 | for the corrected report, read after the "JOB:" and "RESUME:" labels: the same two statements for those texts and the fixed vocabulary |
| KeywordFallback.KeywordTextParses | backend/ai_analyzer.py:131-149 | `parse_keywords` reads the fallback's text back as exactly the report built from the shipped `JOB:?` / `RESUME:?` segments |
| KeywordFallback.LabelledTextParses | backend/ai_analyzer.py:149 | for the corrected report cut at the labels, `parse_keywords` reads its text back as exactly that report |
| KeywordFallback.ReportLacksO | backend/ai_analyzer.py:131-149 | no line of a report over lower-case vocabulary terms holds a capital "O" |
| KeywordFallback.KeywordTextUntagged | backend/ai_analyzer.py:131-149 | the fallback's text is not blank and holds no capital "O", so no `ORIGINAL:` |
| BulletFallback.TrimMarkers | backend/ai_analyzer.py:159 | `lstrip('•- ')` removes exactly the longest prefix of `•`, `-` and spaces |
| BulletFallback.BulletsShape | backend/ai_analyzer.py:159 | every extracted bullet is stripped and on one line |
| BulletFallback.BulletTextParses | backend/ai_analyzer.py:154-166 | `parse_improvements` reads the fallback's block back as exactly its single suggestion: the fixed one when there is no bullet, and the one for the first bullet when that bullet is non-empty and does not itself hold `ORIGINAL:` |
| BulletFallback.EmptyBulletSentinel | backend/ai_analyzer.py:159-166 | when the first bullet is empty (an experience line of markers only, such as "-"), `parse_improvements` reads the fallback's block as the "Performed duties" sentinel |
| BulletFallback.OneBlockParses | backend/ai_analyzer.py:193-219 | one printable block parses to exactly that improvement |
| BulletFallback.DefaultPrintable | backend/ai_analyzer.py:161-162 | the no-bullet default suggestion reads back unchanged |
| Fallback.KeywordPromptFallback | backend/ai_analyzer.py:119-123 | a prompt mentioning "keyword" (any case) gets the report built from the shipped `JOB:?` / `RESUME:?` segments, read back exactly by `parse_keywords` |
| Fallback.KeywordPromptBulletSentinel | backend/ai_analyzer.py:119-123 | `parse_improvements` reads the answer to a prompt mentioning "keyword" as the "Performed duties" sentinel |
| Fallback.BulletPromptFallback | backend/ai_analyzer.py:119-125 | a prompt mentioning "bullet" or "improve" but not "keyword", whose first bullet (if any) is non-empty and does not hold `ORIGINAL:`, gets the bullet suggestion, read back exactly by `parse_improvements` |
| Fallback.BulletPromptEmptyBullet | backend/ai_analyzer.py:119-125 | such a prompt whose first bullet is empty (an experience line of markers only, such as "-") gets the "Performed duties" sentinel from `parse_improvements` |
| Fallback.UnmarkedPromptFallback | backend/ai_analyzer.py:119-126 | any other prompt gets "No analysis available", which both parsers read as their "nothing found" sentinel |
| Gateway.Truncate | backend/ai_analyzer.py:85 | prompts over 500 characters become their first 500 characters plus "..."; others are sent unchanged |
| Gateway.FirstAnswer | backend/ai_analyzer.py:88-110 | the request chosen is the first one answered with status 200, and none before it was |
| Gateway.AnalyzeLoop | backend/ai_analyzer.py:76-117 | the retry loop computes the same exchange as the request policy |
| Gateway.ShortPromptStaysLocal | backend/ai_analyzer.py:77-79 | prompts under 200 characters are answered by the fallback without probing the service |
| Gateway.FailedProbeFallsBack | backend/ai_analyzer.py:81-83 | a prompt of 200 characters or more whose probe fails is answered by the fallback on the whole, uncut prompt, with no request sent, whatever the retry count and the request outcomes |
| Gateway.RequestBound | backend/ai_analyzer.py:81-105 | at most `max_retries + 1` requests, none unless the probe found a llama3 model, each carrying the truncated prompt |
| Gateway.FirstReplyWins | backend/ai_analyzer.py:106-110 | the stripped reply of the first 200 answer is returned, even when empty, and no later request is sent |
| Gateway.ExhaustedFallsBackOnTruncated | backend/ai_analyzer.py:116-117 | after all requests fail, the fallback runs on the truncated prompt |
| Gateway.OnlySentRequestsMatter | backend/ai_analyzer.py:88-117 | two services that agree on the probe and on the requests actually sent give the same exchange |
| Gateway.MoreRetriesKeepAnswer | backend/ai_analyzer.py:88 | raising `max_retries` does not change an answer already obtained within fewer retries |
| Analyzer.KeywordPromptLength | backend/ai_analyzer.py:223 | the keyword prompt is 121 fixed characters plus at most 200 of each text, so at most 521 |
| Analyzer.BulletPromptUncut | backend/ai_analyzer.py:232-237 | the bullet prompt is between 150 and 500 characters, so it is never truncated |
| Analyzer.ExperienceBlurb | backend/ai_analyzer.py:232 | the experience text is the section's first 100 characters, or "General work experience" when that is empty |
| Analyzer.KeywordPromptMarker | backend/ai_analyzer.py:223 | the keyword prompt says "keyword" iff the user's job or résumé excerpt does |
| Analyzer.BulletPromptMarker | backend/ai_analyzer.py:233-237 | the bullet prompt says "keyword" iff the experience excerpt or the job excerpt does |
| Analyzer.BulletPromptAsksToImprove | backend/ai_analyzer.py:234 | the bullet prompt always mentions "improve" |
| Analyzer.ExtractKeywords | backend/ai_analyzer.py:221-225 | the result is never empty and every importance is a known level |
| Analyzer.ImproveBullets | backend/ai_analyzer.py:230-239 | the result is never empty and every improvement is well formed |
| Analyzer.KeywordsOfflineWithMarker | backend/ai_analyzer.py:221-225 | offline, a user text mentioning "keyword" gets the report built from the shipped `JOB:?` / `RESUME:?` segments of the prompt |
| Analyzer.KeywordsOfflineWithoutMarker | backend/ai_analyzer.py:221-225 | offline, when neither user text says "keyword": a prompt that says "bullet" or "improve" gets the parse of the bullet fallback's text, and any other gets the "no keywords" sentinel |
| Analyzer.BulletsOffline | backend/ai_analyzer.py:230-239 | offline, when neither user text says "keyword", a bullet request gets the bullet fallback's single suggestion, provided the first bullet, if any, is non-empty and does not hold `ORIGINAL:` |
| Analyzer.BulletsOfflineWithMarker | backend/ai_analyzer.py:230-239 | offline, when the experience text or the job excerpt says "keyword", a bullet request gets the "Performed duties" sentinel |
| Analyzer.BulletsOfflineEmptyBullet | backend/ai_analyzer.py:230-239 | offline, when neither user text says "keyword" and the first bullet is empty, a bullet request gets the "Performed duties" sentinel |
| KeywordSegments.ShippedJobGroup | backend/ai_analyzer.py:133 | as shipped, `JOB:?\s*` first matches at the "job " of the prompt's opening "Analyze job description", so the job group starts at index 12, in the instruction text |
| KeywordSegments.ShippedJob | backend/ai_analyzer.py:133-136 | the shipped job text is non-empty and is a prefix of the lower-cased prompt from index 12 up to the "RESUME:" label |
| KeywordSegments.ShippedResumeGroup | backend/ai_analyzer.py:134 | as shipped, `RESUME:?\s*` first matches at the "resume" of "…in resume." ending the prompt's first line, so the résumé group starts at the "." (index 62) |
| KeywordSegments.ShippedResume | backend/ai_analyzer.py:134-137 | the shipped résumé text starts with the first 200 characters of the lower-cased prompt from index 62 up to the "RESUME:" label |
| KeywordSegments.HeadFree | backend/ai_analyzer.py:50-54 | no vocabulary term occurs in the lower-cased instruction text from "description" to the end of the prompt's first line |
| KeywordSegments.SharedTail | backend/ai_analyzer.py:143-144 | for a job text that starts at index 12 and a résumé text that starts at index 62 and reaches at least as far: a term that does not occur in the prompt from index 12 to the end of its first line (nor holds that line break) is in the résumé text when it is in the job text |
| KeywordSegments.ShippedReportAllPresent | backend/ai_analyzer.py:131-149 | for every job description and résumé, the shipped keyword fallback reports only "All key skills present" on the keyword prompt |
| KeywordSegments.KeywordsOfflineAllPresent | backend/ai_analyzer.py:221-225 | offline, a keyword request whose texts mention "keyword" returns only "All key skills present", whatever the texts |
| KeywordSegments.JobLabelFirst | backend/ai_analyzer.py:223 | the first "job:" (any case) in the keyword prompt is its "JOB:" label |
| KeywordSegments.ResumeLabelFirst | backend/ai_analyzer.py:223 | when the job excerpt never says "resume:" (any case), the first "resume:" in the keyword prompt is its "RESUME:" label |
| KeywordSegments.LabelledJob | backend/ai_analyzer.py:133-136 | cut at the labels, the job text is the job excerpt, stripped, lower-cased and cut to 200 characters |
| KeywordSegments.LabelledResume | backend/ai_analyzer.py:134-137 | cut at the labels, the résumé text is the résumé excerpt, stripped, lower-cased and cut to 200 characters |
| KeywordSegments.LabelledReport | backend/ai_analyzer.py:131-149 | cut at the labels, the keyword fallback's report on the keyword prompt is the report for the user's own job excerpt against the résumé excerpt, so the statements of KeywordFallback.KeywordReportSpec are about the user's texts |
| Scorer.ImportanceWeight | backend/ai_analyzer.py:256 | high 3, low 1, and 2 for "medium" and for any unknown importance |
| Scorer.KeywordScore | backend/ai_analyzer.py:268 | with weight, the score is the floor of the matched percentage (0..100); without weight it is 85 |
| Scorer.Overall | backend/ai_analyzer.py:269-270 | the overall score is the floor of 0.7 × keyword score + 15 |
| Scorer.MatchScoreLoop | backend/ai_analyzer.py:244-283 | the single loop over the keywords computes the score the definition gives |
| Scorer.ScoreBounds | backend/ai_analyzer.py:268-270 | keyword score at most 100, overall between 15 and 85, quality 50 |
| Scorer.AllOrNothing | backend/ai_analyzer.py:268 | all weight matched gives 100, none gives 0 |
| Scorer.AppendMatchedKeyword | backend/ai_analyzer.py:253-268 | adding a keyword the résumé's first 200 characters mention, or a skipped one, never lowers the keyword score |
| Scorer.DetailsTrace | backend/ai_analyzer.py:253-266 | the details are exactly the non-sentinel keywords, in order, each with its weight and whether the window mentions it |
| Scorer.WindowDecides | backend/ai_analyzer.py:246-258 | only the résumé's first 200 characters matter, and the job description not at all |
| Api.ValidateUpload | backend/main.py:52-62 | an upload is accepted iff it has a name ending in .pdf/.docx/.doc (any case) and at most 5 MiB; each refusal is a 400 with the source's message |
| Api.UploadChecksInOrder | backend/main.py:52-62 | the size check comes last |
| Api.ProcessUpload | backend/main.py:67-93 | a completed upload holds the extracted text, at most 10000 characters and not blank, with its four sections; an extractor error is stored as a failure with its message |
| Api.UploadLengthBeforeBlank | backend/main.py:74-79 | too long is reported before blank |
| Api.TakeStatus | backend/main.py:98-108 | an unknown id is a 404 with the store unchanged; a finished entry is returned and removed; a processing one is returned and kept; other entries are untouched |
| Api.TakeOnce | backend/main.py:200-210 | asking twice: a finished task is found, then unknown; a processing one is found both times |
| Api.OtherTasksUntouched | backend/main.py:105-106 | taking one task leaves every other entry as it was |
| Api.ValidateAnalysis | backend/main.py:115-123 | accepted iff résumé and job description are not blank and the résumé has at most 10000 characters; errors in the source's order |
| Api.AnalyzeResume | backend/main.py:111-163 | fails iff validation fails; otherwise non-empty keyword and bullet lists, a match score between 15 and 85, known levels and well-formed improvements |
| Api.NormalizeText | backend/main.py:227-228 | normalised text is stripped and has no upper-case letter |
| Api.MarkerIgnored | backend/main.py:227-228 | a leading `•` or `-` marker does not change what a line normalises to |
| Api.BulletedNormalizes | backend/main.py:238-240 | a rewritten line normalises to the lower-cased stripped improved text |
| Api.RewriteLoop | backend/main.py:236-245 | matching lines become "• improved", the others stay, and the replaced flag is set iff some line matched |
| Api.ApplyOneKeepsLines | backend/main.py:237-245 | with a one-line improved text, a pass keeps the experience text's line count |
| Api.ApplyAllKeepsReplaced | backend/main.py:231-241 | once a line has been replaced, the flag stays set through later improvements |
| Api.Render | backend/main.py:251-260 | the file starts with the title and rule and ends with the rule and the generation time |
| Api.RenderShowsSections | backend/main.py:252-259 | each non-empty section appears as its own titled block; the experience block holds the rewritten text |
| Api.EmptyResumeFrame | backend/main.py:251-260 | with every section empty the file is only the frame |
| Seqs.FoldLeftFlag | backend/main.py:233-245 | a flag that a loop step sets on a hit and never clears ends up set iff it started set or some step hit, judged on the state the earlier steps left |
| Api.ReplacedIffSomeMatch | backend/main.py:231-245 | `replacements_made` ends up true iff some improvement matched a line of the experience text as the improvements before it rewrote it |
| Api.GenerateSucceedsIffMatched | backend/main.py:231-249 | the corrected endpoint succeeds iff some improvement matched a line of the experience section as rewritten by the improvements before it; otherwise it answers 400 |
| Api.GenerateEnhancedResume | backend/main.py:212-260 | the corrected endpoint fails only with "no bullet points could be replaced", and otherwise returns the framed file |
| Api.GenerateEnhancedResumeAsShipped | backend/main.py:212-274 | the shipped endpoint never succeeds |
| Api.ShippedRejectsMatchingImprovement | backend/main.py:227-274 | an improvement matching an experience line makes the corrected endpoint succeed, while the shipped one answers 500 |
| Api.NoImprovementsNothingReplaced | backend/main.py:247-249 | an empty improvements list gives the 400 "nothing replaced" error in both versions |

## Left out

- Unicode: character classes, `lower`, `isupper` and `isspace` are ASCII. Non-ASCII characters are kept but never count as space, word or cased characters. `re.IGNORECASE` is modelled as ASCII case folding.
- Float arithmetic:
  - Scorer.KeywordScore: the source computes `int(m / t * 100)` in binary floating point, which can come out one below the exact floor. For m = 29 and t = 100 it gives 28. The model uses the exact floor.
  - Scorer.Overall: the same applies to `int(k * 0.7 + 50 * 0.3)`.
- The service conversation: the `/api/tags` probe, the generation POST, JSON decoding of both replies, and the 0.5-second sleeps are not modelled. They are replaced by the `Network` oracle, and a decoding error counts as a raised request. The request options (temperature, `num_predict`, timeouts) are not modelled.
- The exception handlers that return "Analysis failed", "Analysis error|low|0|Could not analyze keywords", the "Work experience" bullet default, the "Analysis Error" keyword and the 50/50/50 score cannot be reached in the modelled code, so they are not modelled.
- Api.ProcessUpload:
  - the PDF and DOCX extractors are a parameter `extract`, and their own 400 errors reach the store as the message of a raised error;
  - `str(HTTPException)` is kept as the `HttpError` value itself, not rendered as text;
  - the `uuid` task id, the `"processing"` entry written before the background step runs, and `BackgroundTasks` scheduling are not modelled.
- Api.AnalyzeResume:
  - the 10-second `asyncio.wait_for` (408) is not modelled, because the service oracle has no notion of time. In the source each analysis call can take a 2-second probe, two 5-second requests and a 0.5-second sleep, and two such calls share the 10-second budget;
  - the generic 500 "Error analyzing resume" path is not modelled, since no modelled step raises;
  - the two service conversations are two oracles.
- `analyze_resume_async`: only its status lookup (`get_analysis_status`, Api.TakeStatus) is modelled. Its background body is the same computation as Api.AnalyzeResume, without the validation.
- Api.GenerateEnhancedResume:
  - the improvements arrive as already-decoded `Replacement` values, so the "Invalid JSON format" 400 and the `KeyError` of a missing `original`/`improved` field (a 500) are not modelled;
  - the generation time is a parameter `timestamp`;
  - `StreamingResponse` and its headers are not modelled.
- BulletTextParses: a first bullet that itself holds `ORIGINAL:` starts a second block in the fallback's text. What `parse_improvements` then returns is not stated.
- BulletsOffline: the same gap, a first bullet holding `ORIGINAL:`, is left open here too.
- BulletPromptFallback: the same gap again. A first bullet holding `ORIGINAL:` is not covered. The empty first bullet is covered by Fallback.BulletPromptEmptyBullet.
- LabelledReport: a job excerpt that itself says "resume:" (any case) is not covered. Cut at the labels, the job text would then stop at that word, and the résumé text would start after it. LabelledJob and LabelledResume leave out the same case.
- Not modelled at all: logging, NLTK setup and stop words, the `ThreadPool`, CORS, the health endpoint, and the `__main__` block.

## Findings

| source | as written | input that shows it | evidently intended | confidence | as-written member | corrected member |
|---|---|---|---|---|---|---|
| backend/ai_analyzer.py:133-134 | `JOB:?` and `RESUME:?` make the colon optional, so on the keyword prompt they first match the words "job" and "resume" of the opening sentence. The job text then starts in the instruction text, and the résumé text starts 50 characters later in the same text and reaches at least as far as the job text. Every vocabulary term in the job text is in the résumé text, so the fallback always answers "All key skills present". | any keyword prompt, e.g. job description "python docker aws kubernetes keyword" with résumé "I know java" | `JOB:` and `RESUME:` with the colon required: the texts after the prompt's labels, so missing skills of the user's job description are reported | not executed | KeywordSegments.ShippedReportAllPresent, KeywordSegments.KeywordsOfflineAllPresent | KeywordSegments.LabelledReport, KeywordFallback.KeywordReportSpec, KeywordFallback.LabelledTextParses |
| backend/main.py:227-228 | `normalize_text` calls `re.sub`, but `main.py` never imports `re`. The `NameError` is caught by the generic handler, so every request with a non-empty improvements list answers 500 "Error generating enhanced resume: name 're' is not defined". | `original_text = "Experience\n- Led team"` with `improvements = [{"original": "- Led team", "improved": "Led a team of 5"}]` | `import re` at the top of `main.py`: matching bullets are rewritten and the file is returned | not executed | Api.GenerateEnhancedResumeAsShipped, Api.ShippedRejectsMatchingImprovement | Api.GenerateEnhancedResume |
