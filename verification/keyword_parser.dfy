/** `AIAnalyzer.parse_keywords` (backend/ai_analyzer.py): a tolerant reader of
    `skill|importance|frequency|context` lines that never returns an empty list. */
module KeywordParser {
  import opened Wrappers
  import opened Seqs
  import opened Strings
  import opened Records

  /** The importance levels the parser keeps. */
  predicate IsLevel(s: string) {
    s == "high" || s == "medium" || s == "low"
  }

  /** The importance field: its lower-case form when that is a known level, else "medium". */
  function Importance(field: string): (r: string)
    ensures IsLevel(r)
    ensures IsLevel(Lower(field)) ==> r == Lower(field)
    ensures !IsLevel(Lower(field)) ==> r == "medium"
  {
    var l := Lower(field);
    if IsLevel(l) then l else "medium"
  }

  /** The frequency field: its value when it is all digits, else 1. */
  function Frequency(field: string): (r: nat)
    ensures !IsDigits(field) ==> r == 1
  {
    if IsDigits(field) then DecimalValue(field) else 1
  }

  function StripAll(parts: seq<string>): (r: seq<string>)
    ensures |r| == |parts|
  {
    seq(|parts|, i requires 0 <= i < |parts| => Strip(parts[i]))
  }

  /** One line of the response: a keyword, or `None` when the line is skipped. */
  function ParseLine(raw: string): Option<Keyword> {
    var line := Strip(raw);
    if line == "" || '|' !in line then None
    else
      var parts := StripAll(Split(line, '|'));
      if |parts| < 3 then None
      else
        var keyword := parts[0];
        var context := if |parts| > 3 then parts[3] else keyword + " skill";
        Some(Keyword(keyword, Importance(parts[1]), Frequency(parts[2]), context))
  }

  /** The keywords of the lines that parse, in line order. */
  function ParseLines(lines: seq<string>): seq<Keyword> {
    FilterMap(ParseLine, lines)
  }

  const NoAnalysis: Keyword := Keyword("None", "low", 0, "No analysis available")
  const NoKeywords: Keyword := Keyword("None", "low", 0, "No keywords identified")

  /** `parse_keywords`. */
  function ParseKeywords(response: string): (r: seq<Keyword>)
    ensures |r| >= 1
    ensures Strip(response) == "" ==> r == [NoAnalysis]
    ensures Strip(response) != "" && ParseLines(Split(response, '\n')) == [] ==> r == [NoKeywords]
    ensures forall i :: 0 <= i < |r| ==> IsLevel(r[i].importance)
  {
    if Strip(response) == "" then [NoAnalysis]
    else
      var ks := ParseLines(Split(response, '\n'));
      ParsedLevels(Split(response, '\n'));
      if |ks| == 0 then [NoKeywords] else ks
  }

  // ---------------------------------------------------------------------------
  // Properties

  /** A line yields a keyword iff, once stripped, it holds at least two `|`. */
  lemma ParseLineAccepts(raw: string)
    ensures ParseLine(raw).Some? <==> Count(Strip(raw), "|") >= 2
  {
    var line := Strip(raw);
    SplitCount(line, '|');
    if '|' !in line {
      SplitNoSeparator(line, '|');
    }
  }

  /** Every parsed keyword has a known importance level; an unparsable frequency reads as 1,
      and a missing context becomes "<keyword> skill". */
  lemma ParseLineFields(raw: string)
    requires ParseLine(raw).Some?
    ensures IsLevel(ParseLine(raw).value.importance)
    ensures var parts := StripAll(Split(Strip(raw), '|'));
            |parts| >= 3 &&
            ParseLine(raw).value.keyword == parts[0] &&
            (!IsDigits(parts[2]) ==> ParseLine(raw).value.frequency == 1) &&
            (|parts| == 3 ==> ParseLine(raw).value.context == parts[0] + " skill")
  {
  }

  lemma ParsedLevels(lines: seq<string>)
    ensures forall i :: 0 <= i < |ParseLines(lines)| ==> IsLevel(ParseLines(lines)[i].importance)
  {
    forall raw | ParseLine(raw).Some?
      ensures IsLevel(ParseLine(raw).value.importance)
    {
      ParseLineFields(raw);
    }
    FilterMapKeeps(ParseLine, lines, (k: Keyword) => IsLevel(k.importance));
  }

  /** Parsing is line by line: the keywords keep the order of the lines they come from. */
  lemma ParseLinesAppend(a: seq<string>, b: seq<string>)
    ensures ParseLines(a + b) == ParseLines(a) + ParseLines(b)
  {
    FilterMapAppend(ParseLine, a, b);
  }

  // ---------------------------------------------------------------------------
  // Writing keywords back as lines

  /** A field that survives a round trip: stripped, and free of the two separators. */
  predicate IsField(s: string) {
    IsStripped(s) && '|' !in s && '\n' !in s
  }

  /** A keyword that its own line reproduces exactly. */
  predicate Printable(k: Keyword) {
    IsField(k.keyword) && IsLevel(k.importance) && IsField(k.context)
  }

  /** The four fields of a keyword's line, the frequency as a decimal numeral. */
  function Fields(k: Keyword): seq<string> {
    [k.keyword, k.importance, NatToString(k.frequency), k.context]
  }

  /** The line format the parser reads. */
  function FormatKeyword(k: Keyword): string {
    Join(Fields(k), "|")
  }

  lemma LevelIsStable(level: string)
    requires IsLevel(level)
    ensures Importance(level) == level && IsField(level)
  {
    if level == "high" {
      assert Lower("high") == "high";
    } else if level == "medium" {
      assert Lower("medium") == "medium";
    } else {
      assert Lower("low") == "low";
    }
  }

  lemma NumeralIsField(n: nat)
    ensures IsField(NatToString(n)) && IsDigits(NatToString(n))
  {
    var d := NatToString(n);
    assert !IsSpace(d[0]) && !IsSpace(d[|d| - 1]);
    assert forall i :: 0 <= i < |d| ==> d[i] != '|' && d[i] != '\n';
  }

  lemma FieldsAreFields(k: Keyword)
    requires Printable(k)
    ensures forall i :: 0 <= i < 4 ==> IsField(Fields(k)[i])
  {
    NumeralIsField(k.frequency);
    LevelIsStable(k.importance);
  }

  /** A formatted line is stripped, holds a `|`, has no line break, and splits into its fields. */
  lemma FormattedLine(k: Keyword)
    requires Printable(k)
    ensures var line := FormatKeyword(k);
            IsStripped(line) && '|' in line && '\n' !in line && Split(line, '|') == Fields(k)
  {
    var parts := Fields(k);
    FieldsAreFields(k);
    JoinFirstLast(parts, "|");
    JoinFree(parts, "|", '\n');
    JoinStartsWithFirst(parts[1..], "|");
    assert FormatKeyword(k) == parts[0] + "|" + Join(parts[1..], "|");
    assert FormatKeyword(k)[|parts[0]|] == '|';
    SplitJoin(parts, '|');
  }

  lemma StripAllStripped(parts: seq<string>)
    requires forall i :: 0 <= i < |parts| ==> IsStripped(parts[i])
    ensures StripAll(parts) == parts
  {
    forall i | 0 <= i < |parts| ensures StripAll(parts)[i] == parts[i] {
      StripStripped(parts[i]);
    }
  }

  /** A stripped line with a `|` and four fields parses into those fields. */
  lemma ParseFourFields(line: string, parts: seq<string>)
    requires Strip(line) == line && '|' in line
    requires StripAll(Split(line, '|')) == parts && |parts| == 4
    ensures ParseLine(line) == Some(Keyword(parts[0], Importance(parts[1]), Frequency(parts[2]), parts[3]))
  {
  }

  lemma FrequencyOfNumeral(n: nat)
    ensures Frequency(NatToString(n)) == n
  {
    DecimalOfNatToString(n);
  }

  /** The stripped fields of a printable keyword's line are its fields. */
  lemma FormattedFields(k: Keyword)
    requires Printable(k)
    ensures var line := FormatKeyword(k);
            Strip(line) == line && '|' in line && StripAll(Split(line, '|')) == Fields(k)
  {
    FormattedLine(k);
    StripStripped(FormatKeyword(k));
    FieldsAreFields(k);
    StripAllStripped(Fields(k));
  }

  /** A printable keyword's line parses back to the same keyword. */
  lemma FormatParses(k: Keyword)
    requires Printable(k)
    ensures ParseLine(FormatKeyword(k)) == Some(k)
  {
    var parts := Fields(k);
    FormattedFields(k);
    ParseFourFields(FormatKeyword(k), parts);
    LevelIsStable(k.importance);
    FrequencyOfNumeral(k.frequency);
  }

  /** The lines of a list of keywords. */
  function FormatAll(ks: seq<Keyword>): (r: seq<string>)
    ensures |r| == |ks|
  {
    seq(|ks|, i requires 0 <= i < |ks| => FormatKeyword(ks[i]))
  }

  lemma ParseFormatted(ks: seq<Keyword>)
    requires forall i :: 0 <= i < |ks| ==> Printable(ks[i])
    ensures ParseLines(FormatAll(ks)) == ks
  {
    var lines := FormatAll(ks);
    forall i | 0 <= i < |lines| ensures ParseLine(lines[i]) == Some(ks[i]) {
      FormatParses(ks[i]);
    }
    FilterMapTotal(ParseLine, lines, ks);
  }

  /** Writing printable keywords one per line and parsing the text gives them back. */
  lemma ParseKeywordsRoundTrip(ks: seq<Keyword>)
    requires |ks| >= 1
    requires forall i :: 0 <= i < |ks| ==> Printable(ks[i])
    ensures ParseKeywords(Join(FormatAll(ks), "\n")) == ks
  {
    var lines := FormatAll(ks);
    var text := Join(lines, "\n");
    forall i | 0 <= i < |lines|
      ensures '\n' !in lines[i]
    {
      FormattedLine(ks[i]);
    }
    SplitJoin(lines, '\n');
    ParseFormatted(ks);
    FormattedLine(ks[0]);
    JoinedNotBlank(lines, '|');
  }

  /** Lines joined by line breaks, the first holding a non-space `c`, are not blank. */
  lemma JoinedNotBlank(lines: seq<string>, c: char)
    requires |lines| >= 1 && c in lines[0] && !IsSpace(c)
    ensures Strip(Join(lines, "\n")) != ""
  {
    var text := Join(lines, "\n");
    var j :| 0 <= j < |lines[0]| && lines[0][j] == c;
    JoinStartsWithFirst(lines, "\n");
    assert text[j] == c;
    StripAllSpace(text);
  }
}
