/** `AIAnalyzer.parse_improvements` (backend/ai_analyzer.py): blocks of `ORIGINAL:`,
    `IMPROVED:`, `REASON:` and `IMPACT:` lines read into bullet improvements. */
module ImprovementParser {
  import opened Wrappers
  import opened Seqs
  import opened Strings
  import opened Records

  const OriginalTag: string := "ORIGINAL:"
  const ImprovedTag: string := "IMPROVED:"
  const ReasonTag: string := "REASON:"
  const ImpactTag: string := "IMPACT:"

  // ---------------------------------------------------------------------------
  // Blocks: `re.split(r'\n\s*\n|(?=ORIGINAL:)', response)`

  /** Length of the longest prefix of `t` that is all whitespace and ends in a line break
      (what `\s*\n` matches, greedy with backtracking), or 0 when there is none. */
  function BreakLen(t: string): (n: nat)
    ensures n <= |t|
    decreases |t|
  {
    if |t| == 0 || !IsSpace(t[0]) then 0
    else
      var n := BreakLen(t[1..]);
      if n > 0 then n + 1 else if t[0] == '\n' then 1 else 0
  }

  /** Length of the blank-line break `\n\s*\n` that starts `rest`, or 0 when none starts there. */
  function BreakAt(rest: string): (n: nat)
    ensures n <= |rest|
  {
    if |rest| > 0 && rest[0] == '\n' && BreakLen(rest[1..]) > 0 then 1 + BreakLen(rest[1..]) else 0
  }

  /** A place where the splitter cuts: a blank-line break, or the empty match before `ORIGINAL:`. */
  predicate CutAt(t: string) {
    BreakAt(t) > 0 || StartsWith(t, OriginalTag)
  }

  /** The pieces of `rest`, the piece being built so far being `cur`. A blank-line break is
      dropped between two pieces; `ORIGINAL:` starts a new piece, and since an empty match
      cannot repeat where the last one was, the scan moves past its first letter. */
  function Pieces(rest: string, cur: string): (r: seq<string>)
    ensures |r| >= 1
    decreases |rest|
  {
    if |rest| == 0 then [cur]
    else if BreakAt(rest) > 0 then [cur] + Pieces(rest[BreakAt(rest)..], "")
    else if StartsWith(rest, OriginalTag) then [cur] + Pieces(rest[1..], rest[..1])
    else Pieces(rest[1..], cur + rest[..1])
  }

  function Blocks(response: string): (r: seq<string>)
    ensures |r| >= 1
  {
    Pieces(response, "")
  }

  // ---------------------------------------------------------------------------
  // Reading one block

  /** The fields read so far from one block. */
  datatype Draft = Draft(original: string, improved: string, reason: string, impact: nat)

  /** Before the first line: empty texts and an impact of 7. */
  const Start: Draft := Draft("", "", "", 7)

  /** The digits at the start of `s`. */
  function DigitPrefix(s: string): (r: string)
    ensures |r| <= |s| && r == s[..|r|]
    ensures forall i :: 0 <= i < |r| ==> IsDigit(r[i])
    ensures |r| < |s| ==> !IsDigit(s[|r|])
    decreases |s|
  {
    if |s| > 0 && IsDigit(s[0]) then [s[0]] + DigitPrefix(s[1..]) else ""
  }

  /** `int(re.findall(r'\d+', s)[0])`, or `None` when `s` has no digit. */
  function FirstNumber(s: string): Option<nat>
    decreases |s|
  {
    if |s| == 0 then None
    else if IsDigit(s[0]) then Some(DecimalValue(DigitPrefix(s)))
    else FirstNumber(s[1..])
  }

  /** `line.replace(tag, '').strip()`. */
  function After(line: string, tag: string): string {
    Strip(Replace(line, tag, ""))
  }

  /** One line of a block; a later line with the same tag overrides an earlier one. */
  function ReadLine(d: Draft, raw: string): Draft {
    var line := Strip(raw);
    if StartsWith(line, OriginalTag) then d.(original := After(line, OriginalTag))
    else if StartsWith(line, ImprovedTag) then d.(improved := After(line, ImprovedTag))
    else if StartsWith(line, ReasonTag) then d.(reason := After(line, ReasonTag))
    else if StartsWith(line, ImpactTag) then
      match FirstNumber(line)
      case Some(v) => d.(impact := if v < 10 then v else 10)
      case None => d
    else d
  }

  /** The lines of a block, read top to bottom. */
  function ReadLines(d: Draft, lines: seq<string>): Draft {
    FoldLeft(ReadLine, d, lines)
  }

  /** The improvement a block describes, if it names both an original and an improved text. */
  function BlockImprovement(block: string): Option<BulletImprovement> {
    if Strip(block) == "" then None
    else
      var d := ReadLines(Start, Split(block, '\n'));
      if d.original != "" && d.improved != "" then
        Some(BulletImprovement(d.original, d.improved, if d.reason == "" then "Enhanced impact" else d.reason, d.impact))
      else None
  }

  const NoExperience: BulletImprovement := BulletImprovement("No experience", "Enhanced experience", "Added language", 5)
  const NoImprovements: BulletImprovement := BulletImprovement("Performed duties", "Delivered results", "Added specificity", 7)

  /** What every improvement the parser returns looks like: non-empty stripped texts and an
      impact of at most 10. */
  predicate WellFormed(b: BulletImprovement) {
    b.original != "" && b.improved != "" && b.reason != "" &&
    IsStripped(b.original) && IsStripped(b.improved) && IsStripped(b.reason) &&
    b.impact <= 10
  }

  lemma SentinelsWellFormed()
    ensures WellFormed(NoExperience) && WellFormed(NoImprovements)
  {
    assert IsStripped(NoExperience.original) && IsStripped(NoExperience.improved) && IsStripped(NoExperience.reason);
    assert IsStripped(NoImprovements.original) && IsStripped(NoImprovements.improved) && IsStripped(NoImprovements.reason);
  }

  /** `parse_improvements`. */
  function ParseImprovements(response: string): (r: seq<BulletImprovement>)
    ensures |r| >= 1
    ensures Strip(response) == "" ==> r == [NoExperience]
    ensures Strip(response) != "" && FilterMap(BlockImprovement, Blocks(response)) == [] ==> r == [NoImprovements]
    ensures forall i :: 0 <= i < |r| ==> WellFormed(r[i])
  {
    SentinelsWellFormed();
    if Strip(response) == "" then [NoExperience]
    else
      var blocks := Blocks(response);
      var bs := FilterMap(BlockImprovement, blocks);
      BlocksWellFormed(blocks);
      if |bs| == 0 then [NoImprovements] else bs
  }

  // ---------------------------------------------------------------------------
  // Every result is well formed

  /** The invariant of the line reader: stripped texts, impact at most 10. */
  predicate GoodDraft(d: Draft) {
    IsStripped(d.original) && IsStripped(d.improved) && IsStripped(d.reason) && d.impact <= 10
  }

  lemma ReadLineGood(d: Draft, raw: string)
    requires GoodDraft(d)
    ensures GoodDraft(ReadLine(d, raw))
  {
    var line := Strip(raw);
    var e := ReadLine(d, raw);
    if StartsWith(line, OriginalTag) {
      assert e == d.(original := After(line, OriginalTag));
      AfterStripped(line, OriginalTag);
    } else if StartsWith(line, ImprovedTag) {
      assert e == d.(improved := After(line, ImprovedTag));
      AfterStripped(line, ImprovedTag);
    } else if StartsWith(line, ReasonTag) {
      assert e == d.(reason := After(line, ReasonTag));
      AfterStripped(line, ReasonTag);
    } else if StartsWith(line, ImpactTag) {
      match FirstNumber(line)
      case Some(v) =>
        assert e == d.(impact := if v < 10 then v else 10);
      case None =>
        assert e == d;
    } else {
      assert e == d;
    }
  }

  lemma AfterStripped(line: string, tag: string)
    ensures IsStripped(After(line, tag))
  {
  }

  lemma ReadLinesGood(d: Draft, lines: seq<string>)
    requires GoodDraft(d)
    ensures GoodDraft(ReadLines(d, lines))
  {
    forall e: Draft, raw: string | GoodDraft(e)
      ensures GoodDraft(ReadLine(e, raw))
    {
      ReadLineGood(e, raw);
    }
    FoldLeftKeeps(ReadLine, d, lines, GoodDraft);
  }

  lemma BlockWellFormed(block: string)
    requires BlockImprovement(block).Some?
    ensures WellFormed(BlockImprovement(block).value)
  {
    var d := ReadLines(Start, Split(block, '\n'));
    ReadLinesGood(Start, Split(block, '\n'));
    assert BlockImprovement(block).value ==
      BulletImprovement(d.original, d.improved, if d.reason == "" then "Enhanced impact" else d.reason, d.impact);
    assert IsStripped("Enhanced impact");
  }

  lemma BlocksWellFormed(blocks: seq<string>)
    ensures forall i :: 0 <= i < |FilterMap(BlockImprovement, blocks)| ==> WellFormed(FilterMap(BlockImprovement, blocks)[i])
  {
    forall block | BlockImprovement(block).Some?
      ensures WellFormed(BlockImprovement(block).value)
    {
      BlockWellFormed(block);
    }
    FilterMapKeeps(BlockImprovement, blocks, WellFormed);
  }

  // ---------------------------------------------------------------------------
  // Writing improvements back as blocks

  /** A text that reads back unchanged after `tag`: non-empty, stripped, on one line, and
      free of `tag` and of `ORIGINAL:`, which would start a new block. */
  predicate IsText(s: string, tag: string) {
    s != "" && IsStripped(s) && '\n' !in s && !Contains(s, OriginalTag) && !Contains(s, tag)
  }

  /** An improvement whose block is one piece that splits into its four lines: the original
      may be empty, but otherwise obeys the rules of `IsText`. */
  predicate Writable(b: BulletImprovement) {
    IsStripped(b.original) && '\n' !in b.original && !Contains(b.original, OriginalTag) &&
    IsText(b.improved, ImprovedTag) && IsText(b.reason, ReasonTag) && b.impact <= 10
  }

  /** An improvement that its own block reproduces exactly. */
  predicate Printable(b: BulletImprovement) {
    b.original != "" && Writable(b)
  }

  /** The four lines of an improvement's block, in the order the prompt asks for. */
  function Lines(b: BulletImprovement): seq<string> {
    [OriginalTag + " " + b.original, ImprovedTag + " " + b.improved,
     ReasonTag + " " + b.reason, ImpactTag + " " + NatToString(b.impact)]
  }

  function FormatImprovement(b: BulletImprovement): string {
    Join(Lines(b), "\n")
  }

  function FormatAll(bs: seq<BulletImprovement>): (r: seq<string>)
    ensures |r| == |bs|
  {
    seq(|bs|, i requires 0 <= i < |bs| => FormatImprovement(bs[i]))
  }

  /** A tagged line reads back as its text. */
  lemma AfterTag(tag: string, s: string)
    requires |tag| > 0 && !IsSpace(tag[0])
    requires s != "" && IsStripped(s) && !Contains(s, tag)
    ensures var line := tag + " " + s;
            Strip(line) == line && StartsWith(line, tag) && After(line, tag) == s
  {
    var line := tag + " " + s;
    assert line[..|tag|] == tag;
    assert line[|tag|..] == " " + s;
    ReplaceAbsent(s, tag, "");
    assert (" " + s)[1..] == s;
    assert Replace(" " + s, tag, "") == " " + s;
    assert Replace(line, tag, "") == " " + s;
    assert LStrip(" " + s) == s;
  }

  /** A line that differs from a tag at some position does not start with that tag. */
  lemma DiffersAt(line: string, tag: string, j: nat)
    requires j < |tag| && j < |line| && line[j] != tag[j]
    ensures !StartsWith(line, tag)
  {
  }

  lemma ReadOriginal(d: Draft, s: string)
    requires IsText(s, OriginalTag)
    ensures ReadLine(d, OriginalTag + " " + s) == d.(original := s)
  {
    var line := OriginalTag + " " + s;
    AfterTag(OriginalTag, s);
    assert ReadLine(d, line) == d.(original := After(line, OriginalTag));
  }

  lemma ReadImproved(d: Draft, s: string)
    requires IsText(s, ImprovedTag)
    ensures ReadLine(d, ImprovedTag + " " + s) == d.(improved := s)
  {
    var line := ImprovedTag + " " + s;
    AfterTag(ImprovedTag, s);
    DiffersAt(line, OriginalTag, 0);
    assert ReadLine(d, line) == d.(improved := After(line, ImprovedTag));
  }

  lemma ReadReason(d: Draft, s: string)
    requires IsText(s, ReasonTag)
    ensures ReadLine(d, ReasonTag + " " + s) == d.(reason := s)
  {
    var line := ReasonTag + " " + s;
    AfterTag(ReasonTag, s);
    DiffersAt(line, OriginalTag, 0);
    DiffersAt(line, ImprovedTag, 0);
    assert ReadLine(d, line) == d.(reason := After(line, ReasonTag));
  }

  /** The first number after letters and spaces is the numeral that follows them. */
  lemma {:induction false} FirstNumberAfter(a: string, ds: string)
    requires forall i :: 0 <= i < |a| ==> !IsDigit(a[i])
    requires IsDigits(ds)
    ensures FirstNumber(a + ds) == Some(DecimalValue(ds))
    decreases |a|
  {
    if |a| == 0 {
      assert a + ds == ds;
      assert DigitPrefix(ds) == ds;
    } else {
      assert (a + ds)[1..] == a[1..] + ds;
      FirstNumberAfter(a[1..], ds);
    }
  }

  lemma ImpactLine(n: nat)
    ensures var line := ImpactTag + " " + NatToString(n);
            Strip(line) == line && StartsWith(line, ImpactTag) && FirstNumber(line) == Some(n)
  {
    var ds := NatToString(n);
    var line := ImpactTag + " " + ds;
    NumeralFree(n);
    assert line[0] == 'I' && line[|line| - 1] == ds[|ds| - 1];
    StripStripped(line);
    assert line[..|ImpactTag|] == ImpactTag;
    FirstNumberAfter(ImpactTag + " ", ds);
    DecimalOfNatToString(n);
  }

  /** An `IMPACT:` line sets the impact to its number, capped at 10. */
  lemma ReadImpact(d: Draft, n: nat)
    ensures ReadLine(d, ImpactTag + " " + NatToString(n)) == d.(impact := if n <= 10 then n else 10)
  {
    var line := ImpactTag + " " + NatToString(n);
    ImpactLine(n);
    DiffersAt(line, OriginalTag, 0);
    DiffersAt(line, ImprovedTag, 3);
    DiffersAt(line, ReasonTag, 0);
  }

  lemma TaggedLineFree(tag: string, s: string)
    requires '\n' !in tag && '\n' !in s
    ensures '\n' !in tag + " " + s
  {
  }

  lemma LinesFree(b: BulletImprovement)
    requires Writable(b)
    ensures forall i :: 0 <= i < |Lines(b)| ==> '\n' !in Lines(b)[i]
  {
    NumeralFree(b.impact);
    TaggedLineFree(OriginalTag, b.original);
    TaggedLineFree(ImprovedTag, b.improved);
    TaggedLineFree(ReasonTag, b.reason);
    TaggedLineFree(ImpactTag, NatToString(b.impact));
  }

  lemma NumeralFree(n: nat)
    ensures '\n' !in NatToString(n) && !Contains(NatToString(n), OriginalTag)
    ensures !IsSpace(NatToString(n)[0]) && !IsSpace(NatToString(n)[|NatToString(n)| - 1])
  {
    var ds := NatToString(n);
    assert forall i :: 0 <= i < |ds| ==> ds[i] != '\n' && ds[i] != 'O';
    NotContainsMissingChar(ds, OriginalTag, 0);
  }

  /** Text without a digit has no number in it. */
  lemma {:induction false} FirstNumberNone(s: string)
    requires forall i :: 0 <= i < |s| ==> !IsDigit(s[i])
    ensures FirstNumber(s) == None
    decreases |s|
  {
    if |s| > 0 {
      FirstNumberNone(s[1..]);
    }
  }

  /** Stripping keeps a character class out. */
  lemma StripLacksDigits(raw: string)
    requires forall i :: 0 <= i < |raw| ==> !IsDigit(raw[i])
    ensures var line := Strip(raw); forall i :: 0 <= i < |line| ==> !IsDigit(line[i])
  {
    var l := LStrip(raw);
    var line := RStrip(l);
    forall i | 0 <= i < |line| ensures !IsDigit(line[i]) {
      var k := |raw| - |l| + i;
      assert line[i] == l[i];
      assert l[i] == raw[k];
    }
  }

  // ---------------------------------------------------------------------------
  // A response without the letter 'O'

  /** A text without the letter 'O' is cut only at blank-line breaks, into pieces without 'O'. */
  lemma {:induction false} PiecesLackO(rest: string, cur: string)
    requires 'O' !in rest && 'O' !in cur
    ensures forall i :: 0 <= i < |Pieces(rest, cur)| ==> 'O' !in Pieces(rest, cur)[i]
    decreases |rest|
  {
    if |rest| > 0 {
      assert !StartsWith(rest, OriginalTag) by {
        assert rest[0] in rest;
      }
      if BreakAt(rest) > 0 {
        PiecesLackO(rest[BreakAt(rest)..], "");
      } else {
        PiecesLackO(rest[1..], cur + rest[..1]);
      }
    }
  }

  /** A line without the letter 'O' is no `ORIGINAL:` line. */
  lemma ReadLineKeepsOriginal(d: Draft, raw: string)
    requires 'O' !in raw
    ensures ReadLine(d, raw).original == d.original
  {
    StripFree(raw, 'O');
    NotContainsMissingChar(Strip(raw), OriginalTag, 0);
  }

  lemma {:induction false} ReadLinesKeepOriginal(d: Draft, lines: seq<string>)
    requires forall i :: 0 <= i < |lines| ==> 'O' !in lines[i]
    ensures ReadLines(d, lines).original == d.original
    decreases |lines|
  {
    if |lines| > 0 {
      ReadLineKeepsOriginal(d, lines[0]);
      ReadLinesKeepOriginal(ReadLine(d, lines[0]), lines[1..]);
    }
  }

  /** A block without the letter 'O' names no original bullet, so it describes no improvement. */
  lemma BlockWithoutOriginal(block: string)
    requires 'O' !in block
    ensures BlockImprovement(block) == None
  {
    if Strip(block) != "" {
      SplitPiecesLack(block, '\n', 'O');
      ReadLinesKeepOriginal(Start, Split(block, '\n'));
    }
  }

  lemma {:induction false} BlocksWithoutOriginal(blocks: seq<string>)
    requires forall i :: 0 <= i < |blocks| ==> 'O' !in blocks[i]
    ensures FilterMap(BlockImprovement, blocks) == []
    decreases |blocks|
  {
    if |blocks| > 0 {
      BlockWithoutOriginal(blocks[0]);
      BlocksWithoutOriginal(blocks[1..]);
      FilterMapCons(BlockImprovement, blocks[0], blocks[1..]);
      assert blocks == [blocks[0]] + blocks[1..];
    }
  }

  /** A response that is not blank and has no letter 'O' anywhere, so no `ORIGINAL:` line,
      reads as the "no improvements" sentinel. */
  lemma UntaggedResponse(response: string)
    requires 'O' !in response && Strip(response) != ""
    ensures ParseImprovements(response) == [NoImprovements]
  {
    PiecesLackO(response, "");
    BlocksWithoutOriginal(Blocks(response));
  }

  /** An `IMPACT:` line without a digit changes nothing. */
  lemma ImpactWithoutDigit(d: Draft, raw: string)
    requires StartsWith(Strip(raw), ImpactTag)
    requires forall i :: 0 <= i < |raw| ==> !IsDigit(raw[i])
    ensures ReadLine(d, raw) == d
  {
    var line := Strip(raw);
    StripLacksDigits(raw);
    FirstNumberNone(line);
    ImpactTagOnly(line);
  }

  /** A line under the `IMPACT:` tag is under none of the other three. */
  lemma ImpactTagOnly(line: string)
    requires StartsWith(line, ImpactTag)
    ensures !StartsWith(line, OriginalTag) && !StartsWith(line, ImprovedTag) && !StartsWith(line, ReasonTag)
  {
    DiffersAt(line, OriginalTag, 0);
    DiffersAt(line, ImprovedTag, 3);
    DiffersAt(line, ReasonTag, 0);
  }

  /** An `ORIGINAL:` line with nothing after the tag empties the original. */
  lemma ReadEmptyOriginal(d: Draft)
    ensures ReadLine(d, OriginalTag + " ") == d.(original := "")
  {
    var raw := OriginalTag + " ";
    assert raw[..|raw| - 1] == OriginalTag;
    assert RStrip(OriginalTag) == OriginalTag;
    assert Strip(raw) == OriginalTag;
    assert OriginalTag[|OriginalTag|..] == "";
    assert Replace(OriginalTag, OriginalTag, "") == "";
  }

  /** A block of only an `ORIGINAL:` and an `IMPROVED:` line gets the default reason
      "Enhanced impact" and the default impact 7. */
  lemma TwoLineBlockDefaults(o: string, i: string)
    requires IsText(o, OriginalTag) && IsText(i, ImprovedTag)
    ensures BlockImprovement(Join([OriginalTag + " " + o, ImprovedTag + " " + i], "\n")) ==
            Some(BulletImprovement(o, i, "Enhanced impact", 7))
  {
    var lines := [OriginalTag + " " + o, ImprovedTag + " " + i];
    TwoLinesSplit(lines);
    TwoLinesRead(o, i);
  }

  lemma TwoLinesSplit(lines: seq<string>)
    requires |lines| == 2 && '\n' !in lines[0] && '\n' !in lines[1]
    requires |lines[0]| > 0 && !IsSpace(lines[0][0])
    ensures Split(Join(lines, "\n"), '\n') == lines && Strip(Join(lines, "\n")) != ""
  {
    SplitJoin(lines, '\n');
    JoinStartsWithFirst(lines, "\n");
    StripAllSpace(Join(lines, "\n"));
  }

  lemma TwoLinesRead(o: string, i: string)
    requires IsText(o, OriginalTag) && IsText(i, ImprovedTag)
    ensures ReadLines(Start, [OriginalTag + " " + o, ImprovedTag + " " + i]) == Start.(original := o, improved := i)
  {
    FoldLeftTwo(ReadLine, Start, [OriginalTag + " " + o, ImprovedTag + " " + i]);
    ReadOriginal(Start, o);
    ReadImproved(Start.(original := o), i);
  }

  /** A printable improvement's block reads back as that improvement. */
  lemma BlockReads(b: BulletImprovement)
    requires Printable(b)
    ensures BlockImprovement(FormatImprovement(b)) == Some(b)
  {
    var lines := Lines(b);
    var text := FormatImprovement(b);
    LinesFree(b);
    SplitJoin(lines, '\n');
    JoinStartsWithFirst(lines, "\n");
    assert text[0] == 'O';
    StripAllSpace(text);
    FoldLeftFour(ReadLine, Start, lines);
    ReadOriginal(Start, b.original);
    ReadImproved(Start.(original := b.original), b.improved);
    ReadReason(Start.(original := b.original, improved := b.improved), b.reason);
    ReadImpact(Start.(original := b.original, improved := b.improved, reason := b.reason), b.impact);
  }

  // ---------------------------------------------------------------------------
  // Where a formatted block can be cut

  /** A sequence of one-line pieces, none of which holds `w`, joined by line breaks does not
      hold `w` when `w` has no line break. */
  lemma {:induction false} NotContainsJoinLines(parts: seq<string>, w: string)
    requires |parts| >= 1 && '\n' !in w
    requires forall i :: 0 <= i < |parts| ==> !Contains(parts[i], w)
    ensures !Contains(Join(parts, "\n"), w)
    decreases |parts|
  {
    if |parts| > 1 {
      NotContainsJoinLines(parts[1..], w);
      NotContainsAround(parts[0], '\n', Join(parts[1..], "\n"), w);
    }
  }

  /** No suffix of `a` could open an occurrence of `w`: each letter differs from the first of
      `w`, or is followed within `a` by a letter that differs from its second. */
  predicate CannotStart(a: string, w: string)
    requires |w| >= 2
    decreases |a|
  {
    |a| == 0 || ((a[0] != w[0] || (|a| > 1 && a[1] != w[1])) && CannotStart(a[1..], w))
  }

  /** None of the tag prefixes of a block's lines (the first without its `O`) can open
      `ORIGINAL:`. One fact per lemma, each built up one character at a time from the end,
      keeps every evaluation small. */
  lemma OriginalTailCannotStart()
    ensures CannotStart(OriginalTag[1..] + " ", OriginalTag)
  {
    assert OriginalTag[1..] + " " == "RIGINAL: ";
    assert CannotStart(" ", "ORIGINAL:");
    assert CannotStart(": ", "ORIGINAL:");
    assert CannotStart("L: ", "ORIGINAL:");
    assert CannotStart("AL: ", "ORIGINAL:");
    assert CannotStart("NAL: ", "ORIGINAL:");
    assert CannotStart("INAL: ", "ORIGINAL:");
    assert CannotStart("GINAL: ", "ORIGINAL:");
    assert CannotStart("IGINAL: ", "ORIGINAL:");
    assert CannotStart("RIGINAL: ", "ORIGINAL:");
  }

  lemma ImprovedCannotStart()
    ensures CannotStart(ImprovedTag + " ", OriginalTag)
  {
    assert ImprovedTag + " " == "IMPROVED: ";
    assert CannotStart(" ", "ORIGINAL:");
    assert CannotStart(": ", "ORIGINAL:");
    assert CannotStart("D: ", "ORIGINAL:");
    assert CannotStart("ED: ", "ORIGINAL:");
    assert CannotStart("VED: ", "ORIGINAL:");
    assert CannotStart("OVED: ", "ORIGINAL:");
    assert CannotStart("ROVED: ", "ORIGINAL:");
    assert CannotStart("PROVED: ", "ORIGINAL:");
    assert CannotStart("MPROVED: ", "ORIGINAL:");
    assert CannotStart("IMPROVED: ", "ORIGINAL:");
  }

  lemma ReasonCannotStart()
    ensures CannotStart(ReasonTag + " ", OriginalTag)
  {
    assert ReasonTag + " " == "REASON: ";
    assert CannotStart(" ", "ORIGINAL:");
    assert CannotStart(": ", "ORIGINAL:");
    assert CannotStart("N: ", "ORIGINAL:");
    assert CannotStart("ON: ", "ORIGINAL:");
    assert CannotStart("SON: ", "ORIGINAL:");
    assert CannotStart("ASON: ", "ORIGINAL:");
    assert CannotStart("EASON: ", "ORIGINAL:");
    assert CannotStart("REASON: ", "ORIGINAL:");
  }

  lemma ImpactCannotStart()
    ensures CannotStart(ImpactTag + " ", OriginalTag)
  {
    assert ImpactTag + " " == "IMPACT: ";
    assert CannotStart(" ", "ORIGINAL:");
    assert CannotStart(": ", "ORIGINAL:");
    assert CannotStart("T: ", "ORIGINAL:");
    assert CannotStart("CT: ", "ORIGINAL:");
    assert CannotStart("ACT: ", "ORIGINAL:");
    assert CannotStart("PACT: ", "ORIGINAL:");
    assert CannotStart("MPACT: ", "ORIGINAL:");
    assert CannotStart("IMPACT: ", "ORIGINAL:");
  }

  /** Text after such a prefix holds `w` only if the rest does. */
  lemma {:induction false} NotContainsAfter(a: string, s: string, w: string)
    requires |w| >= 2 && !Contains(s, w) && CannotStart(a, w)
    ensures !Contains(a + s, w)
    decreases |a|
  {
    if |a| == 0 {
      assert a + s == s;
    } else {
      var t := a + s;
      assert t[1..] == a[1..] + s;
      NotContainsAfter(a[1..], s, w);
      if |a| > 1 {
        assert t[1] == a[1];
      }
    }
  }

  /** The only `ORIGINAL:` in a printable block is the one it starts with. */
  lemma DropFirstJoined(a: string, j: string)
    requires |a| > 0
    ensures (a + "\n" + j)[1..] == a[1..] + "\n" + j
  {
  }

  lemma BlockTailHasNoMarker(b: BulletImprovement)
    requires Writable(b)
    ensures var text := FormatImprovement(b);
            |text| > 1 && !Contains(text[1..], OriginalTag)
  {
    var lines := Lines(b);
    var text := FormatImprovement(b);
    NumeralFree(b.impact);
    OriginalTailCannotStart();
    ImprovedCannotStart();
    ReasonCannotStart();
    ImpactCannotStart();
    NotContainsAfter(OriginalTag[1..] + " ", b.original, OriginalTag);
    NotContainsAfter(ImprovedTag + " ", b.improved, OriginalTag);
    NotContainsAfter(ReasonTag + " ", b.reason, OriginalTag);
    NotContainsAfter(ImpactTag + " ", NatToString(b.impact), OriginalTag);
    assert lines[0][1..] == OriginalTag[1..] + " " + b.original;
    NotContainsJoinLines(lines[1..], OriginalTag);
    assert text == lines[0] + "\n" + Join(lines[1..], "\n");
    DropFirstJoined(lines[0], Join(lines[1..], "\n"));
    NotContainsAround(lines[0][1..], '\n', Join(lines[1..], "\n"), OriginalTag);
  }

  /** In text joined from non-blank one-line pieces, every line break is followed by a
      non-space character, and the text does not end in a line break. */
  lemma {:induction false} JoinedLinesNotBlank(parts: seq<string>)
    requires |parts| >= 1
    requires forall i :: 0 <= i < |parts| ==> |parts[i]| > 0 && !IsSpace(parts[i][0]) && '\n' !in parts[i]
    ensures var t := Join(parts, "\n");
            |t| > 0 && t[|t| - 1] != '\n' &&
            forall j :: 0 <= j < |t| - 1 && t[j] == '\n' ==> !IsSpace(t[j + 1])
    decreases |parts|
  {
    if |parts| > 1 {
      var rest := Join(parts[1..], "\n");
      JoinedLinesNotBlank(parts[1..]);
      JoinStartsWithFirst(parts[1..], "\n");
      var t := Join(parts, "\n");
      assert t == parts[0] + "\n" + rest;
      assert forall i :: 0 <= i < |parts[0]| ==> t[i] == parts[0][i];
      forall j | 0 <= j < |t| - 1 && t[j] == '\n'
        ensures !IsSpace(t[j + 1])
      {
        if j == |parts[0]| {
          assert t[j + 1] == rest[0] == parts[1][0];
        } else if j > |parts[0]| {
          assert t[j] == rest[j - |parts[0]| - 1];
          assert t[j + 1] == rest[j - |parts[0]|];
        }
      }
    }
  }

  lemma BlockNotBlank(b: BulletImprovement)
    requires Writable(b)
    ensures var t := FormatImprovement(b);
            |t| > 1 && t[|t| - 1] != '\n' &&
            forall j :: 0 <= j < |t| - 1 && t[j] == '\n' ==> !IsSpace(t[j + 1])
  {
    var lines := Lines(b);
    LinesFree(b);
    NumeralFree(b.impact);
    assert forall i :: 0 <= i < 4 ==> |lines[i]| > 0 && !IsSpace(lines[i][0]);
    JoinedLinesNotBlank(lines);
    JoinStartsWithFirst(lines, "\n");
  }

  /** A positive break length needs a whitespace character first. */
  lemma BreakNeedsSpace(t: string)
    requires BreakAt(t) > 0
    ensures |t| >= 2 && t[0] == '\n' && IsSpace(t[1])
  {
  }

  /** No blank-line break starts inside text `x` whose line breaks are each followed by
      a non-space character, when what follows `x` is nothing or a line break. */
  lemma NoBreakInside(x: string, rest: string, k: nat)
    requires forall j :: 0 <= j < |x| - 1 && x[j] == '\n' ==> !IsSpace(x[j + 1])
    requires |x| > 0 ==> x[|x| - 1] != '\n'
    requires k < |x|
    ensures BreakAt((x + rest)[k..]) == 0
  {
    var t := (x + rest)[k..];
    assert t[0] == x[k];
    if BreakAt(t) > 0 {
      BreakNeedsSpace(t);
    }
  }

  /** No `ORIGINAL:` starts inside text `x` that does not hold one, when what follows `x`
      is nothing or a line break. */
  lemma NoMarkerInside(x: string, rest: string, k: nat)
    requires !Contains(x, OriginalTag)
    requires rest == "" || rest[0] == '\n'
    requires k < |x|
    ensures !StartsWith((x + rest)[k..], OriginalTag)
  {
    if StartsWith((x + rest)[k..], OriginalTag) {
      if k + |OriginalTag| <= |x| {
        OccursInside(x, rest, OriginalTag, k);
        ContainsIff(x, OriginalTag);
      } else {
        OccursAcross(x, rest, OriginalTag, k);
      }
    }
  }

  lemma NoCutInside(x: string, rest: string)
    requires !Contains(x, OriginalTag)
    requires forall j :: 0 <= j < |x| - 1 && x[j] == '\n' ==> !IsSpace(x[j + 1])
    requires |x| > 0 ==> x[|x| - 1] != '\n'
    requires rest == "" || rest[0] == '\n'
    ensures forall k :: 0 <= k < |x| ==> !CutAt((x + rest)[k..])
  {
    forall k | 0 <= k < |x|
      ensures !CutAt((x + rest)[k..])
    {
      NoBreakInside(x, rest, k);
      NoMarkerInside(x, rest, k);
    }
  }

  /** Scanning text with no cut inside adds all of it to the current piece. */
  lemma {:induction false} ScanPlain(x: string, rest: string, cur: string)
    requires forall k :: 0 <= k < |x| ==> !CutAt((x + rest)[k..])
    ensures Pieces(x + rest, cur) == Pieces(rest, cur + x)
    decreases |x|
  {
    if |x| == 0 {
      assert x + rest == rest;
      assert cur + x == cur;
    } else {
      ScanStep(x, rest, cur);
      ScanPlain(x[1..], rest, cur + [x[0]]);
      HeadTailAfter(cur, x);
    }
  }

  /** One character of text with no cut inside moves to the current piece. */
  lemma ScanStep(x: string, rest: string, cur: string)
    requires |x| > 0
    requires forall k :: 0 <= k < |x| ==> !CutAt((x + rest)[k..])
    ensures Pieces(x + rest, cur) == Pieces(x[1..] + rest, cur + [x[0]])
    ensures forall k :: 0 <= k < |x[1..]| ==> !CutAt((x[1..] + rest)[k..])
  {
    var t := x + rest;
    assert t[0..] == t;
    assert !CutAt(t);
    assert t[1..] == x[1..] + rest;
    assert t[..1] == [x[0]];
    forall k | 0 <= k < |x[1..]|
      ensures !CutAt((x[1..] + rest)[k..])
    {
      assert (x[1..] + rest)[k..] == t[k + 1..];
    }
  }

  /** The splitter cuts before a leading `ORIGINAL:`, leaving an empty first piece. */
  lemma PiecesAtMarker(t: string)
    requires StartsWith(t, OriginalTag)
    ensures Pieces(t, "") == [""] + Pieces(t[1..], t[..1])
  {
    assert t[0] == 'O';
    assert BreakAt(t) == 0;
  }

  /** The text after the first letter of a printable block has no cut in it. */
  lemma BlockTailNoCut(b: BulletImprovement, rest: string)
    requires Writable(b)
    requires rest == "" || rest[0] == '\n'
    ensures var x := FormatImprovement(b)[1..];
            forall k :: 0 <= k < |x| ==> !CutAt((x + rest)[k..])
  {
    var text := FormatImprovement(b);
    var x := text[1..];
    BlockTailHasNoMarker(b);
    BlockNotBlank(b);
    forall j | 0 <= j < |x| - 1 && x[j] == '\n'
      ensures !IsSpace(x[j + 1])
    {
      assert x[j] == text[j + 1];
    }
    NoCutInside(x, rest);
  }

  lemma BlockStartsWithMarker(b: BulletImprovement, rest: string)
    requires Writable(b)
    ensures StartsWith(FormatImprovement(b) + rest, OriginalTag)
  {
    var text := FormatImprovement(b);
    LinesFree(b);
    JoinStartsWithFirst(Lines(b), "\n");
    assert (text + rest)[..|OriginalTag|] == text[..|OriginalTag|] == Lines(b)[0][..|OriginalTag|];
  }

  /** A block followed by nothing or by a line break is one piece, opened by the empty
      match before its `ORIGINAL:`. */
  lemma BlockPiece(b: BulletImprovement, rest: string)
    requires Writable(b)
    requires rest == "" || rest[0] == '\n'
    ensures var text := FormatImprovement(b);
            Pieces(text + rest, "") == [""] + Pieces(rest, text)
  {
    BlockStartsWithMarker(b, rest);
    BlockTailNoCut(b, rest);
    MarkedPiece(FormatImprovement(b), rest);
  }

  /** Text that opens with `ORIGINAL:` and has no cut after its first letter is one piece. */
  lemma MarkedPiece(text: string, rest: string)
    requires StartsWith(text + rest, OriginalTag)
    requires |text| > 0
    requires forall k :: 0 <= k < |text[1..]| ==> !CutAt((text[1..] + rest)[k..])
    ensures Pieces(text + rest, "") == [""] + Pieces(rest, text)
  {
    var t := text + rest;
    PiecesAtMarker(t);
    FirstOfAppend(text, rest);
    ScanPlain(text[1..], rest, t[..1]);
  }

  lemma PiecesAtBreak(t: string, cur: string)
    requires BreakAt(t) > 0
    ensures Pieces(t, cur) == [cur] + Pieces(t[BreakAt(t)..], "")
  {
  }

  /** The blank line between two blocks is one break. */
  lemma BreakBetween(next: string)
    requires |next| > 0 && !IsSpace(next[0])
    ensures BreakAt("\n\n" + next) == 2
  {
    var t := "\n\n" + next;
    assert t[1..] == "\n" + next;
    assert ("\n" + next)[1..] == next;
    assert BreakLen(next) == 0;
  }

  /** An empty piece followed by a printable block reads as that block's improvement. */
  lemma OpenedBlockReads(b: BulletImprovement)
    requires Printable(b)
    ensures FilterMap(BlockImprovement, ["", FormatImprovement(b)]) == [b]
  {
    BlockReads(b);
    assert BlockImprovement("") == None;
    FilterMapCons(BlockImprovement, "", [FormatImprovement(b)]);
    FilterMapCons(BlockImprovement, FormatImprovement(b), []);
  }

  /** A block whose original is empty yields nothing, so a response made of it alone gets
      the "Performed duties" sentinel. */
  lemma EmptyOriginalSentinel(b: BulletImprovement)
    requires Writable(b) && b.original == ""
    ensures ParseImprovements(FormatImprovement(b)) == [NoImprovements]
  {
    var text := FormatImprovement(b);
    assert text + "" == text;
    BlockPiece(b, "");
    EmptyOriginalBlock(b);
    FilterMapCons(BlockImprovement, "", [text]);
    FilterMapCons(BlockImprovement, text, []);
  }

  lemma EmptyOriginalBlock(b: BulletImprovement)
    requires Writable(b) && b.original == ""
    ensures Strip(FormatImprovement(b)) != "" && BlockImprovement(FormatImprovement(b)) == None
  {
    var lines := Lines(b);
    LinesFree(b);
    SplitJoin(lines, '\n');
    JoinStartsWithFirst(lines, "\n");
    StripAllSpace(FormatImprovement(b));
    EmptyOriginalRead(b);
  }

  lemma EmptyOriginalRead(b: BulletImprovement)
    requires Writable(b) && b.original == ""
    ensures ReadLines(Start, Lines(b)).original == ""
  {
    var lines := Lines(b);
    assert lines[0] == OriginalTag + " " by { assert OriginalTag + " " + b.original == OriginalTag + " "; }
    FoldLeftFour(ReadLine, Start, lines);
    ReadEmptyOriginal(Start);
    assert ReadLine(Start, lines[0]) == Start;
    ReadImproved(Start, b.improved);
    ReadReason(Start.(improved := b.improved), b.reason);
    ReadImpact(Start.(improved := b.improved, reason := b.reason), b.impact);
  }

  /** Several blocks are the first, a blank line, and the rest, which opens with `O`. */
  lemma JoinedBlocks(bs: seq<BulletImprovement>)
    requires |bs| >= 2
    requires forall i :: 0 <= i < |bs| ==> Printable(bs[i])
    ensures var later := Join(FormatAll(bs[1..]), "\n\n");
            Join(FormatAll(bs), "\n\n") == FormatImprovement(bs[0]) + ("\n\n" + later) &&
            |later| > 0 && later[0] == 'O'
  {
    var texts := FormatAll(bs);
    assert texts[1..] == FormatAll(bs[1..]);
    JoinCons(texts, "\n\n");
    OpensWithMarker(bs[1..]);
  }

  /** Formatted blocks open with the `O` of `ORIGINAL:`. */
  lemma OpensWithMarker(bs: seq<BulletImprovement>)
    requires |bs| >= 1
    ensures var j := Join(FormatAll(bs), "\n\n"); |j| > 0 && j[0] == 'O'
  {
    JoinStartsWithFirst(FormatAll(bs), "\n\n");
    JoinStartsWithFirst(Lines(bs[0]), "\n");
  }

  /** A blank line and then a block: the piece being built ends at the break. */
  lemma PiecesAfterBlock(text: string, later: string)
    requires |later| > 0 && later[0] == 'O'
    ensures Pieces("\n\n" + later, text) == [text] + Pieces(later, "")
  {
    BreakBetween(later);
    PiecesAtBreak("\n\n" + later, text);
    assert ("\n\n" + later)[2..] == later;
  }

  /** The first block of several, and the break after it, split off as two pieces. */
  lemma FirstBlockPieces(bs: seq<BulletImprovement>)
    requires |bs| >= 2
    requires forall i :: 0 <= i < |bs| ==> Printable(bs[i])
    ensures Pieces(Join(FormatAll(bs), "\n\n"), "") ==
            ["", FormatImprovement(bs[0])] + Pieces(Join(FormatAll(bs[1..]), "\n\n"), "")
  {
    var text := FormatImprovement(bs[0]);
    var later := Join(FormatAll(bs[1..]), "\n\n");
    JoinedBlocks(bs);
    BlockPiece(bs[0], "\n\n" + later);
    PiecesAfterBlock(text, later);
  }

  /** Blocks written one after another with a blank line between them are read back
      in order. */
  lemma {:induction false} ParseBlocks(bs: seq<BulletImprovement>)
    requires |bs| >= 1
    requires forall i :: 0 <= i < |bs| ==> Printable(bs[i])
    ensures FilterMap(BlockImprovement, Pieces(Join(FormatAll(bs), "\n\n"), "")) == bs
    decreases |bs|
  {
    var text := FormatImprovement(bs[0]);
    OpenedBlockReads(bs[0]);
    if |bs| == 1 {
      BlockPiece(bs[0], "");
      assert text + "" == text;
      assert FormatAll(bs) == [text];
    } else {
      var tail := bs[1..];
      assert forall i :: 0 <= i < |tail| ==> Printable(tail[i]) by {
        forall i | 0 <= i < |tail| ensures Printable(tail[i]) {
          assert tail[i] == bs[i + 1];
        }
      }
      var later := Pieces(Join(FormatAll(tail), "\n\n"), "");
      FirstBlockPieces(bs);
      ParseBlocks(tail);
      FilterMapAppend(BlockImprovement, ["", text], later);
      HeadTail(bs);
    }
  }

  /** Writing printable improvements as blocks separated by blank lines and parsing the
      text gives them back. */
  lemma ParseImprovementsRoundTrip(bs: seq<BulletImprovement>)
    requires |bs| >= 1
    requires forall i :: 0 <= i < |bs| ==> Printable(bs[i])
    ensures ParseImprovements(Join(FormatAll(bs), "\n\n")) == bs
  {
    var text := Join(FormatAll(bs), "\n\n");
    ParseBlocks(bs);
    OpensWithMarker(bs);
    StripAllSpace(text);
  }
}
