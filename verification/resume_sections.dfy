/** `DocumentProcessor.parse_resume_sections` (backend/document_processor.py): a
    cursor walks the lines of the text; a short, heading-shaped line that names
    a section moves the cursor, and every other non-blank line is appended to
    the section under the cursor. */
module ResumeSections {
  import opened Wrappers
  import opened Strings

  datatype Section = Experience | Skills | Education | Summary

  /** The keyword table's insertion order: detection tries the sections in this order. */
  const SectionOrder: seq<Section> := [Experience, Skills, Education, Summary]

  const AllSections: set<Section> := {Experience, Skills, Education, Summary}

  /** The dictionary key under which a section is returned. */
  function Key(s: Section): string {
    match s
    case Experience => "experience"
    case Skills => "skills"
    case Education => "education"
    case Summary => "summary"
  }

  /** The keywords that name each section. */
  function Keywords(s: Section): seq<string> {
    match s
    case Experience => ["experience", "work", "employment", "professional"]
    case Skills => ["skills"]
    case Education => ["education", "degree", "university", "academic"]
    case Summary => ["summary", "contact", "objective", "profile"]
  }

  /** Some keyword of section `s` is a substring of the lower-cased line. */
  predicate Mentions(lowered: string, s: Section) {
    exists k :: 0 <= k < |Keywords(s)| && Contains(lowered, Keywords(s)[k])
  }

  /** `re.search(r'[.!?]', line)` finds nothing. */
  predicate NoSentenceEnd(line: string) {
    forall i :: 0 <= i < |line| ==> line[i] != '.' && line[i] != '!' && line[i] != '?'
  }

  /** Short, and either upper-case or free of sentence punctuation. */
  predicate HeadingShaped(line: string) {
    |line| < 60 && (IsUpper(line) || NoSentenceEnd(line))
  }

  /** The inner loop over the keyword table: the first section of `order` that the
      line mentions, provided the line is heading-shaped. */
  function DetectIn(line: string, order: seq<Section>): Option<Section> {
    if |order| == 0 then None
    else if Mentions(Lower(line), order[0]) && HeadingShaped(line) then Some(order[0])
    else DetectIn(line, order[1..])
  }

  /** A line is a heading iff it is heading-shaped and mentions some section; it
      then switches to the first section in `order` that it mentions. */
  lemma {:induction false} DetectInFirstMatch(line: string, order: seq<Section>)
    ensures DetectIn(line, order).Some? <==> HeadingShaped(line) && exists k :: 0 <= k < |order| && Mentions(Lower(line), order[k])
    ensures DetectIn(line, order).Some? ==>
              exists k :: 0 <= k < |order| && order[k] == DetectIn(line, order).value && Mentions(Lower(line), order[k]) &&
                          forall j :: 0 <= j < k ==> !Mentions(Lower(line), order[j])
    decreases |order|
  {
    if |order| > 0 && !(Mentions(Lower(line), order[0]) && HeadingShaped(line)) {
      DetectInFirstMatch(line, order[1..]);
      assert forall k :: 1 <= k < |order| ==> order[k] == order[1..][k - 1];
      if DetectIn(line, order).Some? {
        var k :| 0 <= k < |order[1..]| && order[1..][k] == DetectIn(line, order).value && Mentions(Lower(line), order[1..][k]) &&
                 forall j :: 0 <= j < k ==> !Mentions(Lower(line), order[1..][j]);
        assert order[k + 1] == DetectIn(line, order).value;
      }
    }
  }

  /** The section a stripped, non-blank line switches the cursor to, if it is a heading. */
  function Detect(line: string): Option<Section> {
    DetectIn(line, SectionOrder)
  }

  /** What the loop body makes of one raw line. */
  datatype Step = Blank | Heading(section: Section) | Body(line: string)

  /** A line is stripped; a blank line is skipped, a heading moves the cursor, and
      any other line is stored. The decision depends on the line alone. */
  function Classify(raw: string): Step {
    var line := Strip(raw);
    if line == "" then Blank
    else match Detect(line)
      case Some(s) => Heading(s)
      case None => Body(line)
  }

  function ClassifyAll(lines: seq<string>): (r: seq<Step>)
    ensures |r| == |lines|
  {
    seq(|lines|, i requires 0 <= i < |lines| => Classify(lines[i]))
  }

  /** The dictionary being filled: one text per section. */
  datatype Bodies = Bodies(experience: string, skills: string, education: string, summary: string) {
    function Get(s: Section): string {
      match s
      case Experience => experience
      case Skills => skills
      case Education => education
      case Summary => summary
    }

    /** `sections[s] += text`. */
    function Append(s: Section, text: string): Bodies {
      match s
      case Experience => this.(experience := experience + text)
      case Skills => this.(skills := skills + text)
      case Education => this.(education := education + text)
      case Summary => this.(summary := summary + text)
    }
  }

  lemma GetAppend(acc: Bodies, s: Section, text: string, t: Section)
    ensures acc.Append(s, text).Get(t) == if t == s then acc.Get(t) + text else acc.Get(t)
  {
  }

  /** The cursor loop: each stored line is appended, followed by a newline, to the section under the cursor. */
  function Walk(steps: seq<Step>, current: Section, acc: Bodies): Bodies
    decreases |steps|
  {
    if |steps| == 0 then acc
    else match steps[0]
      case Blank => Walk(steps[1..], current, acc)
      case Heading(s) => Walk(steps[1..], s, acc)
      case Body(line) => Walk(steps[1..], current, acc.Append(current, line + "\n"))
  }

  /** `parse_resume_sections`: the dictionary has exactly the four sections as keys. */
  function ParseResumeSections(text: string): (r: map<Section, string>)
    ensures r.Keys == AllSections
  {
    var acc := Walk(ClassifyAll(Split(text, '\n')), Summary, Bodies("", "", "", ""));
    map s | s in AllSections :: Strip(acc.Get(s))
  }

  lemma SectionInAll(s: Section)
    ensures s in AllSections
  {
  }

  // ---------------------------------------------------------------------------
  // A reference description: which line goes where

  /** The section under the cursor after it has read `steps`. */
  function Cursor(steps: seq<Step>, current: Section): Section
    decreases |steps|
  {
    if |steps| == 0 then current
    else match steps[0]
      case Heading(s) => Cursor(steps[1..], s)
      case _ => Cursor(steps[1..], current)
  }

  /** The stored lines, in order, each tagged with the section under the cursor when it is read. */
  function Tagged(steps: seq<Step>, current: Section): seq<(Section, string)>
    decreases |steps|
  {
    if |steps| == 0 then []
    else match steps[0]
      case Blank => Tagged(steps[1..], current)
      case Heading(s) => Tagged(steps[1..], s)
      case Body(line) => [(current, line)] + Tagged(steps[1..], current)
  }

  /** What a stored line looks like: stripped, non-blank and not a heading. */
  predicate BodyLine(line: string) {
    line != "" && IsStripped(line) && Detect(line).None?
  }

  /** The lines tagged with section `s`, in order. */
  function LinesOf(tagged: seq<(Section, string)>, s: Section): seq<string> {
    if |tagged| == 0 then []
    else (if tagged[0].0 == s then [tagged[0].1] else []) + LinesOf(tagged[1..], s)
  }

  /** The lines, each followed by a newline. */
  function Terminated(lines: seq<string>): string {
    if |lines| == 0 then "" else lines[0] + "\n" + Terminated(lines[1..])
  }

  // ---------------------------------------------------------------------------
  // Properties

  /** A stored line is stripped, non-blank and not a heading. */
  lemma ClassifyBody(raw: string)
    requires Classify(raw).Body?
    ensures BodyLine(Classify(raw).line)
  {
    StripStripped(Strip(raw));
  }

  lemma {:induction false} TaggedBody(steps: seq<Step>, current: Section)
    requires forall i :: 0 <= i < |steps| && steps[i].Body? ==> BodyLine(steps[i].line)
    ensures forall i :: 0 <= i < |Tagged(steps, current)| ==> BodyLine(Tagged(steps, current)[i].1)
    decreases |steps|
  {
    if |steps| > 0 {
      assert forall i :: 0 <= i < |steps| - 1 ==> steps[1..][i] == steps[i + 1];
      match steps[0]
      case Blank => TaggedBody(steps[1..], current);
      case Heading(s) => TaggedBody(steps[1..], s);
      case Body(line) => TaggedBody(steps[1..], current);
    }
  }

  lemma ClassifyAllBody(lines: seq<string>)
    ensures forall i :: 0 <= i < |ClassifyAll(lines)| && ClassifyAll(lines)[i].Body? ==> BodyLine(ClassifyAll(lines)[i].line)
  {
    forall i | 0 <= i < |lines| && ClassifyAll(lines)[i].Body?
      ensures BodyLine(ClassifyAll(lines)[i].line)
    {
      ClassifyBody(lines[i]);
    }
  }

  lemma {:induction false} LinesOfAppend(a: seq<(Section, string)>, b: seq<(Section, string)>, s: Section)
    ensures LinesOf(a + b, s) == LinesOf(a, s) + LinesOf(b, s)
    decreases |a|
  {
    if |a| == 0 {
      assert a + b == b;
    } else {
      var head := if a[0].0 == s then [a[0].1] else [];
      LinesOfAppend(a[1..], b, s);
      assert (a + b)[0] == a[0];
      assert (a + b)[1..] == a[1..] + b;
      calc {
        LinesOf(a + b, s);
        head + LinesOf(a[1..] + b, s);
        head + (LinesOf(a[1..], s) + LinesOf(b, s));
        (head + LinesOf(a[1..], s)) + LinesOf(b, s);
      }
    }
  }

  /** Storing a line under `current` adds it, newline-terminated, to that section only. */
  lemma StoredLine(current: Section, line: string, rest: seq<(Section, string)>, s: Section)
    ensures Terminated(LinesOf([(current, line)] + rest, s))
            == (if current == s then line + "\n" else "") + Terminated(LinesOf(rest, s))
  {
    LinesOfAppend([(current, line)], rest, s);
    assert LinesOf([(current, line)], s) == if current == s then [line] else [];
    if current == s {
      assert ([line] + LinesOf(rest, s))[1..] == LinesOf(rest, s);
    } else {
      assert [] + LinesOf(rest, s) == LinesOf(rest, s);
    }
  }

  /** What the loop appends to section `s` while reading `steps`. */
  function Collected(steps: seq<Step>, current: Section, s: Section): string
    decreases |steps|
  {
    if |steps| == 0 then ""
    else match steps[0]
      case Blank => Collected(steps[1..], current, s)
      case Heading(h) => Collected(steps[1..], h, s)
      case Body(line) => (if current == s then line + "\n" else "") + Collected(steps[1..], current, s)
  }

  lemma WalkBodyStep(steps: seq<Step>, current: Section, acc: Bodies, line: string, s: Section)
    requires |steps| > 0 && steps[0] == Body(line)
    ensures Walk(steps, current, acc) == Walk(steps[1..], current, acc.Append(current, line + "\n"))
    ensures Collected(steps, current, s) == (if current == s then line + "\n" else "") + Collected(steps[1..], current, s)
  {
  }

  lemma {:induction false} WalkCollects(steps: seq<Step>, current: Section, acc: Bodies, s: Section)
    ensures Walk(steps, current, acc).Get(s) == acc.Get(s) + Collected(steps, current, s)
    decreases |steps|
  {
    if |steps| > 0 {
      match steps[0]
      case Blank => WalkCollects(steps[1..], current, acc, s);
      case Heading(h) => WalkCollects(steps[1..], h, acc, s);
      case Body(line) =>
        WalkCollects(steps[1..], current, acc.Append(current, line + "\n"), s);
        WalkBodyStep(steps, current, acc, line, s);
        GetAppend(acc, current, line + "\n", s);
        AppendAssoc(acc.Get(s), if current == s then line + "\n" else "", Collected(steps[1..], current, s));
    }
  }

  /** The loop appends to each section exactly the lines tagged with it, each followed by a newline. */
  lemma {:induction false} CollectedTagged(steps: seq<Step>, current: Section, s: Section)
    ensures Collected(steps, current, s) == Terminated(LinesOf(Tagged(steps, current), s))
    decreases |steps|
  {
    if |steps| > 0 {
      match steps[0]
      case Blank => CollectedTagged(steps[1..], current, s);
      case Heading(h) => CollectedTagged(steps[1..], h, s);
      case Body(line) =>
        CollectedTagged(steps[1..], current, s);
        StoredLine(current, line, Tagged(steps[1..], current), s);
    }
  }

  lemma {:induction false} TerminatedJoin(lines: seq<string>)
    requires |lines| > 0
    ensures Terminated(lines) == Join(lines, "\n") + "\n"
    decreases |lines|
  {
    if |lines| > 1 {
      TerminatedJoin(lines[1..]);
    }
  }

  /** Joining non-empty pieces keeps the first piece's first character and the last piece's last one. */
  lemma {:induction false} JoinEnds(lines: seq<string>, sep: string)
    requires |lines| > 0
    requires forall i :: 0 <= i < |lines| ==> lines[i] != ""
    ensures |Join(lines, sep)| > 0
    ensures Join(lines, sep)[0] == lines[0][0]
    ensures Join(lines, sep)[|Join(lines, sep)| - 1] == lines[|lines| - 1][|lines[|lines| - 1]| - 1]
    decreases |lines|
  {
    if |lines| > 1 {
      JoinEnds(lines[1..], sep);
    }
  }

  lemma JoinStripped(lines: seq<string>, sep: string)
    requires forall i :: 0 <= i < |lines| ==> lines[i] != "" && IsStripped(lines[i])
    ensures IsStripped(Join(lines, sep))
  {
    if |lines| > 0 {
      JoinEnds(lines, sep);
    }
  }

  /** The final strip only removes the newline after the last line. */
  lemma StripTerminated(lines: seq<string>)
    requires forall i :: 0 <= i < |lines| ==> lines[i] != "" && IsStripped(lines[i])
    ensures Strip(Terminated(lines)) == Join(lines, "\n")
  {
    if |lines| > 0 {
      TerminatedJoin(lines);
      JoinStripped(lines, "\n");
      StripTrailingSpace(Join(lines, "\n"), '\n');
    }
  }

  lemma {:induction false} LinesOfBody(tagged: seq<(Section, string)>, s: Section)
    requires forall i :: 0 <= i < |tagged| ==> BodyLine(tagged[i].1)
    ensures forall i :: 0 <= i < |LinesOf(tagged, s)| ==> BodyLine(LinesOf(tagged, s)[i])
    decreases |tagged|
  {
    if |tagged| > 0 {
      LinesOfBody(tagged[1..], s);
    }
  }

  /** The tagging of the lines of `text`, cursor starting at the summary. */
  function TaggedText(text: string): seq<(Section, string)> {
    Tagged(ClassifyAll(Split(text, '\n')), Summary)
  }

  /** Each section holds the lines tagged with it, joined by newlines in input order. */
  lemma SectionsAreTaggedLines(text: string, s: Section)
    ensures ParseResumeSections(text)[s] == Join(LinesOf(TaggedText(text), s), "\n")
  {
    var steps := ClassifyAll(Split(text, '\n'));
    var tagged := Tagged(steps, Summary);
    SectionInAll(s);
    WalkCollects(steps, Summary, Bodies("", "", "", ""), s);
    CollectedTagged(steps, Summary, s);
    ClassifyAllBody(Split(text, '\n'));
    TaggedBody(steps, Summary);
    LinesOfBody(tagged, s);
    StripTerminated(LinesOf(tagged, s));
  }

  /** Reading `a` and then `b` tags the lines of each in turn. */
  lemma {:induction false} TaggedAppend(a: seq<Step>, b: seq<Step>, current: Section)
    ensures Tagged(a + b, current) == Tagged(a, current) + Tagged(b, Cursor(a, current))
    decreases |a|
  {
    if |a| == 0 {
      assert a + b == b;
    } else {
      var rest := a[1..];
      var next := if a[0].Heading? then a[0].section else current;
      var head := if a[0].Body? then [(current, a[0].line)] else [];
      assert Tagged(a + b, current) == head + Tagged(rest + b, next) by {
        assert (a + b)[0] == a[0];
        assert (a + b)[1..] == rest + b;
      }
      assert Tagged(a, current) == head + Tagged(rest, next);
      assert Cursor(a, current) == Cursor(rest, next);
      TaggedAppend(rest, b, next);
    }
  }

  /** A blank line neither stores anything nor moves the cursor. */
  lemma BlankStepIgnored(a: seq<Step>, b: seq<Step>, current: Section)
    ensures Tagged(a + [Blank] + b, current) == Tagged(a + b, current)
  {
    TaggedAppend(a, [Blank] + b, current);
    assert ([Blank] + b)[0] == Blank;
    assert ([Blank] + b)[1..] == b;
    TaggedAppend(a, b, current);
    assert a + [Blank] + b == a + ([Blank] + b);
  }

  lemma ClassifyAllAppend(a: seq<string>, b: seq<string>)
    ensures ClassifyAll(a + b) == ClassifyAll(a) + ClassifyAll(b)
  {
  }

  lemma SplitWithLine(x: string, line: string, y: string)
    requires '\n' !in line
    ensures Split(x + "\n" + line + "\n" + y, '\n') == Split(x, '\n') + [line] + Split(y, '\n')
  {
    var rest := line + "\n" + y;
    assert x + "\n" + line + "\n" + y == x + ['\n'] + rest;
    SplitAround(x, rest, '\n');
    SplitAround(line, y, '\n');
    SplitNoSeparator(line, '\n');
  }

  lemma TaggedTextWithBlank(x: string, blank: string, y: string)
    requires '\n' !in blank && Strip(blank) == ""
    ensures TaggedText(x + "\n" + blank + "\n" + y) == TaggedText(x + "\n" + y)
  {
    var px, py := Split(x, '\n'), Split(y, '\n');
    SplitWithLine(x, blank, y);
    SplitAround(x, y, '\n');
    assert x + "\n" + y == x + ['\n'] + y;
    ClassifyAllAppend(px + [blank], py);
    ClassifyAllAppend(px, [blank]);
    ClassifyAllAppend(px, py);
    assert ClassifyAll([blank]) == [Blank];
    BlankStepIgnored(ClassifyAll(px), ClassifyAll(py), Summary);
  }

  /** The sections as a function of the tagged lines alone. */
  function SectionsOf(tagged: seq<(Section, string)>): map<Section, string> {
    map s | s in AllSections :: Join(LinesOf(tagged, s), "\n")
  }

  lemma SectionsFromTagged(text: string)
    ensures ParseResumeSections(text) == SectionsOf(TaggedText(text))
  {
    var p := ParseResumeSections(text);
    var q := SectionsOf(TaggedText(text));
    forall s | s in AllSections ensures p[s] == q[s] {
      SectionsAreTaggedLines(text, s);
    }
    SameSections(p, q);
  }

  lemma SameSections(p: map<Section, string>, q: map<Section, string>)
    requires p.Keys == AllSections && q.Keys == AllSections
    requires forall s :: s in AllSections ==> p[s] == q[s]
    ensures p == q
  {
  }

  /** Inserting a whitespace-only line into the text leaves every section as it was. */
  lemma BlankLineChangesNothing(x: string, blank: string, y: string)
    requires '\n' !in blank && Strip(blank) == ""
    ensures ParseResumeSections(x + "\n" + blank + "\n" + y) == ParseResumeSections(x + "\n" + y)
  {
    TaggedTextWithBlank(x, blank, y);
    SectionsFromTagged(x + "\n" + blank + "\n" + y);
    SectionsFromTagged(x + "\n" + y);
  }

  /** Every stored line is counted in exactly one section. */
  lemma {:induction false} SectionsPartitionLines(tagged: seq<(Section, string)>)
    ensures |LinesOf(tagged, Experience)| + |LinesOf(tagged, Skills)| + |LinesOf(tagged, Education)|
            + |LinesOf(tagged, Summary)| == |tagged|
    decreases |tagged|
  {
    if |tagged| > 0 {
      SectionsPartitionLines(tagged[1..]);
    }
  }

  lemma TaggedOneLine(line: string)
    requires '\n' !in line && IsStripped(line)
    ensures TaggedText(line) == if line == "" || Detect(line).Some? then [] else [(Summary, line)]
  {
    SplitNoSeparator(line, '\n');
    StripStripped(line);
    var st := Classify(line);
    assert ClassifyAll([line]) == [st];
    TaggedSingle(st, Summary);
    assert st.Body? <==> line != "" && Detect(line).None?;
    assert st.Body? ==> st.line == line;
  }

  lemma TaggedSingle(st: Step, current: Section)
    ensures Tagged([st], current) == if st.Body? then [(current, st.line)] else []
  {
    assert [st][1..] == [];
  }

  /** Single-line text, such as cleaned text, lands in the summary unless it is itself a heading. */
  lemma SectionsOfOneLine(line: string, s: Section)
    requires '\n' !in line && IsStripped(line)
    ensures ParseResumeSections(line)[s] == if s == Summary && Detect(line).None? then line else ""
  {
    TaggedOneLine(line);
    SectionsFromTagged(line);
    if line != "" && Detect(line).None? {
      SectionsOfSingle(line, s);
    } else {
      SectionsOfNone(s);
    }
  }

  lemma SectionsOfSingle(line: string, s: Section)
    ensures SectionsOf([(Summary, line)])[s] == if s == Summary then line else ""
  {
    SectionInAll(s);
    var t := [(Summary, line)];
    assert t[1..] == [];
    assert LinesOf(t, s) == (if s == Summary then [line] else []) + [];
  }

  lemma SectionsOfNone(s: Section)
    ensures SectionsOf([])[s] == ""
  {
    SectionInAll(s);
  }
}
