/** `DocumentProcessor.clean_text` (backend/document_processor.py): collapse
    whitespace, blank out characters outside a whitelist, then apply a fixed,
    ordered table of case-sensitive terminology replacements, and strip. */
module TextCleaner {
  import opened Strings

  /** Punctuation the whitelist keeps besides word characters and whitespace. */
  const KeptPunctuation: string := "-.,;@()"

  /** Membership in the regex class `[\w\s\-\.,;@()]`. */
  predicate Allowed(c: char) {
    IsWordChar(c) || IsSpace(c) || c in KeptPunctuation
  }

  /** What may appear in cleaned text: the whitelist with the space as the only whitespace. */
  predicate CleanChar(c: char) {
    IsWordChar(c) || c == ' ' || c in KeptPunctuation
  }

  /** The terminology table, in the dictionary's insertion order. */
  const Replacements: seq<(string, string)> := [
    ("ReactJS", "React"),
    ("NodeJS", "Node.js"),
    ("Javascript", "JavaScript"),
    ("Node JS", "Node.js"),
    ("REACT", "React"),
    ("NODE", "Node.js"),
    ("Typescript", "TypeScript")
  ]

  /** The characters of `s` other than whitespace, in order. */
  function NonSpace(s: string): string {
    if |s| == 0 then ""
    else if IsSpace(s[0]) then NonSpace(s[1..])
    else [s[0]] + NonSpace(s[1..])
  }

  /** `re.sub(r'\s+', ' ', s)`: every maximal whitespace run becomes one space. */
  function CollapseWhitespace(s: string): string
    decreases |s|
  {
    if |s| == 0 then ""
    else if IsSpace(s[0]) then " " + CollapseWhitespace(LStrip(s))
    else [s[0]] + CollapseWhitespace(s[1..])
  }

  /** After the collapse every whitespace character is a space and none follows another;
      the result starts with whitespace exactly when the input does. */
  lemma {:induction false} CollapseShape(s: string)
    ensures var r := CollapseWhitespace(s);
            (forall i :: 0 <= i < |r| && IsSpace(r[i]) ==> r[i] == ' ') &&
            (forall i :: 0 <= i < |r| - 1 && IsSpace(r[i]) ==> !IsSpace(r[i + 1])) &&
            (|r| > 0 && IsSpace(r[0]) <==> |s| > 0 && IsSpace(s[0]))
    decreases |s|
  {
    if |s| > 0 {
      var rest := if IsSpace(s[0]) then LStrip(s) else s[1..];
      CollapseShape(rest);
      var c := CollapseWhitespace(rest);
      var h := if IsSpace(s[0]) then ' ' else s[0];
      assert CollapseWhitespace(s) == [h] + c;
      forall i | 1 <= i < |c| + 1 ensures ([h] + c)[i] == c[i - 1] { }
    }
  }

  /** Whitespace runs shrink, but the other characters survive in order. */
  lemma {:induction false} CollapseKeepsText(s: string)
    ensures NonSpace(CollapseWhitespace(s)) == NonSpace(s)
    decreases |s|
  {
    if |s| == 0 {
    } else if IsSpace(s[0]) {
      var l := LStrip(s);
      CollapseKeepsText(l);
      assert NonSpace(" " + CollapseWhitespace(l)) == NonSpace(CollapseWhitespace(l)) by {
        assert (" " + CollapseWhitespace(l))[1..] == CollapseWhitespace(l);
      }
      LStripKeepsText(s);
    } else {
      CollapseKeepsText(s[1..]);
      assert ([s[0]] + CollapseWhitespace(s[1..]))[1..] == CollapseWhitespace(s[1..]);
    }
  }

  /** Text made only of whitespace. */
  predicate AllSpace(s: string) {
    forall i :: 0 <= i < |s| ==> IsSpace(s[i])
  }

  /** A non-empty whitespace run collapses to exactly one space. */
  lemma CollapseSpaceRun(w: string)
    requires |w| > 0 && AllSpace(w)
    ensures CollapseWhitespace(w) == " "
  {
    LStripAllSpace(w);
  }

  lemma LStripAllSpace(w: string)
    requires AllSpace(w)
    ensures LStrip(w) == ""
  {
  }

  /** Leading whitespace of `x + y` when `x` is all whitespace: all of `x`, then `y`'s own. */
  lemma {:induction false} LStripAfterSpace(x: string, y: string)
    requires AllSpace(x)
    ensures LStrip(x + y) == LStrip(y)
    decreases |x|
  {
    if |x| == 0 {
      assert x + y == y;
    } else {
      assert IsSpace(x[0]) && (x + y)[0] == x[0];
      assert (x + y)[1..] == x[1..] + y;
      assert AllSpace(x[1..]) by {
        forall i | 0 <= i < |x[1..]| ensures IsSpace(x[1..][i]) {
          assert x[1..][i] == x[i + 1];
        }
      }
      LStripAfterSpace(x[1..], y);
    }
  }

  /** The collapse works run by run: cutting the text anywhere outside a whitespace run
      (at an end, or next to a character that is not whitespace) cuts its result there too. */
  lemma {:induction false} CollapseAppend(x: string, y: string)
    requires x == "" || y == "" || !IsSpace(x[|x| - 1]) || !IsSpace(y[0])
    ensures CollapseWhitespace(x + y) == CollapseWhitespace(x) + CollapseWhitespace(y)
    decreases |x|, 1
  {
    if |x| == 0 {
      assert x + y == y;
    } else if !IsSpace(x[0]) {
      CollapseAppendText(x, y);
    } else if AllSpace(x) {
      CollapseAppendRun(x, y);
    } else {
      var k :| 0 <= k < |x| && !IsSpace(x[k]);
      CollapseAppendLead(x, y, k);
    }
  }

  lemma {:induction false} CollapseAppendText(x: string, y: string)
    requires |x| > 0 && !IsSpace(x[0])
    requires y == "" || !IsSpace(x[|x| - 1]) || !IsSpace(y[0])
    ensures CollapseWhitespace(x + y) == CollapseWhitespace(x) + CollapseWhitespace(y)
    decreases |x|, 0
  {
    var rest := x[1..];
    assert CollapseWhitespace(x + y) == [x[0]] + CollapseWhitespace(rest + y) by {
      assert (x + y)[0] == x[0];
      assert (x + y)[1..] == rest + y;
    }
    assert CollapseWhitespace(rest + y) == CollapseWhitespace(rest) + CollapseWhitespace(y) by {
      if |rest| > 0 {
        assert rest[|rest| - 1] == x[|x| - 1];
      }
      CollapseAppend(rest, y);
    }
    assert CollapseWhitespace(x) == [x[0]] + CollapseWhitespace(rest);
    AppendAssoc([x[0]], CollapseWhitespace(rest), CollapseWhitespace(y));
  }

  lemma {:induction false} CollapseAppendLead(x: string, y: string, k: nat)
    requires k < |x| && IsSpace(x[0]) && !IsSpace(x[k])
    requires y == "" || !IsSpace(x[|x| - 1]) || !IsSpace(y[0])
    ensures CollapseWhitespace(x + y) == CollapseWhitespace(x) + CollapseWhitespace(y)
    decreases |x|, 0
  {
    var l := LStrip(x);
    LeadUnfold(x, y, k);
    LStripKeepsLast(x, k);
    CollapseAppend(l, y);
    AppendAssoc(" ", CollapseWhitespace(l), CollapseWhitespace(y));
  }

  /** Collapsing a leading run of `x + y` skips the run of `x` alone. */
  lemma LeadUnfold(x: string, y: string, k: nat)
    requires k < |x| && IsSpace(x[0]) && !IsSpace(x[k])
    ensures CollapseWhitespace(x + y) == " " + CollapseWhitespace(LStrip(x) + y)
    ensures CollapseWhitespace(x) == " " + CollapseWhitespace(LStrip(x))
  {
    assert (x + y)[0] == x[0];
    LStripAppend(x, y, k);
  }

  /** Stripping leading whitespace from text that holds a non-whitespace character keeps its end. */
  lemma LStripKeepsLast(x: string, k: nat)
    requires k < |x| && !IsSpace(x[k])
    ensures var l := LStrip(x); |l| > 0 && l[|l| - 1] == x[|x| - 1]
  {
  }

  lemma CollapseAppendRun(x: string, y: string)
    requires |x| > 0 && AllSpace(x)
    requires y == "" || !IsSpace(y[0])
    ensures CollapseWhitespace(x + y) == CollapseWhitespace(x) + CollapseWhitespace(y)
  {
    LStripAfterSpace(x, y);
    CollapseSpaceRun(x);
    assert LStrip(y) == y;
    assert (x + y)[0] == x[0];
  }

  lemma {:induction false} LStripKeepsText(s: string)
    ensures NonSpace(LStrip(s)) == NonSpace(s)
    decreases |s|
  {
    if |s| > 0 && IsSpace(s[0]) {
      LStripKeepsText(s[1..]);
    }
  }

  /** `re.sub(r'[^\w\s\-\.,;@()]', ' ', s)`: a character outside the whitelist becomes a space. */
  function BlankDisallowed(s: string): (r: string)
    ensures |r| == |s|
  {
    seq(|s|, i requires 0 <= i < |s| => if Allowed(s[i]) then s[i] else ' ')
  }

  /** Every character of `s` may appear in cleaned text. */
  predicate AllClean(s: string) {
    forall i :: 0 <= i < |s| ==> CleanChar(s[i])
  }

  /** The replacement table applied in order, each entry to every occurrence. */
  function ApplyReplacements(s: string, table: seq<(string, string)>): string
    decreases |table|
  {
    if |table| == 0 then s
    else ApplyReplacements(Replace(s, table[0].0, table[0].1), table[1..])
  }

  lemma {:induction false} ReplacementsKeepClean(s: string, table: seq<(string, string)>)
    requires forall i :: 0 <= i < |table| ==> AllClean(table[i].1)
    requires AllClean(s)
    ensures AllClean(ApplyReplacements(s, table))
    decreases |table|
  {
    if |table| > 0 {
      var once := Replace(s, table[0].0, table[0].1);
      ReplaceChars(s, table[0].0, table[0].1, CleanChar);
      ReplacementsKeepClean(once, table[1..]);
    }
  }

  lemma BlankedIsClean(collapsed: string)
    requires forall i :: 0 <= i < |collapsed| && IsSpace(collapsed[i]) ==> collapsed[i] == ' '
    ensures AllClean(BlankDisallowed(collapsed))
  {
  }

  lemma StripKeepsClean(s: string)
    requires AllClean(s)
    ensures AllClean(Strip(s))
  {
    var l := LStrip(s);
    assert AllClean(l) by {
      forall i | 0 <= i < |l| ensures CleanChar(l[i]) {
        assert l[i] == s[|s| - |l| + i];
      }
    }
  }

  lemma CleanHasNoNewline(s: string)
    requires AllClean(s)
    ensures '\n' !in s
  {
    assert !CleanChar('\n');
  }

  lemma ReplacementTableClean()
    ensures forall i :: 0 <= i < |Replacements| ==> AllClean(Replacements[i].1)
  {
    assert AllClean("React");
    assert AllClean("Node.js");
    assert AllClean("JavaScript");
    assert AllClean("TypeScript");
  }

  /** `clean_text`. */
  function CleanText(text: string): (r: string)
    ensures IsStripped(r)
    ensures AllClean(r)
    ensures '\n' !in r
  {
    var blanked := BlankDisallowed(CollapseWhitespace(text));
    CollapseShape(text);
    BlankedIsClean(CollapseWhitespace(text));
    ReplacementTableClean();
    ReplacementsKeepClean(blanked, Replacements);
    StripKeepsClean(ApplyReplacements(blanked, Replacements));
    CleanHasNoNewline(Strip(ApplyReplacements(blanked, Replacements)));
    Strip(ApplyReplacements(blanked, Replacements))
  }

  /** Every whitespace character is a space and no two of them are adjacent. */
  predicate SingleSpaced(s: string) {
    |s| == 0 ||
    ((IsSpace(s[0]) ==> s[0] == ' ' && (|s| == 1 || !IsSpace(s[1]))) && SingleSpaced(s[1..]))
  }

  /** Text whose whitespace is already single spaces is left alone by the collapse. */
  lemma {:induction false} CollapseSingleSpaces(s: string)
    requires SingleSpaced(s)
    ensures CollapseWhitespace(s) == s
    decreases |s|
  {
    if |s| > 0 {
      CollapseSingleSpaces(s[1..]);
      if IsSpace(s[0]) {
        assert LStrip(s) == s[1..];
        assert s == " " + s[1..];
      } else {
        assert s == [s[0]] + s[1..];
      }
    }
  }

  /** Text without whitespace is single spaced. */
  lemma {:induction false} NoSpaceSingleSpaced(s: string)
    requires forall i :: 0 <= i < |s| ==> !IsSpace(s[i])
    ensures SingleSpaced(s)
    decreases |s|
  {
    if |s| > 0 {
      assert forall i :: 0 <= i < |s[1..]| ==> s[1..][i] == s[i + 1];
      NoSpaceSingleSpaced(s[1..]);
    }
  }

  /** Patterns that do not occur leave the text unchanged. */
  lemma {:induction false} ReplacementsAbsent(s: string, table: seq<(string, string)>)
    requires forall i :: 0 <= i < |table| ==> |table[i].0| > 0 && !Contains(s, table[i].0)
    ensures ApplyReplacements(s, table) == s
    decreases |table|
  {
    if |table| > 0 {
      ReplaceAbsent(s, table[0].0, table[0].1);
      ReplacementsAbsent(s, table[1..]);
    }
  }

  /** Text with none of the patterns' initial letters passes through the table unchanged. */
  lemma TableSkips(s: string)
    requires 'R' !in s && 'N' !in s && 'J' !in s && 'T' !in s
    ensures ApplyReplacements(s, Replacements) == s
  {
    NotContainsMissingChar(s, "ReactJS", 0);
    NotContainsMissingChar(s, "NodeJS", 0);
    NotContainsMissingChar(s, "Javascript", 0);
    NotContainsMissingChar(s, "Node JS", 0);
    NotContainsMissingChar(s, "REACT", 0);
    NotContainsMissingChar(s, "NODE", 0);
    NotContainsMissingChar(s, "Typescript", 0);
    ReplacementsAbsent(s, Replacements);
  }

  /** Every pattern after the first is absent from "ReactJS" and from "React". */
  lemma TailSkipsReact(s: string)
    requires s == "ReactJS" || s == "React"
    ensures ApplyReplacements(s, Replacements[1..]) == s
  {
    NotContainsMissingChar(s, "NodeJS", 0);
    NotContainsShorter(s, "Javascript");
    NotContainsMissingChar(s, "Node JS", 0);
    NotContainsMissingChar(s, "REACT", 1);
    NotContainsMissingChar(s, "NODE", 0);
    NotContainsShorter(s, "Typescript");
    ReplacementsAbsent(s, Replacements[1..]);
  }

  lemma FirstReplacement()
    ensures Replace("ReactJSJS", "ReactJS", "React") == "ReactJS"
    ensures Replace("ReactJS", "ReactJS", "React") == "React"
  {
    assert Replace("JS", "ReactJS", "React") == "JS";
    assert Replace("", "ReactJS", "React") == "";
  }

  /** Text the first two stages leave alone only meets the table and the strip. */
  lemma CleanTextOfFixpoint(t: string)
    requires CollapseWhitespace(t) == t && BlankDisallowed(t) == t
    ensures CleanText(t) == Strip(ApplyReplacements(t, Replacements))
  {
  }

  lemma BlankAllowed(t: string)
    requires forall i :: 0 <= i < |t| ==> Allowed(t[i])
    ensures BlankDisallowed(t) == t
  {
  }

  lemma CollapseReactJSJS()
    ensures CollapseWhitespace("ReactJSJS") == "ReactJSJS"
  {
    var s := "ReactJSJS";
    assert forall i :: 0 <= i < |s| ==> !IsSpace(s[i]);
    NoSpaceSingleSpaced(s);
    CollapseSingleSpaces(s);
  }

  lemma BlankReactJSJS()
    ensures BlankDisallowed("ReactJSJS") == "ReactJSJS"
  {
    BlankAllowed("ReactJSJS");
  }

  lemma CollapseReactJS()
    ensures CollapseWhitespace("ReactJS") == "ReactJS"
  {
    var s := "ReactJS";
    assert forall i :: 0 <= i < |s| ==> !IsSpace(s[i]);
    NoSpaceSingleSpaced(s);
    CollapseSingleSpaces(s);
  }

  lemma BlankReactJS()
    ensures BlankDisallowed("ReactJS") == "ReactJS"
  {
    BlankAllowed("ReactJS");
  }

  lemma ReactTable()
    ensures Strip(ApplyReplacements("ReactJSJS", Replacements)) == "ReactJS"
    ensures Strip(ApplyReplacements("ReactJS", Replacements)) == "React"
  {
    FirstReplacement();
    TailSkipsReact("ReactJS");
    TailSkipsReact("React");
    StripStripped("ReactJS");
    StripStripped("React");
  }

  /** The table is applied once, left to right, so a replacement can create a new
      occurrence of the pattern it has just removed: cleaning is not idempotent. */
  lemma CleanTextNotIdempotent()
    ensures CleanText("ReactJSJS") == "ReactJS"
    ensures CleanText(CleanText("ReactJSJS")) == "React"
  {
    CollapseReactJSJS();
    BlankReactJSJS();
    CollapseReactJS();
    BlankReactJS();
    CleanTextOfFixpoint("ReactJSJS");
    CleanTextOfFixpoint("ReactJS");
    ReactTable();
  }

  lemma CollapseHashExample()
    ensures CollapseWhitespace("a # b") == "a # b"
  {
    CollapseSingleSpaces("a # b");
  }

  lemma BlankHashExample()
    ensures BlankDisallowed("a # b") == "a   b"
  {
  }

  lemma HashTable()
    ensures ApplyReplacements("a   b", Replacements) == "a   b"
  {
    TableSkips("a   b");
  }

  lemma HashStrip()
    ensures Strip("a   b") == "a   b"
  {
    var t := "a   b";
    assert |t| == 5 && t[0] == 'a' && t[4] == 'b';
    StripStripped(t);
  }

  lemma HashExampleTail()
    ensures Strip(ApplyReplacements(BlankDisallowed("a # b"), Replacements)) == "a   b"
  {
    BlankHashExample();
    HashTable();
    HashStrip();
  }

  /** A disallowed character becomes a space after the whitespace collapse has
      run, so the cleaned text can hold runs of spaces. */
  lemma CleanTextKeepsSpaceRuns()
    ensures CleanText("a # b") == "a   b"
  {
    CollapseHashExample();
    HashExampleTail();
  }
}
