/** What the keyword fallback of backend/ai_analyzer.py finds in the prompt that
    `AIAnalyzer.analyze_keywords` builds. The shipped `JOB:?` / `RESUME:?` patterns catch the
    words "job" and "resume" in the opening sentence, so every term the job segment holds is
    in the resume segment too and every skill counts as present; this is what the fallback
    and the offline keyword request return. Cut at the "JOB:" and "RESUME:" labels instead,
    the segments would be exactly the quoted job description and resume. */
module KeywordSegments {
  import opened Wrappers
  import opened Strings
  import opened Records
  import opened Segments
  import opened KeywordFallback
  import Analyzer
  import Gateway

  /** The keyword prompt around the two texts it quotes. */
  function Prompt(a: string, b: string): string {
    Analyzer.KeywordIntro + a + Analyzer.ResumeLabel + b
  }

  // ---------------------------------------------------------------------------
  // Generic facts

  /** The first letter of `w` appears in it once, so two matches of `w` cannot overlap. */
  predicate HeadOnce(w: string) {
    |w| > 0 && forall i :: 0 < i < |w| ==> w[i] != w[0]
  }

  lemma OccursAfter(u: string, v: string, w: string)
    requires StartsWith(Lower(v), w)
    ensures OccursAt(Lower(u + v), w, |u|)
  {
    LowerAppend(u, v);
    assert Lower(u + v)[|u|..|u| + |w|] == Lower(v)[..|w|];
  }

  /** `w` matched at the head of `Lower(v)` and nowhere in `Lower(u)` is first found at `|u|`. */
  lemma FirstAfter(u: string, v: string, w: string)
    requires !Contains(Lower(u), w) && StartsWith(Lower(v), w) && HeadOnce(w)
    ensures FirstAt(u + v, w, |u|)
  {
    var x := Lower(u + v);
    LowerAppend(u, v);
    OccursAfter(u, v, w);
    ContainsIff(Lower(u), w);
    forall j | 0 <= j < |u| ensures !OccursAt(x, w, j) {
      if j + |w| <= |u| {
        assert x[j..j + |w|] == Lower(u)[j..j + |w|];
        assert !OccursAt(Lower(u), w, j);
      } else {
        assert x[|u|] == w[0];
      }
    }
  }

  lemma LabelWords()
    ensures HeadOnce("job") && HeadOnce("resume") && HeadOnce("job:") && HeadOnce("resume:")
  {
  }

  /** A piece that lacks some letter of `w`, in either case, lacks `w` once lower-cased. */
  lemma NoMatchLacking(p: string, w: string, k: nat, d: char)
    requires k < |w| && Analyzer.Lacks(p, w[k], d)
    requires if IsLowerChar(w[k]) then d as int == w[k] as int - 32 else !IsUpperChar(w[k]) && d == w[k]
    ensures !Contains(Lower(p), w)
  {
    forall i | 0 <= i < |p| ensures Lower(p)[i] != w[k] {
      assert p[i] != w[k] && p[i] != d;
    }
    NotContainsMissingChar(Lower(p), w, k);
  }

  /** Two pieces without `w` once lower-cased, joined where `w` cannot straddle them. */
  lemma NoMatchJoined(x: string, y: string, w: string)
    requires !Contains(Lower(x), w) && !Contains(Lower(y), w)
    requires (|x| > 0 && LowerChar(x[|x| - 1]) !in w) || (|y| > 0 && LowerChar(y[0]) !in w)
    ensures !Contains(Lower(x + y), w)
  {
    LowerAppend(x, y);
    if |x| > 0 && LowerChar(x[|x| - 1]) !in w {
      assert Lower(x)[|x| - 1] == LowerChar(x[|x| - 1]);
    } else {
      assert Lower(y)[0] == LowerChar(y[0]);
    }
    NotContainsJoined(Lower(x), Lower(y), w);
  }

  /** The regroupings of the prompt's parts the proofs below cut it at. */
  lemma Regroup(p1: string, p2: string, p3: string, p4: string, p5: string, p6: string, a: string, l: string, b: string)
    ensures var s := p1 + p2 + p3 + p4 + p5 + p6 + a + l + b;
            s == p1 + (p2 + p3 + p4 + p5 + p6 + a + l + b) &&
            s == (p1 + p2) + (p3 + p4) + (p5 + p6 + a + l + b) &&
            s == (p1 + p2 + p3) + (p4 + p5 + p6 + a + l + b) &&
            s == (p1 + p2 + p3 + p4 + p5) + (p6 + a + l + b)
  {
  }

  lemma RegroupLabel(i: string, a: string, n: string, r: string, b: string)
    ensures i + a + (n + r) + b == (i + a + n) + (r + b)
  {
  }

  // ---------------------------------------------------------------------------
  // The patterns as written

  /** A group that opens with `open` followed by one space and text, first found at `|u|`. */
  lemma OpenedAfter(u: string, v: string, open: string, close: Option<string>)
    requires !Contains(Lower(u), open) && StartsWith(Lower(v), open) && HeadOnce(open)
    requires |open| + 1 < |v| && v[|open|] == ' ' && !IsSpace(v[|open| + 1])
    ensures var s, g := u + v, |u| + |open| + 1;
            Group(s, open, close) == Some(s[g..GroupEnd(s, close, g)])
  {
    var s := u + v;
    FirstAfter(u, v, open);
    assert s[|u| + |open|] == ' ' && s[|u| + |open| + 1] == v[|open| + 1];
    GroupFrom(s, open, close, |u|, |u| + |open| + 1);
  }

  /** The keyword prompt from its "job" on. */
  lemma FromJob(a: string, b: string)
    ensures var v := "job " + Analyzer.KeywordTask + "resume.\n" + Analyzer.KeywordFormat + "JOB: " + a + Analyzer.ResumeLabel + b;
            Prompt(a, b) == "Analyze " + v && StartsWith(Lower(v), "job") && v[3] == ' ' && v[4] == 'd'
    ensures Prompt(a, b)[12] == 'd'
  {
    var v := "job " + Analyzer.KeywordTask + "resume.\n" + Analyzer.KeywordFormat + "JOB: " + a + Analyzer.ResumeLabel + b;
    Regroup("Analyze ", "job ", Analyzer.KeywordTask, "resume.\n", Analyzer.KeywordFormat, "JOB: ", a, Analyzer.ResumeLabel, b);
    assert v[..3] == "job";
    LowerSlice(v, 0, 3);
  }

  /** The job group as written opens on the "d" of "description", which no closing word
      starts at. */
  lemma DescriptionAt(a: string, b: string)
    ensures var s := Prompt(a, b); |s| > 13 && !IsSpace(s[12]) && !EndsAt(s, Some("resume:"), 12)
  {
    FromJob(a, b);
    assert Lower(Prompt(a, b))[12] == 'd';
  }

  lemma AnalyzeNoJob()
    ensures !Contains(Lower("Analyze "), "job") && HeadOnce("job")
  {
    assert Analyzer.Lacks("Analyze ", 'j', 'J');
    NoMatchLacking("Analyze ", "job", 0, 'J');
  }

  /** `JOB:?` first matches the "job" of "Analyze job description", so the job group starts
      at the "d" of "description", index 12. */
  lemma ShippedJobGroup(a: string, b: string)
    ensures var s := Prompt(a, b);
            Group(s, "job", Some("resume:")) == Some(s[12..GroupEnd(s, Some("resume:"), 12)])
  {
    var v := "job " + Analyzer.KeywordTask + "resume.\n" + Analyzer.KeywordFormat + "JOB: " + a + Analyzer.ResumeLabel + b;
    FromJob(a, b);
    AnalyzeNoJob();
    OpenedAfter("Analyze ", v, "job", Some("resume:"));
  }

  /** Text that starts with a non-space keeps its head through `strip()`, up to its last
      non-space. */
  lemma StripFront(t: string, k: nat)
    requires k < |t| && !IsSpace(t[0]) && !IsSpace(t[k])
    ensures |Strip(t)| > k && StartsWith(t, Strip(t))
  {
    assert LStrip(t) == t;
  }

  lemma IntroLength()
    ensures |Analyzer.KeywordIntro| == 112
  {
  }

  /** Text followed by the résumé label and more text. */
  lemma LabelAfter(p: string, b: string)
    ensures var s := p + "\n" + ("RESUME: " + b);
            |s| == |p| + 9 + |b| && OccursAt(Lower(s), "resume:", |p| + 1) &&
            s[|p|] == '\n' && s[|p| + 7] == ':' && s[|p| + 8] == ' '
  {
    var r := "RESUME: " + b;
    assert r[..7] == "RESUME:";
    LowerSlice(r, 0, 7);
    assert Lower("RESUME:") == "resume:";
    OccursAfter(p + "\n", r, "resume:");
  }

  /** The résumé label sits right after the job text: "\nRESUME: " at `112 + |a|`. */
  lemma AtLabel(a: string, b: string)
    ensures var s := Prompt(a, b);
            |s| == 121 + |a| + |b| && OccursAt(Lower(s), "resume:", 113 + |a|) &&
            s[112 + |a|] == '\n' && s[119 + |a|] == ':' && s[120 + |a|] == ' '
  {
    assert Analyzer.ResumeLabel == "\n" + "RESUME: ";
    RegroupLabel(Analyzer.KeywordIntro, a, "\n", "RESUME: ", b);
    IntroLength();
    LabelAfter(Analyzer.KeywordIntro + a, b);
  }

  /** Text that starts with a non-space gives a non-empty segment text that its lower-cased
      form starts with. */
  lemma LowerStripHead(t: string)
    requires |t| > 0 && !IsSpace(t[0])
    ensures var j := Prefix(Lower(Strip(t)), 200); j != "" && StartsWith(Lower(t), j)
  {
    StripFront(t, 0);
    var st := Strip(t);
    LowerSlice(t, 0, |st|);
    assert Lower(st) == Lower(t)[..|st|];
  }

  lemma StartsWithLonger(x: string, g: nat, e: nat, m: nat, j: string)
    requires g <= e <= m <= |x| && StartsWith(x[g..e], j)
    ensures StartsWith(x[g..m], j)
  {
    assert x[g..e] == x[g..m][..e - g];
  }

  /** A job group that starts at a non-space `g` and may end at `m` gives a job text that is
      not empty and is a prefix of the text from `g` to `m`. */
  lemma JobTextWithin(s: string, g: nat, m: nat)
    requires g < m <= |s| && Group(s, "job", Some("resume:")) == Some(s[g..GroupEnd(s, Some("resume:"), g)])
    requires !IsSpace(s[g]) && !EndsAt(s, Some("resume:"), g) && EndsAt(s, Some("resume:"), m)
    ensures JobText(s) != "" && StartsWith(Lower(s)[g..m], JobText(s))
  {
    var e := GroupEnd(s, Some("resume:"), g);
    assert e <= m && g < e by {
      assert !(m < e);
      assert e != g;
    }
    LowerStripHead(s[g..e]);
    LowerSlice(s, g, e);
    StartsWithLonger(Lower(s), g, e, m, JobText(s));
  }

  /** The job text `JOB:?` gives: not empty, and a prefix of the prompt from "description"
      up to the résumé label. */
  lemma ShippedJob(a: string, b: string)
    ensures var s := Prompt(a, b);
            var job := JobText(s);
            job != "" && StartsWith(Lower(s)[12..113 + |a|], job)
  {
    var s := Prompt(a, b);
    ShippedJobGroup(a, b);
    DescriptionAt(a, b);
    AtLabel(a, b);
    JobTextWithin(s, 12, 113 + |a|);
  }

  /** The prompt from "resume." on, after the 56 characters before it. */
  lemma FromResume(a: string, b: string)
    ensures var u := "Analyze " + "job " + Analyzer.KeywordTask;
            var v := "resume.\n" + Analyzer.KeywordFormat + "JOB: " + a + Analyzer.ResumeLabel + b;
            Prompt(a, b) == u + v && |u| == 56 && StartsWith(Lower(v), "resume") && v[6] == '.'
  {
    var v := "resume.\n" + Analyzer.KeywordFormat + "JOB: " + a + Analyzer.ResumeLabel + b;
    Regroup("Analyze ", "job ", Analyzer.KeywordTask, "resume.\n", Analyzer.KeywordFormat, "JOB: ", a, Analyzer.ResumeLabel, b);
    assert v[..6] == "resume";
    LowerSlice(v, 0, 6);
  }

  /** The first 56 characters of the prompt have no "u". */
  lemma OpeningLacksU()
    ensures Analyzer.Lacks("Analyze " + "job " + Analyzer.KeywordTask, 'u', 'U')
  {
    var t1, t2, t3, t4 := "description for ", "missing", " technical ", "skills in ";
    assert Analyzer.Lacks("Analyze ", 'u', 'U') && Analyzer.Lacks("job ", 'u', 'U');
    assert Analyzer.Lacks(t1, 'u', 'U') && Analyzer.Lacks(t2, 'u', 'U') && Analyzer.Lacks(t3, 'u', 'U') && Analyzer.Lacks(t4, 'u', 'U');
    Analyzer.LacksAppend(t1, t2, 'u', 'U');
    Analyzer.LacksAppend(t1 + t2, t3, 'u', 'U');
    Analyzer.LacksAppend(t1 + t2 + t3, t4, 'u', 'U');
    Analyzer.LacksAppend("Analyze ", "job ", 'u', 'U');
    Analyzer.LacksAppend("Analyze " + "job ", Analyzer.KeywordTask, 'u', 'U');
  }

  lemma TaskNoResume()
    ensures !Contains(Lower("Analyze " + "job " + Analyzer.KeywordTask), "resume")
  {
    OpeningLacksU();
    NoMatchLacking("Analyze " + "job " + Analyzer.KeywordTask, "resume", 3, 'U');
  }

  /** A group that opens with `open` directly followed by text other than a colon, first
      found at `|u|`. */
  lemma OpenedTightAfter(u: string, v: string, open: string, close: Option<string>)
    requires !Contains(Lower(u), open) && StartsWith(Lower(v), open) && HeadOnce(open)
    requires |open| < |v| && v[|open|] != ':' && !IsSpace(v[|open|])
    ensures var s, g := u + v, |u| + |open|;
            Group(s, open, close) == Some(s[g..GroupEnd(s, close, g)])
  {
    var s := u + v;
    FirstAfter(u, v, open);
    assert s[|u| + |open|] == v[|open|];
    GroupFrom(s, open, close, |u|, |u| + |open|);
  }

  /** `RESUME:?` first matches the "resume" of "skills in resume.", so the résumé group starts
      at the full stop after it, index 62, and runs to the end. */
  lemma ShippedResumeGroup(a: string, b: string)
    ensures var s := Prompt(a, b);
            Group(s, "resume", None) == Some(s[62..GroupEnd(s, None, 62)]) && !IsSpace(s[62])
  {
    var u := "Analyze " + "job " + Analyzer.KeywordTask;
    var v := "resume.\n" + Analyzer.KeywordFormat + "JOB: " + a + Analyzer.ResumeLabel + b;
    FromResume(a, b);
    TaskNoResume();
    LabelWords();
    OpenedTightAfter(u, v, "resume", None);
  }

  /** A résumé group that starts at a non-space `g` and runs to the end keeps, through
      `strip()`, everything up to the non-space at `m`. */
  lemma ResumeTextWithin(s: string, g: nat, m: nat)
    requires g <= m && m + 1 < |s| && Group(s, "resume", None) == Some(s[g..GroupEnd(s, None, g)])
    requires !IsSpace(s[g]) && !IsSpace(s[m])
    ensures StartsWith(ResumeText(s), Prefix(Lower(s)[g..m + 1], 200))
  {
    var e := GroupEnd(s, None, g);
    assert e > m by {
      assert EndsAt(s, None, e);
    }
    assert ResumeText(s) == Prefix(Lower(Strip(s[g..e])), 200);
    KeepsUpTo(s, g, e, m);
  }

  lemma KeepsUpTo(s: string, g: nat, e: nat, m: nat)
    requires g <= m < e <= |s| && !IsSpace(s[g]) && !IsSpace(s[m])
    ensures StartsWith(Prefix(Lower(Strip(s[g..e])), 200), Prefix(Lower(s)[g..m + 1], 200))
  {
    LowerStripKeeps(s[g..e], m - g);
    SliceHead(s, g, e, m - g + 1);
    LowerSlice(s, g, m + 1);
  }

  lemma SliceHead(s: string, i: nat, j: nat, n: nat)
    requires i + n <= j <= |s|
    ensures s[i..j][..n] == s[i..i + n]
  {
  }

  /** Text that starts with a non-space keeps, through `strip()`, everything up to its
      non-space at `k`. */
  lemma LowerStripKeeps(t: string, k: nat)
    requires k < |t| && !IsSpace(t[0]) && !IsSpace(t[k])
    ensures StartsWith(Prefix(Lower(Strip(t)), 200), Prefix(Lower(t[..k + 1]), 200))
  {
    StripFront(t, k);
    assert StartsWith(Strip(t), t[..k + 1]);
    LowerPrefixes(Strip(t), t[..k + 1], 200);
  }

  /** The résumé text `RESUME:?` gives starts with the prompt from "resume." up to the colon
      of the résumé label. */
  lemma ShippedResume(a: string, b: string)
    ensures var s := Prompt(a, b);
            StartsWith(ResumeText(s), Prefix(Lower(s)[62..120 + |a|], 200))
  {
    var s := Prompt(a, b);
    ShippedResumeGroup(a, b);
    AtLabel(a, b);
    ResumeTextWithin(s, 62, 119 + |a|);
  }

  // ---------------------------------------------------------------------------
  // As written, every term of the job text is in the résumé text

  /** A piece of a prefix of `x[lo..hi]` is the piece of `x` shifted by `lo`. */
  lemma InPrefix(x: string, lo: nat, hi: nat, p: string, i: nat, n: nat)
    requires lo <= hi <= |x| && StartsWith(x[lo..hi], p) && i + n <= |p|
    ensures p[i..i + n] == x[lo + i..lo + i + n]
  {
    assert p == x[lo..hi][..|p|];
    forall k | i <= k < i + n ensures p[k] == x[lo + k] {
      assert p[k] == x[lo..hi][k];
    }
  }

  /** No match starts in `x[lo..hi]` when that slice lacks `w` and its last character cannot
      be part of `w`. */
  lemma NoMatchIn(x: string, lo: nat, hi: nat, w: string)
    requires lo < hi <= |x| && !Contains(x[lo..hi], w) && x[hi - 1] !in w
    ensures forall j :: lo <= j < hi ==> !OccursAt(x, w, j)
  {
    ContainsIff(x[lo..hi], w);
    forall j | lo <= j < hi ensures !OccursAt(x, w, j) {
      if j + |w| <= hi {
        InPrefix(x, lo, hi, x[lo..hi], j - lo, |w|);
        assert !OccursAt(x[lo..hi], w, j - lo);
      } else if j + |w| <= |x| {
        assert x[j..j + |w|][hi - 1 - j] == x[hi - 1];
      }
    }
  }

  /** A match past 62 within the first 200 characters of `x[62..mr]` is in a text that
      starts with them. */
  lemma IntoResume(x: string, mr: nat, resume: string, w: string, q: nat)
    requires 62 <= q && q + |w| <= mr <= |x| && q + |w| <= 262 && OccursAt(x, w, q)
    requires StartsWith(resume, Prefix(x[62..mr], 200))
    ensures Contains(resume, w)
  {
    var pr := Prefix(x[62..mr], 200);
    InPrefix(x, 62, mr, pr, q - 62, |w|);
    assert OccursAt(resume, w, q - 62) by {
      assert resume[q - 62..q - 62 + |w|] == pr[q - 62..q - 62 + |w|];
    }
    ContainsIff(resume, w);
  }

  /** A term found in the job text lies past the fixed head `x[12..64]`, which it cannot
      straddle, so it also lies in the résumé text, which starts at 62 and reaches further. */
  lemma SharedTail(x: string, mj: nat, mr: nat, job: string, resume: string, w: string)
    requires 64 <= mj <= mr <= |x|
    requires StartsWith(x[12..mj], job) && |job| <= 200
    requires StartsWith(resume, Prefix(x[62..mr], 200))
    requires !Contains(x[12..64], w) && x[63] !in w
    ensures Contains(job, w) ==> Contains(resume, w)
  {
    if Contains(job, w) {
      ContainsIff(job, w);
      var i :| OccursAt(job, w, i);
      InPrefix(x, 12, mj, job, i, |w|);
      assert OccursAt(x, w, 12 + i);
      NoMatchIn(x, 12, 64, w);
      IntoResume(x, mr, resume, w, 12 + i);
    }
  }

  /** The head the two shipped segments share: the instruction line from "description" on. */
  const Head: string := Analyzer.KeywordTask + "resume.\n"

  lemma MiddleSlice(x: string, y: string, z: string)
    ensures (x + y + z)[|x|..|x| + |y|] == y
  {
  }

  /** The lower-cased prompt holds the head at 12 to 64. */
  lemma HeadSlice(a: string, b: string)
    ensures var x := Lower(Prompt(a, b)); |x| > 64 && x[12..64] == Lower(Head) && x[63] == '\n'
  {
    var s := Prompt(a, b);
    Regroup("Analyze ", "job ", Analyzer.KeywordTask, "resume.\n", Analyzer.KeywordFormat, "JOB: ", a, Analyzer.ResumeLabel, b);
    MiddleSlice("Analyze " + "job ", Head, Analyzer.KeywordFormat + "JOB: " + a + Analyzer.ResumeLabel + b);
    assert |Head| == 52 && Head[51] == '\n';
    LowerSlice(s, 12, 64);
  }

  /** The head's pieces join at spaces, so a term without a space that none of them holds is
      not in the head. */
  lemma PiecesFree(w: string)
    requires ' ' !in w
    requires !Contains(Lower("description for "), w) && !Contains(Lower("missing"), w)
    requires !Contains(Lower(" technical "), w) && !Contains(Lower("skills in "), w)
    requires !Contains(Lower("resume.\n"), w)
    ensures !Contains(Lower(Head), w)
  {
    var p1, p2, p3, p4 := "description for ", "missing", " technical ", "skills in ";
    NoMatchJoined(p1, p2, w);
    NoMatchJoined(p1 + p2, p3, w);
    assert (p1 + p2 + p3)[|p1 + p2 + p3| - 1] == ' ';
    NoMatchJoined(p1 + p2 + p3, p4, w);
    assert Analyzer.KeywordTask[|Analyzer.KeywordTask| - 1] == ' ';
    NoMatchJoined(Analyzer.KeywordTask, "resume.\n", w);
  }

  /** The characters of the head, piece by piece. */
  predicate DescriptionChar(c: char) {
    c == 'd' || c == 'e' || c == 's' || c == 'c' || c == 'r' || c == 'i' || c == 'p' || c == 't' || c == 'o' || c == 'n' || c == ' ' || c == 'f'
  }

  predicate MissingChar(c: char) {
    c == 'm' || c == 'i' || c == 's' || c == 'n' || c == 'g'
  }

  predicate TechnicalChar(c: char) {
    c == ' ' || c == 't' || c == 'e' || c == 'c' || c == 'h' || c == 'n' || c == 'i' || c == 'a' || c == 'l'
  }

  predicate SkillsChar(c: char) {
    c == 's' || c == 'k' || c == 'i' || c == 'l' || c == 'n' || c == ' '
  }

  predicate ResumeChar(c: char) {
    c == 'r' || c == 'e' || c == 's' || c == 'u' || c == 'm' || c == '.' || c == '\n'
  }

  predicate HeadChar(c: char) {
    DescriptionChar(c) || MissingChar(c) || TechnicalChar(c) || SkillsChar(c) || ResumeChar(c)
  }

  lemma DescriptionLacks(c: char, d: char)
    requires !DescriptionChar(c) && !DescriptionChar(d)
    ensures Analyzer.Lacks("description for ", c, d)
  {
    assert forall i :: 0 <= i < |"description for "| ==> DescriptionChar("description for "[i]);
  }

  lemma MissingLacks(c: char, d: char)
    requires !MissingChar(c) && !MissingChar(d)
    ensures Analyzer.Lacks("missing", c, d)
  {
    assert forall i :: 0 <= i < |"missing"| ==> MissingChar("missing"[i]);
  }

  lemma TechnicalLacks(c: char, d: char)
    requires !TechnicalChar(c) && !TechnicalChar(d)
    ensures Analyzer.Lacks(" technical ", c, d)
  {
    assert forall i :: 0 <= i < |" technical "| ==> TechnicalChar(" technical "[i]);
  }

  lemma SkillsLacks(c: char, d: char)
    requires !SkillsChar(c) && !SkillsChar(d)
    ensures Analyzer.Lacks("skills in ", c, d)
  {
    assert forall i :: 0 <= i < |"skills in "| ==> SkillsChar("skills in "[i]);
  }

  lemma ResumeLacks(c: char, d: char)
    requires !ResumeChar(c) && !ResumeChar(d)
    ensures Analyzer.Lacks("resume.\n", c, d)
  {
    assert forall i :: 0 <= i < |"resume.\n"| ==> ResumeChar("resume.\n"[i]);
  }

  /** A letter neither of whose cases the head holds. */
  lemma HeadLacks(c: char, d: char)
    requires !HeadChar(c) && !HeadChar(d)
    ensures Analyzer.Lacks(Head, c, d)
  {
    var p1, p2, p3, p4 := "description for ", "missing", " technical ", "skills in ";
    DescriptionLacks(c, d);
    MissingLacks(c, d);
    TechnicalLacks(c, d);
    SkillsLacks(c, d);
    ResumeLacks(c, d);
    Analyzer.LacksAppend(p1, p2, c, d);
    Analyzer.LacksAppend(p1 + p2, p3, c, d);
    Analyzer.LacksAppend(p1 + p2 + p3, p4, c, d);
    Analyzer.LacksAppend(Analyzer.KeywordTask, "resume.\n", c, d);
  }

  /** The upper-case form of a lower-case letter. */
  function UpperOf(c: char): char
    requires IsLowerChar(c)
  {
    (c as int - 32) as char
  }

  /** A term none of whose pieces of the head holds all its letters, in either case. */
  lemma FreeByPieces(w: string, k1: nat, k2: nat, k3: nat, k4: nat, k5: nat)
    requires ' ' !in w && k1 < |w| && k2 < |w| && k3 < |w| && k4 < |w| && k5 < |w|
    requires IsLowerChar(w[k1]) && IsLowerChar(w[k2]) && IsLowerChar(w[k3]) && IsLowerChar(w[k4]) && IsLowerChar(w[k5])
    requires !DescriptionChar(w[k1]) && !DescriptionChar(UpperOf(w[k1]))
    requires !MissingChar(w[k2]) && !MissingChar(UpperOf(w[k2]))
    requires !TechnicalChar(w[k3]) && !TechnicalChar(UpperOf(w[k3]))
    requires !SkillsChar(w[k4]) && !SkillsChar(UpperOf(w[k4]))
    requires !ResumeChar(w[k5]) && !ResumeChar(UpperOf(w[k5]))
    ensures !Contains(Lower(Head), w)
  {
    DescriptionLacks(w[k1], UpperOf(w[k1]));
    NoMatchLacking("description for ", w, k1, UpperOf(w[k1]));
    MissingLacks(w[k2], UpperOf(w[k2]));
    NoMatchLacking("missing", w, k2, UpperOf(w[k2]));
    TechnicalLacks(w[k3], UpperOf(w[k3]));
    NoMatchLacking(" technical ", w, k3, UpperOf(w[k3]));
    SkillsLacks(w[k4], UpperOf(w[k4]));
    NoMatchLacking("skills in ", w, k4, UpperOf(w[k4]));
    ResumeLacks(w[k5], UpperOf(w[k5]));
    NoMatchLacking("resume.\n", w, k5, UpperOf(w[k5]));
    PiecesFree(w);
  }

  /** A term with a letter the head lacks in both cases. */
  lemma FreeByLetter(w: string, k: nat)
    requires k < |w| && IsLowerChar(w[k]) && !HeadChar(w[k]) && !HeadChar(UpperOf(w[k]))
    ensures !Contains(Lower(Head), w)
  {
    HeadLacks(w[k], UpperOf(w[k]));
    NoMatchLacking(Head, w, k, UpperOf(w[k]));
  }

  // One lemma per vocabulary term keeps each proof about literal text small.

  lemma PythonNotInHead()
    ensures !Contains(Lower(Head), TechTerms[0])
  {
    FreeByLetter("python", 1);
  }

  lemma JavascriptNotInHead()
    ensures !Contains(Lower(Head), TechTerms[1])
  {
    FreeByLetter("javascript", 0);
  }

  lemma ReactNotInHead()
    ensures !Contains(Lower(Head), TechTerms[2])
  {
    FreeByPieces("react", 2, 0, 0, 0, 2);
  }

  lemma NodejsNotInHead()
    ensures !Contains(Lower(Head), TechTerms[3])
  {
    FreeByLetter("nodejs", 4);
  }

  lemma NodeDotJsNotInHead()
    ensures !Contains(Lower(Head), TechTerms[4])
  {
    FreeByLetter("node.js", 5);
  }

  lemma JavaNotInHead()
    ensures !Contains(Lower(Head), TechTerms[5])
  {
    FreeByLetter("java", 0);
  }

  lemma AwsNotInHead()
    ensures !Contains(Lower(Head), TechTerms[6])
  {
    FreeByLetter("aws", 1);
  }

  lemma DockerNotInHead()
    ensures !Contains(Lower(Head), TechTerms[7])
  {
    FreeByPieces("docker", 3, 0, 0, 0, 0);
  }

  lemma SqlNotInHead()
    ensures !Contains(Lower(Head), TechTerms[8])
  {
    FreeByLetter("sql", 1);
  }

  lemma GitNotInHead()
    ensures !Contains(Lower(Head), TechTerms[9])
  {
    FreeByPieces("git", 0, 2, 0, 0, 0);
  }

  lemma AgileNotInHead()
    ensures !Contains(Lower(Head), TechTerms[10])
  {
    FreeByPieces("agile", 0, 0, 1, 0, 0);
  }

  lemma TypescriptNotInHead()
    ensures !Contains(Lower(Head), TechTerms[11])
  {
    FreeByLetter("typescript", 1);
  }

  lemma KubernetesNotInHead()
    ensures !Contains(Lower(Head), TechTerms[12])
  {
    FreeByLetter("kubernetes", 2);
  }

  lemma MongodbNotInHead()
    ensures !Contains(Lower(Head), TechTerms[13])
  {
    FreeByLetter("mongodb", 6);
  }

  lemma ExpressNotInHead()
    ensures !Contains(Lower(Head), TechTerms[14])
  {
    FreeByLetter("express", 1);
  }

  lemma AngularNotInHead()
    ensures !Contains(Lower(Head), TechTerms[15])
  {
    FreeByPieces("angular", 0, 0, 2, 0, 0);
  }

  lemma VueNotInHead()
    ensures !Contains(Lower(Head), TechTerms[16])
  {
    FreeByLetter("vue", 0);
  }

  /** No vocabulary term is in the head. */
  lemma HeadFree(k: nat)
    requires k < |TechTerms|
    ensures !Contains(Lower(Head), TechTerms[k])
  {
    if k == 0 {
      PythonNotInHead();
    } else if k == 1 {
      JavascriptNotInHead();
    } else if k == 2 {
      ReactNotInHead();
    } else if k == 3 {
      NodejsNotInHead();
    } else if k == 4 {
      NodeDotJsNotInHead();
    } else if k == 5 {
      JavaNotInHead();
    } else if k == 6 {
      AwsNotInHead();
    } else if k == 7 {
      DockerNotInHead();
    } else if k == 8 {
      SqlNotInHead();
    } else if k == 9 {
      GitNotInHead();
    } else if k == 10 {
      AgileNotInHead();
    } else if k == 11 {
      TypescriptNotInHead();
    } else if k == 12 {
      KubernetesNotInHead();
    } else if k == 13 {
      MongodbNotInHead();
    } else if k == 14 {
      ExpressNotInHead();
    } else if k == 15 {
      AngularNotInHead();
    } else {
      VueNotInHead();
    }
  }

  /** A plain term is its own lower-case form and holds no line break. */
  lemma PlainLower(t: string)
    requires Plain(t)
    ensures Lower(t) == t && '\n' !in t
  {
    assert forall i :: 0 <= i < |t| ==> Lower(t)[i] == t[i];
  }

  /** Every term of the job text `JOB:?` cuts out is in the résumé text `RESUME:?` cuts out,
      so the shipped fallback reports every skill present, whatever the two texts. */
  lemma ShippedAllPresent(a: string, b: string)
    ensures ShippedKeywordReport(Prompt(a, b)) == [AllSkillsPresent]
  {
    var s := Prompt(a, b);
    var x := Lower(s);
    var job, resume := JobText(s), ResumeText(s);
    ShippedJob(a, b);
    ShippedResume(a, b);
    AtLabel(a, b);
    HeadSlice(a, b);
    VocabularyPlain();
    forall k | 0 <= k < |TechTerms| ensures !IsMissing(job, resume, TechTerms[k]) {
      HeadFree(k);
      PlainLower(TechTerms[k]);
      SharedTail(x, 113 + |a|, 120 + |a|, job, resume, TechTerms[k]);
    }
    ReportSentinel(job, resume, TechTerms);
  }

  /** The shipped keyword fallback answers every keyword prompt with the "all key skills
      present" sentinel. */
  lemma ShippedReportAllPresent(jobDescription: string, resume: string)
    ensures ShippedKeywordReport(Analyzer.KeywordPrompt(jobDescription, resume)) == [AllSkillsPresent]
  {
    ShippedAllPresent(Prefix(jobDescription, 200), Prefix(resume, 200));
  }

  /** Offline, a keyword request whose texts mention "keyword" comes back as "all key skills
      present", whatever the job description and the résumé say. */
  lemma KeywordsOfflineAllPresent(jobDescription: string, resume: string, net: Gateway.Network)
    requires Analyzer.Offline(Analyzer.KeywordPrompt(jobDescription, resume), net)
    requires Contains(Lower(Prefix(jobDescription, 200)), "keyword") || Contains(Lower(Prefix(resume, 200)), "keyword")
    ensures Analyzer.ExtractKeywords(jobDescription, resume, net) == [AllSkillsPresent]
  {
    Analyzer.KeywordsOfflineWithMarker(jobDescription, resume, net);
    ShippedReportAllPresent(jobDescription, resume);
  }

  // ---------------------------------------------------------------------------
  // Cut at the labels

  /** The characters of the format line. */
  predicate FormatChar(c: char) {
    c == 'F' || c == 'o' || c == 'r' || c == 'm' || c == 'a' || c == 't' || c == ':' || c == ' ' || c == 's' ||
    c == 'k' || c == 'i' || c == 'l' || c == '|' || c == 'p' || c == 'n' || c == 'c' || c == 'e' || c == 'f' ||
    c == 'q' || c == 'u' || c == 'y' || c == 'x' || c == '\n'
  }

  lemma FormatLacks(c: char, d: char)
    requires !FormatChar(c) && !FormatChar(d)
    ensures Analyzer.Lacks(Analyzer.KeywordFormat, c, d)
  {
    var f1, f2, f3, f4 := "Format: skill|", "importance|", "frequency|", "context\n";
    assert forall i :: 0 <= i < |f1| ==> FormatChar(f1[i]);
    assert forall i :: 0 <= i < |f2| ==> FormatChar(f2[i]);
    assert forall i :: 0 <= i < |f3| ==> FormatChar(f3[i]);
    assert forall i :: 0 <= i < |f4| ==> FormatChar(f4[i]);
    Analyzer.LacksAppend(f1, f2, c, d);
    Analyzer.LacksAppend(f1 + f2, f3, c, d);
    Analyzer.LacksAppend(f1 + f2 + f3, f4, c, d);
  }

  lemma Regroup5(p1: string, p2: string, p3: string, p4: string, p5: string)
    ensures p1 + p2 + p3 + p4 + p5 == (p1 + p2) + ((p3 + p4) + p5)
  {
  }

  /** The prompt before its "JOB:" label never says "job:": only "Analyze job " has a "j",
      and it has no colon. */
  lemma BeforeJobLabel()
    ensures !Contains(Lower("Analyze " + "job " + Analyzer.KeywordTask + "resume.\n" + Analyzer.KeywordFormat), "job:")
  {
    var p := "Analyze " + "job ";
    assert Analyzer.Lacks("Analyze ", ':', ':') && Analyzer.Lacks("job ", ':', ':');
    Analyzer.LacksAppend("Analyze ", "job ", ':', ':');
    NoMatchLacking(p, "job:", 3, ':');
    HeadLacks('j', 'J');
    FormatLacks('j', 'J');
    Analyzer.LacksAppend(Head, Analyzer.KeywordFormat, 'j', 'J');
    NoMatchLacking(Head + Analyzer.KeywordFormat, "job:", 0, 'J');
    assert p[|p| - 1] == ' ';
    NoMatchJoined(p, Head + Analyzer.KeywordFormat, "job:");
    Regroup5("Analyze ", "job ", Analyzer.KeywordTask, "resume.\n", Analyzer.KeywordFormat);
  }

  /** The first "job:" of the prompt is its label, at 107. */
  lemma JobLabelFirst(a: string, b: string)
    ensures FirstAt(Prompt(a, b), "job:", 107)
  {
    var u := "Analyze " + "job " + Analyzer.KeywordTask + "resume.\n" + Analyzer.KeywordFormat;
    var v := "JOB: " + a + Analyzer.ResumeLabel + b;
    Regroup("Analyze ", "job ", Analyzer.KeywordTask, "resume.\n", Analyzer.KeywordFormat, "JOB: ", a, Analyzer.ResumeLabel, b);
    assert v[..4] == "JOB:";
    LowerSlice(v, 0, 4);
    assert Lower("JOB:") == "job:";
    BeforeJobLabel();
    LabelWords();
    FirstAfter(u, v, "job:");
  }

  /** The prompt as intro, job text with its line break, and the résumé label with the
      résumé text. */
  lemma PromptParts(a: string, b: string)
    ensures Prompt(a, b) == Analyzer.KeywordIntro + (a + "\n") + ("RESUME: " + b)
  {
    assert Analyzer.ResumeLabel == "\n" + "RESUME: ";
    RegroupLabel(Analyzer.KeywordIntro, a, "\n", "RESUME: ", b);
  }

  lemma Framed(i: string, m: string, r: string)
    requires |i| > 0
    ensures (i + m + r)[|i| - 1..|i| + |m|] == [i[|i| - 1]] + m
    ensures (i + m + r)[|i| + |m|..] == r
  {
  }

  lemma TailAfter(p: string, b: string, k: nat)
    requires k <= |p|
    ensures (p + b)[k..] == p[k..] + b
  {
  }

  /** Around the job text: the space before it and the line break after it, then the résumé
      label's space and the résumé text. */
  lemma Layout(i: string, a: string, b: string)
    requires |i| == 112 && i[111] == ' '
    ensures var s := i + (a + "\n") + ("RESUME: " + b);
            |s| == 121 + |a| + |b| &&
            s[111..113 + |a|] == [' '] + a + ['\n'] && s[120 + |a|..] == [' '] + b
  {
    var s := i + (a + "\n") + ("RESUME: " + b);
    Framed(i, a + "\n", "RESUME: " + b);
    TailAfter("RESUME: ", b, 7);
    assert s[120 + |a|..] == s[113 + |a|..][7..];
  }

  lemma TextSlices(a: string, b: string)
    ensures var s := Prompt(a, b);
            |s| == 121 + |a| + |b| &&
            s[111..113 + |a|] == [' '] + a + ['\n'] && s[120 + |a|..] == [' '] + b
  {
    PromptParts(a, b);
    IntroLength();
    Analyzer.KeywordEdges();
    Layout(Analyzer.KeywordIntro, a, b);
  }

  /** With no "resume:" in the job text, the lazy job group cannot stop before the label. */
  lemma NoEndBefore(a: string, b: string)
    requires !Contains(Lower(a), "resume:")
    ensures var s := Prompt(a, b);
            forall k :: 112 <= k < 113 + |a| ==> !EndsAt(s, Some("resume:"), k)
  {
    var s := Prompt(a, b);
    var x := Lower(s);
    TextSlices(a, b);
    assert s[112..113 + |a|] == a + "\n";
    LowerSlice(s, 112, 113 + |a|);
    NotContainsShorter(Lower("\n"), "resume:");
    NoMatchJoined(a, "\n", "resume:");
    assert x[112 + |a|] == '\n';
    NoMatchIn(x, 112, 113 + |a|, "resume:");
  }

  /** Whitespace at the front of a slice makes no difference to its strip. */
  lemma {:induction false} StripFromSpaces(s: string, lo: nat, g: nat, m: nat)
    requires lo <= g <= m <= |s| && forall j :: lo <= j < g ==> IsSpace(s[j])
    ensures Strip(s[g..m]) == Strip(s[lo..m])
    decreases g - lo
  {
    if lo < g {
      StripFromSpaces(s, lo + 1, g, m);
      var t := s[lo..m];
      assert t[0] == s[lo] && t[1..] == s[lo + 1..m];
      StripSkipSpaces(t, 1);
    }
  }

  /** The job text sits between a space and a line break, and strips as if they were absent. */
  lemma JobPadding(s: string, a: string, m: nat)
    requires m == 113 + |a| <= |s| && s[111..m] == [' '] + a + ['\n']
    ensures s[111] == ' ' && Strip(s[112..m]) == Strip(a)
  {
    assert s[111] == s[111..m][0];
    var t := s[112..m];
    assert t == s[111..m][1..];
    assert t == a + ['\n'];
    assert t[..|t| - 1] == a;
    StripDropLast(t);
  }

  /** The labelled job group of a prompt whose "job:" label is first found at 107 and whose
      "resume:" label closes the quoted job text `a`. */
  lemma LabelledJobFrom(s: string, a: string, m: nat)
    requires m == 113 + |a| && m < |s| && FirstAt(s, "job:", 107)
    requires s[111..m] == [' '] + a + ['\n'] && !IsSpace(s[m])
    requires EndsAt(s, Some("resume:"), m) && forall k :: 112 <= k < m ==> !EndsAt(s, Some("resume:"), k)
    ensures LabelledJobText(s) == Prefix(Lower(Strip(a)), 200)
  {
    var close := Some("resume:");
    JobPadding(s, a, m);
    var g := Span(s, close, 111).0;
    assert 112 <= g <= m;
    GroupEndIs(s, close, g, m);
    LabelFrom(s, "job:", close, 107, g);
    StripFromSpaces(s, 112, g, m);
  }

  /** Cut at the labels, the job text is exactly the quoted job description, stripped and
      lower-cased, when the description itself never says "resume:". */
  lemma LabelledJob(a: string, b: string)
    requires !Contains(Lower(a), "resume:")
    ensures LabelledJobText(Prompt(a, b)) == Prefix(Lower(Strip(a)), 200)
  {
    var s := Prompt(a, b);
    JobLabelFirst(a, b);
    AtLabel(a, b);
    TextSlices(a, b);
    NoEndBefore(a, b);
    assert !IsSpace(s[113 + |a|]) by {
      assert Lower(s)[113 + |a|] == 'r';
    }
    LabelledJobFrom(s, a, 113 + |a|);
  }

  /** A word with a "u" in fourth place and a colon in seventh, such as "resume:", which
      holds none of the characters where the intro's pieces meet. */
  predicate ColonWord(w: string) {
    |w| == 7 && w[3] == 'u' && w[6] == ':' && w[0] == 'r' &&
    ' ' !in w && '|' !in w && 'f' !in w && 'c' !in w && 'j' !in w
  }

  /** The format line lacks such a word: each of its pieces lacks a letter of it, and they
      join at characters the word does not hold. */
  lemma FormatFree(w: string)
    requires ColonWord(w)
    ensures !Contains(Lower(Analyzer.KeywordFormat), w)
  {
    var f1, f2, f3, f4 := "Format: skill|", "importance|", "frequency|", "context\n";
    assert Analyzer.Lacks(f1, 'u', 'U') && Analyzer.Lacks(f2, 'u', 'U');
    assert Analyzer.Lacks(f3, ':', ':') && Analyzer.Lacks(f4, 'u', 'U');
    NoMatchLacking(f1, w, 3, 'U');
    NoMatchLacking(f2, w, 3, 'U');
    NoMatchLacking(f3, w, 6, ':');
    NoMatchLacking(f4, w, 3, 'U');
    assert f1[|f1| - 1] == '|' && f3[0] == 'f' && f4[0] == 'c';
    NoMatchJoined(f1, f2, w);
    NoMatchJoined(f1 + f2, f3, w);
    NoMatchJoined(f1 + f2 + f3, f4, w);
  }

  /** The intro lacks such a word: its "resume." has a full stop, not a colon. */
  lemma IntroFree(w: string)
    requires ColonWord(w)
    ensures !Contains(Lower(Analyzer.KeywordIntro), w)
  {
    var o := "Analyze " + "job " + Analyzer.KeywordTask;
    OpeningLacksU();
    NoMatchLacking(o, w, 3, 'U');
    assert Analyzer.Lacks("resume.\n", ':', ':');
    NoMatchLacking("resume.\n", w, 6, ':');
    FormatFree(w);
    assert Analyzer.Lacks("JOB: ", 'r', 'R');
    NoMatchLacking("JOB: ", w, 0, 'R');
    assert o[|o| - 1] == ' ' && Analyzer.KeywordFormat[0] == 'F' && "JOB: "[0] == 'J';
    NoMatchJoined(o, "resume.\n", w);
    NoMatchJoined(o + "resume.\n", Analyzer.KeywordFormat, w);
    NoMatchJoined(o + "resume.\n" + Analyzer.KeywordFormat, "JOB: ", w);
  }

  /** A word first found at the start of `v`, after a text that ends in a line break. */
  lemma FirstAfterLine(i: string, a: string, v: string, w: string)
    requires |i| > 0 && i[|i| - 1] == ' ' && ' ' !in w && '\n' !in w && |w| > 1
    requires !Contains(Lower(i), w) && !Contains(Lower(a), w) && StartsWith(Lower(v), w) && HeadOnce(w)
    ensures FirstAt(i + a + "\n" + v, w, |i| + |a| + 1)
  {
    NoMatchJoined(i, a, w);
    NotContainsShorter(Lower("\n"), w);
    NoMatchJoined(i + a, "\n", w);
    FirstAfter(i + a + "\n", v, w);
  }

  lemma ResumeWord()
    ensures ColonWord("resume:") && HeadOnce("resume:") && '\n' !in "resume:"
  {
  }

  /** The prompt up to the résumé label's "RESUME:", and from it on. */
  lemma AtResumeLabel(a: string, b: string)
    ensures Prompt(a, b) == Analyzer.KeywordIntro + a + "\n" + ("RESUME: " + b)
    ensures StartsWith(Lower("RESUME: " + b), "resume:")
    ensures |Analyzer.KeywordIntro| == 112 && Analyzer.KeywordIntro[111] == ' '
  {
    var v := "RESUME: " + b;
    assert Analyzer.ResumeLabel == "\n" + "RESUME: ";
    RegroupLabel(Analyzer.KeywordIntro, a, "\n", "RESUME: ", b);
    IntroLength();
    Analyzer.KeywordEdges();
    assert v[..7] == "RESUME:";
    LowerSlice(v, 0, 7);
    assert Lower("RESUME:") == "resume:";
  }

  /** The first "resume:" of the prompt is its label, right after the job text, when the job
      text never says "resume:". */
  lemma ResumeLabelFirst(a: string, b: string)
    requires !Contains(Lower(a), "resume:")
    ensures FirstAt(Prompt(a, b), "resume:", 113 + |a|)
  {
    AtResumeLabel(a, b);
    ResumeWord();
    IntroFree("resume:");
    FirstAfterLine(Analyzer.KeywordIntro, a, "RESUME: " + b, "resume:");
  }

  /** Text after one space, from the end of the whitespace at `g` on, strips to the text. */
  lemma SkipToText(s: string, c: nat, g: nat, b: string)
    requires c < g <= |s| && s[c..] == [' '] + b
    requires forall j :: c <= j < g ==> IsSpace(s[j])
    ensures Strip(s[g..]) == Strip(b)
  {
    WholeTail(s, g);
    WholeTail(s, c);
    StripFromSpaces(s, c, g, |s|);
    var t := s[c..];
    assert t[0] == ' ' && t[1..] == b;
    StripSkipSpaces(t, 1);
  }

  /** A final line break makes no difference to `strip()`. */
  lemma DropNewline(s: string, g: nat, e: nat)
    requires g <= e && e + 1 == |s| && s[e] == '\n'
    ensures Strip(s[g..e]) == Strip(s[g..])
  {
    assert s[g..e] == s[g..][..|s[g..]| - 1];
    StripDropLast(s[g..]);
  }

  lemma WholeTail(s: string, g: nat)
    requires g <= |s|
    ensures s[g..|s|] == s[g..]
  {
  }

  /** The text from `g` to where `$` matches strips to the quoted text. */
  lemma StripToEnd(s: string, c: nat, g: nat, e: nat, b: string)
    requires c < g <= e <= |s| && s[c..] == [' '] + b
    requires forall j :: c <= j < g ==> IsSpace(s[j])
    requires e == |s| || (e + 1 == |s| && s[e] == '\n')
    ensures Strip(s[g..e]) == Strip(b)
  {
    SkipToText(s, c, g, b);
    if e < |s| {
      DropNewline(s, g, e);
    } else {
      WholeTail(s, g);
    }
  }

  /** The labelled résumé group of a prompt whose "resume:" label is first found just before
      the space at `c` that opens the quoted résumé `b`. */
  lemma LabelledResumeFrom(s: string, b: string, c: nat)
    requires 7 <= c && c + 1 + |b| == |s| && FirstAt(s, "resume:", c - 7) && s[c..] == [' '] + b
    ensures LabelledResumeText(s) == Prefix(Lower(Strip(b)), 200)
  {
    var span := Span(s, None, c);
    var g, e := span.0, span.1;
    assert s[c] == ' ';
    GroupEndIs(s, None, g, e);
    LabelFrom(s, "resume:", None, c - 7, g);
    StripToEnd(s, c, g, e, b);
  }

  /** Cut at the labels, the résumé text is exactly the quoted résumé, stripped and
      lower-cased, when the job description never says "resume:". */
  lemma LabelledResume(a: string, b: string)
    requires !Contains(Lower(a), "resume:")
    ensures LabelledResumeText(Prompt(a, b)) == Prefix(Lower(Strip(b)), 200)
  {
    ResumeLabelFirst(a, b);
    TextSlices(a, b);
    LabelledResumeFrom(Prompt(a, b), b, 120 + |a|);
  }

  /** The report cut at the labels reads the user's own two texts. */
  lemma LabelledReport(jobDescription: string, resume: string)
    requires !Contains(Lower(Prefix(jobDescription, 200)), "resume:")
    ensures KeywordReport(Analyzer.KeywordPrompt(jobDescription, resume)) ==
            Report(Prefix(Lower(Strip(Prefix(jobDescription, 200))), 200),
                   Prefix(Lower(Strip(Prefix(resume, 200))), 200), TechTerms)
  {
    var a, b := Prefix(jobDescription, 200), Prefix(resume, 200);
    LabelledJob(a, b);
    LabelledResume(a, b);
  }
}
