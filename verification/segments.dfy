/** The three segments `AIAnalyzer._fallback_keyword_analysis` and
    `AIAnalyzer._fallback_bullet_analysis` (backend/ai_analyzer.py) cut out of a prompt with
    case-insensitive regular expressions. */
module Segments {
  import opened Wrappers
  import opened Strings
  // ---------------------------------------------------------------------------
  // Segments of the prompt

  /** Length of the whitespace run at the start of `s` (regex `\s*`). */
  function SpaceRun(s: string): (n: nat)
    ensures n <= |s|
    ensures forall i :: 0 <= i < n ==> IsSpace(s[i])
    ensures n < |s| ==> !IsSpace(s[n])
  {
    if |s| == 0 || !IsSpace(s[0]) then 0 else 1 + SpaceRun(s[1..])
  }

  /** A lazy group may end at `e`: the closing word (given lower case) occurs there, ignoring
      case, or `$` matches there, that is at the end or just before a final newline. */
  predicate EndsAt(s: string, close: Option<string>, e: nat) {
    (close.Some? && OccursAt(Lower(s), close.value, e)) || e == |s| || (e + 1 == |s| && s[e] == '\n')
  }

  /** The first place at or after `g` where the group may end. */
  function GroupEnd(s: string, close: Option<string>, g: nat): (e: nat)
    requires g <= |s|
    ensures g <= e <= |s| && EndsAt(s, close, e)
    ensures forall k :: g <= k < e ==> !EndsAt(s, close, k)
    decreases |s| - g
  {
    if EndsAt(s, close, g) then g else GroupEnd(s, close, g + 1)
  }

  /** `open` occurs (any case) at `p` and nowhere before. */
  predicate FirstAt(s: string, open: string, p: nat) {
    OccursAt(Lower(s), open, p) && forall j :: 0 <= j < p ==> !OccursAt(Lower(s), open, j)
  }

  /** After an opening that ends at `c`, the whitespace up to `g` is skipped and the lazy
      group runs from `g` to the first place `e` where it may end. */
  predicate SpanFrom(s: string, close: Option<string>, c: nat, g: nat, e: nat) {
    c <= g <= e <= |s| && (forall j :: c <= j < g ==> IsSpace(s[j])) && (g == |s| || !IsSpace(s[g])) &&
    EndsAt(s, close, e) && forall k :: g <= k < e ==> !EndsAt(s, close, k)
  }

  /** The regex match `open:?\s*(.*?)(?:close|$)` with DOTALL and IGNORECASE, as seen from
      its parts: `open` at `p`, the group from `g` to `e`. */
  predicate GroupAt(s: string, open: string, close: Option<string>, p: nat, g: nat, e: nat) {
    FirstAt(s, open, p) && SpanFrom(s, close, Opening(s, open, p), g, e)
  }

  /** The index just past `w` when it occurs at `p`. */
  function After(w: string, p: nat): nat {
    p + |w|
  }

  /** Where the text after `open` at `p` begins: past an optional colon. */
  function Opening(s: string, open: string, p: nat): nat {
    var a := After(open, p);
    if a < |s| && s[a] == ':' then a + 1 else a
  }

  /** The regex match `mark\s*(.*?)(?:close|$)` for a mark that carries its own colon. */
  predicate LabelAt(s: string, mark: string, close: Option<string>, p: nat, g: nat, e: nat) {
    FirstAt(s, mark, p) && SpanFrom(s, close, After(mark, p), g, e)
  }

  /** The group after an opening that ends at `c`. */
  function Span(s: string, close: Option<string>, c: nat): (r: (nat, nat))
    requires c <= |s|
    ensures SpanFrom(s, close, c, r.0, r.1)
  {
    var run := SpaceRun(s[c..]);
    var g := c + run;
    assert forall j :: c <= j < g ==> IsSpace(s[j]) by {
      forall j | c <= j < g ensures IsSpace(s[j]) { assert s[c..][j - c] == s[j]; }
    }
    assert g < |s| ==> s[c..][run] == s[g];
    (g, GroupEnd(s, close, g))
  }

  /** `re.search(open + r":?\s*(.*?)(?:" + close + "|$)", s, re.DOTALL | re.IGNORECASE).group(1)`,
      with `open` and `close` given lower case: the search succeeds at the first occurrence of
      `open`, any case; an optional colon and the whitespace after it are skipped, and the lazy
      group stops where the closing word or `$` first matches. */
  function Group(s: string, open: string, close: Option<string>): (r: Option<string>)
    ensures r.None? <==> !Contains(Lower(s), open)
    ensures r.Some? ==> exists p: nat, g: nat, e: nat :: GroupAt(s, open, close, p, g, e) && r.value == s[g..e]
  {
    ContainsIff(Lower(s), open);
    match Find(Lower(s), open)
    case None => None
    case Some(p) =>
      var c := Opening(s, open, p);
      assert c <= |s|;
      var span := Span(s, close, c);
      assert GroupAt(s, open, close, p, span.0, span.1);
      Some(s[span.0..span.1])
  }

  /** `re.search(mark + r"\s*(.*?)(?:" + close + "|$)", s, re.DOTALL | re.IGNORECASE).group(1)`
      for a lower-case mark that ends with its colon, such as "job:". */
  function LabelGroup(s: string, mark: string, close: Option<string>): (r: Option<string>)
    ensures r.None? <==> !Contains(Lower(s), mark)
    ensures r.Some? ==> exists p: nat, g: nat, e: nat :: LabelAt(s, mark, close, p, g, e) && r.value == s[g..e]
  {
    ContainsIff(Lower(s), mark);
    match Find(Lower(s), mark)
    case None => None
    case Some(p) =>
      var c := After(mark, p);
      assert c <= |s|;
      var span := Span(s, close, c);
      assert LabelAt(s, mark, close, p, span.0, span.1);
      Some(s[span.0..span.1])
  }

  /** The whitespace run is the one that ends at the first character that is not whitespace. */
  lemma SpaceRunIs(s: string, n: nat)
    requires n <= |s| && (forall i :: 0 <= i < n ==> IsSpace(s[i])) && (n == |s| || !IsSpace(s[n]))
    ensures SpaceRun(s) == n
  {
  }

  /** The lazy group ends at the first place where it may. */
  lemma GroupEndIs(s: string, close: Option<string>, g: nat, e: nat)
    requires g <= e <= |s| && EndsAt(s, close, e) && forall k :: g <= k < e ==> !EndsAt(s, close, k)
    ensures GroupEnd(s, close, g) == e
  {
    var f := GroupEnd(s, close, g);
    assert !(f < e) && !(e < f);
  }

  /** Only one place ends the whitespace that follows `c`. */
  lemma SpaceStop(s: string, c: nat, g: nat, h: nat)
    requires c <= g <= |s| && (forall j :: c <= j < g ==> IsSpace(s[j])) && (g == |s| || !IsSpace(s[g]))
    requires c <= h <= |s| && (forall j :: c <= j < h ==> IsSpace(s[j])) && (h == |s| || !IsSpace(s[h]))
    ensures g == h
  {
    assert !(g < h) && !(h < g);
  }

  /** The group starts after the whitespace that follows the opening. */
  lemma SpanIs(s: string, close: Option<string>, c: nat, g: nat)
    requires c <= g <= |s| && (forall j :: c <= j < g ==> IsSpace(s[j])) && (g == |s| || !IsSpace(s[g]))
    ensures Span(s, close, c) == (g, GroupEnd(s, close, g))
  {
    var r := Span(s, close, c);
    SpaceStop(s, c, r.0, g);
    GroupEndIs(s, close, g, r.1);
  }

  /** The group of `Group` when the opening's first occurrence and the whitespace after it are known. */
  lemma GroupFrom(s: string, open: string, close: Option<string>, p: nat, g: nat)
    requires FirstAt(s, open, p)
    requires var c := Opening(s, open, p);
             c <= g <= |s| && (forall j :: c <= j < g ==> IsSpace(s[j])) && (g == |s| || !IsSpace(s[g]))
    ensures Group(s, open, close) == Some(s[g..GroupEnd(s, close, g)])
  {
    FindFirst(Lower(s), open, p);
    SpanIs(s, close, Opening(s, open, p), g);
  }

  /** The group of `LabelGroup` when the mark's first occurrence is known. */
  lemma LabelFrom(s: string, mark: string, close: Option<string>, p: nat, g: nat)
    requires FirstAt(s, mark, p)
    requires var c := After(mark, p);
             c <= g <= |s| && (forall j :: c <= j < g ==> IsSpace(s[j])) && (g == |s| || !IsSpace(s[g]))
    ensures LabelGroup(s, mark, close) == Some(s[g..GroupEnd(s, close, g)])
  {
    FindFirst(Lower(s), mark, p);
    SpanIs(s, close, After(mark, p), g);
  }

  /** `job_match.group(1).strip().lower()[:200]`, or "" when there is no match. */
  function JobText(prompt: string): (r: string)
    ensures |r| <= 200
  {
    match Group(prompt, "job", Some("resume:"))
    case None => ""
    case Some(t) => Prefix(Lower(Strip(t)), 200)
  }

  /** `resume_match.group(1).strip().lower()[:200]`, or "" when there is no match. */
  function ResumeText(prompt: string): (r: string)
    ensures |r| <= 200
  {
    match Group(prompt, "resume", None)
    case None => ""
    case Some(t) => Prefix(Lower(Strip(t)), 200)
  }

  /** `exp_match.group(1).strip()[:100]`, or "" when there is no match. */
  function ExperienceText(prompt: string): (r: string)
    ensures |r| <= 100
  {
    match Group(prompt, "experience", Some("job:"))
    case None => ""
    case Some(t) => Prefix(Strip(t), 100)
  }

  /** The job text between the labels: `re.search(r"JOB:\s*(.*?)(?:RESUME:|$)", ...)`, then as
      `JobText`. */
  function LabelledJobText(prompt: string): (r: string)
    ensures |r| <= 200
  {
    match LabelGroup(prompt, "job:", Some("resume:"))
    case None => ""
    case Some(t) => Prefix(Lower(Strip(t)), 200)
  }

  /** The résumé text after its label: `re.search(r"RESUME:\s*(.*?)$", ...)`, then as
      `ResumeText`. */
  function LabelledResumeText(prompt: string): (r: string)
    ensures |r| <= 200
  {
    match LabelGroup(prompt, "resume:", None)
    case None => ""
    case Some(t) => Prefix(Lower(Strip(t)), 200)
  }
}
