/** The Python `str` operations the résumé pipeline relies on (`strip`, `lower`,
    `split`, `join`, `replace`, `count`, `in`, `isdigit`, `int`, slicing), written
    over `seq<char>`.  Character classes follow Python's definitions restricted to
    ASCII; any other character is neither whitespace, a word character, a digit
    nor a cased letter. */
module Strings {
  import opened Wrappers

  // ---------------------------------------------------------------------------
  // Character classes

  /** `str.isspace()` and regex `\s` below code point 128: the six C whitespace
      characters plus the four information separators 0x1C-0x1F. */
  predicate IsSpace(c: char) {
    c == ' ' || c == '\t' || c == '\n' || c == '\r' || c == '\U{0B}' || c == '\U{0C}'
    || ('\U{1C}' <= c <= '\U{1F}')
  }

  predicate IsDigit(c: char) { '0' <= c <= '9' }
  predicate IsUpperChar(c: char) { 'A' <= c <= 'Z' }
  predicate IsLowerChar(c: char) { 'a' <= c <= 'z' }

  /** Regex `\w`: letters, digits and the underscore. */
  predicate IsWordChar(c: char) { IsUpperChar(c) || IsLowerChar(c) || IsDigit(c) || c == '_' }

  function LowerChar(c: char): (d: char)
    ensures !IsUpperChar(d)
    ensures IsSpace(d) <==> IsSpace(c)
  {
    if IsUpperChar(c) then (c as int + 32) as char else c
  }

  /** `str.lower()`. */
  function Lower(s: string): (r: string)
    ensures |r| == |s|
  {
    seq(|s|, i requires 0 <= i < |s| => LowerChar(s[i]))
  }

  /** Lower-casing works character by character, so it distributes over concatenation. */
  lemma LowerAppend(a: string, b: string)
    ensures Lower(a + b) == Lower(a) + Lower(b)
  {
    assert forall i :: 0 <= i < |a + b| ==> Lower(a + b)[i] == (Lower(a) + Lower(b))[i];
  }

  /** `str.isupper()`: at least one cased character and no lower-case one. */
  predicate IsUpper(s: string) {
    (exists i :: 0 <= i < |s| && IsUpperChar(s[i])) && forall i :: 0 <= i < |s| ==> !IsLowerChar(s[i])
  }

  // ---------------------------------------------------------------------------
  // Stripping

  /** `str.lstrip()` with no argument. */
  function LStrip(s: string): (r: string)
    ensures |r| <= |s| && r == s[|s| - |r|..]
    ensures forall i :: 0 <= i < |s| - |r| ==> IsSpace(s[i])
    ensures |r| > 0 ==> !IsSpace(r[0])
  {
    if |s| > 0 && IsSpace(s[0]) then LStrip(s[1..]) else s
  }

  /** `str.rstrip()` with no argument. */
  function RStrip(s: string): (r: string)
    ensures |r| <= |s| && r == s[..|r|]
    ensures forall i :: |r| <= i < |s| ==> IsSpace(s[i])
    ensures |r| > 0 ==> !IsSpace(r[|r| - 1])
  {
    if |s| > 0 && IsSpace(s[|s| - 1]) then RStrip(s[..|s| - 1]) else s
  }

  /** `str.strip()` with no argument. */
  function Strip(s: string): (r: string)
    ensures |r| <= |s|
    ensures |r| > 0 ==> !IsSpace(r[0]) && !IsSpace(r[|r| - 1])
  {
    RStrip(LStrip(s))
  }

  /** Stripping removes characters only, so it adds none. */
  lemma StripFree(s: string, c: char)
    requires c !in s
    ensures c !in Strip(s)
  {
    var l := LStrip(s);
    var r := RStrip(l);
    forall i | 0 <= i < |r| ensures r[i] != c {
      assert r[i] == l[i] == s[|s| - |l| + i];
    }
  }

  /** A string that `strip()` leaves alone. */
  predicate IsStripped(s: string) {
    |s| == 0 || (!IsSpace(s[0]) && !IsSpace(s[|s| - 1]))
  }

  lemma StripStripped(s: string)
    requires IsStripped(s)
    ensures Strip(s) == s
  {
  }

  lemma StripAllSpace(s: string)
    ensures Strip(s) == "" <==> forall i :: 0 <= i < |s| ==> IsSpace(s[i])
  {
  }

  /** Removing whitespace from the end of a string and then adding more changes nothing. */
  lemma RStripAppendSpace(s: string, c: char)
    requires IsSpace(c)
    ensures RStrip(s + [c]) == RStrip(s)
  {
    assert (s + [c])[..|s|] == s;
  }

  /** Stripping text that is stripped except for one trailing space character gives the text back. */
  lemma StripTrailingSpace(s: string, c: char)
    requires IsStripped(s) && IsSpace(c)
    ensures Strip(s + [c]) == s
  {
    if |s| == 0 {
      assert LStrip([c]) == [];
    } else {
      assert LStrip(s + [c]) == s + [c];
      RStripAppendSpace(s, c);
    }
  }

  // ---------------------------------------------------------------------------
  // Prefixes, occurrences, counting

  /** Python's slice `s[:n]`. */
  function Prefix(s: string, n: nat): (r: string)
    ensures |r| == if |s| <= n then |s| else n
    ensures r == s[..|r|]
  {
    if |s| <= n then s else s[..n]
  }

  /** `s.startswith(p)`. */
  predicate StartsWith(s: string, p: string) {
    |p| <= |s| && s[..|p|] == p
  }

  /** `w` occurs in `s` starting at index `i`. */
  predicate OccursAt(s: string, w: string, i: int) {
    0 <= i && i + |w| <= |s| && s[i..i + |w|] == w
  }

  /** Python's `w in s`. */
  predicate Contains(s: string, w: string) {
    StartsWith(s, w) || (|s| > 0 && Contains(s[1..], w))
  }

  lemma OccursAtTail(s: string, w: string, i: nat)
    requires |s| > 0
    ensures OccursAt(s[1..], w, i) <==> OccursAt(s, w, i + 1)
  {
    if 0 <= i && i + |w| <= |s| - 1 {
      assert s[1..][i..i + |w|] == s[i + 1..i + 1 + |w|];
    }
  }

  lemma {:induction false} ContainsIff(s: string, w: string)
    ensures Contains(s, w) <==> exists i :: OccursAt(s, w, i)
    decreases |s|
  {
    if StartsWith(s, w) {
      assert OccursAt(s, w, 0);
    } else if |s| == 0 {
    } else {
      ContainsIff(s[1..], w);
      if Contains(s[1..], w) {
        var i :| OccursAt(s[1..], w, i);
        OccursAtTail(s, w, i);
      } else {
        forall i | OccursAt(s, w, i) && i > 0 ensures false {
          OccursAtTail(s, w, i - 1);
        }
      }
    }
  }

  /** An occurrence inside a string is an occurrence inside any longer string around it. */
  lemma ContainsInfix(a: string, s: string, b: string, w: string)
    requires Contains(s, w)
    ensures Contains(a + s + b, w)
  {
    ContainsIff(s, w);
    var i :| OccursAt(s, w, i);
    assert (a + s + b)[|a| + i..|a| + i + |w|] == s[i..i + |w|];
    assert OccursAt(a + s + b, w, |a| + i);
    ContainsIff(a + s + b, w);
  }

  lemma ContainsPrefix(s: string, n: nat, w: string)
    requires Contains(Prefix(s, n), w)
    ensures Contains(s, w)
  {
    var p := Prefix(s, n);
    assert s == "" + p + s[|p|..];
    ContainsInfix("", p, s[|p|..], w);
  }

  /** A word that does not contain `c` cannot straddle a `c` placed between two strings. */
  lemma NotContainsAround(x: string, c: char, y: string, w: string)
    requires c !in w
    requires !Contains(x, w) && !Contains(y, w)
    ensures !Contains(x + [c] + y, w)
  {
    var s := x + [c] + y;
    ContainsIff(x, w);
    ContainsIff(y, w);
    ContainsIff(s, w);
    forall i | OccursAt(s, w, i) ensures false {
      if i + |w| <= |x| {
        OccursLeftOf(x, c, y, w, i);
      } else if i > |x| {
        OccursRightOf(x, c, y, w, i);
      } else {
        OccursOverSeparator(x, c, y, w, i);
      }
    }
  }

  lemma OccursLeftOf(x: string, c: char, y: string, w: string, i: int)
    requires OccursAt(x + [c] + y, w, i) && i + |w| <= |x|
    ensures OccursAt(x, w, i)
  {
    assert (x + [c] + y)[i..i + |w|] == x[i..i + |w|];
  }

  lemma OccursRightOf(x: string, c: char, y: string, w: string, i: int)
    requires OccursAt(x + [c] + y, w, i) && i > |x|
    ensures OccursAt(y, w, i - |x| - 1)
  {
    assert (x + [c] + y)[i..i + |w|] == y[i - |x| - 1..i - |x| - 1 + |w|];
  }

  lemma OccursOverSeparator(x: string, c: char, y: string, w: string, i: int)
    requires c !in w && 0 <= i <= |x| < i + |w| <= |x| + 1 + |y|
    ensures !OccursAt(x + [c] + y, w, i)
  {
    assert (x + [c] + y)[i..i + |w|][|x| - i] == c;
  }

  /** Two strings without `w` joined where the last character of the first, or the first
      character of the second, is not a letter of `w`, still lack `w`. */
  lemma NotContainsJoined(x: string, y: string, w: string)
    requires !Contains(x, w) && !Contains(y, w)
    requires (|x| > 0 && x[|x| - 1] !in w) || (|y| > 0 && y[0] !in w)
    ensures !Contains(x + y, w)
  {
    if |x| > 0 && x[|x| - 1] !in w {
      var front := x[..|x| - 1];
      assert x == "" + front + [x[|x| - 1]];
      if Contains(front, w) {
        ContainsInfix("", front, [x[|x| - 1]], w);
      }
      NotContainsAround(front, x[|x| - 1], y, w);
      assert front + [x[|x| - 1]] + y == x + y;
    } else {
      var back := y[1..];
      assert Contains(y, w) <== Contains(back, w);
      NotContainsAround(x, y[0], back, w);
      assert x + [y[0]] + back == x + y;
    }
  }

  /** A string that lacks some character of `w` does not contain `w`. */
  lemma NotContainsMissingChar(s: string, w: string, k: nat)
    requires k < |w| && w[k] !in s
    ensures !Contains(s, w)
  {
    ContainsIff(s, w);
    forall i ensures !OccursAt(s, w, i) {
      if 0 <= i && i + |w| <= |s| {
        assert s[i..i + |w|][k] == s[i + k];
      }
    }
  }

  /** A match of `w` at index `k` of `x + y` that ends within `x` is a match in `x`. */
  lemma OccursInside(x: string, y: string, w: string, k: nat)
    requires k + |w| <= |x| && StartsWith((x + y)[k..], w)
    ensures OccursAt(x, w, k)
  {
    assert x[k..k + |w|] == (x + y)[k..][..|w|];
  }

  /** A match of `w` at index `k` of `x + y` that starts in `x` and runs past its end
      puts the first letter of `y` into `w`. */
  lemma OccursAcross(x: string, y: string, w: string, k: nat)
    requires k < |x| < k + |w| && StartsWith((x + y)[k..], w)
    ensures |y| > 0 && w[|x| - k] == y[0]
  {
    assert (x + y)[k..][|x| - k] == y[0];
  }

  lemma NotContainsShorter(s: string, w: string)
    requires |s| < |w|
    ensures !Contains(s, w)
  {
    ContainsIff(s, w);
  }

  /** Python's `s.count(w)`: non-overlapping occurrences scanned from the left. */
  function Count(s: string, w: string): (n: nat)
    ensures |w| > 0 && n > 0 ==> Contains(s, w)
    decreases |s|
  {
    if |w| == 0 then |s| + 1
    else if |s| < |w| then 0
    else if StartsWith(s, w) then 1 + Count(s[|w|..], w)
    else Count(s[1..], w)
  }

  /** First index at which `w` occurs in `s`. */
  function Find(s: string, w: string): (r: Option<nat>)
    ensures r.Some? ==> OccursAt(s, w, r.value) && forall j :: 0 <= j < r.value ==> !OccursAt(s, w, j)
    ensures r.None? ==> forall j :: !OccursAt(s, w, j)
  {
    if StartsWith(s, w) then
      assert OccursAt(s, w, 0) by { assert s[..|w|] == s[0..|w|]; }
      Some(0)
    else if |s| == 0 then
      None
    else
      var t := Find(s[1..], w);
      assert forall j :: OccursAt(s[1..], w, j) <==> OccursAt(s, w, j + 1) by {
        forall j { OccursAtTail(s, w, j); }
      }
      match t
      case Some(i) =>
        assert forall j :: 0 <= j < i + 1 ==> !OccursAt(s, w, j) by {
          forall j | 0 < j < i + 1 ensures !OccursAt(s, w, j) {
            assert !OccursAt(s[1..], w, j - 1);
          }
        }
        Some(i + 1)
      case None =>
        assert forall j :: !OccursAt(s, w, j) by {
          forall j | 0 < j ensures !OccursAt(s, w, j) {
            assert !OccursAt(s[1..], w, j - 1);
          }
        }
        None
  }

  // ---------------------------------------------------------------------------
  // Splitting, joining and replacing

  /** `s.split(sep)` for a non-empty separator (Python raises on an empty one). */
  function SplitOn(s: string, sep: string): (r: seq<string>)
    requires |sep| > 0
    ensures |r| >= 1
    decreases |s|
  {
    if |s| < |sep| then [s]
    else if StartsWith(s, sep) then [""] + SplitOn(s[|sep|..], sep)
    else
      var t := SplitOn(s[1..], sep);
      [[s[0]] + t[0]] + t[1..]
  }

  /** `s.split(c)` for a one-character separator. */
  function Split(s: string, c: char): (r: seq<string>)
    ensures |r| >= 1
  {
    SplitOn(s, [c])
  }

  /** `sep.join(parts)`. */
  function Join(parts: seq<string>, sep: string): string {
    if |parts| == 0 then ""
    else if |parts| == 1 then parts[0]
    else parts[0] + sep + Join(parts[1..], sep)
  }

  lemma JoinConsFirst(x: string, t: seq<string>, sep: string)
    requires |t| >= 1
    ensures Join([x + t[0]] + t[1..], sep) == x + Join(t, sep)
  {
    var u := [x + t[0]] + t[1..];
    if |t| > 1 {
      assert u[1..] == t[1..];
    }
  }

  /** Joining the pieces of a split with the same separator gives the string back. */
  lemma {:induction false} JoinSplit(s: string, sep: string)
    requires |sep| > 0
    ensures Join(SplitOn(s, sep), sep) == s
    decreases |s|
  {
    if |s| < |sep| {
    } else if StartsWith(s, sep) {
      var t := SplitOn(s[|sep|..], sep);
      JoinSplit(s[|sep|..], sep);
      assert ([""] + t)[1..] == t;
      assert s == s[..|sep|] + s[|sep|..];
    } else {
      var t := SplitOn(s[1..], sep);
      JoinSplit(s[1..], sep);
      JoinConsFirst([s[0]], t, sep);
      assert s == [s[0]] + s[1..];
    }
  }

  /** No piece produced by a split contains the separator. */
  lemma {:induction false} SplitPiecesFree(s: string, c: char)
    ensures forall i :: 0 <= i < |Split(s, c)| ==> c !in Split(s, c)[i]
    decreases |s|
  {
    if |s| >= 1 {
      SplitPiecesFree(s[1..], c);
      var t := Split(s[1..], c);
      if s[0] == c {
        assert StartsWith(s, [c]);
        assert Split(s, c) == [""] + t;
      } else {
        assert !StartsWith(s, [c]);
        assert Split(s, c) == [[s[0]] + t[0]] + t[1..];
      }
    }
  }

  /** A character missing from the text is missing from every piece of its split. */
  lemma {:induction false} SplitPiecesLack(s: string, c: char, x: char)
    requires x !in s
    ensures forall i :: 0 <= i < |Split(s, c)| ==> x !in Split(s, c)[i]
    decreases |s|
  {
    if |s| >= 1 {
      SplitPiecesLack(s[1..], c, x);
      var t := Split(s[1..], c);
      if s[0] == c {
        assert StartsWith(s, [c]);
        assert Split(s, c) == [""] + t;
      } else {
        assert !StartsWith(s, [c]);
        assert Split(s, c) == [[s[0]] + t[0]] + t[1..];
      }
    }
  }

  /** A split has one more piece than the text has separators. */
  lemma {:induction false} SplitCount(s: string, c: char)
    ensures |Split(s, c)| == Count(s, [c]) + 1
    decreases |s|
  {
    if |s| >= 1 {
      SplitCount(s[1..], c);
      if s[0] == c {
        assert StartsWith(s, [c]);
        assert s[1..] == s[|[c]|..];
      } else {
        assert !StartsWith(s, [c]);
      }
    }
  }

  /** Splitting a join of separator-free pieces gives the pieces back. */
  lemma {:induction false} SplitJoin(parts: seq<string>, c: char)
    requires |parts| >= 1
    requires forall i :: 0 <= i < |parts| ==> c !in parts[i]
    ensures Split(Join(parts, [c]), c) == parts
    decreases |parts|, |parts[0]|
  {
    var p := parts[0];
    if |p| == 0 {
      if |parts| == 1 {
      } else {
        var s := Join(parts, [c]);
        assert s == [c] + Join(parts[1..], [c]);
        assert StartsWith(s, [c]);
        assert s[1..] == Join(parts[1..], [c]);
        SplitJoin(parts[1..], c);
        assert parts == [""] + parts[1..];
      }
    } else {
      var rest := [p[1..]] + parts[1..];
      assert forall i :: 0 <= i < |rest| ==> c !in rest[i] by {
        forall i | 0 <= i < |rest| ensures c !in rest[i] {
          if i > 0 { assert rest[i] == parts[i]; }
        }
      }
      SplitJoin(rest, c);
      var s := Join(parts, [c]);
      assert s == [p[0]] + Join(rest, [c]) by {
        if |parts| == 1 {
        } else {
          assert rest[1..] == parts[1..];
        }
      }
      assert p[0] != c;
      assert !StartsWith(s, [c]);
      assert s[1..] == Join(rest, [c]);
      assert Split(s, c) == [[p[0]] + rest[0]] + rest[1..];
      assert [p[0]] + p[1..] == p;
      assert rest[1..] == parts[1..];
    }
  }

  /** Joining two non-empty lists of pieces is joining each and putting a separator between. */
  lemma {:induction false} JoinAppend(p: seq<string>, q: seq<string>, sep: string)
    requires |p| >= 1 && |q| >= 1
    ensures Join(p + q, sep) == Join(p, sep) + sep + Join(q, sep)
    decreases |p|
  {
    if |p| == 1 {
      assert (p + q)[1..] == q;
    } else {
      JoinAppend(p[1..], q, sep);
      assert (p + q)[1..] == p[1..] + q;
    }
  }

  /** A join of two or more pieces is the first piece, the separator, and the join of the rest. */
  lemma JoinCons(parts: seq<string>, sep: string)
    requires |parts| >= 2
    ensures Join(parts, sep) == parts[0] + (sep + Join(parts[1..], sep))
  {
    var j := Join(parts[1..], sep);
    assert parts[0] + sep + j == parts[0] + (sep + j);
  }

  lemma JoinStartsWithFirst(parts: seq<string>, sep: string)
    requires |parts| >= 1
    ensures |Join(parts, sep)| >= |parts[0]| && Join(parts, sep)[..|parts[0]|] == parts[0]
  {
  }

  /** The joined text starts with the first piece (or the separator when that piece is empty)
      and ends with the last piece (or the separator). */
  lemma JoinFirstLast(parts: seq<string>, sep: string)
    requires |parts| >= 2 && |sep| > 0
    ensures var j := Join(parts, sep);
            var last := parts[|parts| - 1];
            |j| > 0 &&
            j[0] == (if |parts[0]| > 0 then parts[0][0] else sep[0]) &&
            j[|j| - 1] == (if |last| > 0 then last[|last| - 1] else sep[|sep| - 1])
  {
    var n := |parts|;
    assert parts[..n - 1] + [parts[n - 1]] == parts;
    JoinAppend(parts[..n - 1], [parts[n - 1]], sep);
  }

  /** A character found in neither the pieces nor the separator is not in the joined text. */
  lemma {:induction false} JoinFree(parts: seq<string>, sep: string, c: char)
    requires c !in sep
    requires forall i :: 0 <= i < |parts| ==> c !in parts[i]
    ensures c !in Join(parts, sep)
    decreases |parts|
  {
    if |parts| > 1 {
      JoinFree(parts[1..], sep, c);
      assert Join(parts, sep) == parts[0] + sep + Join(parts[1..], sep);
    }
  }

  /** One occurrence of the separator splits the text into the pieces on either side of it. */
  lemma SplitAround(a: string, b: string, c: char)
    ensures Split(a + [c] + b, c) == Split(a, c) + Split(b, c)
  {
    var pa, pb := Split(a, c), Split(b, c);
    JoinSplit(a, [c]);
    JoinSplit(b, [c]);
    JoinAppend(pa, pb, [c]);
    SplitPiecesFree(a, c);
    SplitPiecesFree(b, c);
    SplitJoin(pa + pb, c);
  }

  /** Text without the separator is one piece. */
  lemma SplitNoSeparator(s: string, c: char)
    requires c !in s
    ensures Split(s, c) == [s]
  {
    SplitJoin([s], c);
  }

  /** `s.replace(pat, rep)`: every non-overlapping occurrence of `pat`, scanned
      from the left, is replaced; an empty `pat` matches between every two
      characters and at both ends. */
  function Replace(s: string, pat: string, rep: string): (r: string)
    decreases |s|
  {
    if |pat| == 0 then
      if |s| == 0 then rep else rep + [s[0]] + Replace(s[1..], pat, rep)
    else if |s| < |pat| then s
    else if StartsWith(s, pat) then rep + Replace(s[|pat|..], pat, rep)
    else [s[0]] + Replace(s[1..], pat, rep)
  }

  /** Every character of a replacement's result comes from the input or from the replacement text. */
  lemma {:induction false} ReplaceChars(s: string, pat: string, rep: string, P: char -> bool)
    requires forall i :: 0 <= i < |s| ==> P(s[i])
    requires forall i :: 0 <= i < |rep| ==> P(rep[i])
    ensures forall i :: 0 <= i < |Replace(s, pat, rep)| ==> P(Replace(s, pat, rep)[i])
    decreases |s|
  {
    if |pat| == 0 {
      if |s| > 0 {
        ReplaceChars(s[1..], pat, rep, P);
      }
    } else if |s| >= |pat| {
      if StartsWith(s, pat) {
        ReplaceChars(s[|pat|..], pat, rep, P);
      } else {
        ReplaceChars(s[1..], pat, rep, P);
      }
    }
  }

  /** Python's own definition of `replace`: split on the pat text, join with the rep. */
  lemma {:induction false} ReplaceIsJoinSplit(s: string, pat: string, rep: string)
    requires |pat| > 0
    ensures Replace(s, pat, rep) == Join(SplitOn(s, pat), rep)
    decreases |s|
  {
    if |s| < |pat| {
    } else if StartsWith(s, pat) {
      var t := SplitOn(s[|pat|..], pat);
      ReplaceIsJoinSplit(s[|pat|..], pat, rep);
      assert ([""] + t)[1..] == t;
    } else {
      var t := SplitOn(s[1..], pat);
      ReplaceIsJoinSplit(s[1..], pat, rep);
      JoinConsFirst([s[0]], t, rep);
    }
  }

  /** Replacing text that does not occur changes nothing. */
  lemma {:induction false} ReplaceAbsent(s: string, pat: string, rep: string)
    requires |pat| > 0 && !Contains(s, pat)
    ensures Replace(s, pat, rep) == s
    decreases |s|
  {
    if |s| >= |pat| {
      ReplaceAbsent(s[1..], pat, rep);
    }
  }

  // ---------------------------------------------------------------------------
  // Digits

  /** `str.isdigit()`: non-empty and made of digits only. */
  predicate IsDigits(s: string) {
    |s| > 0 && forall i :: 0 <= i < |s| ==> IsDigit(s[i])
  }

  function DigitChar(d: nat): (c: char)
    requires d < 10
    ensures IsDigit(c)
  {
    ('0' as int + d) as char
  }

  function DigitValue(c: char): nat
    requires IsDigit(c)
  {
    c as int - '0' as int
  }

  /** `int(s)` of a string of digits (leading zeros allowed). */
  function DecimalValue(s: string): nat
    requires forall i :: 0 <= i < |s| ==> IsDigit(s[i])
  {
    if |s| == 0 then 0
    else 10 * DecimalValue(s[..|s| - 1]) + DigitValue(s[|s| - 1])
  }

  /** `str(n)` for a natural number. */
  function NatToString(n: nat): (r: string)
    ensures IsDigits(r)
  {
    if n < 10 then [DigitChar(n)] else NatToString(n / 10) + [DigitChar(n % 10)]
  }

  lemma {:induction false} DecimalOfNatToString(n: nat)
    ensures DecimalValue(NatToString(n)) == n
  {
    if n >= 10 {
      var r := NatToString(n);
      DecimalOfNatToString(n / 10);
      assert r[..|r| - 1] == NatToString(n / 10);
    }
  }

  /** Regrouping a concatenation of three strings. */
  lemma AppendAssoc(a: string, b: string, c: string)
    ensures (a + b) + c == a + (b + c)
  {
  }

  /** The first occurrence of `w` is the one `str.find` reports. */
  lemma FindFirst(s: string, w: string, p: nat)
    requires OccursAt(s, w, p) && forall j :: 0 <= j < p ==> !OccursAt(s, w, j)
    ensures Find(s, w) == Some(p)
  {
  }

  /** Lower-casing a slice is slicing the lower-cased string. */
  lemma LowerSlice(s: string, i: nat, j: nat)
    requires i <= j <= |s|
    ensures Lower(s)[i..j] == Lower(s[i..j])
  {
  }

  /** A prefix stays a prefix after lower-casing and after cutting both to `n` characters. */
  lemma LowerPrefixes(y: string, u: string, n: nat)
    requires StartsWith(y, u)
    ensures StartsWith(Lower(y), Lower(u))
    ensures StartsWith(Prefix(Lower(y), n), Prefix(Lower(u), n))
  {
    assert Lower(y)[..|u|] == Lower(u);
  }

  /** Leading whitespace makes no difference to `strip()`. */
  lemma StripSkipSpaces(t: string, k: nat)
    requires k <= |t| && forall i :: 0 <= i < k ==> IsSpace(t[i])
    ensures Strip(t[k..]) == Strip(t)
    decreases k
  {
    if k > 0 {
      assert t[1..][k - 1..] == t[k..];
      StripSkipSpaces(t[1..], k - 1);
    }
  }

  /** Text in which the first non-whitespace character sits at `k` keeps its tail when more is appended. */
  lemma LStripAppend(x: string, y: string, k: nat)
    requires k < |x| && !IsSpace(x[k])
    ensures LStrip(x + y) == LStrip(x) + y
    decreases |x|
  {
    assert (x + y)[0] == x[0];
    if IsSpace(x[0]) {
      assert (x + y)[1..] == x[1..] + y;
      LStripAppend(x[1..], y, k - 1);
    }
  }

  /** One whitespace character on each side makes no difference to `strip()`. */
  lemma StripPadded(a: string, c: char, d: char)
    requires IsSpace(c) && IsSpace(d)
    ensures Strip([c] + a + [d]) == Strip(a)
  {
    assert ([c] + a + [d])[1..] == a + [d];
    StripSkipSpaces([c] + a + [d], 1);
    if k :| 0 <= k < |a| && !IsSpace(a[k]) {
      LStripAppend(a, [d], k);
      RStripAppendSpace(LStrip(a), d);
    } else {
      assert forall i :: 0 <= i < |a + [d]| ==> IsSpace((a + [d])[i]);
      StripAllSpace(a + [d]);
      StripAllSpace(a);
    }
  }

  /** A trailing whitespace character makes no difference to `strip()`. */
  lemma StripDropLast(t: string)
    requires |t| > 0 && IsSpace(t[|t| - 1])
    ensures Strip(t[..|t| - 1]) == Strip(t)
  {
    var a, d := t[..|t| - 1], t[|t| - 1];
    assert t == a + [d];
    if k :| 0 <= k < |a| && !IsSpace(a[k]) {
      LStripAppend(a, [d], k);
      RStripAppendSpace(LStrip(a), d);
    } else {
      assert forall i :: 0 <= i < |t| ==> IsSpace(t[i]);
      StripAllSpace(t);
      StripAllSpace(a);
    }
  }
}
