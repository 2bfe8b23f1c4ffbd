/** Two list-processing shapes the Python code uses again and again: keeping the values
    a parser accepts (a loop that appends only what parsed), and a left fold over lines. */
module Seqs {
  import opened Wrappers

  /** The values of the elements `f` maps to `Some`, in order. */
  function FilterMap<T, U>(f: T -> Option<U>, xs: seq<T>): seq<U>
    decreases |xs|
  {
    if |xs| == 0 then []
    else match f(xs[0])
      case Some(y) => [y] + FilterMap(f, xs[1..])
      case None => FilterMap(f, xs[1..])
  }

  lemma FilterMapCons<T, U>(f: T -> Option<U>, x: T, xs: seq<T>)
    ensures FilterMap(f, [x] + xs) == (if f(x).Some? then [f(x).value] else []) + FilterMap(f, xs)
  {
    assert ([x] + xs)[1..] == xs;
  }

  lemma {:induction false} FilterMapAppend<T, U>(f: T -> Option<U>, a: seq<T>, b: seq<T>)
    ensures FilterMap(f, a + b) == FilterMap(f, a) + FilterMap(f, b)
    decreases |a|
  {
    if |a| == 0 {
      assert a + b == b;
    } else {
      assert (a + b)[0] == a[0];
      assert (a + b)[1..] == a[1..] + b;
      FilterMapAppend(f, a[1..], b);
    }
  }

  /** When every element maps to `Some`, the result is exactly the mapped values. */
  lemma {:induction false} FilterMapTotal<T, U>(f: T -> Option<U>, xs: seq<T>, ys: seq<U>)
    requires |xs| == |ys|
    requires forall i :: 0 <= i < |xs| ==> f(xs[i]) == Some(ys[i])
    ensures FilterMap(f, xs) == ys
    decreases |xs|
  {
    if |xs| > 0 {
      FilterMapTotal(f, xs[1..], ys[1..]);
      assert f(xs[0]) == Some(ys[0]);
      assert [ys[0]] + ys[1..] == ys;
    }
  }

  /** A property every `Some` value has holds of every kept value. */
  lemma {:induction false} FilterMapKeeps<T, U>(f: T -> Option<U>, xs: seq<T>, P: U -> bool)
    requires forall x :: f(x).Some? ==> P(f(x).value)
    ensures forall i :: 0 <= i < |FilterMap(f, xs)| ==> P(FilterMap(f, xs)[i])
    decreases |xs|
  {
    if |xs| > 0 {
      FilterMapKeeps(f, xs[1..], P);
    }
  }

  /** The indices of the elements `f` maps to `Some`, in increasing order. */
  function Origins<T, U>(f: T -> Option<U>, xs: seq<T>): (ks: seq<nat>)
    ensures |ks| == |FilterMap(f, xs)|
    decreases |xs|
  {
    if |xs| == 0 then []
    else
      var shifted := Shift(Origins(f, xs[1..]));
      if f(xs[0]).Some? then [0] + shifted else shifted
  }

  function Shift(ks: seq<nat>): (r: seq<nat>)
    ensures |r| == |ks| && forall i :: 0 <= i < |ks| ==> r[i] == ks[i] + 1
  {
    seq(|ks|, i requires 0 <= i < |ks| => ks[i] + 1)
  }

  lemma OriginsStep<T, U>(f: T -> Option<U>, xs: seq<T>)
    requires |xs| > 0
    ensures Origins(f, xs) == (if f(xs[0]).Some? then [0] else []) + Shift(Origins(f, xs[1..]))
    ensures FilterMap(f, xs) == (if f(xs[0]).Some? then [f(xs[0]).value] else []) + FilterMap(f, xs[1..])
  {
    assert Shift(Origins(f, xs[1..])) == seq(|Origins(f, xs[1..])|, i requires 0 <= i < |Origins(f, xs[1..])| => Origins(f, xs[1..])[i] + 1);
  }

  /** Each kept value comes from the element at its origin. */
  lemma {:induction false} OriginsSource<T, U>(f: T -> Option<U>, xs: seq<T>)
    ensures var ks := Origins(f, xs);
            forall i :: 0 <= i < |ks| ==> ks[i] < |xs| && f(xs[ks[i]]) == Some(FilterMap(f, xs)[i])
    decreases |xs|
  {
    if |xs| > 0 {
      OriginsSource(f, xs[1..]);
      OriginsStep(f, xs);
      var rest := Origins(f, xs[1..]);
      var head: seq<nat> := if f(xs[0]).Some? then [0] else [];
      var vals := if f(xs[0]).Some? then [f(xs[0]).value] else [];
      ShiftedSource(f, xs, head, vals, rest, FilterMap(f, xs[1..]));
    }
  }

  /** One step of `OriginsSource`: the head's entry and the tail's shifted entries. */
  lemma ShiftedSource<T, U>(f: T -> Option<U>, xs: seq<T>, head: seq<nat>, vals: seq<U>, rest: seq<nat>, tail: seq<U>)
    requires |xs| > 0 && |head| == |vals| && |rest| == |tail|
    requires forall i :: 0 <= i < |head| ==> head[i] == 0 && f(xs[0]) == Some(vals[i])
    requires forall i :: 0 <= i < |rest| ==> rest[i] < |xs[1..]| && f(xs[1..][rest[i]]) == Some(tail[i])
    ensures var ks := head + Shift(rest);
            forall i :: 0 <= i < |ks| ==> ks[i] < |xs| && f(xs[ks[i]]) == Some((vals + tail)[i])
  {
    var ks := head + Shift(rest);
    forall i | 0 <= i < |ks| ensures ks[i] < |xs| && f(xs[ks[i]]) == Some((vals + tail)[i]) {
      if i >= |head| {
        var j := i - |head|;
        assert ks[i] == rest[j] + 1 && (vals + tail)[i] == tail[j];
        assert xs[1..][rest[j]] == xs[rest[j] + 1];
      }
    }
  }

  /** The origins increase. */
  lemma {:induction false} OriginsIncrease<T, U>(f: T -> Option<U>, xs: seq<T>)
    ensures var ks := Origins(f, xs); forall i, j :: 0 <= i < j < |ks| ==> ks[i] < ks[j]
    decreases |xs|
  {
    if |xs| > 0 {
      OriginsIncrease(f, xs[1..]);
      OriginsStep(f, xs);
    }
  }

  /** Every element `f` keeps is the origin of some value. */
  lemma {:induction false} OriginsComplete<T, U>(f: T -> Option<U>, xs: seq<T>)
    ensures forall k :: 0 <= k < |xs| && f(xs[k]).Some? ==> k in Origins(f, xs)
    decreases |xs|
  {
    if |xs| > 0 {
      OriginsComplete(f, xs[1..]);
      OriginsStep(f, xs);
      var rest := Origins(f, xs[1..]);
      var pre: seq<nat> := if f(xs[0]).Some? then [0] else [];
      forall k | 0 <= k < |xs| && f(xs[k]).Some? ensures k in Origins(f, xs) {
        if k > 0 {
          assert xs[1..][k - 1] == xs[k];
          ShiftedMember(rest, pre, k - 1);
        }
      }
    }
  }

  lemma ShiftedMember(rest: seq<nat>, pre: seq<nat>, m: nat)
    requires m in rest
    ensures m + 1 in pre + Shift(rest)
  {
    var i :| 0 <= i < |rest| && rest[i] == m;
    assert (pre + Shift(rest))[|pre| + i] == m + 1;
  }

  /** A loop that updates a state once per element, from the first element to the last. */
  function FoldLeft<A, B>(f: (A, B) -> A, init: A, xs: seq<B>): A
    decreases |xs|
  {
    if |xs| == 0 then init else FoldLeft(f, f(init, xs[0]), xs[1..])
  }

  /** An invariant every step keeps holds after the whole loop. */
  lemma {:induction false} FoldLeftKeeps<A, B>(f: (A, B) -> A, init: A, xs: seq<B>, P: A -> bool)
    requires P(init)
    requires forall a, x :: P(a) ==> P(f(a, x))
    ensures P(FoldLeft(f, init, xs))
    decreases |xs|
  {
    if |xs| > 0 {
      FoldLeftKeeps(f, f(init, xs[0]), xs[1..], P);
    }
  }

  /** The state after the first `k` steps of the loop. */
  function FoldPrefix<A, B>(f: (A, B) -> A, init: A, xs: seq<B>, k: nat): A
    requires k <= |xs|
  {
    FoldLeft(f, init, xs[..k])
  }

  lemma FoldPrefixShift<A, B>(f: (A, B) -> A, init: A, xs: seq<B>, k: nat)
    requires k < |xs|
    ensures FoldPrefix(f, f(init, xs[0]), xs[1..], k) == FoldPrefix(f, init, xs, k + 1)
  {
    var ys := xs[..k + 1];
    assert ys[0] == xs[0] && ys[1..] == xs[1..][..k];
  }

  /** A flag that each step sets when `hit` holds, and never clears, ends up set iff it was set
      at the start or some step hit, judged on the state the earlier steps left. */
  lemma {:induction false} FoldLeftFlag<A, B>(f: (A, B) -> A, flag: A -> bool, hit: (A, B) -> bool, init: A, xs: seq<B>)
    requires forall a, x :: flag(f(a, x)) == (flag(a) || hit(a, x))
    ensures flag(FoldLeft(f, init, xs)) <==>
            flag(init) || exists k :: 0 <= k < |xs| && hit(FoldPrefix(f, init, xs, k), xs[k])
    decreases |xs|
  {
    if |xs| > 0 {
      var next := f(init, xs[0]);
      FoldLeftFlag(f, flag, hit, next, xs[1..]);
      assert FoldPrefix(f, init, xs, 0) == init by { assert xs[..0] == []; }
      if flag(FoldLeft(f, init, xs)) && !flag(init) && !hit(init, xs[0]) {
        var k :| 0 <= k < |xs| - 1 && hit(FoldPrefix(f, next, xs[1..], k), xs[1..][k]);
        FoldPrefixShift(f, init, xs, k);
        assert hit(FoldPrefix(f, init, xs, k + 1), xs[k + 1]);
      }
      if exists k :: 0 <= k < |xs| && hit(FoldPrefix(f, init, xs, k), xs[k]) {
        var k :| 0 <= k < |xs| && hit(FoldPrefix(f, init, xs, k), xs[k]);
        if k > 0 {
          FoldPrefixShift(f, init, xs, k - 1);
          assert hit(FoldPrefix(f, next, xs[1..], k - 1), xs[1..][k - 1]);
        }
      }
      if flag(init) {
        FoldLeftKeeps(f, init, xs, flag);
      }
    }
  }

  lemma FoldLeftTwo<A, B>(f: (A, B) -> A, init: A, xs: seq<B>)
    requires |xs| == 2
    ensures FoldLeft(f, init, xs) == f(f(init, xs[0]), xs[1])
  {
    var a1 := f(init, xs[0]);
    assert FoldLeft(f, init, xs) == FoldLeft(f, a1, xs[1..]);
    assert xs[1..][0] == xs[1] && xs[1..][1..] == [];
    assert FoldLeft(f, a1, xs[1..]) == FoldLeft(f, f(a1, xs[1]), []);
  }

  lemma FoldLeftFour<A, B>(f: (A, B) -> A, init: A, xs: seq<B>)
    requires |xs| == 4
    ensures FoldLeft(f, init, xs) == f(f(f(f(init, xs[0]), xs[1]), xs[2]), xs[3])
  {
    var a1 := f(init, xs[0]);
    var a2 := f(a1, xs[1]);
    var a3 := f(a2, xs[2]);
    var a4 := f(a3, xs[3]);
    assert FoldLeft(f, init, xs) == FoldLeft(f, a1, xs[1..]);
    assert xs[1..][0] == xs[1] && xs[1..][1..] == xs[2..];
    assert FoldLeft(f, a1, xs[1..]) == FoldLeft(f, a2, xs[2..]);
    assert xs[2..][0] == xs[2] && xs[2..][1..] == xs[3..];
    assert FoldLeft(f, a2, xs[2..]) == FoldLeft(f, a3, xs[3..]);
    assert xs[3..][0] == xs[3] && xs[3..][1..] == [];
    assert FoldLeft(f, a3, xs[3..]) == FoldLeft(f, a4, []);
  }

  lemma HeadTail<T>(xs: seq<T>)
    requires |xs| > 0
    ensures [xs[0]] + xs[1..] == xs
  {
  }

  lemma HeadTailAfter<T>(c: seq<T>, xs: seq<T>)
    requires |xs| > 0
    ensures c + [xs[0]] + xs[1..] == c + xs
  {
    HeadTail(xs);
    assert c + [xs[0]] + xs[1..] == c + ([xs[0]] + xs[1..]);
  }

  /** Splitting the first element off a concatenation whose left part is not empty. */
  lemma FirstOfAppend<T>(a: seq<T>, b: seq<T>)
    requires |a| > 0
    ensures (a + b)[1..] == a[1..] + b
    ensures (a + b)[..1] + a[1..] == a
  {
    assert (a + b)[..1] == [a[0]];
    HeadTail(a);
  }

  /** Every element `hit` accepts replaced by `y`, the others kept, in place. */
  function ReplaceWhere<T>(xs: seq<T>, hit: T -> bool, y: T): (r: seq<T>)
    ensures |r| == |xs|
  {
    seq(|xs|, i requires 0 <= i < |xs| => if hit(xs[i]) then y else xs[i])
  }

  /** The same replacement as a loop that builds a new list, also reporting whether any
      element was replaced. */
  method ReplaceWhereLoop<T>(xs: seq<T>, hit: T -> bool, y: T) returns (out: seq<T>, any: bool)
    ensures out == ReplaceWhere(xs, hit, y)
    ensures any <==> exists i :: 0 <= i < |xs| && hit(xs[i])
  {
    out := [];
    any := false;
    var i := 0;
    while i < |xs|
      invariant i <= |xs| && |out| == i
      invariant forall j :: 0 <= j < i ==> out[j] == if hit(xs[j]) then y else xs[j]
      invariant any <==> exists j :: 0 <= j < i && hit(xs[j])
    {
      if hit(xs[i]) {
        out := out + [y];
        any := true;
      } else {
        out := out + [xs[i]];
      }
      i := i + 1;
    }
  }
}
