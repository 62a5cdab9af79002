/** The collection operations the handlers use, over a table kept in natural
    order: `findOne` (first match), `find` (all matches, in order),
    `countDocuments`, and JavaScript's `reduce` for sums. */
module Tables {
  import opened Docs

  /** Index of the first row satisfying `p`: what `findOne` returns. */
  function FirstWhere<T>(s: seq<T>, p: T -> bool): (r: Option<nat>)
    ensures r.Some? ==> r.value < |s| && p(s[r.value])
    ensures r.Some? ==> forall j :: 0 <= j < r.value ==> !p(s[j])
    ensures r.None? <==> forall j :: 0 <= j < |s| ==> !p(s[j])
  {
    if s == [] then None
    else if p(s[0]) then Some(0)
    else match FirstWhere(s[1..], p)
      case None => None
      case Some(k) => Some(k + 1)
  }

  /** The rows satisfying `p`, in table order: `find(filter)` and `Array.filter`. */
  function Filter<T>(s: seq<T>, p: T -> bool): (r: seq<T>)
    ensures |r| <= |s|
    ensures forall i :: 0 <= i < |r| ==> p(r[i]) && r[i] in s
    ensures forall x :: x in s && p(x) ==> x in r
  {
    if s == [] then []
    else Filter(s[..|s| - 1], p) + (if p(s[|s| - 1]) then [s[|s| - 1]] else [])
  }

  /** `xs.reduce((sum, x) => sum + f(x), 0)` */
  function SumOf<T>(s: seq<T>, f: T -> int): int {
    if s == [] then 0 else SumOf(s[..|s| - 1], f) + f(s[|s| - 1])
  }

  lemma {:induction false} FilterAppend<T>(a: seq<T>, b: seq<T>, p: T -> bool)
    ensures Filter(a + b, p) == Filter(a, p) + Filter(b, p)
    decreases |b|
  {
    if b == [] {
      assert a + b == a;
    } else {
      var n := |b| - 1;
      assert (a + b)[..|a + b| - 1] == a + b[..n];
      FilterAppend(a, b[..n], p);
    }
  }

  /** Appending one row adds it to the matches exactly when it matches. */
  lemma {:induction false} FilterSnoc<T>(s: seq<T>, x: T, p: T -> bool)
    ensures Filter(s + [x], p) == Filter(s, p) + (if p(x) then [x] else [])
  {
    assert (s + [x])[..|s + [x]| - 1] == s;
  }

  lemma {:induction false} FilterNone<T>(s: seq<T>, p: T -> bool)
    requires forall j :: 0 <= j < |s| ==> !p(s[j])
    ensures Filter(s, p) == []
    decreases |s|
  {
    if s != [] {
      FilterNone(s[..|s| - 1], p);
    }
  }

  lemma {:induction false} SumAppend<T>(a: seq<T>, b: seq<T>, f: T -> int)
    ensures SumOf(a + b, f) == SumOf(a, f) + SumOf(b, f)
    decreases |b|
  {
    if b == [] {
      assert a + b == a;
    } else {
      var n := |b| - 1;
      assert (a + b)[..|a + b| - 1] == a + b[..n];
      SumAppend(a, b[..n], f);
    }
  }

  /** `f` on the rows satisfying `p`, 0 on the others. */
  function Masked<T>(p: T -> bool, f: T -> int): T -> int {
    (x: T) => if p(x) then f(x) else 0
  }

  /** Summing over the matches is summing over the whole table with the others counted as 0. */
  lemma {:induction false} SumOfFilter<T>(s: seq<T>, p: T -> bool, f: T -> int)
    ensures SumOf(Filter(s, p), f) == SumOf(s, Masked(p, f))
    decreases |s|
  {
    if s != [] {
      var init, last := s[..|s| - 1], s[|s| - 1];
      SumOfFilter(init, p, f);
      SumAppend(Filter(init, p), if p(last) then [last] else [], f);
    }
  }

  /** When every row matching `p` also matches `q`, pre-filtering by `q` (an
      `$in` query) does not change which row `findOne`-by-`p` returns. */
  lemma {:induction false} FirstWhereAfterFilter<T>(s: seq<T>, q: T -> bool, p: T -> bool)
    requires forall x :: p(x) ==> q(x)
    ensures var r := FirstWhere(Filter(s, q), p);
            var t := FirstWhere(s, p);
            r.Some? == t.Some? && (r.Some? ==> Filter(s, q)[r.value] == s[t.value])
    decreases |s|
  {
    if s != [] {
      var init, last := s[..|s| - 1], s[|s| - 1];
      assert s == init + [last];
      FirstWhereAfterFilter(init, q, p);
      var fi, tail := Filter(init, q), if q(last) then [last] else [];
      assert Filter(s, q) == fi + tail;
      FirstMatchAfterSnoc(init, fi, last, tail, p);
    }
  }

  /** One step of the induction above: `a` gains `last`, and its filtered copy `fa` gains
      `last` too, or nothing when `last` does not match `p`. */
  lemma FirstMatchAfterSnoc<T>(a: seq<T>, fa: seq<T>, last: T, tail: seq<T>, p: T -> bool)
    requires tail == [last] || (tail == [] && !p(last))
    requires FirstWhere(fa, p).Some? == FirstWhere(a, p).Some?
    requires FirstWhere(fa, p).Some? ==> fa[FirstWhere(fa, p).value] == a[FirstWhere(a, p).value]
    ensures var r := FirstWhere(fa + tail, p);
            var t := FirstWhere(a + [last], p);
            r.Some? == t.Some? && (r.Some? ==> (fa + tail)[r.value] == (a + [last])[t.value])
  {
    FirstWhereStable(fa, tail, p);
    FirstWhereStable(a, [last], p);
    match FirstWhere(a, p) {
    case Some(k) =>
      var r := FirstWhere(fa, p).value;
      assert (fa + tail)[r] == fa[r];
      assert (a + [last])[k] == a[k];
    case None =>
      if p(last) {
        assert (a + [last])[|a|] == last;
        assert (fa + tail)[|fa|] == last;
      }
    }
  }

  /** A match found in a prefix stays the first match after appending rows. */
  lemma {:induction false} FirstWhereStable<T>(a: seq<T>, b: seq<T>, p: T -> bool)
    ensures FirstWhere(a, p).Some? ==> FirstWhere(a + b, p) == FirstWhere(a, p)
    ensures FirstWhere(a, p).None? ==>
      (FirstWhere(a + b, p).Some? <==> FirstWhere(b, p).Some?)
    ensures FirstWhere(a, p).None? && FirstWhere(b, p).Some? ==>
      FirstWhere(a + b, p) == Some(|a| + FirstWhere(b, p).value)
  {
    var ab := a + b;
    var r := FirstWhere(ab, p);
    match FirstWhere(a, p) {
    case Some(k) =>
      assert ab[k] == a[k];
      assert forall j :: 0 <= j < k ==> ab[j] == a[j];
    case None =>
      assert forall j :: 0 <= j < |a| ==> ab[j] == a[j];
      assert forall j :: |a| <= j < |ab| ==> ab[j] == b[j - |a|];
      if FirstWhere(b, p).Some? {
        var m := FirstWhere(b, p).value;
        assert ab[|a| + m] == b[m];
      }
    }
  }

  /** `findOne`, as a scan of the table. */
  method FindFirst<T>(s: seq<T>, p: T -> bool) returns (k: Option<nat>)
    ensures k == FirstWhere(s, p)
    ensures k.Some? ==> k.value < |s| && p(s[k.value])
  {
    var i := 0;
    while i < |s|
      invariant 0 <= i <= |s|
      invariant forall j :: 0 <= j < i ==> !p(s[j])
    {
      if p(s[i]) {
        return Some(i);
      }
      i := i + 1;
    }
    return None;
  }

  /** `countDocuments`, as a scan of the table. */
  method CountMatching<T>(s: seq<T>, p: T -> bool) returns (n: nat)
    ensures n == |Filter(s, p)|
  {
    n := 0;
    for i := 0 to |s|
      invariant n == |Filter(s[..i], p)|
    {
      assert s[..i + 1] == s[..i] + [s[i]];
      FilterSnoc(s[..i], s[i], p);
      if p(s[i]) {
        n := n + 1;
      }
    }
    assert s[..|s|] == s;
  }
}
