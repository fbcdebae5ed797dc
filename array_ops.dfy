/**
 * The numpy operations the plotting backends apply to one-dimensional arrays
 * before drawing: masked assignment (`a[a > b] = b`), the element-wise `|` of
 * boolean arrays with broadcasting, `~`, `np.where` and boolean indexing.
 * `Clamp` and `ClampAll` are the reference definitions the masked
 * assignments are proved against.
 */
module ArrayOps {
  import opened Wrappers

  // ---------------------------------------------------------------------------
  // Clamping

  /** `v` forced into the closed interval [lo, hi]. */
  function Clamp(v: real, lo: real, hi: real): (r: real)
    requires lo <= hi
    ensures lo <= r <= hi
    ensures lo <= v <= hi ==> r == v
    ensures v > hi ==> r == hi
    ensures v < lo ==> r == lo
  {
    if v > hi then hi else if v < lo then lo else v
  }

  /** Every element clamped into [lo, hi]. */
  function ClampAll(s: seq<real>, lo: real, hi: real): (r: seq<real>)
    requires lo <= hi
    ensures |r| == |s|
    ensures forall i :: 0 <= i < |s| ==> r[i] == Clamp(s[i], lo, hi)
  {
    seq(|s|, i requires 0 <= i < |s| => Clamp(s[i], lo, hi))
  }

  /** What `a[a > bound] = bound` leaves in `a`. */
  function ReplaceAbove(s: seq<real>, bound: real): (r: seq<real>)
    ensures |r| == |s|
    ensures forall i :: 0 <= i < |s| ==> (s[i] <= bound ==> r[i] == s[i]) && (s[i] > bound ==> r[i] == bound)
  {
    seq(|s|, i requires 0 <= i < |s| => if s[i] > bound then bound else s[i])
  }

  /** What `a[a < bound] = bound` leaves in `a`. */
  function ReplaceBelow(s: seq<real>, bound: real): (r: seq<real>)
    ensures |r| == |s|
    ensures forall i :: 0 <= i < |s| ==> (s[i] >= bound ==> r[i] == s[i]) && (s[i] < bound ==> r[i] == bound)
  {
    seq(|s|, i requires 0 <= i < |s| => if s[i] < bound then bound else s[i])
  }

  predicate AllWithin(s: seq<real>, lo: real, hi: real)
  {
    forall i :: 0 <= i < |s| ==> lo <= s[i] <= hi
  }

  /** The source's two masked assignments, upper bound first, clamp every element. */
  lemma TwoPassIsClamp(s: seq<real>, lo: real, hi: real)
    requires lo <= hi
    ensures ReplaceBelow(ReplaceAbove(s, hi), lo) == ClampAll(s, lo, hi)
  {
    var r := ReplaceBelow(ReplaceAbove(s, hi), lo);
    assert forall i :: 0 <= i < |s| ==> r[i] == Clamp(s[i], lo, hi);
  }

  /** Clamping puts every element inside the bounds and keeps the length. */
  lemma ClampAllWithin(s: seq<real>, lo: real, hi: real)
    requires lo <= hi
    ensures |ClampAll(s, lo, hi)| == |s|
    ensures AllWithin(ClampAll(s, lo, hi), lo, hi)
  {
  }

  /** A sequence already inside the bounds is left as it is. */
  lemma ClampAllFixesWithin(s: seq<real>, lo: real, hi: real)
    requires lo <= hi
    requires AllWithin(s, lo, hi)
    ensures ClampAll(s, lo, hi) == s
  {
  }

  /** Clamping twice gives what clamping once gives. */
  lemma ClampAllIdempotent(s: seq<real>, lo: real, hi: real)
    requires lo <= hi
    ensures ClampAll(ClampAll(s, lo, hi), lo, hi) == ClampAll(s, lo, hi)
  {
    ClampAllFixesWithin(ClampAll(s, lo, hi), lo, hi);
  }

  /** Clamping into an interval, then into a narrower one inside it, is clamping into the narrower one. */
  lemma ClampAllNested(s: seq<real>, lo1: real, hi1: real, lo2: real, hi2: real)
    requires lo1 <= lo2 <= hi2 <= hi1
    ensures ClampAll(ClampAll(s, lo1, hi1), lo2, hi2) == ClampAll(s, lo2, hi2)
  {
    var r := ClampAll(ClampAll(s, lo1, hi1), lo2, hi2);
    assert forall i :: 0 <= i < |s| ==> r[i] == Clamp(s[i], lo2, hi2);
  }

  /** In-place `a[a > bound] = bound`. */
  method AssignWhereAbove(a: array<real>, bound: real)
    modifies a
    ensures a[..] == ReplaceAbove(old(a[..]), bound)
  {
    var i := 0;
    while i < a.Length
      invariant 0 <= i <= a.Length
      invariant forall k :: 0 <= k < i ==> a[k] == (if old(a[k]) > bound then bound else old(a[k]))
      invariant forall k :: i <= k < a.Length ==> a[k] == old(a[k])
    {
      if a[i] > bound {
        a[i] := bound;
      }
      i := i + 1;
    }
  }

  /** In-place `a[a < bound] = bound`. */
  method AssignWhereBelow(a: array<real>, bound: real)
    modifies a
    ensures a[..] == ReplaceBelow(old(a[..]), bound)
  {
    var i := 0;
    while i < a.Length
      invariant 0 <= i <= a.Length
      invariant forall k :: 0 <= k < i ==> a[k] == (if old(a[k]) < bound then bound else old(a[k]))
      invariant forall k :: i <= k < a.Length ==> a[k] == old(a[k])
    {
      if a[i] < bound {
        a[i] := bound;
      }
      i := i + 1;
    }
  }

  // ---------------------------------------------------------------------------
  // Boolean arrays

  /** Whether two one-dimensional shapes broadcast against each other. */
  predicate Broadcastable(m: nat, n: nat)
  {
    m == n || m == 1 || n == 1
  }

  /** The length of the broadcast of two broadcastable lengths. */
  function BroadcastLength(m: nat, n: nat): nat
  {
    if m == 1 then n else m
  }

  /** Element `i` of `f` as seen through broadcasting: a length-1 array repeats its element. */
  function At(f: seq<bool>, i: nat): bool
    requires |f| == 1 || i < |f|
  {
    if |f| == 1 then f[0] else f[i]
  }

  /** numpy's `a | b` on boolean arrays; `None` where numpy raises on incompatible shapes. */
  function Or(a: seq<bool>, b: seq<bool>): (r: Option<seq<bool>>)
    ensures r.Some? <==> Broadcastable(|a|, |b|)
    ensures r.Some? ==> |r.value| == BroadcastLength(|a|, |b|)
    ensures r.Some? ==> forall i :: 0 <= i < |r.value| ==> r.value[i] == (At(a, i) || At(b, i))
    ensures |a| == |b| ==> r.Some? && forall i :: 0 <= i < |a| ==> r.value[i] == (a[i] || b[i])
  {
    if !Broadcastable(|a|, |b|) then None
    else
      var n := BroadcastLength(|a|, |b|);
      Some(seq(n, i requires 0 <= i < n => At(a, i) || At(b, i)))
  }

  /** numpy's `~m`. */
  function Not(m: seq<bool>): (r: seq<bool>)
    ensures |r| == |m|
    ensures forall i :: 0 <= i < |m| ==> r[i] == !m[i]
  {
    seq(|m|, i requires 0 <= i < |m| => !m[i])
  }

  /** The positions where `m` holds, in increasing order (`np.where(m)[0]`). */
  function Where(m: seq<bool>): (r: seq<nat>)
    ensures forall k :: 0 <= k < |r| ==> r[k] < |m| && m[r[k]]
    ensures forall i :: 0 <= i < |m| && m[i] ==> i in r
    ensures forall k, l :: 0 <= k < l < |r| ==> r[k] < r[l]
  {
    if |m| == 0 then []
    else
      var w := Where(m[..|m| - 1]);
      assert forall i :: 0 <= i < |m| - 1 ==> m[..|m| - 1][i] == m[i];
      w + (if m[|m| - 1] then [|m| - 1] else [])
  }

  /** numpy's boolean indexing `xs[m]`; `None` where numpy raises because the lengths differ. */
  function Select(xs: seq<real>, m: seq<bool>): (r: Option<seq<real>>)
    ensures r.Some? <==> |xs| == |m|
    ensures r.Some? ==> |r.value| == |Where(m)|
    ensures r.Some? ==> forall k :: 0 <= k < |r.value| ==> r.value[k] == xs[Where(m)[k]]
  {
    if |xs| != |m| then None
    else
      var w := Where(m);
      Some(seq(|w|, k requires 0 <= k < |w| => xs[w[k]]))
  }

  /** A position is either selected by `m` or by `~m`, and the two selections share out the positions. */
  lemma {:induction false} WherePartition(m: seq<bool>)
    ensures forall i :: 0 <= i < |m| ==> (i in Where(m) <==> i !in Where(Not(m)))
    ensures |Where(m)| + |Where(Not(m))| == |m|
  {
    if |m| > 0 {
      var p := m[..|m| - 1];
      WherePartition(p);
      assert Not(m)[..|m| - 1] == Not(p);
    }
  }

  /** What is selected from a bounded sequence is bounded. */
  lemma SelectWithin(xs: seq<real>, m: seq<bool>, lo: real, hi: real)
    requires |xs| == |m|
    requires AllWithin(xs, lo, hi)
    ensures AllWithin(Select(xs, m).value, lo, hi)
  {
  }
}
