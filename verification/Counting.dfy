/** Lists of numbers: ranges, lengths, sums and occurrences. */
module Counting {
  /** 0, 1, .., n - 1. */
  function Upto(n: nat): (r: seq<nat>)
    ensures |r| == n && forall k :: 0 <= k < n ==> r[k] == k
  {
    seq(n, k => k)
  }

  function Lengths<T>(ss: seq<seq<T>>): (r: seq<nat>)
    ensures |r| == |ss| && forall i :: 0 <= i < |ss| ==> r[i] == |ss[i]|
  {
    seq(|ss|, i requires 0 <= i < |ss| => |ss[i]|)
  }

  function Sum(s: seq<nat>): nat {
    if s == [] then 0 else Sum(s[..|s| - 1]) + s[|s| - 1]
  }

  lemma {:induction false} SumUpdate(s: seq<nat>, i: nat, v: nat)
    requires i < |s|
    ensures Sum(s[i := v]) == Sum(s) - s[i] + v
  {
    var n := |s| - 1;
    if i < n {
      assert s[i := v][..n] == s[..n][i := v];
      SumUpdate(s[..n], i, v);
    } else {
      assert s[i := v][..n] == s[..n];
    }
  }

  lemma {:induction false} SumBound(s: seq<nat>, t: seq<nat>)
    requires |s| == |t| && forall i :: 0 <= i < |s| ==> s[i] <= t[i]
    ensures Sum(s) <= Sum(t)
    ensures Sum(s) == Sum(t) <==> s == t
  {
    if s != [] {
      var n := |s| - 1;
      SumBound(s[..n], t[..n]);
      assert s == s[..n] + [s[n]] && t == t[..n] + [t[n]];
    }
  }

  lemma {:induction false} SumConstant(s: seq<nat>, v: nat)
    requires forall c :: 0 <= c < |s| ==> s[c] == v
    ensures Sum(s) == |s| * v
  {
    if s != [] { SumConstant(s[..|s| - 1], v); }
  }

  lemma {:induction false} SumPlus(a: seq<nat>, b: seq<nat>, c: seq<nat>)
    requires |a| == |b| == |c| && forall i :: 0 <= i < |a| ==> c[i] == a[i] + b[i]
    ensures Sum(c) == Sum(a) + Sum(b)
  {
    if a != [] {
      var n := |a| - 1;
      SumPlus(a[..n], b[..n], c[..n]);
    }
  }

  function Without<T>(s: seq<T>, i: nat): seq<T>
    requires i < |s|
  {
    s[..i] + s[i + 1..]
  }

  /** How often an item occurs. */
  function Copies<T(==)>(rs: seq<T>, r: T): nat {
    if rs == [] then 0 else Copies(rs[..|rs| - 1], r) + if rs[|rs| - 1] == r then 1 else 0
  }

  lemma {:induction false} CopiesAppend<T>(rs: seq<T>, x: T, r: T)
    ensures Copies(rs + [x], r) == Copies(rs, r) + if x == r then 1 else 0
  {
    assert (rs + [x])[..|rs|] == rs;
  }

  lemma {:induction false} CopiesConcat<T>(a: seq<T>, b: seq<T>, r: T)
    ensures Copies(a + b, r) == Copies(a, r) + Copies(b, r)
  {
    if b == [] {
      assert a + b == a;
    } else {
      var n := |b| - 1;
      assert (a + b)[..|a + b| - 1] == a + b[..n];
      CopiesConcat(a, b[..n], r);
    }
  }

  lemma {:induction false} CopiesWithout<T>(rs: seq<T>, i: nat, r: T)
    requires i < |rs|
    ensures Copies(Without(rs, i), r) == Copies(rs, r) - if rs[i] == r then 1 else 0
  {
    hide Copies;
    assert rs == (rs[..i] + [rs[i]]) + rs[i + 1..];
    CopiesConcat(rs[..i] + [rs[i]], rs[i + 1..], r);
    CopiesAppend(rs[..i], rs[i], r);
    CopiesConcat(rs[..i], rs[i + 1..], r);
  }

  lemma {:induction false} CopiesMember<T>(rs: seq<T>, i: nat)
    requires i < |rs|
    ensures Copies(rs, rs[i]) > 0
  {
    CopiesWithout(rs, i, rs[i]);
  }

  lemma {:induction false} NoCopies<T>(r: T)
    ensures Copies([], r) == 0
  {
  }

  /** First in, first out: what was taken and what is queued stays what was put in. */
  lemma {:induction false} QueueMoves<T>(taken: seq<T>, x: seq<T>, next: seq<T>, queue: seq<T>, y: seq<T>, first: seq<T>, put: seq<T>)
    requires taken + queue == first + put && x + next == queue + y
    ensures (taken + x) + next == first + (put + y)
  {
    assert (taken + x) + next == taken + (x + next) && taken + (queue + y) == (taken + queue) + y;
    assert (first + put) + y == first + (put + y);
  }
}
