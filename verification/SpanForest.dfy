/** The span forest of a trace (scripts/convert_otel_2_perfetto.py, `build_otel_span_tree`
    and the recursive walks over "child" lists). Spans are named by their position in the
    input; parent ids may be missing, duplicated or cyclic. */
module SpanForest {
  import opened Wrappers

  /** `parentId` is "" when the span has none; `isRequest` says that the "module" attribute is
      "sglang::request"; `pid` is the "pid" attribute, read only from thread spans. */
  datatype OtelSpan = OtelSpan(spanId: string, parentId: string, isRequest: bool, pid: int, start: int, end: int)

  type Spans = seq<OtelSpan>

  /** Python's dict comprehension: of several spans with one id the last one wins. */
  function IdMap(spans: Spans): (m: map<string, nat>)
    ensures forall id :: id in m ==> m[id] < |spans| && spans[m[id]].spanId == id
  {
    if spans == [] then map[]
    else IdMap(spans[..|spans| - 1])[spans[|spans| - 1].spanId := |spans| - 1]
  }

  lemma {:induction false} IdMapLast(spans: Spans, i: nat)
    requires i < |spans|
    ensures spans[i].spanId in IdMap(spans) && IdMap(spans)[spans[i].spanId] >= i
  {
    if i < |spans| - 1 { IdMapLast(spans[..|spans| - 1], i); }
  }

  /** The span whose child list a span is appended to, if any. */
  function ParentOf(spans: Spans, i: nat): (p: Option<nat>)
    requires i < |spans|
    ensures p.Some? ==> p.value < |spans|
    ensures spans[i].isRequest ==> p.None?
  {
    var m := IdMap(spans);
    if !spans[i].isRequest && spans[i].parentId in m then Some(m[spans[i].parentId]) else None
  }

  /** `p` is the last span with the id that span `i` names as its parent. */
  ghost predicate NamesParent(spans: Spans, i: nat, p: nat) {
    && i < |spans| && p < |spans| && spans[p].spanId == spans[i].parentId
    && forall q :: p < q < |spans| ==> spans[q].spanId != spans[i].parentId
  }

  lemma {:induction false} ParentExact(spans: Spans, i: nat, p: nat)
    requires i < |spans|
    ensures ParentOf(spans, i) == Some(p) <==> !spans[i].isRequest && NamesParent(spans, i, p)
  {
    hide IdMap;
    var m, id := IdMap(spans), spans[i].parentId;
    forall q: nat | q < |spans| && spans[q].spanId == id ensures id in m && q <= m[id] { IdMapLast(spans, q); }
  }

  /** The requests among the first `n` spans, in input order: the roots. */
  function Requests(spans: Spans, n: nat): seq<nat>
    requires n <= |spans|
  {
    if n == 0 then [] else Requests(spans, n - 1) + if spans[n - 1].isRequest then [n - 1] else []
  }

  ghost predicate Ascending(s: seq<nat>, n: nat) {
    && (forall a :: 0 <= a < |s| ==> s[a] < n)
    && (forall a, b :: 0 <= a < b < |s| ==> s[a] < s[b])
  }

  lemma {:induction false} AscendingSnoc(s: seq<nat>, n: nat)
    requires Ascending(s, n)
    ensures Ascending(s, n + 1) && Ascending(s + [n], n + 1)
  {
  }

  lemma {:induction false} RequestsAscending(spans: Spans, n: nat)
    requires n <= |spans|
    ensures Ascending(Requests(spans, n), n)
  {
    if n > 0 {
      hide Ascending;
      RequestsAscending(spans, n - 1);
      AscendingSnoc(Requests(spans, n - 1), n - 1);
    }
  }

  lemma {:induction false} RequestMember(spans: Spans, n: nat, i: nat)
    requires n <= |spans|
    ensures i in Requests(spans, n) <==> i < n && spans[i].isRequest
  {
    if n > 0 { RequestMember(spans, n - 1, i); }
  }

  /** The child list of `p` once the first `n` spans have been filed. */
  function Children(spans: Spans, p: nat, n: nat): seq<nat>
    requires n <= |spans|
  {
    if n == 0 then []
    else Children(spans, p, n - 1) + if ParentOf(spans, n - 1) == Some(p) then [n - 1] else []
  }

  lemma {:induction false} ChildrenAscending(spans: Spans, p: nat, n: nat)
    requires n <= |spans|
    ensures Ascending(Children(spans, p, n), n)
  {
    if n > 0 {
      hide Ascending, ParentOf;
      ChildrenAscending(spans, p, n - 1);
      AscendingSnoc(Children(spans, p, n - 1), n - 1);
    }
  }

  lemma {:induction false} ChildrenMember(spans: Spans, p: nat, n: nat, i: nat)
    requires n <= |spans|
    ensures i in Children(spans, p, n) <==> i < n && ParentOf(spans, i) == Some(p)
  {
    hide ParentOf;
    if n > 0 { ChildrenMember(spans, p, n - 1, i); }
  }

  /** A finished child list. */
  function ChildList(spans: Spans, p: nat): seq<nat> {
    Children(spans, p, |spans|)
  }

  /** It holds the spans whose parent it is, in input order. */
  lemma {:induction false} ChildListExact(spans: Spans, p: nat, i: nat)
    ensures i in ChildList(spans, p) <==> i < |spans| && ParentOf(spans, i) == Some(p)
    ensures i in ChildList(spans, p) <==> NamesParent(spans, i, p) && !spans[i].isRequest
    ensures Ascending(ChildList(spans, p), |spans|)
  {
    hide Ascending, Children, NamesParent;
    NamesInRange(spans, i, p);
    if i < |spans| { ParentExact(spans, i, p); }
    ChildrenMember(spans, p, |spans|, i);
    ChildrenAscending(spans, p, |spans|);
  }

  lemma {:induction false} NamesInRange(spans: Spans, i: nat, p: nat)
    ensures NamesParent(spans, i, p) ==> i < |spans|
  {
  }

  // ---------- paths from roots ----------

  /** A chain of child links that starts at a request. */
  ghost predicate IsPath(spans: Spans, q: seq<nat>): (b: bool)
    ensures b ==> |q| > 0
  {
    && |q| > 0
    && (forall k :: 0 <= k < |q| ==> q[k] < |spans|)
    && spans[q[0]].isRequest
    && (forall k :: 0 < k < |q| ==> ParentOf(spans, q[k]) == Some(q[k - 1]))
  }

  function Last(q: seq<nat>): nat
    requires |q| > 0
  {
    q[|q| - 1]
  }

  lemma {:induction false} PathPrefix(spans: Spans, q: seq<nat>, n: nat)
    requires IsPath(spans, q) && 0 < n <= |q|
    ensures IsPath(spans, q[..n])
  {
  }

  lemma {:induction false} PathExtend(spans: Spans, q: seq<nat>, c: nat)
    requires IsPath(spans, q)
    ensures c in ChildList(spans, Last(q)) <==> IsPath(spans, q + [c])
  {
    hide ChildList, ParentOf;
    ChildListExact(spans, Last(q), c);
    var r := q + [c];
    if IsPath(spans, r) {
      assert ParentOf(spans, r[|q|]) == Some(r[|q| - 1]);
    }
    if c in ChildList(spans, Last(q)) {
      forall k | 0 < k < |r| ensures ParentOf(spans, r[k]) == Some(r[k - 1]) {
        if k < |q| { assert ParentOf(spans, q[k]) == Some(q[k - 1]); }
      }
    }
  }

  /** Parent links cannot branch: a span is at the end of at most one path. */
  lemma {:induction false} PathUnique(spans: Spans, q: seq<nat>, r: seq<nat>)
    requires IsPath(spans, q) && IsPath(spans, r) && Last(q) == Last(r)
    ensures q == r
  {
    var n, m := |q| - 1, |r| - 1;
    assert q == q[..n] + [Last(q)] && r == r[..m] + [Last(r)];
    assert n > 0 ==> ParentOf(spans, q[n]) == Some(q[n - 1]);
    assert m > 0 ==> ParentOf(spans, r[m]) == Some(r[m - 1]);
    if n > 0 && m > 0 {
      PathPrefix(spans, q, n);
      PathPrefix(spans, r, m);
      PathUnique(spans, q[..n], r[..m]);
    }
  }

  /** No span repeats on a path, whatever cycles the parent ids contain. */
  lemma {:induction false} PathDistinct(spans: Spans, q: seq<nat>, i: nat, j: nat)
    requires IsPath(spans, q) && i < j < |q|
    ensures q[i] != q[j]
  {
    if q[i] == q[j] {
      PathPrefix(spans, q, i + 1);
      PathPrefix(spans, q, j + 1);
      PathUnique(spans, q[..i + 1], q[..j + 1]);
    }
  }

  lemma {:induction false} DistinctBound(q: seq<nat>, n: nat)
    requires forall k :: 0 <= k < |q| ==> q[k] < n
    requires forall i, j :: 0 <= i < j < |q| ==> q[i] != q[j]
    ensures |q| <= n
  {
    var first := if |q| > 0 then q[0] else 0;
    if n > 0 {
      if k :| 0 <= k < |q| && q[k] == n - 1 {
        DistinctBound(q[..k] + q[k + 1..], n - 1);
      } else {
        DistinctBound(q, n - 1);
      }
    }
  }

  /** Hence a path is no longer than the input: every recursive walk that starts at a root and
      follows child lists ends. */
  lemma {:induction false} PathBound(spans: Spans, q: seq<nat>)
    requires IsPath(spans, q)
    ensures |q| <= |spans|
  {
    forall i, j | 0 <= i < j < |q| ensures q[i] != q[j] {
      PathDistinct(spans, q, i, j);
    }
    DistinctBound(q, |spans|);
  }

  /** Each span is in at most one child list, and requests are in none. */
  lemma {:induction false} AtMostOneParent(spans: Spans, i: nat, p: nat, p': nat)
    requires i < |spans|
    ensures i in ChildList(spans, p) && i in ChildList(spans, p') ==> p == p'
    ensures spans[i].isRequest ==> i !in ChildList(spans, p)
  {
    hide ChildList;
    ChildListExact(spans, p, i);
    ChildListExact(spans, p', i);
  }

  // ---------- the walk ----------

  /** The spans visited by a recursive walk that has come down `q`, in visiting order. */
  ghost function Walk(spans: Spans, q: seq<nat>): seq<nat>
    requires IsPath(spans, q)
    decreases |spans| - |q|, 1, 0
  {
    PathBound(spans, q);
    [Last(q)] + WalkAll(spans, q, ChildList(spans, Last(q)))
  }

  ghost function WalkAll(spans: Spans, q: seq<nat>, cs: seq<nat>): seq<nat>
    requires IsPath(spans, q)
    requires forall c :: c in cs ==> c in ChildList(spans, Last(q))
    decreases |spans| - |q|, 0, |cs|
  {
    if cs == [] then []
    else
      PathExtend(spans, q, cs[0]);
      PathBound(spans, q + [cs[0]]);
      Walk(spans, q + [cs[0]]) + WalkAll(spans, q, cs[1..])
  }

  /** `x` is `Last(q)` or below it: some path to `x` comes down `q`. */
  ghost predicate Under(spans: Spans, q: seq<nat>, x: nat) {
    exists r :: IsPath(spans, r) && q <= r && Last(r) == x
  }

  ghost predicate Distinct<T>(s: seq<T>) {
    forall i, j :: 0 <= i < j < |s| ==> s[i] != s[j]
  }

  lemma {:induction false} DistinctConcat<T>(a: seq<T>, b: seq<T>)
    requires Distinct(a) && Distinct(b) && forall x :: x in a ==> x !in b
    ensures Distinct(a + b)
  {
    var c := a + b;
    forall i, j | 0 <= i < j < |c| ensures c[i] != c[j] {
      if i < |a| <= j { assert a[i] in a && b[j - |a|] in b; }
    }
  }

  lemma {:induction false} UnderUnique(spans: Spans, q: seq<nat>, q': seq<nat>, x: nat)
    requires Under(spans, q, x) && Under(spans, q', x) && |q| == |q'|
    ensures q == q'
  {
    var r :| IsPath(spans, r) && q <= r && Last(r) == x;
    var r' :| IsPath(spans, r') && q' <= r' && Last(r') == x;
    PathUnique(spans, r, r');
  }

  lemma {:induction false} UnderStep(spans: Spans, q: seq<nat>, x: nat)
    requires IsPath(spans, q)
    ensures Under(spans, q, x) <==>
              x == Last(q) || exists c :: c in ChildList(spans, Last(q)) && Under(spans, q + [c], x)
  {
    hide IsPath;
    if Under(spans, q, x) {
      var r :| IsPath(spans, r) && q <= r && Last(r) == x;
      if |r| > |q| {
        var c := r[|q|];
        PathPrefix(spans, r, |q| + 1);
        assert r[..|q| + 1] == q + [c];
        PathExtend(spans, q, c);
        assert Under(spans, q + [c], x);
      } else {
        assert r == q;
      }
    }
    if x == Last(q) { assert Under(spans, q, x); }
    if c :| c in ChildList(spans, Last(q)) && Under(spans, q + [c], x) {
      var r :| IsPath(spans, r) && q + [c] <= r && Last(r) == x;
      assert q <= r;
    }
  }

  lemma {:induction false} LastNotBelow(spans: Spans, q: seq<nat>, c: nat)
    requires IsPath(spans, q)
    ensures !Under(spans, q + [c], Last(q))
  {
    hide IsPath;
    if Under(spans, q + [c], Last(q)) {
      var r :| IsPath(spans, r) && q + [c] <= r && Last(r) == Last(q);
      PathUnique(spans, r, q);
    }
  }

  /** A walk visits exactly the spans at or below where it starts, each of them once. */
  lemma {:induction false} WalkExact(spans: Spans, q: seq<nat>)
    requires IsPath(spans, q)
    ensures Distinct(Walk(spans, q))
    ensures forall x :: x in Walk(spans, q) <==> Under(spans, q, x)
    decreases |spans| - |q|, 1, 0
  {
    hide IsPath, Distinct, Under;
    PathBound(spans, q);
    var cs := ChildList(spans, Last(q));
    ChildListExact(spans, Last(q), 0);
    WalkAllExact(spans, q, cs);
    forall x ensures x in Walk(spans, q) <==> Under(spans, q, x) {
      UnderStep(spans, q, x);
    }
    forall c | c in cs ensures !Under(spans, q + [c], Last(q)) {
      LastNotBelow(spans, q, c);
    }
    DistinctOne(Last(q));
    DistinctConcat([Last(q)], WalkAll(spans, q, cs));
  }

  lemma {:induction false} DistinctOne<T>(x: T)
    ensures Distinct([x])
  {
  }

  lemma {:induction false} WalkAllExact(spans: Spans, q: seq<nat>, cs: seq<nat>)
    requires IsPath(spans, q)
    requires forall c :: c in cs ==> c in ChildList(spans, Last(q))
    requires Ascending(cs, |spans|)
    ensures Distinct(WalkAll(spans, q, cs))
    ensures forall x :: x in WalkAll(spans, q, cs) <==> exists c :: c in cs && Under(spans, q + [c], x)
    decreases |spans| - |q|, 0, |cs|
  {
    if cs != [] {
      hide IsPath, Distinct, Under, Walk, ChildList;
      PathExtend(spans, q, cs[0]);
      PathBound(spans, q + [cs[0]]);
      WalkExact(spans, q + [cs[0]]);
      WalkAllExact(spans, q, cs[1..]);
      forall x | x in Walk(spans, q + [cs[0]]) ensures x !in WalkAll(spans, q, cs[1..]) {
        forall c | c in cs[1..] ensures !Under(spans, q + [c], x) {
          assert (q + [cs[0]])[|q|] != (q + [c])[|q|];
          if Under(spans, q + [c], x) { UnderUnique(spans, q + [cs[0]], q + [c], x); }
        }
      }
      DistinctConcat(Walk(spans, q + [cs[0]]), WalkAll(spans, q, cs[1..]));
      assert forall c :: c in cs <==> c == cs[0] || c in cs[1..];
    }
  }

  // ---------- levels ----------

  function Descend(q: seq<nat>, cs: seq<nat>): (r: seq<seq<nat>>)
    ensures |r| == |cs| && forall k :: 0 <= k < |cs| ==> r[k] == q + [cs[k]]
  {
    if cs == [] then [] else [q + [cs[0]]] + Descend(q, cs[1..])
  }

  predicate NonEmpty(qs: seq<seq<nat>>) {
    forall k :: 0 <= k < |qs| ==> |qs[k]| > 0
  }

  /** The paths one link longer than those of `qs`, in the order of the nested loops. */
  function DescendAll(spans: Spans, qs: seq<seq<nat>>): seq<seq<nat>>
    requires NonEmpty(qs)
  {
    if qs == [] then []
    else Descend(qs[0], ChildList(spans, Last(qs[0]))) + DescendAll(spans, qs[1..])
  }

  lemma {:induction false} DescendMember(q: seq<nat>, cs: seq<nat>, r: seq<nat>)
    ensures r in Descend(q, cs) <==> |r| == |q| + 1 && r[..|q|] == q && r[|q|] in cs
  {
    var d := Descend(q, cs);
    if r in d {
      var k :| 0 <= k < |d| && d[k] == r;
    }
    if |r| == |q| + 1 && r[..|q|] == q && r[|q|] in cs {
      var k :| 0 <= k < |cs| && cs[k] == r[|q|];
      assert d[k] == q + [r[|q|]] == r;
    }
  }

  lemma {:induction false} DescendDistinct(q: seq<nat>, cs: seq<nat>)
    requires exists n :: Ascending(cs, n)
    ensures Distinct(Descend(q, cs))
  {
    var d := Descend(q, cs);
    forall i, j | 0 <= i < j < |d| ensures d[i] != d[j] {
      assert d[i][|q|] == cs[i] && d[j][|q|] == cs[j];
    }
  }

  lemma {:induction false} DescendAllMember(spans: Spans, qs: seq<seq<nat>>, r: seq<nat>)
    requires NonEmpty(qs)
    ensures r in DescendAll(spans, qs) <==>
              |r| > 1 && r[..|r| - 1] in qs && Last(r) in ChildList(spans, r[|r| - 2])
  {
    if qs != [] {
      hide ChildList, Descend;
      var d, rest := Descend(qs[0], ChildList(spans, Last(qs[0]))), qs[1..];
      DescendMember(qs[0], ChildList(spans, Last(qs[0])), r);
      DescendAllMember(spans, rest, r);
      assert DescendAll(spans, qs) == d + DescendAll(spans, rest);
      assert r in DescendAll(spans, qs) <==> r in d || r in DescendAll(spans, rest);
      if |r| > 1 {
        var pre := r[..|r| - 1];
        assert pre in qs <==> pre == qs[0] || pre in rest;
        assert pre == qs[0] ==> Last(qs[0]) == r[|r| - 2];
      }
    }
  }

  lemma {:induction false} DescendAllDistinct(spans: Spans, qs: seq<seq<nat>>)
    requires NonEmpty(qs) && Distinct(qs)
    ensures Distinct(DescendAll(spans, qs))
  {
    if qs != [] {
      var q0 := qs[0];
      assert Distinct(qs[1..]) && q0 !in qs[1..];
      hide ChildList, Descend, Distinct;
      var cs := ChildList(spans, Last(q0));
      var a, b := Descend(q0, cs), DescendAll(spans, qs[1..]);
      ChildListExact(spans, Last(q0), 0);
      DescendDistinct(q0, cs);
      DescendAllDistinct(spans, qs[1..]);
      forall r | r in a ensures r !in b {
        DescendMember(q0, cs, r);
        DescendAllMember(spans, qs[1..], r);
      }
      DistinctConcat(a, b);
    }
  }

  /** Level 0 is the requests, level 1 the thread spans, level 2 the spans laid out in lanes. */
  function Level(spans: Spans, k: nat): (qs: seq<seq<nat>>)
    ensures NonEmpty(qs)
  {
    if k == 0 then Descend([], Requests(spans, |spans|))
    else
      var qs := DescendAll(spans, Level(spans, k - 1));
      LevelNonEmpty(spans, Level(spans, k - 1));
      qs
  }

  lemma {:induction false} LevelNonEmpty(spans: Spans, qs: seq<seq<nat>>)
    requires NonEmpty(qs)
    ensures NonEmpty(DescendAll(spans, qs))
  {
    if qs != [] { LevelNonEmpty(spans, qs[1..]); }
  }

  /** The nested loops over requests and child lists meet every path of a length once. */
  lemma {:induction false} LevelMember(spans: Spans, k: nat, q: seq<nat>)
    ensures q in Level(spans, k) <==> IsPath(spans, q) && |q| == k + 1
  {
    hide DescendAll, Descend, Requests, ChildList;
    if k == 0 {
      DescendMember([], Requests(spans, |spans|), q);
      if |q| == 1 { RequestMember(spans, |spans|, q[0]); }
    } else if |q| > 1 {
      hide IsPath;
      var n := |q| - 1;
      LevelMember(spans, k - 1, q[..n]);
      DescendAllMember(spans, Level(spans, k - 1), q);
      assert q == q[..n] + [q[n]];
      if IsPath(spans, q) { PathPrefix(spans, q, n); }
      if IsPath(spans, q[..n]) { PathExtend(spans, q[..n], q[n]); }
    } else {
      DescendAllMember(spans, Level(spans, k - 1), q);
    }
  }

  lemma {:induction false} LevelDistinct(spans: Spans, k: nat)
    ensures Distinct(Level(spans, k))
  {
    hide Distinct, DescendAll, Descend;
    if k == 0 {
      RequestsAscending(spans, |spans|);
      DescendDistinct([], Requests(spans, |spans|));
    } else {
      LevelDistinct(spans, k - 1);
      DescendAllDistinct(spans, Level(spans, k - 1));
    }
  }

  // ---------- all walks together ----------

  ghost predicate AllPaths(spans: Spans, qs: seq<seq<nat>>) {
    forall k :: 0 <= k < |qs| ==> IsPath(spans, qs[k])
  }

  /** The walks from a list of paths, one after another. */
  ghost function Walks(spans: Spans, tops: seq<seq<nat>>): seq<nat>
    requires AllPaths(spans, tops)
  {
    if tops == [] then [] else Walk(spans, tops[0]) + Walks(spans, tops[1..])
  }

  /** Disjoint trees: walking down every path of one length visits each span below that level
      exactly once. */
  lemma {:induction false} WalksExact(spans: Spans, tops: seq<seq<nat>>, n: nat)
    requires AllPaths(spans, tops) && forall k :: 0 <= k < |tops| ==> |tops[k]| == n
    requires Distinct(tops)
    ensures Distinct(Walks(spans, tops))
    ensures forall x :: x in Walks(spans, tops) <==> exists q :: q in tops && Under(spans, q, x)
  {
    if tops != [] {
      var q0, rest := tops[0], tops[1..];
      assert q0 in tops && q0 !in rest && forall q :: q in tops <==> q == q0 || q in rest;
      assert Distinct(rest);
      hide IsPath, Under, Walk, Distinct;
      WalkExact(spans, q0);
      WalksExact(spans, rest, n);
      forall x | x in Walk(spans, q0) ensures x !in Walks(spans, rest) {
        if q :| q in rest && Under(spans, q, x) {
          assert |q| == n;
          UnderUnique(spans, q0, q, x);
        }
      }
      DistinctConcat(Walk(spans, q0), Walks(spans, rest));
    }
  }

  /** Every span at depth `k` or deeper below a request is visited exactly once by the walks
      from level `k`, and no other span is visited. */
  lemma {:induction false} LevelWalksExact(spans: Spans, k: nat)
    ensures AllPaths(spans, Level(spans, k))
    ensures Distinct(Walks(spans, Level(spans, k)))
    ensures forall x :: x in Walks(spans, Level(spans, k)) <==>
              exists r :: IsPath(spans, r) && |r| > k && Last(r) == x
  {
    hide IsPath, Distinct, Level;
    LevelDistinct(spans, k);
    forall q ensures q in Level(spans, k) <==> IsPath(spans, q) && |q| == k + 1 {
      LevelMember(spans, k, q);
    }
    WalksExact(spans, Level(spans, k), k + 1);
    forall x ensures x in Walks(spans, Level(spans, k)) <==>
                       exists r :: IsPath(spans, r) && |r| > k && Last(r) == x {
      if q :| q in Level(spans, k) && Under(spans, q, x) {
        var r :| IsPath(spans, r) && q <= r && Last(r) == x;
        assert |r| > k;
      }
      if r :| IsPath(spans, r) && |r| > k && Last(r) == x {
        PathPrefix(spans, r, k + 1);
        assert r[..k + 1] in Level(spans, k) && r[..k + 1] <= r;
        assert Under(spans, r[..k + 1], x);
      }
    }
  }
}
