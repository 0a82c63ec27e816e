/** The orders in which the converter's loops and recursive walks visit spans
    (scripts/convert_otel_2_perfetto.py), and what each order leaves in the spans. */
module TraceOrders {
  import opened Wrappers
  import opened Lanes
  import opened LaneLayout
  import opened LaneRuns
  import opened SpanForest
  import opened TraceMarks

  // ---------- visiting orders of the loops ----------

  lemma {:induction false} WalkAllSnoc(spans: Spans, q: seq<nat>, cs: seq<nat>, c: nat)
    requires IsPath(spans, q)
    requires forall x :: x in cs + [c] ==> x in ChildList(spans, Last(q))
    ensures (forall x :: x in cs ==> x in ChildList(spans, Last(q))) && IsPath(spans, q + [c])
    ensures WalkAll(spans, q, cs + [c]) == WalkAll(spans, q, cs) + Walk(spans, q + [c])
  {
    hide IsPath, ChildList, Walk;
    assert c in cs + [c] && forall x :: x in cs ==> x in cs + [c];
    PathExtend(spans, q, c);
    if cs == [] {
      assert cs + [c] == [c] && [c][1..] == [];
    } else {
      assert (cs + [c])[1..] == cs[1..] + [c];
      WalkAllSnoc(spans, q, cs[1..], c);
    }
  }

  function Lasts(qs: seq<seq<nat>>): seq<nat> {
    seq(|qs|, i requires 0 <= i < |qs| => if qs[i] == [] then 0 else Last(qs[i]))
  }

  lemma {:induction false} DescendSnoc(q: seq<nat>, cs: seq<nat>, c: nat)
    ensures Descend(q, cs + [c]) == Descend(q, cs) + [q + [c]]
  {
    if cs == [] {
      assert cs + [c] == [c] && [c][1..] == [];
    } else {
      assert (cs + [c])[1..] == cs[1..] + [c];
      DescendSnoc(q, cs[1..], c);
    }
  }

  lemma {:induction false} DescendAllSnoc(spans: Spans, qs: seq<seq<nat>>, q: seq<nat>)
    requires NonEmpty(qs) && |q| > 0
    ensures NonEmpty(qs + [q])
    ensures DescendAll(spans, qs + [q]) == DescendAll(spans, qs) + Descend(q, ChildList(spans, Last(q)))
  {
    hide DescendAll, Descend, ChildList;
    DescendAllConcat(spans, qs, [q]);
    DescendAllHead(spans, [q]);
    DescendAllNone(spans);
    assert [q][1..] == [];
  }

  lemma {:induction false} DescendAllHead(spans: Spans, qs: seq<seq<nat>>)
    requires NonEmpty(qs) && qs != []
    ensures DescendAll(spans, qs) == Descend(qs[0], ChildList(spans, Last(qs[0]))) + DescendAll(spans, qs[1..])
  {
    hide Descend, ChildList;
  }

  /** The spans laid out for the request `r`: the children of its thread spans. */
  function TopsOf(spans: Spans, r: nat): seq<seq<nat>> {
    DescendAll(spans, Descend([r], ChildList(spans, r)))
  }

  function AllTops(spans: Spans, rs: seq<nat>): seq<seq<nat>> {
    if rs == [] then [] else AllTops(spans, rs[..|rs| - 1]) + TopsOf(spans, rs[|rs| - 1])
  }

  lemma {:induction false} DescendAllConcat(spans: Spans, a: seq<seq<nat>>, b: seq<seq<nat>>)
    requires NonEmpty(a) && NonEmpty(b)
    ensures NonEmpty(a + b)
    ensures DescendAll(spans, a + b) == DescendAll(spans, a) + DescendAll(spans, b)
  {
    hide DescendAll, Descend, ChildList;
    if a == [] {
      assert a + b == b;
      DescendAllNone(spans);
    } else {
      assert (a + b)[1..] == a[1..] + b;
      DescendAllConcat(spans, a[1..], b);
      DescendAllHead(spans, a);
      DescendAllHead(spans, a + b);
    }
  }

  /** The loops over requests, thread spans and their children go through level 2. */
  lemma {:induction false} AllTopsIsLevel(spans: Spans)
    ensures AllTops(spans, Requests(spans, |spans|)) == Level(spans, 2)
  {
    AllTopsPrefix(spans, Requests(spans, |spans|));
    assert Level(spans, 2) == DescendAll(spans, DescendAll(spans, Level(spans, 0)));
  }

  lemma {:induction false} AllTopsPrefix(spans: Spans, rs: seq<nat>)
    ensures NonEmpty(DescendAll(spans, Descend([], rs)))
    ensures AllTops(spans, rs) == DescendAll(spans, DescendAll(spans, Descend([], rs)))
  {
    LevelNonEmpty(spans, Descend([], rs));
    if rs != [] {
      hide Descend, ChildList;
      var n := |rs| - 1;
      assert rs == rs[..n] + [rs[n]];
      AllTopsPrefix(spans, rs[..n]);
      DescendSnoc([], rs[..n], rs[n]);
      assert [] + [rs[n]] == [rs[n]];
      DescendAllSnoc(spans, Descend([], rs[..n]), [rs[n]]);
      DescendAllConcat(spans, DescendAll(spans, Descend([], rs[..n])), Descend([rs[n]], ChildList(spans, rs[n])));
    }
  }

  lemma {:induction false} LastsConcat(a: seq<seq<nat>>, b: seq<seq<nat>>)
    ensures Lasts(a + b) == Lasts(a) + Lasts(b)
  {
  }

  lemma {:induction false} LastsOne(q: seq<nat>)
    requires |q| > 0
    ensures Lasts([q]) == [Last(q)]
  {
  }

  lemma {:induction false} LastsNone()
    ensures Lasts([]) == []
  {
  }

  lemma {:induction false} DescendNone(q: seq<nat>)
    ensures Descend(q, []) == []
  {
  }

  lemma {:induction false} DescendAllNone(spans: Spans)
    ensures DescendAll(spans, []) == []
  {
  }

  lemma {:induction false} ConvertNone(spans: Spans, m: Marks)
    requires Sized(m, |spans|)
    ensures Tops(spans, []) && ConvertTops(spans, m, []) == m
  {
  }

  lemma {:induction false} RootIsPath(spans: Spans, a: nat)
    requires a < |Requests(spans, |spans|)|
    ensures IsPath(spans, [Requests(spans, |spans|)[a]])
  {
    assert Requests(spans, |spans|)[a] in Requests(spans, |spans|);
    RequestMember(spans, |spans|, Requests(spans, |spans|)[a]);
  }

  lemma {:induction false} ConvertTopsSnoc(spans: Spans, m: Marks, done: seq<seq<nat>>, q: seq<nat>)
    requires Sized(m, |spans|) && Tops(spans, done) && IsPath(spans, q) && |q| == 3
    ensures Tops(spans, done + [q]) && InRange(Walk(spans, q), |spans|) && q[1] < |spans|
    ensures ConvertTops(spans, m, done + [q]) ==
              ConvertList(ConvertTops(spans, m, done), Walk(spans, q), PidOf(spans, q))
  {
    hide Walk;
    WalkInRange(spans, q);
    assert (done + [q])[..|done|] == done;
  }

  /** What filing span `i` does to the root list and the child lists. */
  lemma {:induction false} FileSpan(spans: Spans, i: nat)
    requires i < |spans|
    ensures Requests(spans, i + 1) == if spans[i].isRequest then Requests(spans, i) + [i] else Requests(spans, i)
    ensures var ids := IdMap(spans);
            var filed := !spans[i].isRequest && spans[i].parentId in ids;
            forall p :: 0 <= p < |spans| ==>
              Children(spans, p, i + 1) ==
                if filed && ids[spans[i].parentId] == p then Children(spans, p, i) + [i] else Children(spans, p, i)
  {
    hide IdMap;
  }

  lemma {:induction false} AllFiled(spans: Spans, p: nat)
    ensures Children(spans, p, |spans|) == ChildList(spans, p)
  {
  }

  lemma {:induction false} NothingFiled(spans: Spans)
    ensures Requests(spans, 0) == []
    ensures forall p :: 0 <= p < |spans| ==> Children(spans, p, 0) == []
  {
  }

  ghost predicate Below(spans: Spans, q: seq<nat>, cs: seq<nat>)
    requires IsPath(spans, q)
  {
    forall x :: x in cs ==> x in ChildList(spans, Last(q))
  }

  lemma {:induction false} WalkUnfold(spans: Spans, q: seq<nat>)
    requires IsPath(spans, q)
    ensures Walk(spans, q) == [Last(q)] + WalkAll(spans, q, ChildList(spans, Last(q)))
    ensures WalkAll(spans, q, []) == []
  {
  }

  lemma {:induction false} PathInRange(spans: Spans, q: seq<nat>)
    requires IsPath(spans, q)
    ensures Last(q) < |spans|
  {
  }

  // ---------- Python's stable sort by an integer key ----------

  function InsertBy(x: nat, s: seq<nat>, key: seq<int>): (r: seq<nat>)
    requires x < |key| && InRange(s, |key|)
    ensures InRange(r, |key|) && multiset(r) == multiset(s) + multiset{x}
  {
    if s == [] then [x]
    else if key[x] <= key[s[0]] then [x] + s
    else
      assert s == [s[0]] + s[1..];
      [s[0]] + InsertBy(x, s[1..], key)
  }

  function SortBy(s: seq<nat>, key: seq<int>): (r: seq<nat>)
    requires InRange(s, |key|)
    ensures InRange(r, |key|) && multiset(r) == multiset(s)
  {
    if s == [] then []
    else
      assert s == [s[0]] + s[1..];
      InsertBy(s[0], SortBy(s[1..], key), key)
  }

  ghost predicate KeyOrder(s: seq<nat>, key: seq<int>)
    requires InRange(s, |key|)
  {
    forall i, j :: 0 <= i < j < |s| ==> key[s[i]] <= key[s[j]]
  }

  lemma {:induction false} InsertByOrder(x: nat, s: seq<nat>, key: seq<int>)
    requires x < |key| && InRange(s, |key|) && KeyOrder(s, key)
    ensures KeyOrder(InsertBy(x, s, key), key)
  {
    if s != [] && key[x] > key[s[0]] {
      InsertByOrder(x, s[1..], key);
      var r := InsertBy(x, s[1..], key);
      forall j | 0 <= j < |r| ensures key[s[0]] <= key[r[j]] {
        assert r[j] in multiset(r);
        assert r[j] == x || r[j] in s[1..];
      }
    }
  }

  lemma {:induction false} SortByOrder(s: seq<nat>, key: seq<int>)
    requires InRange(s, |key|)
    ensures KeyOrder(SortBy(s, key), key)
  {
    if s != [] {
      SortByOrder(s[1..], key);
      InsertByOrder(s[0], SortBy(s[1..], key), key);
    }
  }

  /** The items with key `v`, in order. */
  function WithKey(s: seq<nat>, key: seq<int>, v: int): seq<nat>
    requires InRange(s, |key|)
  {
    if s == [] then [] else (if key[s[0]] == v then [s[0]] else []) + WithKey(s[1..], key, v)
  }

  lemma {:induction false} WithKeyCons(x: nat, s: seq<nat>, key: seq<int>, v: int)
    requires x < |key| && InRange(s, |key|)
    ensures InRange([x] + s, |key|)
    ensures WithKey([x] + s, key, v) == (if key[x] == v then [x] else []) + WithKey(s, key, v)
  {
    assert ([x] + s)[1..] == s;
  }

  lemma {:induction false} InsertByStable(x: nat, s: seq<nat>, key: seq<int>, v: int)
    requires x < |key| && InRange(s, |key|) && KeyOrder(s, key)
    ensures WithKey(InsertBy(x, s, key), key, v) == (if key[x] == v then [x] else []) + WithKey(s, key, v)
  {
    hide WithKey;
    if s != [] && key[x] > key[s[0]] {
      InsertByStable(x, s[1..], key, v);
      WithKeyCons(s[0], InsertBy(x, s[1..], key), key, v);
      WithKeyCons(s[0], s[1..], key, v);
      assert s == [s[0]] + s[1..];
    } else {
      WithKeyCons(x, s, key, v);
      assert InsertBy(x, s, key) == [x] + s;
    }
  }

  /** Equal keys keep their order. */
  lemma {:induction false} SortByStable(s: seq<nat>, key: seq<int>, v: int)
    requires InRange(s, |key|)
    ensures WithKey(SortBy(s, key), key, v) == WithKey(s, key, v)
  {
    if s != [] {
      SortByOrder(s[1..], key);
      InsertByStable(s[0], SortBy(s[1..], key), key, v);
      SortByStable(s[1..], key, v);
    }
  }

  /** In key order, and among equal keys in order of number. */
  ghost predicate TieOrder(s: seq<nat>, key: seq<int>)
    requires InRange(s, |key|)
  {
    forall i, j :: 0 <= i < j < |s| ==> key[s[i]] < key[s[j]] || (key[s[i]] == key[s[j]] && s[i] < s[j])
  }

  lemma {:induction false} InsertByTies(x: nat, s: seq<nat>, key: seq<int>)
    requires x < |key| && InRange(s, |key|) && TieOrder(s, key) && forall j :: 0 <= j < |s| ==> x < s[j]
    ensures TieOrder(InsertBy(x, s, key), key)
  {
    if s != [] && key[x] > key[s[0]] {
      InsertByTies(x, s[1..], key);
      var r := InsertBy(x, s[1..], key);
      forall j | 0 <= j < |r| ensures key[s[0]] < key[r[j]] || (key[s[0]] == key[r[j]] && s[0] < r[j]) {
        assert r[j] in multiset(r);
        if r[j] != x { var k :| 0 <= k < |s[1..]| && s[1..][k] == r[j]; assert s[k + 1] == r[j]; }
      }
    }
  }

  /** Sorting positions breaks ties by position. */
  lemma {:induction false} SortByTies(s: seq<nat>, key: seq<int>)
    requires InRange(s, |key|) && forall i, j :: 0 <= i < j < |s| ==> s[i] < s[j]
    ensures TieOrder(SortBy(s, key), key)
  {
    if s != [] {
      SortByTies(s[1..], key);
      var t := SortBy(s[1..], key);
      forall j | 0 <= j < |t| ensures s[0] < t[j] {
        assert t[j] in multiset(t);
        var k :| 0 <= k < |s[1..]| && s[1..][k] == t[j];
        assert s[k + 1] == t[j];
      }
      InsertByTies(s[0], t, key);
    }
  }

  /** `b` has the items of `a` with each key in the same order. */
  ghost predicate TiesKept(a: seq<nat>, b: seq<nat>, key: seq<int>) {
    InRange(a, |key|) && InRange(b, |key|) && forall v :: WithKey(a, key, v) == WithKey(b, key, v)
  }

  lemma {:induction false} SortKeepsTies(s: seq<nat>, key: seq<int>)
    requires InRange(s, |key|)
    ensures TiesKept(s, SortBy(s, key), key)
  {
    hide WithKey, SortBy;
    forall v ensures WithKey(s, key, v) == WithKey(SortBy(s, key), key, v) { SortByStable(s, key, v); }
  }

  lemma {:induction false} WithKeySame(s: seq<nat>, key: seq<int>, other: seq<int>, v: int)
    requires InRange(s, |key|) && InRange(s, |other|) && forall i :: 0 <= i < |s| ==> key[s[i]] == other[s[i]]
    ensures WithKey(s, key, v) == WithKey(s, other, v)
  {
    if s != [] { WithKeySame(s[1..], key, other, v); }
  }

  lemma {:induction false} TiesSame(a: seq<nat>, b: seq<nat>, key: seq<int>, other: seq<int>)
    requires TiesKept(a, b, key) && InRange(a, |other|) && InRange(b, |other|)
    requires forall i :: 0 <= i < |a| ==> key[a[i]] == other[a[i]]
    requires forall i :: 0 <= i < |b| ==> key[b[i]] == other[b[i]]
    ensures TiesKept(a, b, other)
  {
    hide WithKey;
    forall v ensures WithKey(a, other, v) == WithKey(b, other, v) {
      WithKeySame(a, key, other, v);
      WithKeySame(b, key, other, v);
    }
  }

  lemma {:induction false} SameItems(a: seq<nat>, b: seq<nat>)
    requires multiset(a) == multiset(b) && Distinct(a)
    ensures Distinct(b) && forall x :: x in a <==> x in b
  {
    forall x ensures x in a <==> x in b {
      assert x in a <==> x in multiset(a);
      assert x in b <==> x in multiset(b);
    }
    forall i, j | 0 <= i < j < |b| ensures b[i] != b[j] {
      if b[i] == b[j] {
        assert b == b[..i] + [b[i]] + b[i + 1..];
        assert b[j] in b[i + 1..];
        assert multiset(b)[b[i]] >= 2;
        AtMostOnce(a, b[i]);
      }
    }
  }

  lemma {:induction false} AtMostOnce(a: seq<nat>, x: nat)
    requires Distinct(a)
    ensures multiset(a)[x] <= 1
  {
    if a != [] {
      assert a == [a[0]] + a[1..];
      AtMostOnce(a[1..], x);
    }
  }

  // ---------- lists of spans per request ----------

  function Flat(lists: seq<seq<nat>>): seq<nat> {
    if lists == [] then [] else Flat(lists[..|lists| - 1]) + lists[|lists| - 1]
  }

  ghost predicate Apart(lists: seq<seq<nat>>) {
    && (forall a :: 0 <= a < |lists| ==> Distinct(lists[a]))
    && (forall a, b, x :: 0 <= a < b < |lists| && x in lists[a] ==> x !in lists[b])
  }

  lemma {:induction false} FlatExact(lists: seq<seq<nat>>)
    requires Apart(lists)
    ensures Distinct(Flat(lists))
    ensures forall x :: x in Flat(lists) <==> exists a :: 0 <= a < |lists| && x in lists[a]
  {
    if lists != [] {
      var n := |lists| - 1;
      FlatExact(lists[..n]);
      DistinctConcat(Flat(lists[..n]), lists[n]);
    }
  }

  // ---------- laid-out spans ----------

  /** `x` is a child of a thread span of a request. */
  ghost predicate Laid(spans: Spans, x: nat) {
    exists q :: IsPath(spans, q) && |q| == 3 && Last(q) == x
  }

  ghost function TopTo(spans: Spans, x: nat): (q: seq<nat>)
    requires Laid(spans, x)
    ensures IsPath(spans, q) && |q| == 3 && Last(q) == x
  {
    var q :| IsPath(spans, q) && |q| == 3 && Last(q) == x;
    q
  }

  /** The list collected for a request: its laid-out spans, each once. */
  lemma {:induction false} RootListExact(spans: Spans, r: nat)
    requires IsPath(spans, [r])
    ensures Distinct(Lasts(TopsOf(spans, r)))
    ensures forall x :: x in Lasts(TopsOf(spans, r)) <==> Laid(spans, x) && TopTo(spans, x)[0] == r
  {
    var tops := TopsOf(spans, r);
    TopsOfExact(spans, r);
    hide IsPath, TopsOf;
    var list := Lasts(tops);
    forall i, j | 0 <= i < j < |list| ensures list[i] != list[j] {
      assert tops[i] in tops && tops[j] in tops;
      if list[i] == list[j] { PathUnique(spans, tops[i], tops[j]); }
    }
    forall x ensures x in list <==> Laid(spans, x) && TopTo(spans, x)[0] == r {
      if x in list {
        var k :| 0 <= k < |list| && list[k] == x;
        assert tops[k] in tops;
        assert Laid(spans, x);
        PathUnique(spans, tops[k], TopTo(spans, x));
      }
      if Laid(spans, x) && TopTo(spans, x)[0] == r {
        var k :| 0 <= k < |tops| && tops[k] == TopTo(spans, x);
        assert list[k] == x;
      }
    }
  }

  lemma {:induction false} TopsOfExact(spans: Spans, r: nat)
    requires IsPath(spans, [r])
    ensures Distinct(TopsOf(spans, r))
    ensures forall q :: q in TopsOf(spans, r) <==> IsPath(spans, q) && |q| == 3 && q[0] == r
  {
    hide ChildList, Descend, DescendAll, Distinct;
    var cs := ChildList(spans, r);
    var qs := Descend([r], cs);
    ChildListExact(spans, r, 0);
    DescendDistinct([r], cs);
    DescendAllDistinct(spans, qs);
    forall q ensures q in TopsOf(spans, r) <==> IsPath(spans, q) && |q| == 3 && q[0] == r {
      TopsOfMember(spans, r, q);
    }
  }

  lemma {:induction false} TopsOfMember(spans: Spans, r: nat, q: seq<nat>)
    requires IsPath(spans, [r])
    ensures q in TopsOf(spans, r) <==> IsPath(spans, q) && |q| == 3 && q[0] == r
  {
    hide IsPath, ChildList, Descend, DescendAll;
    var cs := ChildList(spans, r);
    DescendAllMember(spans, Descend([r], cs), q);
    if |q| == 3 {
      DescendMember([r], cs, q[..2]);
      assert q[..2] == q[..1] + [q[1]] && q == q[..2] + [q[2]] && (q[0] == r ==> q[..1] == [r]);
      if q[0] == r { PathExtend(spans, [r], q[1]); }
      if IsPath(spans, q) { PathPrefix(spans, q, 2); }
      if IsPath(spans, q[..2]) { PathExtend(spans, q[..2], q[2]); }
    } else if |q| > 1 {
      DescendMember([r], cs, q[..|q| - 1]);
    }
  }

  // ---------- lane numbers over the whole layout ----------

  /** `x` is a laid-out span or below one. */
  ghost predicate Deep(spans: Spans, x: nat) {
    exists r :: IsPath(spans, r) && |r| >= 3 && Last(r) == x
  }

  /** Every such span has its event. */
  ghost predicate Ready(spans: Spans, e: seq<Option<Perfetto>>) {
    |e| == |spans| && forall x :: 0 <= x < |spans| && Deep(spans, x) ==> e[x].Some?
  }

  lemma {:induction false} ReadyConverted(spans: Spans, e: seq<Option<Perfetto>>, q: seq<nat>)
    requires Ready(spans, e) && IsPath(spans, q) && |q| >= 3
    ensures Converted(Walk(spans, q), e)
  {
    hide Walk, IsPath;
    WalkExact(spans, q);
    WalkInRange(spans, q);
    var w := Walk(spans, q);
    forall k | 0 <= k < |w| ensures w[k] < |e| && e[w[k]].Some? {
      assert w[k] in w;
      var r :| IsPath(spans, r) && q <= r && Last(r) == w[k];
      assert Deep(spans, w[k]);
    }
  }

  ghost predicate AllLaid(spans: Spans, list: seq<nat>) {
    forall k :: 0 <= k < |list| ==> Laid(spans, list[k])
  }

  /** The lane numbers written while the spans of `placed` are given the lanes `lines`. */
  ghost function TidAll(spans: Spans, e: seq<Option<Perfetto>>, placed: seq<nat>, lines: seq<int>): (r: seq<Option<Perfetto>>)
    requires Ready(spans, e) && AllLaid(spans, placed) && |lines| == |placed|
    ensures Ready(spans, r)
  {
    if placed == [] then e
    else
      var n := |placed| - 1;
      var before := TidAll(spans, e, placed[..n], lines[..n]);
      var q := TopTo(spans, placed[n]);
      ReadyConverted(spans, before, q);
      SetTidList(before, Walk(spans, q), lines[n])
  }

  /** A span gets the lane of the laid-out span it is below, and nothing else changes. */
  lemma {:induction false} TidAllPointwise(spans: Spans, e: seq<Option<Perfetto>>, placed: seq<nat>, lines: seq<int>, j: nat, x: nat)
    requires Ready(spans, e) && AllLaid(spans, placed) && |lines| == |placed| && Distinct(placed)
    requires j < |placed| && Under(spans, TopTo(spans, placed[j]), x)
    ensures x < |e| && e[x].Some?
    ensures TidAll(spans, e, placed, lines)[x] == Some(e[x].value.(tid := lines[j]))
  {
    hide Walk, IsPath, Under, Ready;
    UnderDeep(spans, e, TopTo(spans, placed[j]), x);
    var n := |placed| - 1;
    var q := TopTo(spans, placed[n]);
    var before := TidAll(spans, e, placed[..n], lines[..n]);
    WalkExact(spans, q);
    ReadyConverted(spans, before, q);
    UnderDeep(spans, before, TopTo(spans, placed[j]), x);
    SetTidPointwise(before, Walk(spans, q), lines[n], x);
    if j < n {
      TidAllPointwise(spans, e, placed[..n], lines[..n], j, x);
      if Under(spans, q, x) { UnderUnique(spans, q, TopTo(spans, placed[j]), x); }
    } else {
      forall k | 0 <= k < n ensures !Under(spans, TopTo(spans, placed[k]), x) {
        if Under(spans, TopTo(spans, placed[k]), x) { UnderUnique(spans, q, TopTo(spans, placed[k]), x); }
      }
      TidAllElsewhere(spans, e, placed[..n], lines[..n], x);
    }
  }

  lemma {:induction false} TidAllElsewhere(spans: Spans, e: seq<Option<Perfetto>>, placed: seq<nat>, lines: seq<int>, x: nat)
    requires Ready(spans, e) && AllLaid(spans, placed) && |lines| == |placed| && x < |spans|
    requires forall k :: 0 <= k < |placed| ==> !Under(spans, TopTo(spans, placed[k]), x)
    ensures TidAll(spans, e, placed, lines)[x] == e[x]
  {
    if placed != [] {
      hide Walk, IsPath, Under, Ready;
      var n := |placed| - 1;
      var q := TopTo(spans, placed[n]);
      var before := TidAll(spans, e, placed[..n], lines[..n]);
      ReadySize(spans, before);
      WalkExact(spans, q);
      ReadyConverted(spans, before, q);
      TidAllElsewhere(spans, e, placed[..n], lines[..n], x);
      SetTidPointwise(before, Walk(spans, q), lines[n], x);
    }
  }

  lemma {:induction false} ReadyKept(spans: Spans, e: seq<Option<Perfetto>>, f: seq<Option<Perfetto>>)
    requires Ready(spans, e) && |f| == |e| && forall k :: 0 <= k < |e| ==> f[k].Some? == e[k].Some?
    ensures Ready(spans, f)
  {
  }

  lemma {:induction false} ReadySize(spans: Spans, e: seq<Option<Perfetto>>)
    requires Ready(spans, e)
    ensures |e| == |spans|
  {
  }

  lemma {:induction false} UnderDeep(spans: Spans, e: seq<Option<Perfetto>>, q: seq<nat>, x: nat)
    requires Ready(spans, e) && Under(spans, q, x) && |q| == 3
    ensures Deep(spans, x) && x < |spans| && x < |e| && e[x].Some?
  {
    var r :| IsPath(spans, r) && q <= r && Last(r) == x;
    assert Deep(spans, x);
  }

  // ---------- layout steps ----------

  /** The layout steps of one request whose sorted list is `list`. */
  ghost function RootSteps(spans: Spans, times: seq<Interval>, list: seq<nat>): (r: seq<Step>)
    requires |times| == |spans| && AllLaid(spans, list)
    ensures |r| == |list|
    ensures forall k :: 0 <= k < |list| ==> r[k] == StepOf(spans, times, list[k], k == 0)
  {
    seq(|list|, k requires 0 <= k < |list| => StepOf(spans, times, list[k], k == 0))
  }

  ghost function StepOf(spans: Spans, times: seq<Interval>, x: nat, first: bool): Step
    requires |times| == |spans| && Laid(spans, x)
  {
    LaidInRange(spans, x);
    Step(first, PidTo(spans, x), times[x])
  }

  ghost function PidTo(spans: Spans, x: nat): Pid
    requires Laid(spans, x)
  {
    PidOf(spans, TopTo(spans, x))
  }

  lemma {:induction false} LaidInRange(spans: Spans, x: nat)
    requires Laid(spans, x)
    ensures x < |spans|
  {
    var q := TopTo(spans, x);
  }

  ghost predicate ListsLaid(spans: Spans, lists: seq<seq<nat>>) {
    forall a :: 0 <= a < |lists| ==> AllLaid(spans, lists[a])
  }

  ghost function StepsOf(spans: Spans, times: seq<Interval>, lists: seq<seq<nat>>): (r: seq<Step>)
    requires |times| == |spans| && ListsLaid(spans, lists)
    ensures |r| == |Flat(lists)|
  {
    if lists == [] then []
    else StepsOf(spans, times, lists[..|lists| - 1]) + RootSteps(spans, times, lists[|lists| - 1])
  }

  lemma {:induction false} StepsOfAt(spans: Spans, times: seq<Interval>, lists: seq<seq<nat>>, j: nat)
    requires |times| == |spans| && ListsLaid(spans, lists)
    requires j < |Flat(lists)|
    ensures var x := Flat(lists)[j];
            && Laid(spans, x) && x < |spans|
            && StepsOf(spans, times, lists)[j].pid == PidTo(spans, x)
            && StepsOf(spans, times, lists)[j].x == times[x]
  {
    hide Laid, PidTo;
    var n := |lists| - 1;
    if j < |Flat(lists[..n])| {
      StepsOfAt(spans, times, lists[..n], j);
    } else {
      var k := j - |Flat(lists[..n])|;
      assert Flat(lists)[j] == lists[n][k];
      assert AllLaid(spans, lists[n]);
      LaidInRange(spans, lists[n][k]);
    }
  }

  function SmgSteps(smg: seq<Interval>): (r: seq<Step>)
    ensures |r| == |smg| && forall k :: 0 <= k < |smg| ==> r[k] == Step(k == 0, Smg, smg[k])
  {
    seq(|smg|, k requires 0 <= k < |smg| => Step(k == 0, Smg, smg[k]))
  }

  function EventsAlong(e: seq<Option<Perfetto>>, order: seq<nat>): (r: seq<Perfetto>)
    requires Converted(order, e)
    ensures |r| == |order| && forall k :: 0 <= k < |order| ==> r[k] == e[order[k]].value
  {
    seq(|order|, k requires 0 <= k < |order| => e[order[k]].value)
  }

  // ---------- one more step ----------

  /** The steps depend only on the times of the spans laid out. */
  lemma {:induction false} StepsOfSame(spans: Spans, s: seq<Interval>, t: seq<Interval>, lists: seq<seq<nat>>)
    requires |s| == |t| == |spans| && ListsLaid(spans, lists)
    requires forall x :: 0 <= x < |spans| && Laid(spans, x) ==> s[x] == t[x]
    ensures StepsOf(spans, s, lists) == StepsOf(spans, t, lists)
  {
    hide Laid, PidTo, RootSteps;
    if lists != [] {
      var n := |lists| - 1;
      StepsOfSame(spans, s, t, lists[..n]);
      forall k | 0 <= k < |lists[n]| ensures RootSteps(spans, s, lists[n])[k] == RootSteps(spans, t, lists[n])[k] {
        LaidAt(spans, lists[n], k);
        LaidInRange(spans, lists[n][k]);
      }
    }
  }

  lemma {:induction false} StepsOfSnoc(spans: Spans, times: seq<Interval>, lists: seq<seq<nat>>, a: nat)
    requires |times| == |spans| && ListsLaid(spans, lists) && a < |lists|
    ensures ListsLaid(spans, lists[..a]) && ListsLaid(spans, lists[..a + 1]) && AllLaid(spans, lists[a])
    ensures StepsOf(spans, times, lists[..a + 1]) == StepsOf(spans, times, lists[..a]) + RootSteps(spans, times, lists[a])
    ensures Flat(lists[..a + 1]) == Flat(lists[..a]) + lists[a]
  {
    hide AllLaid;
    assert lists[..a + 1][..a] == lists[..a];
  }

  lemma {:induction false} LayoutNone(spans: Spans, times: seq<Interval>)
    requires |times| == |spans|
    ensures ListsLaid(spans, []) && StepsOf(spans, times, []) == [] && Flat([]) == []
    ensures Run([]) == EMPTY && Tids([]) == []
  {
  }

  lemma {:induction false} RunSnoc(steps: seq<Step>, st: Step)
    ensures Run(steps + [st]) == Apply(Run(steps), st)
    ensures Tids(steps + [st]) == Tids(steps) + [Run(steps + [st]).status[st.pid]]
  {
    hide Apply;
    assert (steps + [st])[..|steps|] == steps;
  }

  lemma {:induction false} TidNone(spans: Spans, e: seq<Option<Perfetto>>)
    requires Ready(spans, e)
    ensures AllLaid(spans, []) && TidAll(spans, e, [], []) == e
  {
  }

  lemma {:induction false} TidAllSnoc(spans: Spans, e: seq<Option<Perfetto>>, placed: seq<nat>, lines: seq<int>, s: nat, line: int)
    requires Ready(spans, e) && AllLaid(spans, placed) && |lines| == |placed| && Laid(spans, s)
    ensures AllLaid(spans, placed + [s])
    ensures Converted(Walk(spans, TopTo(spans, s)), TidAll(spans, e, placed, lines))
    ensures TidAll(spans, e, placed + [s], lines + [line]) ==
              SetTidList(TidAll(spans, e, placed, lines), Walk(spans, TopTo(spans, s)), line)
  {
    hide Ready, Walk, Laid, SetTidList;
    assert (placed + [s])[..|placed|] == placed && (lines + [line])[..|lines|] == lines;
    ReadyConverted(spans, TidAll(spans, e, placed, lines), TopTo(spans, s));
  }

  /** The events of laid-out spans name the process of their thread span. */
  ghost predicate PidsSet(spans: Spans, e: seq<Option<Perfetto>>) {
    |e| == |spans| && forall x :: 0 <= x < |spans| && Laid(spans, x) ==> e[x].Some? && e[x].value.pid == PidTo(spans, x)
  }

  lemma {:induction false} PidsKept(spans: Spans, e: seq<Option<Perfetto>>, order: seq<nat>, line: int)
    requires PidsSet(spans, e) && Converted(order, e)
    ensures PidsSet(spans, SetTidList(e, order, line))
  {
    hide Laid, PidTo;
    forall x | 0 <= x < |spans| && Laid(spans, x)
      ensures var f := SetTidList(e, order, line)[x]; f.Some? && f.value.pid == PidTo(spans, x)
    {
      SetTidPointwise(e, order, line, x);
    }
  }

  lemma {:induction false} RootStepsSnoc(spans: Spans, times: seq<Interval>, list: seq<nat>, s: nat)
    requires |times| == |spans| && AllLaid(spans, list + [s]) && s < |spans|
    ensures AllLaid(spans, list) && Laid(spans, s)
    ensures RootSteps(spans, times, list + [s]) == RootSteps(spans, times, list) + [StepOf(spans, times, s, list == [])]
  {
    hide Laid, StepOf;
    assert (list + [s])[..|list|] == list && (list + [s])[|list|] == s;
    assert forall k :: 0 <= k < |list| ==> (list + [s])[k] == list[k];
  }

  // ---------- gathering ----------

  ghost function TopList(spans: Spans, list: seq<nat>): (r: seq<seq<nat>>)
    requires AllLaid(spans, list)
    ensures |r| == |list| && forall k :: 0 <= k < |list| ==> r[k] == TopTo(spans, list[k])
    ensures Tops(spans, r)
  {
    seq(|list|, k requires 0 <= k < |list| => TopTo(spans, list[k]))
  }

  lemma {:induction false} WalksSnoc(spans: Spans, tops: seq<seq<nat>>, q: seq<nat>)
    requires Tops(spans, tops) && IsPath(spans, q) && |q| == 3
    ensures Tops(spans, tops + [q]) && Walks(spans, tops + [q]) == Walks(spans, tops) + Walk(spans, q)
  {
    hide Walk, IsPath;
    if tops == [] {
      assert tops + [q] == [q] && [q][1..] == [];
    } else {
      assert (tops + [q])[1..] == tops[1..] + [q];
      WalksSnoc(spans, tops[1..], q);
    }
  }

  lemma {:induction false} AlongConcat(e: seq<Option<Perfetto>>, a: seq<nat>, b: seq<nat>)
    requires Converted(a, e) && Converted(b, e)
    ensures Converted(a + b, e) && EventsAlong(e, a + b) == EventsAlong(e, a) + EventsAlong(e, b)
  {
  }

  lemma {:induction false} AlongNone(e: seq<Option<Perfetto>>)
    ensures Converted([], e) && EventsAlong(e, []) == []
  {
  }

  lemma {:induction false} LaidAt(spans: Spans, list: seq<nat>, k: nat)
    requires AllLaid(spans, list) && k < |list|
    ensures Laid(spans, list[k])
  {
  }

  lemma {:induction false} WalksNone(spans: Spans)
    ensures AllLaid(spans, []) && Walks(spans, TopList(spans, [])) == []
  {
  }

  lemma {:induction false} TopListSnoc(spans: Spans, list: seq<nat>, s: nat)
    requires AllLaid(spans, list) && Laid(spans, s)
    ensures AllLaid(spans, list + [s])
    ensures TopList(spans, list + [s]) == TopList(spans, list) + [TopTo(spans, s)]
    ensures Walks(spans, TopList(spans, list + [s])) == Walks(spans, TopList(spans, list)) + Walk(spans, TopTo(spans, s))
  {
    hide Walk, IsPath, Laid;
    WalksSnoc(spans, TopList(spans, list), TopTo(spans, s));
  }

  /** Gathering below every laid-out span, in any order, meets every deep span once. */
  lemma {:induction false} GatherExact(spans: Spans, list: seq<nat>)
    requires AllLaid(spans, list) && Distinct(list) && forall x :: Laid(spans, x) ==> x in list
    ensures Distinct(Walks(spans, TopList(spans, list)))
    ensures forall x :: x in Walks(spans, TopList(spans, list)) <==> Deep(spans, x)
  {
    var tops := TopList(spans, list);
    forall i, j | 0 <= i < j < |tops| ensures tops[i] != tops[j] {
      assert Last(tops[i]) == list[i] && Last(tops[j]) == list[j];
    }
    hide Walks, IsPath, Under;
    WalksExact(spans, tops, 3);
    forall x ensures x in Walks(spans, tops) <==> Deep(spans, x) {
      if q :| q in tops && Under(spans, q, x) {
        UnderIsDeep(spans, q, x);
      }
      if r :| IsPath(spans, r) && |r| >= 3 && Last(r) == x {
        DeepUnder(spans, r);
        var k :| 0 <= k < |list| && list[k] == r[2];
        PathUnique(spans, tops[k], r[..3]);
        assert r[..3] in tops;
      }
    }
  }

  lemma {:induction false} UnderIsDeep(spans: Spans, q: seq<nat>, x: nat)
    requires Under(spans, q, x) && |q| == 3
    ensures Deep(spans, x)
  {
    var r :| IsPath(spans, r) && q <= r && Last(r) == x;
  }

  lemma {:induction false} DeepUnder(spans: Spans, r: seq<nat>)
    requires IsPath(spans, r) && |r| >= 3
    ensures IsPath(spans, r[..3]) && Laid(spans, r[2]) && TopTo(spans, r[2]) == r[..3]
    ensures Under(spans, r[..3], Last(r))
  {
    PathPrefix(spans, r, 3);
    hide IsPath;
    assert Last(r[..3]) == r[2];
    assert Laid(spans, r[2]);
    PathUnique(spans, TopTo(spans, r[2]), r[..3]);
    assert r[..3] <= r;
  }

  // ---------- reordering the lists ----------

  ghost predicate SameLists(a: seq<seq<nat>>, b: seq<seq<nat>>) {
    |a| == |b| && forall k :: 0 <= k < |a| ==> multiset(a[k]) == multiset(b[k])
  }

  function Reorder<T>(lists: seq<T>, order: seq<nat>): (r: seq<T>)
    requires InRange(order, |lists|)
    ensures |r| == |order| && forall k :: 0 <= k < |order| ==> r[k] == lists[order[k]]
  {
    seq(|order|, k requires 0 <= k < |order| => lists[order[k]])
  }

  ghost predicate StartSorted(times: seq<Interval>, list: seq<nat>) {
    && InRange(list, |times|)
    && forall i, j :: 0 <= i < j < |list| ==> times[list[i]].start <= times[list[j]].start
  }

  function Starts(times: seq<Interval>): (r: seq<int>)
    ensures |r| == |times| && forall i :: 0 <= i < |times| ==> r[i] == times[i].start
  {
    seq(|times|, i requires 0 <= i < |times| => times[i].start)
  }

  /** Requests come by the start of their first span, equal ones in their first order. */
  ghost predicate RootsSorted(times: seq<Interval>, lists: seq<seq<nat>>, order: seq<nat>) {
    && InRange(order, |lists|)
    && (forall a :: 0 <= a < |lists| ==> lists[a] != [] && InRange(lists[a], |times|))
    && forall i, j :: 0 <= i < j < |order| ==>
         var s, t := times[lists[order[i]][0]].start, times[lists[order[j]][0]].start;
         s < t || (s == t && order[i] < order[j])
  }

  lemma {:induction false} SortedList(times: seq<Interval>, list: seq<nat>, starts: seq<int>)
    requires |starts| == |times| && InRange(list, |times|) && forall i :: 0 <= i < |starts| ==> starts[i] == times[i].start
    ensures StartSorted(times, SortBy(list, starts))
  {
    hide SortBy;
    SortByOrder(list, starts);
  }
}
