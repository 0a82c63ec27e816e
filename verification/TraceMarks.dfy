/** What the converter writes into the span dictionaries, as functions of the visiting order:
    trimmed times, duration events and lane numbers. */
module TraceMarks {
  import opened Wrappers
  import opened Lanes
  import opened LaneLayout
  import opened SpanForest

  /** A duration event. `src` stands for the name and attributes copied from a span; times are
      in nanoseconds, before the division by 1000 for output. */
  datatype Perfetto = Perfetto(src: nat, ts: int, dur: int, pid: Pid, tid: int)

  const TRIM := 1000

  /** The mutable part of the spans: their times and their "perfetto_span". */
  datatype Marks = Marks(times: seq<Interval>, events: seq<Option<Perfetto>>)

  predicate Sized(m: Marks, n: nat) {
    |m.times| == n && |m.events| == n
  }

  predicate InRange(order: seq<nat>, n: nat) {
    forall k :: 0 <= k < |order| ==> order[k] < n
  }

  predicate Converted(order: seq<nat>, e: seq<Option<Perfetto>>) {
    forall k :: 0 <= k < |order| ==> order[k] < |e| && e[order[k]].Some?
  }

  function Trimmed(x: Interval): Interval {
    Interval(x.start, x.end - TRIM)
  }

  function EventOf(i: nat, x: Interval, pid: Pid, tid: int): Perfetto {
    Perfetto(i, x.start, x.end - x.start, pid, tid)
  }

  /** `__convert_to_perfetto_span` at one span: the end is trimmed in place. */
  function ConvertOne(m: Marks, i: nat, pid: Pid): (r: Marks)
    requires Sized(m, |m.times|) && i < |m.times|
    ensures Sized(r, |m.times|)
  {
    var x := Trimmed(m.times[i]);
    Marks(m.times[i := x], m.events[i := Some(EventOf(i, x, pid, 0))])
  }

  ghost function ConvertList(m: Marks, order: seq<nat>, pid: Pid): (r: Marks)
    requires Sized(m, |m.times|) && InRange(order, |m.times|)
    ensures Sized(r, |m.times|)
  {
    if order == [] then m
    else ConvertOne(ConvertList(m, order[..|order| - 1], pid), order[|order| - 1], pid)
  }

  lemma {:induction false} ConvertConcat(m: Marks, a: seq<nat>, b: seq<nat>, pid: Pid)
    requires Sized(m, |m.times|)
    requires InRange(a, |m.times|) && InRange(b, |m.times|)
    ensures ConvertList(m, a + b, pid) == ConvertList(ConvertList(m, a, pid), b, pid)
  {
    if b == [] {
      assert a + b == a;
    } else {
      var n := |b| - 1;
      assert (a + b)[..|a + b| - 1] == a + b[..n];
      ConvertConcat(m, a, b[..n], pid);
    }
  }

  /** Converting a list without repetitions trims each of its spans once and no other. */
  lemma {:induction false} ConvertPointwise(m: Marks, order: seq<nat>, pid: Pid, x: nat)
    requires Sized(m, |m.times|) && InRange(order, |m.times|)
    requires Distinct(order) && x < |m.times|
    ensures var r := ConvertList(m, order, pid);
            if x in order
            then r.times[x] == Trimmed(m.times[x]) && r.events[x] == Some(EventOf(x, r.times[x], pid, 0))
            else r.times[x] == m.times[x] && r.events[x] == m.events[x]
  {
    if order != [] {
      var n := |order| - 1;
      var pre := order[..n];
      ConvertPointwise(m, pre, pid, x);
      assert x in order <==> x in pre || x == order[n];
      assert order[n] !in pre;
    }
  }

  ghost predicate Tops(spans: Spans, tops: seq<seq<nat>>) {
    AllPaths(spans, tops) && forall k :: 0 <= k < |tops| ==> |tops[k]| == 3
  }

  /** The process of a laid-out span is read from its thread span. */
  function PidOf(spans: Spans, q: seq<nat>): Pid
    requires |q| == 3 && q[1] < |spans|
  {
    Engine(spans[q[1]].pid)
  }

  lemma {:induction false} WalkInRange(spans: Spans, q: seq<nat>)
    requires IsPath(spans, q)
    ensures InRange(Walk(spans, q), |spans|)
  {
    hide Walk;
    WalkExact(spans, q);
    var w := Walk(spans, q);
    forall k | 0 <= k < |w| ensures w[k] < |spans| {
      assert w[k] in w;
    }
  }

  /** `generate_perfetto_span`: convert below every laid-out span in turn. */
  ghost function ConvertTops(spans: Spans, m: Marks, tops: seq<seq<nat>>): (r: Marks)
    requires Sized(m, |spans|) && Tops(spans, tops)
    ensures Sized(r, |spans|)
  {
    if tops == [] then m
    else
      var n := |tops| - 1;
      assert tops[n] in tops && IsPath(spans, tops[n][..2]) by { PathPrefix(spans, tops[n], 2); }
      WalkInRange(spans, tops[n]);
      ConvertList(ConvertTops(spans, m, tops[..n]), Walk(spans, tops[n]), PidOf(spans, tops[n]))
  }

  /** No span is trimmed twice: below a laid-out span `q` of the list the end is moved by 1000
      exactly once and the event carries the resulting duration; everything else is untouched. */
  lemma {:induction false} ConvertTopsPointwise(spans: Spans, m: Marks, tops: seq<seq<nat>>, x: nat)
    requires Sized(m, |spans|) && Tops(spans, tops) && Distinct(tops) && x < |spans|
    ensures var r := ConvertTops(spans, m, tops);
            && (forall q :: q in tops && Under(spans, q, x) ==>
                  r.times[x] == Trimmed(m.times[x]) &&
                  r.events[x] == Some(EventOf(x, r.times[x], PidOf(spans, q), 0)))
            && ((forall q :: q in tops ==> !Under(spans, q, x)) ==>
                  r.times[x] == m.times[x] && r.events[x] == m.events[x])
  {
    if tops != [] {
      var n := |tops| - 1;
      var pre, q := tops[..n], tops[n];
      assert q in tops && q !in pre && forall p :: p in tops <==> p in pre || p == q;
      assert Distinct(pre);
      hide IsPath, Under, Walk, Distinct;
      ConvertTopsPointwise(spans, m, pre, x);
      WalkExact(spans, q);
      WalkInRange(spans, q);
      ConvertPointwise(ConvertTops(spans, m, pre), Walk(spans, q), PidOf(spans, q), x);
      if Under(spans, q, x) {
        forall p | p in pre ensures !Under(spans, p, x) {
          if Under(spans, p, x) { UnderUnique(spans, p, q, x); }
        }
      }
    }
  }

  // ---------- lane numbers ----------

  function SetTidOne(e: seq<Option<Perfetto>>, i: nat, line: int): (r: seq<Option<Perfetto>>)
    requires i < |e| && e[i].Some?
    ensures |r| == |e| && forall k :: 0 <= k < |e| ==> r[k].Some? == e[k].Some?
  {
    e[i := Some(e[i].value.(tid := line))]
  }

  /** `__set_span_tid` along a visiting order. */
  ghost function SetTidList(e: seq<Option<Perfetto>>, order: seq<nat>, line: int): (r: seq<Option<Perfetto>>)
    requires Converted(order, e)
    ensures |r| == |e| && forall k :: 0 <= k < |e| ==> r[k].Some? == e[k].Some?
  {
    if order == [] then e
    else SetTidOne(SetTidList(e, order[..|order| - 1], line), order[|order| - 1], line)
  }

  lemma {:induction false} SetTidConcat(e: seq<Option<Perfetto>>, a: seq<nat>, b: seq<nat>, line: int)
    requires Converted(a, e)
    requires Converted(b, e)
    ensures Converted(a + b, e)
    ensures SetTidList(e, a + b, line) == SetTidList(SetTidList(e, a, line), b, line)
  {
    if b == [] {
      assert a + b == a;
    } else {
      var n := |b| - 1;
      assert (a + b)[..|a + b| - 1] == a + b[..n];
      SetTidConcat(e, a, b[..n], line);
    }
  }

  lemma {:induction false} SetTidSingle(e: seq<Option<Perfetto>>, i: nat, line: int)
    requires i < |e| && e[i].Some?
    ensures Converted([i], e) && SetTidList(e, [i], line) == SetTidOne(e, i, line)
  {
    assert [i][..0] == [];
  }

  lemma {:induction false} SetTidPointwise(e: seq<Option<Perfetto>>, order: seq<nat>, line: int, x: nat)
    requires Converted(order, e) && x < |e|
    ensures SetTidList(e, order, line)[x] == if x in order then Some(e[x].value.(tid := line)) else e[x]
  {
    if order != [] {
      var n := |order| - 1;
      SetTidPointwise(e, order[..n], line, x);
      assert x in order <==> x in order[..n] || x == order[n];
    }
  }
}
