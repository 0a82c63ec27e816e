/** The converter itself: the span dictionaries and the loops and recursive walks that update
    them in place (scripts/convert_otel_2_perfetto.py). */
module TraceConvert {
  import Counting
  import opened Wrappers
  import opened Lanes
  import opened LaneLayout
  import opened LaneRuns
  import LaneGraph
  import opened SpanForest
  import opened TraceMarks
  import opened TraceOrders

  class Converter {
    const spans: Spans
    var child: seq<seq<nat>>
    var roots: seq<nat>
    var marks: Marks
    var rootSpans: seq<seq<nat>>

    ghost predicate Built()
      reads this
    {
      && |child| == |spans|
      && (forall p :: 0 <= p < |spans| ==> child[p] == ChildList(spans, p))
      && roots == Requests(spans, |spans|)
      && Sized(marks, |spans|)
    }

    constructor (spans: Spans)
      ensures this.spans == spans
      ensures Sized(marks, |spans|)
      ensures forall i :: 0 <= i < |spans| ==> marks.times[i] == Interval(spans[i].start, spans[i].end)
    {
      this.spans := spans;
      child, roots, rootSpans := [], [], [];
      marks := Marks(seq(|spans|, i requires 0 <= i < |spans| => Interval(spans[i].start, spans[i].end)),
                     seq(|spans|, _ => None));
    }

    /** `build_otel_span_tree`. */
    method BuildTree()
      requires Sized(marks, |spans|)
      modifies this`child, this`roots
      ensures Built()
    {
      hide Children, ChildList, IdMap, Requests, ParentOf;
      var ids := IdMap(spans);
      child := seq(|spans|, _ => []);
      roots := [];
      NothingFiled(spans);
      for i := 0 to |spans|
        invariant |child| == |spans|
        invariant forall p :: 0 <= p < |spans| ==> child[p] == Children(spans, p, i)
        invariant roots == Requests(spans, i)
      {
        FileSpan(spans, i);
        if spans[i].isRequest {
          roots := roots + [i];
        } else if spans[i].parentId in ids {
          var p := ids[spans[i].parentId];
          child := child[p := child[p] + [i]];
        }
      }
      forall p | 0 <= p < |spans| ensures child[p] == ChildList(spans, p) {
        AllFiled(spans, p);
      }
    }

    /** `__convert_to_perfetto_span`; `q` is the chain of child links that leads to span `i`. */
    method ConvertSpan(i: nat, pid: Pid, ghost q: seq<nat>)
      requires Built() && IsPath(spans, q) && Last(q) == i
      modifies this`marks
      ensures Built()
      ensures InRange(Walk(spans, q), |spans|)
      ensures marks == ConvertList(old(marks), Walk(spans, q), pid)
      decreases |spans| - |q|
    {
      hide Walk, ChildList, WalkAll;
      ghost var m0 := marks;
      WalkUnfold(spans, q);
      PathInRange(spans, q);
      marks := ConvertOne(marks, i, pid);
      var cs := child[i];
      ghost var order := [i];
      assert m0 == ConvertList(m0, [], pid) && [i][..0] == [];
      for k := 0 to |cs|
        invariant Built()
        invariant cs[..k] <= cs && Below(spans, q, cs[..k])
        invariant order == [i] + WalkAll(spans, q, cs[..k])
        invariant InRange(order, |spans|)
        invariant marks == ConvertList(m0, order, pid)
      {
        assert cs[..k + 1] == cs[..k] + [cs[k]];
        WalkAllSnoc(spans, q, cs[..k], cs[k]);
        PathBound(spans, q + [cs[k]]);
        ConvertSpan(cs[k], pid, q + [cs[k]]);
        ConvertConcat(m0, order, Walk(spans, q + [cs[k]]), pid);
        order := order + Walk(spans, q + [cs[k]]);
      }
      assert cs[..|cs|] == cs;
    }

    /** The innermost loop of `generate_perfetto_span`: the children of one thread span. */
    method ConvertThread(r: nat, t: nat, ghost m0: Marks, ghost done: seq<seq<nat>>) returns (list: seq<nat>)
      requires Built() && Sized(m0, |spans|) && IsPath(spans, [r, t])
      requires Tops(spans, done) && marks == ConvertTops(spans, m0, done)
      modifies this`marks
      ensures Built()
      ensures var now := Descend([r, t], ChildList(spans, t));
              && Tops(spans, done + now) && marks == ConvertTops(spans, m0, done + now)
              && list == Lasts(now)
    {
      hide IsPath, ChildList, Descend, Walk, ConvertTops, Tops, Lasts;
      PathInRange(spans, [r, t]);
      var cs := child[t];
      var pid := Engine(spans[t].pid);
      list := [];
      ghost var now: seq<seq<nat>> := [];
      assert done + now == done;
      LastsNone();
      DescendNone([r, t]);
      for k := 0 to |cs|
        invariant Built()
        invariant now == Descend([r, t], cs[..k])
        invariant Tops(spans, done + now) && marks == ConvertTops(spans, m0, done + now)
        invariant list == Lasts(now)
      {
        ghost var q := [r, t] + [cs[k]];
        assert cs[..k + 1] == cs[..k] + [cs[k]];
        DescendSnoc([r, t], cs[..k], cs[k]);
        PathExtend(spans, [r, t], cs[k]);
        ConvertTopsSnoc(spans, m0, done + now, q);
        LastsConcat(now, [q]);
        LastsOne(q);
        assert done + now + [q] == done + (now + [q]);
        ConvertSpan(cs[k], pid, q);
        now := now + [q];
        list := list + [cs[k]];
      }
      assert cs[..|cs|] == cs;
    }

    /** One iteration of its outer loop: the thread spans of one request. */
    method ConvertRoot(r: nat, ghost m0: Marks, ghost done: seq<seq<nat>>) returns (list: seq<nat>)
      requires Built() && Sized(m0, |spans|) && IsPath(spans, [r])
      requires Tops(spans, done) && marks == ConvertTops(spans, m0, done)
      modifies this`marks
      ensures Built()
      ensures Tops(spans, done + TopsOf(spans, r))
      ensures marks == ConvertTops(spans, m0, done + TopsOf(spans, r))
      ensures list == Lasts(TopsOf(spans, r))
    {
      hide IsPath, ChildList, Descend, DescendAll, ConvertTops, Tops, Lasts;
      PathInRange(spans, [r]);
      var ts := child[r];
      list := [];
      ghost var now: seq<seq<nat>> := [];
      ghost var qs: seq<seq<nat>> := [];
      assert done + now == done;
      LastsNone();
      DescendNone([r]);
      DescendAllNone(spans);
      for k := 0 to |ts|
        invariant Built()
        invariant qs == Descend([r], ts[..k]) && NonEmpty(qs)
        invariant now == DescendAll(spans, qs)
        invariant Tops(spans, done + now) && marks == ConvertTops(spans, m0, done + now)
        invariant list == Lasts(now)
      {
        ghost var q := [r] + [ts[k]];
        assert q == [r, ts[k]];
        assert ts[..k + 1] == ts[..k] + [ts[k]];
        DescendSnoc([r], ts[..k], ts[k]);
        PathExtend(spans, [r], ts[k]);
        DescendAllSnoc(spans, qs, q);
        var more := ConvertThread(r, ts[k], m0, done + now);
        ghost var add := Descend(q, ChildList(spans, ts[k]));
        assert done + now + add == done + (now + add);
        LastsConcat(now, add);
        qs := qs + [q];
        now := now + add;
        list := list + more;
      }
      assert ts[..|ts|] == ts;
    }

    /** `generate_perfetto_span` for the engine spans. */
    method GenerateSpans()
      requires Built()
      modifies this`marks, this`rootSpans
      ensures Built()
      ensures Tops(spans, AllTops(spans, roots))
      ensures marks == ConvertTops(spans, old(marks), AllTops(spans, roots))
      ensures |rootSpans| == |roots|
      ensures forall a :: 0 <= a < |roots| ==> rootSpans[a] == Lasts(TopsOf(spans, roots[a]))
    {
      hide IsPath, TopsOf, ConvertTops, Tops, Lasts, Requests;
      ghost var m0 := marks;
      rootSpans := [];
      ConvertNone(spans, m0);
      assert AllTops(spans, roots[..0]) == [];
      for a := 0 to |roots|
        invariant Built()
        invariant Tops(spans, AllTops(spans, roots[..a]))
        invariant marks == ConvertTops(spans, m0, AllTops(spans, roots[..a]))
        invariant |rootSpans| == a
        invariant forall b :: 0 <= b < a ==> rootSpans[b] == Lasts(TopsOf(spans, roots[b]))
      {
        RootIsPath(spans, a);
        var list := ConvertRoot(roots[a], m0, AllTops(spans, roots[..a]));
        assert roots[..a + 1][..a] == roots[..a];
        rootSpans := rootSpans + [list];
      }
      assert roots[..|roots|] == roots;
    }

    /** `__set_span_tid`. */
    method SetTid(i: nat, line: int, ghost q: seq<nat>)
      requires Built() && Ready(spans, marks.events)
      requires IsPath(spans, q) && |q| >= 3 && Last(q) == i
      modifies this`marks
      ensures Built() && Ready(spans, marks.events)
      ensures Converted(Walk(spans, q), old(marks.events))
      ensures marks == old(marks).(events := SetTidList(old(marks.events), Walk(spans, q), line))
      decreases |spans| - |q|
    {
      hide Walk, ChildList, WalkAll, Ready, SetTidList, IsPath;
      ghost var e0 := marks.events;
      ghost var times := marks.times;
      WalkUnfold(spans, q);
      PathInRange(spans, q);
      ReadyConverted(spans, e0, q);
      assert Walk(spans, q)[0] == i;
      SetTidSingle(e0, i, line);
      marks := marks.(events := SetTidOne(marks.events, i, line));
      ReadyKept(spans, e0, marks.events);
      hide Converted;
      var cs := child[i];
      ghost var order := [i];
      for k := 0 to |cs|
        invariant Built() && Ready(spans, marks.events) && marks.times == times
        invariant Below(spans, q, cs[..k])
        invariant order == [i] + WalkAll(spans, q, cs[..k])
        invariant Converted(order, e0)
        invariant marks.events == SetTidList(e0, order, line)
      {
        assert cs[..k + 1] == cs[..k] + [cs[k]];
        WalkAllSnoc(spans, q, cs[..k], cs[k]);
        PathBound(spans, q + [cs[k]]);
        ReadyConverted(spans, e0, q + [cs[k]]);
        SetTid(cs[k], line, q + [cs[k]]);
        SetTidConcat(e0, order, Walk(spans, q + [cs[k]]), line);
        order := order + Walk(spans, q + [cs[k]]);
      }
      assert cs[..|cs|] == cs;
    }

    /** `__gather_one_span`, duration events only. */
    method GatherOne(i: nat, ghost q: seq<nat>) returns (elems: seq<Perfetto>)
      requires Built() && Ready(spans, marks.events)
      requires IsPath(spans, q) && |q| >= 3 && Last(q) == i
      ensures Converted(Walk(spans, q), marks.events)
      ensures elems == EventsAlong(marks.events, Walk(spans, q))
      decreases |spans| - |q|
    {
      hide Walk, ChildList, WalkAll, Ready;
      WalkUnfold(spans, q);
      PathInRange(spans, q);
      ReadyConverted(spans, marks.events, q);
      assert Walk(spans, q)[0] == i;
      elems := [marks.events[i].value];
      var cs := child[i];
      ghost var order := [i];
      for k := 0 to |cs|
        invariant Below(spans, q, cs[..k])
        invariant order == [i] + WalkAll(spans, q, cs[..k])
        invariant Converted(order, marks.events)
        invariant elems == EventsAlong(marks.events, order)
      {
        assert cs[..k + 1] == cs[..k] + [cs[k]];
        WalkAllSnoc(spans, q, cs[..k], cs[k]);
        PathBound(spans, q + [cs[k]]);
        var more := GatherOne(cs[k], q + [cs[k]]);
        elems := elems + more;
        order := order + Walk(spans, q + [cs[k]]);
      }
      assert cs[..|cs|] == cs;
    }

    ghost predicate Laying(g: LaneGraph.Graph)
      reads this, g, g.containers
    {
      Built() && Ready(spans, marks.events) && PidsSet(spans, marks.events) && g.Valid()
    }

    /** The body of the layout loop for one engine span. */
    method PlaceSpan(g: LaneGraph.Graph, first: bool, s: nat, ghost steps: seq<Step>) returns (line: int)
      requires Laying(g) && Laid(spans, s) && s < |spans| && g.model == Run(steps)
      modifies this`marks, g, g.containers
      ensures Laying(g) && fresh(g.containers - old(g.containers))
      ensures var st := StepOf(spans, old(marks.times), s, first);
              g.model == Run(steps + [st]) && Tids(steps + [st]) == Tids(steps) + [line]
      ensures Converted(Walk(spans, TopTo(spans, s)), old(marks.events))
      ensures marks == old(marks).(events := SetTidList(old(marks.events), Walk(spans, TopTo(spans, s)), line))
    {
      hide WellFormed, Apply, Run, Tids, Walk, Ready, Laid, SetTidList;
      ghost var st := StepOf(spans, marks.times, s, first);
      RunSnoc(steps, st);
      var pid := marks.events[s].value.pid;
      line := g.Place(first, pid, marks.times[s].start, marks.times[s].end);
      ReadyConverted(spans, marks.events, TopTo(spans, s));
      PidsKept(spans, marks.events, Walk(spans, TopTo(spans, s)), line);
      SetTid(s, line, TopTo(spans, s));
    }

    /** The layout loop for one request; `steps`, `placed` and `lines` are what came before. */
    method LayOutRoot(g: LaneGraph.Graph, list: seq<nat>, ghost e0: seq<Option<Perfetto>>,
                      ghost steps: seq<Step>, ghost placed: seq<nat>, ghost lines: seq<int>)
      returns (now: seq<int>)
      requires Laying(g) && AllLaid(spans, list) && g.model == Run(steps) && lines == Tids(steps)
      requires Ready(spans, e0) && AllLaid(spans, placed) && |lines| == |placed|
      requires marks.events == TidAll(spans, e0, placed, lines)
      modifies this`marks, g, g.containers
      ensures Laying(g) && fresh(g.containers - old(g.containers))
      ensures marks.times == old(marks.times) && |now| == |list|
      ensures var more := RootSteps(spans, marks.times, list);
              g.model == Run(steps + more) && lines + now == Tids(steps + more)
      ensures AllLaid(spans, placed + list) && marks.events == TidAll(spans, e0, placed + list, lines + now)
    {
      hide Run, Tids, Walk, Ready, PidsSet, Laid, SetTidList, TidAll, RootSteps, StepOf;
      now := [];
      ghost var done: seq<nat> := [];
      ghost var more: seq<Step> := [];
      assert steps + more == steps && placed + done == placed && lines + now == lines;
      assert RootSteps(spans, marks.times, done) == [];
      for k := 0 to |list|
        invariant Laying(g) && fresh(g.containers - old(g.containers))
        invariant marks.times == old(marks.times) && |now| == k
        invariant done == list[..k] && AllLaid(spans, done)
        invariant more == RootSteps(spans, marks.times, done)
        invariant g.model == Run(steps + more) && lines + now == Tids(steps + more)
        invariant AllLaid(spans, placed + done)
        invariant marks.events == TidAll(spans, e0, placed + done, lines + now)
      {
        var s := list[k];
        LaidInRange(spans, s);
        assert list[..k + 1] == done + [s];
        RootStepsSnoc(spans, marks.times, done, s);
        ghost var st := StepOf(spans, marks.times, s, k == 0);
        var line := PlaceSpan(g, k == 0, s, steps + more);
        TidAllSnoc(spans, e0, placed + done, lines + now, s, line);
        assert (steps + more) + [st] == steps + (more + [st]);
        assert (placed + done) + [s] == placed + (done + [s]);
        assert (lines + now) + [line] == lines + (now + [line]);
        done, more, now := done + [s], more + [st], now + [line];
      }
      assert list[..|list|] == list;
    }

    /** `generate_perfetto_span_layout` for the engine spans, once the lists are sorted. */
    method LayOut(g: LaneGraph.Graph, lists: seq<seq<nat>>) returns (lines: seq<int>)
      requires Laying(g) && g.model == EMPTY
      requires ListsLaid(spans, lists)
      modifies this`marks, g, g.containers
      ensures Laying(g) && fresh(g.containers - old(g.containers))
      ensures marks.times == old(marks.times)
      ensures var steps := StepsOf(spans, marks.times, lists);
              g.model == Run(steps) && lines == Tids(steps)
      ensures Ready(spans, old(marks.events)) && AllLaid(spans, Flat(lists))
      ensures marks.events == TidAll(spans, old(marks.events), Flat(lists), lines)
    {
      hide Ready, PidsSet, AllLaid, TidAll, RootSteps, StepsOf, Flat, Run, Tids, ListsLaid;
      lines := [];
      ghost var e0 := marks.events;
      ghost var steps: seq<Step> := [];
      ghost var placed: seq<nat> := [];
      TidNone(spans, e0);
      LayoutNone(spans, marks.times);
      for a := 0 to |lists|
        invariant Laying(g) && fresh(g.containers - old(g.containers))
        invariant marks.times == old(marks.times)
        invariant ListsLaid(spans, lists[..a])
        invariant steps == StepsOf(spans, marks.times, lists[..a]) && placed == Flat(lists[..a])
        invariant g.model == Run(steps) && lines == Tids(steps) && |lines| == |placed|
        invariant AllLaid(spans, placed) && marks.events == TidAll(spans, e0, placed, lines)
      {
        StepsOfSnoc(spans, marks.times, lists, a);
        var now := LayOutRoot(g, lists[a], e0, steps, placed, lines);
        steps := steps + RootSteps(spans, marks.times, lists[a]);
        placed, lines := placed + lists[a], lines + now;
      }
      assert lists[..|lists|] == lists;
    }

    /** The two sorts before the layout loop. The key of a request is the start of its first
        span, which does not exist when the request has no span to lay out. */
    method SortRoots() returns (r: Result<seq<nat>, string>)
      requires Built() && |rootSpans| == |roots|
      requires forall a :: 0 <= a < |rootSpans| ==> InRange(rootSpans[a], |spans|)
      modifies this`rootSpans
      ensures SameLists(old(rootSpans), rootSpans)
      ensures forall a :: 0 <= a < |rootSpans| ==>
                StartSorted(marks.times, rootSpans[a]) && TiesKept(old(rootSpans)[a], rootSpans[a], Starts(marks.times))
      ensures r.Failure? <==> [] in old(rootSpans)
      ensures r.Success? ==> multiset(r.value) == multiset(Counting.Upto(|rootSpans|))
      ensures r.Success? ==> RootsSorted(marks.times, rootSpans, r.value)
    {
      hide TiesKept, StartSorted;
      var starts := Starts(marks.times);
      SortLists(starts);
      r := OrderRoots(starts);
    }

    method SortLists(starts: seq<int>)
      requires |starts| == |marks.times| == |spans| && forall i :: 0 <= i < |starts| ==> starts[i] == marks.times[i].start
      requires forall a :: 0 <= a < |rootSpans| ==> InRange(rootSpans[a], |spans|)
      modifies this`rootSpans
      ensures SameLists(old(rootSpans), rootSpans)
      ensures forall a :: 0 <= a < |rootSpans| ==> InRange(rootSpans[a], |spans|) && StartSorted(marks.times, rootSpans[a])
      ensures forall a :: 0 <= a < |rootSpans| ==> TiesKept(old(rootSpans)[a], rootSpans[a], starts)
    {
      hide SortBy, StartSorted, TiesKept;
      ghost var before := rootSpans;
      var a := 0;
      while a < |rootSpans|
        invariant 0 <= a <= |rootSpans| == |before|
        invariant forall b :: 0 <= b < a ==> multiset(before[b]) == multiset(rootSpans[b]) && StartSorted(marks.times, rootSpans[b])
        invariant forall b :: 0 <= b < a ==> TiesKept(before[b], rootSpans[b], starts)
        invariant forall b :: 0 <= b < |before| ==> InRange(rootSpans[b], |spans|)
        invariant forall b :: a <= b < |before| ==> before[b] == rootSpans[b]
      {
        SortedList(marks.times, rootSpans[a], starts);
        SortKeepsTies(rootSpans[a], starts);
        rootSpans := rootSpans[a := SortBy(rootSpans[a], starts)];
        a := a + 1;
      }
    }

    method OrderRoots(starts: seq<int>) returns (r: Result<seq<nat>, string>)
      requires |starts| == |marks.times| == |spans| && forall i :: 0 <= i < |starts| ==> starts[i] == marks.times[i].start
      requires forall a :: 0 <= a < |rootSpans| ==> InRange(rootSpans[a], |spans|)
      ensures r.Failure? <==> [] in rootSpans
      ensures r.Success? ==> multiset(r.value) == multiset(Counting.Upto(|rootSpans|))
      ensures r.Success? ==> RootsSorted(marks.times, rootSpans, r.value)
    {
      hide SortBy;
      var keys := [];
      for b := 0 to |rootSpans|
        invariant |keys| == b
        invariant forall k :: 0 <= k < b ==> rootSpans[k] != [] && keys[k] == starts[rootSpans[k][0]]
      {
        if rootSpans[b] == [] { return Failure("list index out of range"); }
        keys := keys + [starts[rootSpans[b][0]]];
      }
      var order := SortBy(Counting.Upto(|rootSpans|), keys);
      SortByTies(Counting.Upto(|rootSpans|), keys);
      r := Success(order);
    }

    /** The engine part of `gather_all_perfetto_elems`. */
    method GatherAll() returns (elems: seq<Perfetto>)
      requires Built() && Ready(spans, marks.events)
      requires ListsLaid(spans, rootSpans)
      ensures AllLaid(spans, Flat(rootSpans))
      ensures var order := Walks(spans, TopList(spans, Flat(rootSpans)));
              Converted(order, marks.events) && elems == EventsAlong(marks.events, order)
    {
      hide Ready, Walks, Walk, Laid, TopTo, TopList, AllLaid, Converted, EventsAlong;
      elems := [];
      ghost var list: seq<nat> := [];
      WalksNone(spans);
      AlongNone(marks.events);
      for a := 0 to |rootSpans|
        invariant list == Flat(rootSpans[..a]) && AllLaid(spans, list)
        invariant Converted(Walks(spans, TopList(spans, list)), marks.events)
        invariant elems == EventsAlong(marks.events, Walks(spans, TopList(spans, list)))
      {
        assert rootSpans[..a + 1][..a] == rootSpans[..a];
        ghost var before := list;
        for k := 0 to |rootSpans[a]|
          invariant list == before + rootSpans[a][..k] && AllLaid(spans, list)
          invariant Converted(Walks(spans, TopList(spans, list)), marks.events)
          invariant elems == EventsAlong(marks.events, Walks(spans, TopList(spans, list)))
        {
          var s := rootSpans[a][k];
          LaidAt(spans, rootSpans[a], k);
          TopListSnoc(spans, list, s);
          var more := GatherOne(s, TopTo(spans, s));
          AlongConcat(marks.events, Walks(spans, TopList(spans, list)), Walk(spans, TopTo(spans, s)));
          elems := elems + more;
          assert list + [s] == before + rootSpans[a][..k + 1];
          list := list + [s];
        }
        assert rootSpans[a][..|rootSpans[a]|] == rootSpans[a];
      }
      assert rootSpans[..|rootSpans|] == rootSpans;
    }
  }

  /** The last loop of `generate_perfetto_span_layout`: the gateway's spans, sorted by start. */
  method LayOutSmg(g: LaneGraph.Graph, smg: seq<Interval>, ghost steps: seq<Step>) returns (lines: seq<int>)
    requires g.Valid() && g.model == Run(steps)
    modifies g, g.containers
    ensures g.Valid() && g.model == Run(steps + SmgSteps(smg))
    ensures |lines| == |smg| && Tids(steps + SmgSteps(smg)) == Tids(steps) + lines
  {
    hide Run, Tids, WellFormed, Apply;
    lines := [];
    ghost var done: seq<Step> := [];
    assert steps + done == steps && Tids(steps) + lines == Tids(steps);
    for k := 0 to |smg|
      invariant g.Valid() && fresh(g.containers - old(g.containers))
      invariant done == SmgSteps(smg)[..k] && |lines| == k
      invariant g.model == Run(steps + done) && Tids(steps + done) == Tids(steps) + lines
    {
      ghost var st := Step(k == 0, Smg, smg[k]);
      RunSnoc(steps + done, st);
      assert (steps + done) + [st] == steps + (done + [st]);
      var line := g.Place(k == 0, Smg, smg[k].start, smg[k].end);
      lines := lines + [line];
      done := done + [st];
      assert Tids(steps + done) == Tids(steps) + lines;
    }
    assert SmgSteps(smg)[..|smg|] == SmgSteps(smg);
  }
}
