/** The whole conversion (scripts/convert_otel_2_perfetto.py, `main`), from parsed spans to
    duration events. */
module TraceMain {
  import Counting
  import opened Wrappers
  import opened Lanes
  import opened LaneLayout
  import opened LaneRuns
  import opened LaneOptimality
  import LaneGraph
  import opened SpanForest
  import opened TraceMarks
  import opened TraceOrders
  import opened TraceConvert
  import opened TraceOutput

  ghost predicate HasLaid(spans: Spans, r: nat) {
    exists x :: Laid(spans, x) && TopTo(spans, x)[0] == r
  }

  /** `list` holds the spans to lay out for the request `r`, each once. */
  ghost predicate OneRequest(spans: Spans, r: nat, list: seq<nat>) {
    Distinct(list) && forall x :: x in list <==> Laid(spans, x) && TopTo(spans, x)[0] == r
  }

  /** One list per request. */
  ghost predicate Grouped(spans: Spans, roots: seq<nat>, lists: seq<seq<nat>>) {
    && |lists| == |roots| && Distinct(roots)
    && (forall r: nat :: r in roots <==> r < |spans| && spans[r].isRequest)
    && forall a :: 0 <= a < |lists| ==> OneRequest(spans, roots[a], lists[a])
  }

  lemma {:induction false} CollectedGrouped(spans: Spans, roots: seq<nat>, lists: seq<seq<nat>>)
    requires roots == Requests(spans, |spans|) && |lists| == |roots|
    requires forall a :: 0 <= a < |roots| ==> lists[a] == Lasts(TopsOf(spans, roots[a]))
    ensures Grouped(spans, roots, lists)
  {
    hide Lasts, TopsOf, Laid, Requests;
    forall a | 0 <= a < |lists| ensures OneRequest(spans, roots[a], lists[a]) {
      RootIsPath(spans, a);
      RootListExact(spans, roots[a]);
    }
    RequestsAscending(spans, |spans|);
    forall r: nat ensures r in roots <==> r < |spans| && spans[r].isRequest {
      RequestMember(spans, |spans|, r);
    }
  }

  lemma {:induction false} GroupedCovered(spans: Spans, roots: seq<nat>, lists: seq<seq<nat>>)
    requires Grouped(spans, roots, lists)
    ensures Covered(spans, lists) && forall a :: 0 <= a < |lists| ==> InRange(lists[a], |spans|)
  {
    hide Laid;
    forall a, k | 0 <= a < |lists| && 0 <= k < |lists[a]| ensures Laid(spans, lists[a][k]) && lists[a][k] < |spans| {
      assert lists[a][k] in lists[a];
      LaidInRange(spans, lists[a][k]);
    }
    forall x | Laid(spans, x) ensures exists a :: 0 <= a < |lists| && x in lists[a] {
      LaidRoot(spans, x);
      var a :| 0 <= a < |roots| && roots[a] == TopTo(spans, x)[0];
      assert x in lists[a];
    }
  }

  lemma {:induction false} GroupedEmpty(spans: Spans, roots: seq<nat>, lists: seq<seq<nat>>)
    requires Grouped(spans, roots, lists)
    ensures [] in lists <==> exists r :: 0 <= r < |spans| && spans[r].isRequest && !HasLaid(spans, r)
  {
    hide HasLaid, Distinct, OneRequest;
    forall a | 0 <= a < |lists| ensures lists[a] == [] <==> !HasLaid(spans, roots[a]) {
      ListEmpty(spans, roots[a], lists[a]);
    }
    if [] in lists {
      var a :| 0 <= a < |lists| && lists[a] == [];
      assert roots[a] in roots;
    }
    if r: nat :| r < |spans| && spans[r].isRequest && !HasLaid(spans, r) {
      var a :| 0 <= a < |roots| && roots[a] == r;
      assert lists[a] in lists;
    }
  }

  lemma {:induction false} ListEmpty(spans: Spans, r: nat, list: seq<nat>)
    requires OneRequest(spans, r, list)
    ensures list == [] <==> !HasLaid(spans, r)
  {
    hide Laid, Distinct;
    if list != [] { assert list[0] in list; }
  }

  lemma {:induction false} SortedGrouped(spans: Spans, roots: seq<nat>, before: seq<seq<nat>>, after: seq<seq<nat>>)
    requires Grouped(spans, roots, before) && SameLists(before, after)
    ensures Grouped(spans, roots, after) && |before| == |after| == |roots|
  {
    hide Laid;
    forall a | 0 <= a < |after| ensures OneRequest(spans, roots[a], after[a]) {
      SameItems(before[a], after[a]);
    }
  }

  lemma {:induction false} ReorderGrouped(spans: Spans, roots: seq<nat>, lists: seq<seq<nat>>, order: seq<nat>)
    requires Grouped(spans, roots, lists) && multiset(order) == multiset(Counting.Upto(|lists|))
    ensures InRange(order, |lists|) && Grouped(spans, Reorder(roots, order), Reorder(lists, order))
  {
    hide Laid, OneRequest;
    SameItems(Counting.Upto(|lists|), order);
    forall k | 0 <= k < |order| ensures order[k] < |lists| {
      assert order[k] in order;
    }
    var r := Reorder(roots, order);
    forall q: nat ensures q in r <==> q in roots {
      if q in roots {
        var a :| 0 <= a < |roots| && roots[a] == q;
        assert Counting.Upto(|lists|)[a] == a && a in order;
        var k :| 0 <= k < |order| && order[k] == a;
        assert r[k] == q;
      }
    }
  }

  function TrimmedTimes(spans: Spans): (t: seq<Interval>)
    ensures |t| == |spans| && forall i :: 0 <= i < |spans| ==> t[i] == TrimmedTime(spans, i)
  {
    seq(|spans|, i requires 0 <= i < |spans| => TrimmedTime(spans, i))
  }

  /** A request's spans come by start, and the requests by the start of their first span. */
  ghost predicate StartOrdered(times: seq<Interval>, lists: seq<seq<nat>>) {
    && (forall a :: 0 <= a < |lists| ==> lists[a] != [] && StartSorted(times, lists[a]))
    && forall a, b :: 0 <= a < b < |lists| ==> times[lists[a][0]].start <= times[lists[b][0]].start
  }

  lemma {:induction false} ReorderOrdered(times: seq<Interval>, lists: seq<seq<nat>>, order: seq<nat>)
    requires RootsSorted(times, lists, order) && forall a :: 0 <= a < |lists| ==> StartSorted(times, lists[a])
    ensures StartOrdered(times, Reorder(lists, order))
  {
  }

  /** Ties are broken as the sorts leave them: requests by their place in the input, a request's
      spans by the order in which they were collected. */
  ghost predicate TiesInOrder(spans: Spans, roots: seq<nat>, lists: seq<seq<nat>>) {
    && |roots| == |lists|
    && (forall a :: 0 <= a < |lists| ==> TiesCollected(spans, roots[a], lists[a]))
    && forall a, b :: 0 <= a < b < |lists| && SameFirst(spans, lists[a], lists[b]) ==> roots[a] < roots[b]
  }

  ghost predicate SameFirst(spans: Spans, s: seq<nat>, t: seq<nat>) {
    s != [] && t != [] && s[0] < |spans| && t[0] < |spans| && spans[s[0]].start == spans[t[0]].start
  }

  ghost predicate TiesCollected(spans: Spans, r: nat, list: seq<nat>) {
    IsPath(spans, [r]) && TiesKept(Lasts(TopsOf(spans, r)), list, Starts(TrimmedTimes(spans)))
  }

  lemma {:induction false} ReorderTies(spans: Spans, m0: Marks, roots: seq<nat>, collected: seq<seq<nat>>,
                                       lists: seq<seq<nat>>, order: seq<nat>)
    requires Sized(m0, |spans|)
    requires forall i :: 0 <= i < |spans| ==> m0.times[i] == Interval(spans[i].start, spans[i].end)
    requires Tops(spans, AllTops(spans, Requests(spans, |spans|))) && roots == Requests(spans, |spans|)
    requires |collected| == |lists| == |roots| && InRange(order, |lists|)
    requires forall a :: 0 <= a < |roots| ==> collected[a] == Lasts(TopsOf(spans, roots[a]))
    requires ListsLaid(spans, collected) && ListsLaid(spans, lists)
    requires var times := ConvertTops(spans, m0, AllTops(spans, roots)).times;
             && RootsSorted(times, lists, order)
             && forall a :: 0 <= a < |lists| ==> TiesKept(collected[a], lists[a], Starts(times))
    ensures TiesInOrder(spans, Reorder(roots, order), Reorder(lists, order))
  {
    hide ConvertTops, AllTops, Requests, TopsOf, Lasts, Laid, TiesKept, IsPath, AllLaid;
    var times := ConvertTops(spans, m0, AllTops(spans, roots)).times;
    RequestsAscending(spans, |spans|);
    forall a | 0 <= a < |lists| ensures TiesCollected(spans, roots[a], lists[a]) {
      RootIsPath(spans, a);
      CollectedTies(spans, m0, collected[a], lists[a]);
    }
    forall a, b | 0 <= a < b < |order| && SameFirst(spans, lists[order[a]], lists[order[b]])
      ensures roots[order[a]] < roots[order[b]]
    {
      LaidStart(spans, m0, lists[order[a]], 0);
      LaidStart(spans, m0, lists[order[b]], 0);
    }
  }

  lemma {:induction false} LaidStart(spans: Spans, m0: Marks, list: seq<nat>, i: nat)
    requires Sized(m0, |spans|) && AllLaid(spans, list) && i < |list|
    requires forall i :: 0 <= i < |spans| ==> m0.times[i] == Interval(spans[i].start, spans[i].end)
    ensures Tops(spans, AllTops(spans, Requests(spans, |spans|))) && list[i] < |spans|
    ensures ConvertTops(spans, m0, AllTops(spans, Requests(spans, |spans|))).times[list[i]].start == spans[list[i]].start
  {
    hide ConvertTops, AllTops, Laid;
    LaidAt(spans, list, i);
    ConvertedTimes(spans, m0, list[i]);
  }

  lemma {:induction false} CollectedTies(spans: Spans, m0: Marks, a: seq<nat>, b: seq<nat>)
    requires Sized(m0, |spans|) && AllLaid(spans, a) && AllLaid(spans, b)
    requires forall i :: 0 <= i < |spans| ==> m0.times[i] == Interval(spans[i].start, spans[i].end)
    requires Tops(spans, AllTops(spans, Requests(spans, |spans|)))
    requires TiesKept(a, b, Starts(ConvertTops(spans, m0, AllTops(spans, Requests(spans, |spans|))).times))
    ensures TiesKept(a, b, Starts(TrimmedTimes(spans)))
  {
    hide ConvertTops, AllTops, Laid, TiesKept, AllLaid;
    var s, t := Starts(ConvertTops(spans, m0, AllTops(spans, Requests(spans, |spans|))).times), Starts(TrimmedTimes(spans));
    forall i | 0 <= i < |a| ensures a[i] < |spans| && s[a[i]] == t[a[i]] { LaidStart(spans, m0, a, i); }
    forall i | 0 <= i < |b| ensures b[i] < |spans| && s[b[i]] == t[b[i]] { LaidStart(spans, m0, b, i); }
    TiesSame(a, b, s, t);
  }

  lemma {:induction false} SameOrdered(spans: Spans, s: seq<Interval>, t: seq<Interval>, lists: seq<seq<nat>>)
    requires ListsLaid(spans, lists) && |s| == |t| == |spans| && StartOrdered(s, lists)
    requires forall x :: 0 <= x < |spans| && Laid(spans, x) ==> s[x] == t[x]
    ensures StartOrdered(t, lists)
  {
    hide Laid;
    forall a, i | 0 <= a < |lists| && 0 <= i < |lists[a]| ensures s[lists[a][i]] == t[lists[a][i]] {
      LaidAt(spans, lists[a], i);
    }
  }

  lemma {:induction false} LaidRoot(spans: Spans, x: nat)
    requires Laid(spans, x)
    ensures TopTo(spans, x)[0] < |spans| && spans[TopTo(spans, x)[0]].isRequest
  {
  }

  ghost predicate Covered(spans: Spans, lists: seq<seq<nat>>) {
    Apart(lists) && ListsLaid(spans, lists) && forall x :: Laid(spans, x) ==> exists a :: 0 <= a < |lists| && x in lists[a]
  }

  lemma {:induction false} FlatPlaced(spans: Spans, lists: seq<seq<nat>>)
    requires Covered(spans, lists)
    ensures TopsPlaced(spans, Flat(lists))
  {
    hide Laid, Flat;
    FlatExact(lists);
    var f := Flat(lists);
    forall k | 0 <= k < |f| ensures Laid(spans, f[k]) {
      assert f[k] in f;
      var a :| 0 <= a < |lists| && f[k] in lists[a];
      var i :| 0 <= i < |lists[a]| && lists[a][i] == f[k];
      LaidAt(spans, lists[a], i);
    }
  }

  /** The steps of the engine's layout loop. */
  ghost function EngineSteps(spans: Spans, lists: seq<seq<nat>>): (r: seq<Step>)
    requires ListsLaid(spans, lists)
    ensures |r| == |Flat(lists)|
  {
    StepsOf(spans, TrimmedTimes(spans), lists)
  }

  lemma {:induction false} StepsLaidOut(spans: Spans, lists: seq<seq<nat>>)
    requires Covered(spans, lists)
    ensures LaidOut(spans, EngineSteps(spans, lists), Flat(lists))
  {
    hide StepsOf, Flat, Laid;
    FlatPlaced(spans, lists);
    var f := Flat(lists);
    forall j | 0 <= j < |f|
      ensures f[j] < |spans| && EngineSteps(spans, lists)[j].pid == PidTo(spans, f[j])
      ensures EngineSteps(spans, lists)[j].x == TrimmedTime(spans, f[j])
    {
      StepsOfAt(spans, TrimmedTimes(spans), lists, j);
    }
  }

  /** The times the layout loop reads are the trimmed ones. */
  lemma {:induction false} ConvertedTimes(spans: Spans, m0: Marks, x: nat)
    requires Sized(m0, |spans|) && Laid(spans, x)
    requires forall i :: 0 <= i < |spans| ==> m0.times[i] == Interval(spans[i].start, spans[i].end)
    ensures x < |spans| && Tops(spans, AllTops(spans, Requests(spans, |spans|)))
    ensures ConvertTops(spans, m0, AllTops(spans, Requests(spans, |spans|))).times[x] == TrimmedTimes(spans)[x]
  {
    hide ConvertTops, AllTops;
    LaidPath(spans, x);
    ConvertedEvent(spans, m0, x);
  }

  lemma {:induction false} ConvertedSteps(spans: Spans, m0: Marks, lists: seq<seq<nat>>)
    requires Sized(m0, |spans|) && ListsLaid(spans, lists)
    requires forall i :: 0 <= i < |spans| ==> m0.times[i] == Interval(spans[i].start, spans[i].end)
    ensures Tops(spans, AllTops(spans, Requests(spans, |spans|)))
    ensures var m := ConvertTops(spans, m0, AllTops(spans, Requests(spans, |spans|)));
            && StepsOf(spans, m.times, lists) == EngineSteps(spans, lists)
            && (StartOrdered(m.times, lists) ==> StartOrdered(TrimmedTimes(spans), lists))
  {
    hide ConvertTops, AllTops, Laid, StepsOf, StartOrdered;
    ConvertedReady(spans, m0);
    var m := ConvertTops(spans, m0, AllTops(spans, Requests(spans, |spans|)));
    forall x | 0 <= x < |spans| && Laid(spans, x) ensures m.times[x] == TrimmedTimes(spans)[x] {
      ConvertedTimes(spans, m0, x);
    }
    StepsOfSame(spans, m.times, TrimmedTimes(spans), lists);
    if StartOrdered(m.times, lists) { SameOrdered(spans, m.times, TrimmedTimes(spans), lists); }
  }

  /** The events of a run: converted, laid out as `lists` says and gathered below `list`. */
  ghost predicate Produced(spans: Spans, m0: Marks, lists: seq<seq<nat>>, list: seq<nat>, lines: seq<int>,
                           order: seq<nat>, elems: seq<Perfetto>)
  {
    && Sized(m0, |spans|) && Covered(spans, lists) && TopsPlaced(spans, list)
    && (forall i :: 0 <= i < |spans| ==> m0.times[i] == Interval(spans[i].start, spans[i].end))
    && Tops(spans, AllTops(spans, Requests(spans, |spans|)))
    && var m := ConvertTops(spans, m0, AllTops(spans, Requests(spans, |spans|)));
       && Ready(spans, m.events) && AllLaid(spans, Flat(lists)) && AllLaid(spans, list)
       && lines == Tids(EngineSteps(spans, lists))
       && order == Walks(spans, TopList(spans, list))
       && var e := TidAll(spans, m.events, Flat(lists), lines);
          Converted(order, e) && elems == EventsAlong(e, order)
  }

  /** `e` is the event of `x`, in the lane given to the `j`-th layout step, that of its top span. */
  ghost predicate ShownAt(spans: Spans, steps: seq<Step>, placed: seq<nat>, x: nat, e: Perfetto, j: nat) {
    && Deep(spans, x) && x < |spans| && j < |placed| == |steps| && placed[j] == TopOf(spans, x)
    && e == ExpectedEvent(spans, x, Tids(steps)[j])
  }

  ghost predicate Shown(spans: Spans, steps: seq<Step>, placed: seq<nat>, x: nat, e: Perfetto) {
    exists j :: ShownAt(spans, steps, placed, x, e, j)
  }

  lemma {:induction false} ProducedElement(spans: Spans, m0: Marks, lists: seq<seq<nat>>, list: seq<nat>, lines: seq<int>,
                        order: seq<nat>, elems: seq<Perfetto>, i: nat)
    requires Produced(spans, m0, lists, list, lines, order, elems) && ListsLaid(spans, lists) && i < |order|
    ensures |elems| == |order| && Shown(spans, EngineSteps(spans, lists), Flat(lists), order[i], elems[i])
  {
    hide ConvertTops, AllTops, StepsOf, Flat, Laid, Ready, Tids, TidAll, Walks, TopList, Deep, ExpectedEvent, Covered, LaidOut;
    var steps, placed, x := EngineSteps(spans, lists), Flat(lists), order[i];
    StepsLaidOut(spans, lists);
    FlatPlaced(spans, lists);
    GatherExact(spans, list);
    assert x in order;
    var j := FinalEvent(spans, m0, placed, lines, x);
    assert ShownAt(spans, steps, placed, x, elems[i], j);
  }

  lemma {:induction false} ShownSound(spans: Spans, steps: seq<Step>, placed: seq<nat>, x: nat, d: Perfetto, y: nat, e: Perfetto)
    requires LaidOut(spans, steps, placed) && Shown(spans, steps, placed, x, d) && Shown(spans, steps, placed, y, e)
    ensures d.src == x && e.src == y && Deep(spans, x) && Deep(spans, y) && LanesSound(spans, d, e)
  {
    hide LaidOut, Tids, Deep, LanesSound;
    var i :| ShownAt(spans, steps, placed, x, d, i);
    var j :| ShownAt(spans, steps, placed, y, e, j);
    SoundPair(spans, steps, placed, d, e, i, j);
  }

  lemma {:induction false} ShownFields(spans: Spans, steps: seq<Step>, placed: seq<nat>, x: nat, e: Perfetto, more: seq<Step>)
    requires LaidOut(spans, steps, placed) && Shown(spans, steps, placed, x, e)
    ensures e.src == x < |spans| && Deep(spans, x) && e == ExpectedEvent(spans, x, e.tid)
    ensures multiset(Run(steps + more).slots)[Slot(e.pid, e.tid)] == 1
  {
    hide LaidOut, Tids, Deep, Run, Laid, PidTo;
    var j :| ShownAt(spans, steps, placed, x, e, j);
    PlacedPid(spans, steps, placed, j);
    TopPid(spans, x);
    LaneAnnounced(steps, more, j);
  }

  /** From the visiting order to what the output promises. */
  lemma {:induction false} OutputRight(spans: Spans, steps: seq<Step>, placed: seq<nat>,
                                         order: seq<nat>, elems: seq<Perfetto>, more: seq<Step>)
    requires LaidOut(spans, steps, placed) && |elems| == |order| && Distinct(order)
    requires forall x :: x in order <==> Deep(spans, x)
    requires forall i :: 0 <= i < |elems| ==> Shown(spans, steps, placed, order[i], elems[i])
    ensures EachOnce(spans, elems) && RightEvents(spans, elems) && AllSound(spans, elems)
    ensures Announced(elems, Run(steps + more).slots)
    ensures forall i :: 0 <= i < |elems| ==> Shown(spans, steps, placed, elems[i].src, elems[i])
  {
    hide LaidOut, Run, Deep, ExpectedEvent, LanesSound, EachOnce, Shown;
    forall i | 0 <= i < |elems|
      ensures elems[i].src == order[i] < |spans| && Deep(spans, elems[i].src)
      ensures elems[i] == ExpectedEvent(spans, elems[i].src, elems[i].tid)
      ensures multiset(Run(steps + more).slots)[Slot(elems[i].pid, elems[i].tid)] == 1
    {
      ShownFields(spans, steps, placed, order[i], elems[i], more);
    }
    OrderOnce(spans, order, elems);
    forall a, b | 0 <= a < |elems| && 0 <= b < |elems|
      ensures Deep(spans, elems[a].src) && Deep(spans, elems[b].src) && LanesSound(spans, elems[a], elems[b])
    {
      ShownSound(spans, steps, placed, order[a], elems[a], order[b], elems[b]);
    }
  }

  lemma {:induction false} OrderOnce(spans: Spans, order: seq<nat>, elems: seq<Perfetto>)
    requires |elems| == |order| && Distinct(order) && (forall x :: x in order <==> Deep(spans, x))
    requires forall i :: 0 <= i < |elems| ==> elems[i].src == order[i]
    ensures EachOnce(spans, elems)
  {
    hide Deep;
    forall x ensures Deep(spans, x) <==> exists i :: 0 <= i < |elems| && elems[i].src == x {
      if x in order { var i :| 0 <= i < |order| && order[i] == x; assert elems[i].src == x; }
      if i :| 0 <= i < |elems| && elems[i].src == x { assert order[i] in order; }
    }
  }

  lemma {:induction false} ProducedRight(spans: Spans, m0: Marks, lists: seq<seq<nat>>, list: seq<nat>, lines: seq<int>,
                      order: seq<nat>, elems: seq<Perfetto>, more: seq<Step>)
    requires Produced(spans, m0, lists, list, lines, order, elems) && ListsLaid(spans, lists)
    ensures EachOnce(spans, elems) && RightEvents(spans, elems) && AllSound(spans, elems)
    ensures Announced(elems, Run(EngineSteps(spans, lists) + more).slots)
    ensures forall i :: 0 <= i < |elems| ==> Shown(spans, EngineSteps(spans, lists), Flat(lists), elems[i].src, elems[i])
  {
    OrderExact(spans, m0, lists, list, lines, order, elems);
    StepsLaidOut(spans, lists);
    var steps := EngineSteps(spans, lists);
    assert LaidOut(spans, steps, Flat(lists));
    hide Produced, EngineSteps, Run, Deep, LaidOut, ListsLaid, Shown, EachOnce,
         RightEvents, AllSound, Announced, Flat, StepsOf, ConvertTops, AllTops;
    forall i | 0 <= i < |elems| ensures Shown(spans, steps, Flat(lists), order[i], elems[i]) {
      ProducedElement(spans, m0, lists, list, lines, order, elems, i);
    }
    OutputRight(spans, steps, Flat(lists), order, elems, more);
  }

  lemma {:induction false} OrderExact(spans: Spans, m0: Marks, lists: seq<seq<nat>>, list: seq<nat>, lines: seq<int>,
                   order: seq<nat>, elems: seq<Perfetto>)
    requires Produced(spans, m0, lists, list, lines, order, elems)
    ensures |elems| == |order| && Distinct(order) && forall x :: x in order <==> Deep(spans, x)
  {
    hide Walks, TopList, Deep, ConvertTops, TidAll, Ready, Covered, Flat, StepsOf, Tids;
    GatherExact(spans, list);
  }

  lemma {:induction false} PlacedPid(spans: Spans, steps: seq<Step>, placed: seq<nat>, j: nat)
    requires LaidOut(spans, steps, placed) && j < |placed|
    ensures Laid(spans, placed[j]) && |steps| == |placed| && steps[j].pid == PidTo(spans, placed[j])
  {
  }

  lemma {:induction false} NoSmgSteps(spans: Spans, steps: seq<Step>, placed: seq<nat>)
    requires LaidOut(spans, steps, placed)
    ensures forall i :: 0 <= i < |steps| ==> steps[i].pid != Smg
  {
    hide Laid;
    forall i | 0 <= i < |steps| ensures steps[i].pid != Smg {
      LaidAt(spans, placed, i);
    }
  }

  /** `r` is the spans of `smg`, 1000 ns shorter, in start order, equal starts in input order. */
  ghost predicate SmgSorted(smg: seq<Interval>, r: seq<Interval>) {
    && (forall i, j :: 0 <= i < j < |r| ==> r[i].start <= r[j].start)
    && exists order: seq<nat> :: IsReordering(smg, r, order)
  }

  ghost predicate IsReordering(smg: seq<Interval>, r: seq<Interval>, order: seq<nat>) {
    && InRange(order, |smg|) && multiset(order) == multiset(Counting.Upto(|smg|)) && |order| == |r|
    && (forall i, j :: 0 <= i < j < |r| ==> r[i].start == r[j].start ==> order[i] < order[j])
    && forall k :: 0 <= k < |r| ==> r[k] == Interval(smg[order[k]].start, smg[order[k]].end - 1000)
  }

  /** `sorted(smg_otel_spans, key=start)`, each span trimmed. */
  method SortSmg(smg: seq<Interval>) returns (r: seq<Interval>)
    ensures SmgSorted(smg, r)
  {
    hide SortBy;
    var key := seq(|smg|, i requires 0 <= i < |smg| => smg[i].start);
    var order := SortBy(Counting.Upto(|smg|), key);
    SortByTies(Counting.Upto(|smg|), key);
    r := seq(|order|, k requires 0 <= k < |order| => Trimmed(smg[order[k]]));
    assert IsReordering(smg, r, order);
    assert forall i, j :: 0 <= i < j < |order| ==> key[order[i]] <= key[order[j]];
  }

  /** Gateway spans of positive length in one lane share no instant. */
  ghost predicate SmgDisjoint(smg: seq<Interval>, lanes: seq<int>) {
    && |lanes| == |smg|
    && ((forall i :: 0 <= i < |smg| ==> smg[i].start < smg[i].end) ==>
          forall i, j :: 0 <= i < j < |smg| && lanes[i] == lanes[j] ==> !SharesInstant(smg[i], smg[j].start, smg[j].end))
  }

  lemma {:induction false} SmgPair(steps: seq<Step>, smg: seq<Interval>, lanes: seq<int>, i: nat, j: nat)
    requires |lanes| == |smg| && i < j < |smg| && lanes[i] == lanes[j]
    requires Tids(steps + SmgSteps(smg)) == Tids(steps) + lanes
    requires Assignment(steps + SmgSteps(smg), Smg, Tids(steps + SmgSteps(smg)))
    ensures !SharesInstant(smg[i], smg[j].start, smg[j].end)
  {
    hide Run, Tids, SharesInstant;
    var all, n := steps + SmgSteps(smg), |steps|;
    assert all[n + i] == SmgSteps(smg)[i] && all[n + j] == SmgSteps(smg)[j];
    assert Tids(all)[n + i] == lanes[i] && Tids(all)[n + j] == lanes[j];
  }

  lemma {:induction false} SmgIsDisjoint(steps: seq<Step>, smg: seq<Interval>, lanes: seq<int>)
    requires forall i :: 0 <= i < |steps| ==> steps[i].pid != Smg
    requires |lanes| == |smg| && Tids(steps + SmgSteps(smg)) == Tids(steps) + lanes
    ensures SmgDisjoint(smg, lanes)
  {
    hide Run, Tids, SharesInstant;
    if forall i :: 0 <= i < |smg| ==> smg[i].start < smg[i].end {
      var all, n := steps + SmgSteps(smg), |steps|;
      forall i | 0 <= i < |all| && all[i].pid == Smg ensures all[i].x.start < all[i].x.end {
        assert i >= n && all[i] == SmgSteps(smg)[i - n];
      }
      GreedyIsAssignment(all, Smg);
      forall i, j | 0 <= i < j < |smg| && lanes[i] == lanes[j] ensures !SharesInstant(smg[i], smg[j].start, smg[j].end) {
        SmgPair(steps, smg, lanes, i, j);
      }
    }
  }

  /** The lanes are those of the greedy layout of the requests' spans in start order, then the
      gateway's; every event is in the lane its laid-out span was given. */
  ghost predicate Greedy(spans: Spans, out: Output, roots: seq<nat>, lists: seq<seq<nat>>) {
    && Grouped(spans, roots, lists) && ListsLaid(spans, lists)
    && StartOrdered(TrimmedTimes(spans), lists) && TiesInOrder(spans, roots, lists)
    && var steps := EngineSteps(spans, lists);
       && out.slots == Run(steps + SmgSteps(out.smg)).slots
       && Tids(steps + SmgSteps(out.smg)) == Tids(steps) + out.lanes
       && forall i :: 0 <= i < |out.elems| ==> Shown(spans, steps, Flat(lists), out.elems[i].src, out.elems[i])
  }

  /** The whole conversion. It fails exactly when some request has no span to lay out. */
  method ConvertTrace(spans: Spans, smg: seq<Interval>) returns (r: Result<Output, string>)
    ensures r.Failure? <==> exists q :: 0 <= q < |spans| && spans[q].isRequest && !HasLaid(spans, q)
    ensures r.Success? ==> EachOnce(spans, r.value.elems) && RightEvents(spans, r.value.elems)
    ensures r.Success? ==> AllSound(spans, r.value.elems) && Announced(r.value.elems, r.value.slots)
    ensures r.Success? ==> SmgSorted(smg, r.value.smg) && SmgDisjoint(r.value.smg, r.value.lanes)
    ensures r.Success? ==> SmgOptimal(r.value.smg, r.value.slots)
    ensures r.Success? ==> exists roots, lists :: Greedy(spans, r.value, roots, lists)
  {
    hide ConvertTops, AllTops, StepsOf, Flat, Laid, Ready, Tids, Run, TidAll, Walks, TopList, Deep, LanesSound, Covered, LaidOut,
         EachOnce, RightEvents, AllSound, SmgOptimal, SmgDisjoint,
         SameLists, HasLaid, Grouped, TopsOf, Lasts, PidsSet, Apart, ListsLaid, WellFormed,
         EngineSteps, StartOrdered, Shown, TiesKept, TiesInOrder, StartSorted;
    var c := new Converter(spans);
    ghost var m0 := c.marks;
    c.BuildTree();
    c.GenerateSpans();
    ghost var m := c.marks;
    ConvertedReady(spans, m0);
    ghost var collected := c.rootSpans;
    CollectedGrouped(spans, c.roots, collected);
    GroupedCovered(spans, c.roots, collected);
    GroupedEmpty(spans, c.roots, collected);
    var order := c.SortRoots();
    if order.Failure? { return Failure(order.error); }
    SortedGrouped(spans, c.roots, collected, c.rootSpans);
    GroupedCovered(spans, c.roots, c.rootSpans);
    ReorderGrouped(spans, c.roots, c.rootSpans, order.value);
    ReorderOrdered(c.marks.times, c.rootSpans, order.value);
    CoveredLaid(spans, collected);
    CoveredLaid(spans, c.rootSpans);
    ReorderTies(spans, m0, c.roots, collected, c.rootSpans, order.value);
    var lists := Reorder(c.rootSpans, order.value);
    ghost var roots := Reorder(c.roots, order.value);
    GroupedCovered(spans, roots, lists);
    CoveredLaid(spans, lists);
    var g := new LaneGraph.Graph();
    var lines := c.LayOut(g, lists);
    ghost var steps := EngineSteps(spans, lists);
    ConvertedSteps(spans, m0, lists);
    StepsLaidOut(spans, lists);
    NoSmgSteps(spans, steps, Flat(lists));
    var smgSorted := SortSmg(smg);
    var smgLines := LayOutSmg(g, smgSorted, steps);
    SmgIsOptimal(steps, smgSorted);
    SmgIsDisjoint(steps, smgSorted, smgLines);
    var elems := c.GatherAll();
    FlatPlaced(spans, c.rootSpans);
    ProducedRight(spans, m0, lists, Flat(c.rootSpans), lines, Walks(spans, TopList(spans, Flat(c.rootSpans))), elems, SmgSteps(smgSorted));
    r := Success(Output(elems, g.slots, smgSorted, smgLines));
    assert Greedy(spans, r.value, roots, lists);
  }

  lemma {:induction false} CoveredLaid(spans: Spans, lists: seq<seq<nat>>)
    requires Covered(spans, lists)
    ensures ListsLaid(spans, lists)
  {
  }
}
