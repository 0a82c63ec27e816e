/** What the converted trace promises: which spans are shown, as which events, in which lanes
    (scripts/convert_otel_2_perfetto.py). */
module TraceOutput {
  import opened Wrappers
  import opened Lanes
  import opened LaneLayout
  import opened LaneRuns
  import opened LaneOptimality
  import opened SpanForest
  import opened TraceMarks
  import opened TraceOrders

  /** The chain of child links to a span at or below a laid-out span. */
  ghost function PathTo(spans: Spans, x: nat): (r: seq<nat>)
    requires Deep(spans, x)
    ensures IsPath(spans, r) && |r| >= 3 && Last(r) == x
  {
    var r :| IsPath(spans, r) && |r| >= 3 && Last(r) == x;
    r
  }

  /** The laid-out span that `x` is at or below. */
  ghost function TopOf(spans: Spans, x: nat): nat
    requires Deep(spans, x)
  {
    PathTo(spans, x)[2]
  }

  ghost predicate TopsPlaced(spans: Spans, placed: seq<nat>) {
    AllLaid(spans, placed) && Distinct(placed) && forall x :: Laid(spans, x) ==> x in placed
  }

  lemma {:induction false} TopPlaced(spans: Spans, placed: seq<nat>, x: nat) returns (j: nat)
    requires TopsPlaced(spans, placed) && Deep(spans, x)
    ensures j < |placed| && placed[j] == TopOf(spans, x)
    ensures Laid(spans, placed[j]) && TopTo(spans, placed[j]) == PathTo(spans, x)[..3]
    ensures Under(spans, TopTo(spans, placed[j]), x)
  {
    var r := PathTo(spans, x);
    DeepUnder(spans, r);
    j :| 0 <= j < |placed| && placed[j] == r[2];
  }

  // ---------- after conversion ----------

  /** Every span at or below a laid-out span has been trimmed exactly once. */
  lemma {:induction false} ConvertedEvent(spans: Spans, m0: Marks, x: nat)
    requires Sized(m0, |spans|) && Deep(spans, x)
    ensures x < |spans| && Tops(spans, AllTops(spans, Requests(spans, |spans|)))
    ensures var m := ConvertTops(spans, m0, AllTops(spans, Requests(spans, |spans|)));
            var q := PathTo(spans, x)[..3];
            && IsPath(spans, q) && q[1] < |spans|
            && m.times[x] == Trimmed(m0.times[x])
            && m.events[x] == Some(EventOf(x, Trimmed(m0.times[x]), PidOf(spans, q), 0))
  {
    var r := PathTo(spans, x);
    DeepUnder(spans, r);
    hide IsPath, ConvertTops, Level, Distinct, Under;
    AllTopsIsLevel(spans);
    LevelTops(spans);
    LevelDistinct(spans, 2);
    LevelMember(spans, 2, r[..3]);
    PathInRange(spans, r);
    PathPrefix(spans, r, 2);
    PathInRange(spans, r[..2]);
    ConvertTopsPointwise(spans, m0, Level(spans, 2), x);
  }

  lemma {:induction false} LevelTops(spans: Spans)
    ensures Tops(spans, Level(spans, 2))
  {
    hide Level, IsPath;
    forall k | 0 <= k < |Level(spans, 2)| ensures IsPath(spans, Level(spans, 2)[k]) && |Level(spans, 2)[k]| == 3 {
      LevelMember(spans, 2, Level(spans, 2)[k]);
    }
  }

  lemma {:induction false} ConvertedReady(spans: Spans, m0: Marks)
    requires Sized(m0, |spans|)
    ensures Tops(spans, AllTops(spans, Requests(spans, |spans|)))
    ensures var m := ConvertTops(spans, m0, AllTops(spans, Requests(spans, |spans|)));
            Ready(spans, m.events) && PidsSet(spans, m.events)
  {
    hide ConvertTops, IsPath, Level, AllTops;
    AllTopsIsLevel(spans);
    LevelTops(spans);
    forall x | 0 <= x < |spans| && Deep(spans, x)
      ensures ConvertTops(spans, m0, AllTops(spans, Requests(spans, |spans|))).events[x].Some?
    {
      ConvertedEvent(spans, m0, x);
    }
    forall x | 0 <= x < |spans| && Laid(spans, x)
      ensures var e := ConvertTops(spans, m0, AllTops(spans, Requests(spans, |spans|))).events[x];
              e.Some? && e.value.pid == PidTo(spans, x)
    {
      LaidPath(spans, x);
      ConvertedEvent(spans, m0, x);
    }
  }

  lemma {:induction false} LaidPath(spans: Spans, x: nat)
    requires Laid(spans, x)
    ensures Deep(spans, x) && PathTo(spans, x) == TopTo(spans, x) && PathTo(spans, x)[..3] == TopTo(spans, x)
  {
    hide IsPath;
    var q := TopTo(spans, x);
    assert Deep(spans, x);
    PathUnique(spans, q, PathTo(spans, x));
  }

  // ---------- the output ----------

  function TrimmedTime(spans: Spans, x: nat): Interval
    requires x < |spans|
  {
    Interval(spans[x].start, spans[x].end - 1000)
  }

  /** The event a deep span must be shown as, given the lane of its laid-out span. */
  ghost function ExpectedEvent(spans: Spans, x: nat, tid: int): Perfetto
    requires Deep(spans, x) && x < |spans|
  {
    var r := PathTo(spans, x);
    Perfetto(x, spans[x].start, spans[x].end - spans[x].start - 1000, Engine(spans[r[1]].pid), tid)
  }

  /** Lane numbers and the duration events, span by span. */
  lemma {:induction false} FinalEvent(spans: Spans, m0: Marks, placed: seq<nat>, lines: seq<int>, x: nat) returns (j: nat)
    requires Sized(m0, |spans|) && Deep(spans, x) && TopsPlaced(spans, placed) && |lines| == |placed|
    requires forall i :: 0 <= i < |spans| ==> m0.times[i] == Interval(spans[i].start, spans[i].end)
    ensures Tops(spans, AllTops(spans, Requests(spans, |spans|))) && x < |spans|
    ensures var m := ConvertTops(spans, m0, AllTops(spans, Requests(spans, |spans|)));
            && Ready(spans, m.events) && j < |placed| && placed[j] == TopOf(spans, x)
            && TidAll(spans, m.events, placed, lines)[x] == Some(ExpectedEvent(spans, x, lines[j]))
  {
    hide ConvertTops, AllTops, IsPath, Ready, TidAll, Deep, Laid, Under;
    ConvertedReady(spans, m0);
    ConvertedEvent(spans, m0, x);
    j := TopPlaced(spans, placed, x);
    var m := ConvertTops(spans, m0, AllTops(spans, Requests(spans, |spans|)));
    TidAllPointwise(spans, m.events, placed, lines, j, x);
    assert PathTo(spans, x)[..3][1] == PathTo(spans, x)[1];
  }

  /** `elems` are the engine's duration events; `lanes[k]` is the lane of the `k`-th gateway
      span of `smg`, the gateway's trimmed spans in start order. */
  datatype Output = Output(elems: seq<Perfetto>, slots: seq<Slot>, smg: seq<Interval>, lanes: seq<int>)

  /** Exactly-once emission: one event per span at or below a laid-out span, and no other. */
  ghost predicate EachOnce(spans: Spans, elems: seq<Perfetto>) {
    && (forall i, j :: 0 <= i < j < |elems| ==> elems[i].src != elems[j].src)
    && (forall x :: Deep(spans, x) <==> exists i :: 0 <= i < |elems| && elems[i].src == x)
  }

  /** Right event for its span, apart from the choice of lane. */
  ghost predicate RightEvents(spans: Spans, elems: seq<Perfetto>) {
    forall i :: 0 <= i < |elems| ==>
      && elems[i].src < |spans| && Deep(spans, elems[i].src)
      && elems[i] == ExpectedEvent(spans, elems[i].src, elems[i].tid)
  }

  /** No laid-out span has length zero once trimmed. */
  ghost predicate NoPoints(spans: Spans) {
    forall x :: 0 <= x < |spans| && Laid(spans, x) ==> TrimmedTime(spans, x).start != TrimmedTime(spans, x).end
  }

  /** Two events agree on their lane if they are below one laid-out span; if they agree on
      process and lane, their laid-out spans, of positive length, share no instant. */
  ghost predicate LanesSound(spans: Spans, a: Perfetto, b: Perfetto)
    requires Deep(spans, a.src) && Deep(spans, b.src)
  {
    var s, t := TopOf(spans, a.src), TopOf(spans, b.src);
    && (s == t ==> a.tid == b.tid)
    && (s != t && a.pid == b.pid && a.tid == b.tid && s < |spans| && t < |spans| && NoPoints(spans) ==>
          var x, y := TrimmedTime(spans, s), TrimmedTime(spans, t);
          x.start < x.end && y.start < y.end ==> !SharesInstant(x, y.start, y.end))
  }

  ghost predicate AllSound(spans: Spans, elems: seq<Perfetto>) {
    forall i, j :: 0 <= i < |elems| && 0 <= j < |elems| ==>
      && Deep(spans, elems[i].src) && Deep(spans, elems[j].src)
      && LanesSound(spans, elems[i], elems[j])
  }

  /** What the layout loop leaves behind, in terms of the input. */
  ghost predicate LaidOut(spans: Spans, steps: seq<Step>, placed: seq<nat>) {
    && TopsPlaced(spans, placed) && |steps| == |placed|
    && forall j :: 0 <= j < |placed| ==>
         && placed[j] < |spans|
         && steps[j].pid == PidTo(spans, placed[j])
         && steps[j].x == TrimmedTime(spans, placed[j])
  }

  lemma {:induction false} NoPointsNoHidden(spans: Spans, steps: seq<Step>, placed: seq<nat>, p: Pid)
    requires LaidOut(spans, steps, placed) && NoPoints(spans)
    ensures NoHiddenPoint(steps, p)
  {
    hide Run, Laid, Overlaps;
    forall i | 0 <= i < |steps| && steps[i].pid == p ensures !HiddenPoint(Run(steps[..i]), steps[i]) {
      assert Laid(spans, placed[i]);
    }
  }

  lemma {:induction false} SoundPair(spans: Spans, steps: seq<Step>, placed: seq<nat>, a: Perfetto, b: Perfetto, i: nat, j: nat)
    requires LaidOut(spans, steps, placed) && i < |placed| && j < |placed|
    requires Deep(spans, a.src) && Deep(spans, b.src) && a.src < |spans| && b.src < |spans|
    requires placed[i] == TopOf(spans, a.src) && placed[j] == TopOf(spans, b.src)
    requires a == ExpectedEvent(spans, a.src, Tids(steps)[i]) && b == ExpectedEvent(spans, b.src, Tids(steps)[j])
    ensures LanesSound(spans, a, b)
  {
    hide Tids, NoHiddenPoint, NoPoints, SharesInstant, Deep, Laid;
    TopPid(spans, a.src);
    TopPid(spans, b.src);
    if placed[i] != placed[j] && a.pid == b.pid && a.tid == b.tid && NoPoints(spans) {
      NoPointsNoHidden(spans, steps, placed, a.pid);
      var x, y := steps[i].x, steps[j].x;
      if x.start < x.end && y.start < y.end {
        if i < j {
          SameLaneDisjoint(steps, i, j, a.pid);
        } else {
          SameLaneDisjoint(steps, j, i, a.pid);
          SharingSymmetric(x, y);
        }
      }
    }
  }

  lemma {:induction false} SharingSymmetric(x: Interval, y: Interval)
    ensures SharesInstant(x, y.start, y.end) <==> SharesInstant(y, x.start, x.end)
  {
  }

  lemma {:induction false} TopPid(spans: Spans, x: nat)
    requires Deep(spans, x)
    ensures Laid(spans, TopOf(spans, x)) && PathTo(spans, x)[1] < |spans|
    ensures PidTo(spans, TopOf(spans, x)) == Engine(spans[PathTo(spans, x)[1]].pid)
  {
    var r := PathTo(spans, x);
    DeepUnder(spans, r);
    assert r[..3][1] == r[1];
  }

  /** The lane a step was given is announced by exactly one metadata record. */
  lemma {:induction false} LaneAnnounced(steps: seq<Step>, more: seq<Step>, j: nat)
    requires j < |steps|
    ensures |Tids(steps + more)| == |steps + more| && Tids(steps + more)[..|steps|] == Tids(steps)
    ensures multiset(Run(steps + more).slots)[Slot(steps[j].pid, Tids(steps)[j])] == 1
  {
    hide Run, Tids;
    TidsKept(steps, more);
    var all, st := steps + more, steps[j];
    var k := Tids(steps)[j];
    assert Drew(all, j, st.pid, k, st.x);
    LaneMembers(all, st.pid, k, st.x);
    assert HasLine(Run(all), Slot(st.pid, k));
  }

  lemma {:induction false} TidsKept(steps: seq<Step>, more: seq<Step>)
    ensures Tids(steps + more)[..|steps|] == Tids(steps)
  {
    hide Run, Tids;
    if more == [] {
      assert steps + more == steps;
    } else {
      var n := |more| - 1;
      assert (steps + more)[..|steps + more| - 1] == steps + more[..n];
      TidsPrefix(steps + more);
      TidsKept(steps, more[..n]);
    }
  }

  ghost predicate Announced(elems: seq<Perfetto>, slots: seq<Slot>) {
    forall i :: 0 <= i < |elems| ==> multiset(slots)[Slot(elems[i].pid, elems[i].tid)] == 1
  }

  // ---------- the gateway's lanes ----------

  function Depth(list: seq<Interval>, t: int): nat {
    |set i | 0 <= i < |list| && Covers(list[i], t)|
  }

  lemma {:induction false} SmgDepth(steps: seq<Step>, smg: seq<Interval>, t: int)
    requires forall i :: 0 <= i < |steps| ==> steps[i].pid != Smg
    ensures |Covering(steps + SmgSteps(smg), Smg, t)| == Depth(smg, t)
  {
    var all := steps + SmgSteps(smg);
    var n := |steps|;
    var A := Covering(all, Smg, t);
    var B := set i | 0 <= i < |smg| && Covers(smg[i], t);
    var up := seq(|smg|, i => i + n);
    forall i | i in B ensures up[i] in A {
      assert all[i + n] == SmgSteps(smg)[i];
    }
    InjectionBound(B, up, A);
    forall k | k in A ensures exists i :: i in B && up[i] == k {
      assert k >= n && all[k] == SmgSteps(smg)[k - n];
      assert k - n in B && up[k - n] == k;
    }
    SurjectionBound(B, up, A);
  }

  /** The gateway's lanes are 1..n, and n is the largest number of its spans at one instant. */
  ghost predicate SmgLanes(smg: seq<Interval>, slots: seq<Slot>, n: nat) {
    && (forall k :: Slot(Smg, k) in slots <==> 1 <= k <= n)
    && (exists t :: Depth(smg, t) == n)
    && (forall t :: Depth(smg, t) <= n)
  }

  ghost predicate SmgOptimal(smg: seq<Interval>, slots: seq<Slot>) {
    (forall i :: 0 <= i < |smg| ==> smg[i].start < smg[i].end) ==> exists n: nat :: SmgLanes(smg, slots, n)
  }

  lemma {:induction false} SmgIsOptimal(steps: seq<Step>, smg: seq<Interval>)
    requires forall i :: 0 <= i < |steps| ==> steps[i].pid != Smg
    requires forall i, j :: 0 <= i < j < |smg| ==> smg[i].start <= smg[j].start
    ensures SmgOptimal(smg, Run(steps + SmgSteps(smg)).slots)
  {
    hide Run, SmgLanes;
    if forall i :: 0 <= i < |smg| ==> smg[i].start < smg[i].end {
      SmgLaneCount(steps, smg);
    }
  }

  lemma {:induction false} SmgLaneCount(steps: seq<Step>, smg: seq<Interval>)
    requires forall i :: 0 <= i < |steps| ==> steps[i].pid != Smg
    requires forall i, j :: 0 <= i < j < |smg| ==> smg[i].start <= smg[j].start
    requires forall i :: 0 <= i < |smg| ==> smg[i].start < smg[i].end
    ensures var all := steps + SmgSteps(smg); SmgLanes(smg, Run(all).slots, |PriorLines(Run(all), Smg)|)
  {
    hide Run, Covering, Depth, PriorLines, WellFormed;
    var all := steps + SmgSteps(smg);
    SmgStepsOrdered(steps, smg);
    LanesOptimal(all, Smg);
    SmgSlots(Run(all));
    forall t ensures Depth(smg, t) == |Covering(all, Smg, t)| {
      SmgDepth(steps, smg, t);
    }
  }

  lemma {:induction false} SmgStepsOrdered(steps: seq<Step>, smg: seq<Interval>)
    requires forall i :: 0 <= i < |steps| ==> steps[i].pid != Smg
    requires forall i, j :: 0 <= i < j < |smg| ==> smg[i].start <= smg[j].start
    requires forall i :: 0 <= i < |smg| ==> smg[i].start < smg[i].end
    ensures Positive(steps + SmgSteps(smg), Smg) && StartOrder(steps + SmgSteps(smg), Smg)
  {
  }

  lemma {:induction false} SmgSlots(s: State)
    requires WellFormed(s)
    ensures forall k :: Slot(Smg, k) in s.slots <==> 1 <= k <= |PriorLines(s, Smg)|
  {
    forall k ensures Slot(Smg, k) in s.slots <==> 1 <= k <= |PriorLines(s, Smg)| {
      assert Slot(Smg, k) in s.slots <==> Slot(Smg, k) in multiset(s.slots);
      assert multiset(s.slots)[Slot(Smg, k)] == if HasLine(s, Slot(Smg, k)) then 1 else 0;
    }
  }
}
