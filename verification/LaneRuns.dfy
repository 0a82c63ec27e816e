/** Whole runs of the layout: safety of every lane, and optimality of the number of lanes. */
module LaneRuns {
  import opened Lanes
  import opened LaneLayout

  function Run(steps: seq<Step>): (s: State)
    ensures WellFormed(s)
  {
    if steps == [] then EMPTY
    else Apply(Run(steps[..|steps| - 1]), steps[|steps| - 1])
  }

  /** The lane number each step was given: the "tid" of its span. */
  function Tids(steps: seq<Step>): (t: seq<int>)
    ensures |t| == |steps|
  {
    if steps == [] then []
    else Tids(steps[..|steps| - 1]) + [Run(steps).status[steps[|steps| - 1].pid]]
  }

  ghost predicate NoHiddenPoint(steps: seq<Step>, p: Pid) {
    forall i :: 0 <= i < |steps| && steps[i].pid == p ==> !HiddenPoint(Run(steps[..i]), steps[i])
  }

  lemma {:induction false} NoHiddenPointPrefix(steps: seq<Step>, p: Pid)
    requires |steps| > 0
    ensures var pre := steps[..|steps| - 1];
            NoHiddenPoint(steps, p) <==>
              NoHiddenPoint(pre, p) &&
              (steps[|steps| - 1].pid == p ==> !HiddenPoint(Run(pre), steps[|steps| - 1]))
  {
    hide HiddenPoint, Run;
    var pre := steps[..|steps| - 1];
    assert forall i :: 0 <= i < |pre| ==> pre[..i] == steps[..i];
    assert pre[..|pre|] == pre;
  }

  /** An unseparated lane is never repaired by a later insertion. */
  lemma {:induction false} InsertedStaysUnseparated(s: Lane, x: Interval)
    requires Ordered(s) && !Separated(s)
    ensures !Separated(Inserted(s, x))
  {
    var i, j :| 0 <= i < j < |s| && s[i].end > s[j].start;
    var k := Bisect(s, At(x.start, x.end));
    var r := Inserted(s, x);
    var i', j' := if i < k then i else i + 1, if j < k then j else j + 1;
    assert r[i'] == s[i] && r[j'] == s[j];
  }

  lemma {:induction false} StepStaysUnseparated(s: State, st: Step, p: Pid)
    requires WellFormed(s) && !SeparatedAt(s, p)
    ensures !SeparatedAt(Apply(s, st), p)
  {
    hide WellFormed, Apply, Separated, Inserted;
    StepShape(s, st);
    if p == st.pid {
      var k :| k in s.graph[p] && !Separated(s.graph[p][k]);
      var r := Apply(s, st);
      assert HasLine(s, Slot(p, k));
      if k == r.status[p] { LaneIsOrdered(s, Slot(p, k)); InsertedStaysUnseparated(s.graph[p][k], st.x); }
      assert k in r.graph[p] && !Separated(r.graph[p][k]);
    } else {
      assert p in s.graph && Apply(s, st).graph[p] == s.graph[p];
    }
  }

  /** Lane safety of whole runs, exactly, for spans of any length in any order: the lanes of
      a process end up separated if and only if none of its spans was a hidden point when it
      was placed. */
  lemma {:induction false} RunSeparatedIff(steps: seq<Step>, p: Pid)
    ensures SeparatedAt(Run(steps), p) <==> NoHiddenPoint(steps, p)
  {
    hide WellFormed, Apply, HiddenPoint, Separated;
    if steps != [] {
      var pre, st := steps[..|steps| - 1], steps[|steps| - 1];
      RunSeparatedIff(pre, p);
      NoHiddenPointPrefix(steps, p);
      if !SeparatedAt(Run(pre), p) {
        StepStaysUnseparated(Run(pre), st, p);
      } else if st.pid == p {
        StepSeparatedIff(Run(pre), st);
      } else {
        StepShape(Run(pre), st);
      }
    }
  }

  /** A condition on the input alone: zero-length spans do no harm where nothing is remembered,
      as for the first span of a request. */
  lemma {:induction false} PointsFirstAreSafe(steps: seq<Step>, p: Pid)
    requires forall i :: 0 <= i < |steps| && steps[i].pid == p && steps[i].x.start == steps[i].x.end ==> steps[i].first
    ensures SeparatedAt(Run(steps), p)
  {
    hide Run, Overlaps, SeparatedAt;
    RunSeparatedIff(steps, p);
    forall i | 0 <= i < |steps| && steps[i].pid == p ensures !HiddenPoint(Run(steps[..i]), steps[i]) {
      assert steps[i].first ==> Begin(Run(steps[..i]), steps[i]).status == map[];
    }
  }

  /** The intervals given lane `k` of process `p`. */
  function Assigned(steps: seq<Step>, p: Pid, k: int): multiset<Interval> {
    if steps == [] then multiset{}
    else
      var n := |steps| - 1;
      var rest := Assigned(steps[..n], p, k);
      if steps[n].pid == p && Tids(steps)[n] == k then rest + multiset{steps[n].x} else rest
  }

  /** Conservation: a lane holds exactly the intervals assigned to it, with multiplicity. */
  lemma {:induction false} LaneHoldsAssigned(steps: seq<Step>, p: Pid, k: int)
    ensures multiset(PriorLane(Run(steps), p, k)) == Assigned(steps, p, k)
  {
    hide WellFormed, Apply, Inserted, Tids;
    if steps != [] {
      var n := |steps| - 1;
      var s := Run(steps[..n]);
      LaneHoldsAssigned(steps[..n], p, k);
      StepShape(s, steps[n]);
      TidsPrefix(steps);
      if steps[n].pid == p && Tids(steps)[n] == k {
        InsertedContents(PriorLane(s, p, k), steps[n].x);
        assert PriorLane(Run(steps), p, k) == Inserted(PriorLane(s, p, k), steps[n].x);
      } else {
        assert PriorLane(Run(steps), p, k) == PriorLane(s, p, k);
      }
    }
  }

  /** Step `i` drew the interval `x` in lane `k` of process `p`. */
  predicate Drew(steps: seq<Step>, i: int, p: Pid, k: int, x: Interval) {
    0 <= i < |steps| && steps[i] == Step(steps[i].first, p, x) && Tids(steps)[i] == k
  }

  lemma {:induction false} TidsPrefix(steps: seq<Step>)
    requires |steps| > 0
    ensures var n := |steps| - 1;
            Tids(steps[..n]) == Tids(steps)[..n] && Tids(steps)[n] == Run(steps).status[steps[n].pid]
  {
    hide Run;
  }

  lemma {:induction false} DrewPrefix(steps: seq<Step>, i: int, p: Pid, k: int, x: Interval)
    requires |steps| > 0
    ensures var n := |steps| - 1;
            && (Drew(steps[..n], i, p, k, x) <==> i < n && Drew(steps, i, p, k, x))
            && (Drew(steps, n, p, k, x) <==> steps[n].pid == p && Tids(steps)[n] == k && steps[n].x == x)
            && (Drew(steps, i, p, k, x) ==> i <= n)
  {
    hide Tids;
    TidsPrefix(steps);
  }

  lemma {:induction false} DrewLast(steps: seq<Step>, p: Pid, k: int, x: Interval)
    requires |steps| > 0
    ensures var n := |steps| - 1;
            (exists i :: Drew(steps, i, p, k, x)) <==>
              (exists i :: Drew(steps[..n], i, p, k, x)) || Drew(steps, n, p, k, x)
  {
    hide Drew, Tids;
    var pre := steps[..|steps| - 1];
    if i :| Drew(pre, i, p, k, x) {
      DrewPrefix(steps, i, p, k, x);
    }
    if i :| Drew(steps, i, p, k, x) {
      DrewPrefix(steps, i, p, k, x);
    }
  }

  /** A lane's entries are the intervals of the steps it was given to, and no others. */
  lemma {:induction false} LaneMembers(steps: seq<Step>, p: Pid, k: int, x: Interval)
    ensures x in PriorLane(Run(steps), p, k) <==> exists i :: Drew(steps, i, p, k, x)
  {
    hide WellFormed, Apply, Inserted, Tids;
    if steps == [] {
      assert forall i :: !Drew(steps, i, p, k, x);
    } else {
      hide Drew;
      var n := |steps| - 1;
      var s := Run(steps[..n]);
      LaneMembers(steps[..n], p, k, x);
      DrewLast(steps, p, k, x);
      DrewPrefix(steps, n, p, k, x);
      StepShape(s, steps[n]);
      TidsPrefix(steps);
      InsertedMembers(PriorLane(s, p, k), steps[n].x, x);
    }
  }

  /** Safety as a reader of the trace sees it: two spans of positive length drawn in the same
      lane never share an instant. */
  lemma {:induction false} SameLaneDisjoint(steps: seq<Step>, i: nat, j: nat, p: Pid)
    requires i < j < |steps| && steps[i].pid == steps[j].pid == p
    requires NoHiddenPoint(steps, p)
    requires Tids(steps)[i] == Tids(steps)[j]
    requires steps[i].x.start < steps[i].x.end && steps[j].x.start < steps[j].x.end
    ensures !SharesInstant(steps[i].x, steps[j].x.start, steps[j].x.end)
  {
    hide WellFormed, Run, NoHiddenPoint, SharesInstant;
    var n := |steps| - 1;
    var pre := steps[..n];
    NoHiddenPointPrefix(steps, p);
    if j < n {
      SameLaneDisjoint(pre, i, j, p);
    } else {
      assert Drew(pre, i, p, Tids(steps)[n], steps[i].x);
      LastStepDisjoint(steps, p, steps[i].x);
    }
  }

  lemma {:induction false} LastStepDisjoint(steps: seq<Step>, p: Pid, x: Interval)
    requires |steps| > 0
    requires var n := |steps| - 1;
             && steps[n].pid == p && steps[n].x.start < steps[n].x.end && x.start < x.end
             && NoHiddenPoint(steps, p)
             && exists i :: Drew(steps[..n], i, p, Tids(steps)[n], x)
    ensures !SharesInstant(x, steps[|steps| - 1].x.start, steps[|steps| - 1].x.end)
  {
    hide WellFormed, HiddenPoint, NoHiddenPoint, FindLine, Overlaps, Blocks, SharesInstant, Drew, Ordered, Inserted;
    var n := |steps| - 1;
    var st, s, k := steps[n], Run(steps[..n]), Tids(steps)[n];
    NoHiddenPointPrefix(steps, p);
    RunSeparatedIff(steps[..n], p);
    LaneMembers(steps[..n], p, k, x);
    ChosenLaneFree(s, st);
    FindLineShape(Begin(s, st), p, st.x);
    OverlapsIsScan(s.graph[p][k], st.x.start, st.x.end);
    BlocksIsSharing(x, st.x.start, st.x.end);
  }

  lemma {:induction false} KeptStep(s: State, st: Step)
    requires WellFormed(s) && !st.first && KeepsLine(s, st.pid, st.x)
    ensures var k := s.status[st.pid];
            && st.pid in s.graph && k in s.graph[st.pid]
            && Apply(s, st) == s.(graph := s.graph[st.pid := s.graph[st.pid][k := Inserted(s.graph[st.pid][k], st.x)]])
  {
    hide LinesOk, Inserted, Overlaps;
    assert HasLine(s, Slot(st.pid, s.status[st.pid]));
  }

  lemma {:induction false} FirstStep(p: Pid, x: Interval)
    ensures Run([Step(true, p, x)]) == State(map[p := map[1 := [x]]], map[p := 1], [Slot(p, 1)])
  {
    var st := Step(true, p, x);
    assert [st][..0] == [];
    assert Inserted([], x) == [x];
    StepShape(EMPTY, st);
    assert FindLine(EMPTY, p, x) == Opened(EMPTY, p, map[]);
  }

  /** Zero-length spans are what safety needs to exclude: with one, two overlapping spans of
      positive length are drawn in lane 1. */
  lemma {:induction false} HiddenPointBreaksSafety(p: Pid)
    ensures var steps := [Step(true, p, Interval(0, 20)), Step(false, p, Interval(5, 5)), Step(false, p, Interval(6, 8))];
            && Tids(steps) == [1, 1, 1]
            && SharesInstant(steps[0].x, steps[2].x.start, steps[2].x.end)
            && !NoHiddenPoint(steps, p)
  {
    hide WellFormed, Apply, FindLine;
    var x, y, z := Interval(0, 20), Interval(5, 5), Interval(6, 8);
    var a, b, c := Step(true, p, x), Step(false, p, y), Step(false, p, z);
    var steps := [a, b, c];
    assert steps[..1] == [a] && steps[..2] == [a, b] && steps[..3] == steps;
    assert [a, b][..1] == [a] && [x, y][1..] == [y];
    FirstStep(p, x);
    var s1 := Run([a]);
    assert Bisect([x], At(5, 5)) == 1 == Bisect([x], BeforeAll(5));
    assert HiddenPoint(s1, b);
    KeptStep(s1, b);
    var s2 := Run([a, b]);
    assert s2 == Apply(s1, b);
    assert Inserted([x], y) == [x, y];
    assert s2.graph[p][1] == [x, y];
    assert Bisect([x, y], BeforeAll(6)) == 2;
    KeptStep(s2, c);
    assert [a][..0] == [];
    assert Tids([a]) == [1];
    assert Tids([a, b]) == [1, 1];
    assert Covers(x, 7) && Covers(z, 7);
  }
}
