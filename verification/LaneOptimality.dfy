/** The greedy layout of spans placed in start order opens no more lanes than it must: as
    many as there are spans covering one instant. */
module LaneOptimality {
  import opened Lanes
  import opened LaneLayout
  import opened LaneRuns

  ghost predicate Positive(steps: seq<Step>, p: Pid) {
    forall i :: 0 <= i < |steps| && steps[i].pid == p ==> steps[i].x.start < steps[i].x.end
  }

  ghost predicate StartOrder(steps: seq<Step>, p: Pid) {
    forall i, j :: 0 <= i < j < |steps| && steps[i].pid == p && steps[j].pid == p ==>
      steps[i].x.start <= steps[j].x.start
  }

  /** The steps of process `p` whose span covers the instant `t`. */
  function Covering(steps: seq<Step>, p: Pid, t: int): set<int> {
    set i | 0 <= i < |steps| && steps[i].pid == p && Covers(steps[i].x, t)
  }

  /** `a` gives every step a lane so that no two spans of a lane share an instant. */
  ghost predicate Assignment(steps: seq<Step>, p: Pid, a: seq<int>) {
    && |a| == |steps|
    && forall i, j :: 0 <= i < j < |steps| && steps[i].pid == p && steps[j].pid == p && a[i] == a[j] ==>
         !SharesInstant(steps[i].x, steps[j].x.start, steps[j].x.end)
  }

  function LanesUsed(steps: seq<Step>, p: Pid, a: seq<int>): set<int>
    requires |a| == |steps|
  {
    set i | 0 <= i < |steps| && steps[i].pid == p :: a[i]
  }

  // ---------- counting ----------

  lemma {:induction false} Pick<T>(A: set<T>) returns (i: T)
    requires A != {}
    ensures i in A
  {
    i :| i in A;
  }

  lemma {:induction false} InjectionBound(A: set<int>, f: seq<int>, B: set<int>)
    requires forall i :: i in A ==> 0 <= i < |f| && f[i] in B
    requires forall i, j :: i in A && j in A && i != j ==> f[i] != f[j]
    ensures |A| <= |B|
  {
    if A != {} {
      var i := Pick(A);
      InjectionBound(A - {i}, f, B - {f[i]});
    }
  }

  lemma {:induction false} SurjectionBound(A: set<int>, f: seq<int>, B: set<int>)
    requires forall i :: i in A ==> 0 <= i < |f|
    requires forall k :: k in B ==> exists i :: i in A && f[i] == k
    ensures |B| <= |A|
  {
    if B != {} {
      var k := Pick(B);
      var i :| i in A && f[i] == k;
      forall l | l in B - {k} ensures exists j :: j in A - {i} && f[j] == l {
        var j :| j in A && f[j] == l;
        assert j in A - {i};
      }
      SurjectionBound(A - {i}, f, B - {k});
    }
  }

  // ---------- lower bound for every layout ----------

  /** No assignment to disjoint lanes gets by with fewer lanes than spans at one instant. */
  lemma {:induction false} AnyLayoutNeedsDepth(steps: seq<Step>, p: Pid, a: seq<int>, t: int)
    requires Assignment(steps, p, a)
    ensures |Covering(steps, p, t)| <= |LanesUsed(steps, p, a)|
  {
    var A := Covering(steps, p, t);
    forall i, j | i in A && j in A && i != j ensures a[i] != a[j] {
      var lo, hi := if i < j then i else j, if i < j then j else i;
      assert Covers(steps[lo].x, t) && Covers(Interval(steps[hi].x.start, steps[hi].x.end), t);
      assert SharesInstant(steps[lo].x, steps[hi].x.start, steps[hi].x.end);
    }
    InjectionBound(A, a, LanesUsed(steps, p, a));
  }

  lemma {:induction false} PositiveNoHiddenPoint(steps: seq<Step>, p: Pid)
    requires Positive(steps, p)
    ensures NoHiddenPoint(steps, p)
  {
    hide Run, Overlaps;
  }

  /** The greedy layout is itself an assignment to disjoint lanes. */
  lemma {:induction false} GreedyIsAssignment(steps: seq<Step>, p: Pid)
    requires Positive(steps, p)
    ensures Assignment(steps, p, Tids(steps))
  {
    hide Tids, SharesInstant, NoHiddenPoint;
    PositiveNoHiddenPoint(steps, p);
    forall i, j | 0 <= i < j < |steps| && steps[i].pid == p && steps[j].pid == p && Tids(steps)[i] == Tids(steps)[j]
      ensures !SharesInstant(steps[i].x, steps[j].x.start, steps[j].x.end)
    {
      SameLaneDisjoint(steps, i, j, p);
    }
  }

  /** The lanes opened for a process are exactly the lanes its spans were given. */
  lemma {:induction false} OpenedLanesAreUsed(steps: seq<Step>, p: Pid)
    ensures PriorLines(Run(steps), p).Keys == LanesUsed(steps, p, Tids(steps))
  {
    hide WellFormed, Apply, Inserted, Tids;
    if steps == [] {
      assert LanesUsed(steps, p, Tids(steps)) == {};
    } else {
      var n := |steps| - 1;
      var pre := steps[..n];
      OpenedLanesAreUsed(pre, p);
      StepShape(Run(pre), steps[n]);
      TidsPrefix(steps);
      var t := Tids(steps);
      assert LanesUsed(steps, p, t) == LanesUsed(pre, p, t[..n]) + if steps[n].pid == p then {t[n]} else {} by {
        forall k | k in LanesUsed(pre, p, t[..n]) ensures k in LanesUsed(steps, p, t) {
          var i :| 0 <= i < n && pre[i].pid == p && t[..n][i] == k;
          assert steps[i].pid == p && t[i] == k;
        }
      }
    }
  }

  // ---------- the peak ----------

  lemma {:induction false} CoveringPrefix(steps: seq<Step>, p: Pid, t: int)
    requires |steps| > 0
    ensures Covering(steps[..|steps| - 1], p, t) <= Covering(steps, p, t)
  {
  }

  /** When a lane is opened, every lane of the process has a span covering the new start. */
  lemma {:induction false} OpeningCovers(steps: seq<Step>, p: Pid, k: int)
    requires |steps| > 0 && Positive(steps, p) && StartOrder(steps, p)
    requires var n := |steps| - 1;
             && steps[n].pid == p
             && k in PriorLines(Run(steps[..n]), p)
             && Tids(steps)[n] !in PriorLines(Run(steps[..n]), p)
    ensures exists i :: i in Covering(steps, p, steps[|steps| - 1].x.start) && i < |steps| - 1 && Tids(steps)[i] == k
  {
    hide WellFormed, Apply, Tids, NoHiddenPoint;
    var n := |steps| - 1;
    var pre, st := steps[..n], steps[n];
    var s := Run(pre);
    TidsPrefix(steps);
    PositiveNoHiddenPoint(pre, p);
    RunSeparatedIff(pre, p);
    OpensOnlyWhenBlocked(s, st);
    var m :| 0 <= m < |s.graph[p][k]| && Blocks(s.graph[p][k][m], st.x.start, st.x.end);
    var x := s.graph[p][k][m];
    LaneMembers(pre, p, k, x);
    var i :| Drew(pre, i, p, k, x);
    assert steps[i].x == x && Tids(steps)[i] == k;
    assert Covers(x, st.x.start);
    assert i in Covering(steps, p, st.x.start);
  }

  /** Some instant is covered by as many spans as lanes were opened. */
  lemma {:induction false} PeakReached(steps: seq<Step>, p: Pid) returns (t: int)
    requires Positive(steps, p) && StartOrder(steps, p)
    ensures |PriorLines(Run(steps), p)| <= |Covering(steps, p, t)|
  {
    hide WellFormed, Apply, Inserted, Tids;
    t := 0;
    if steps != [] {
      var n := |steps| - 1;
      var pre, st := steps[..n], steps[n];
      t := PeakReached(pre, p);
      CoveringPrefix(steps, p, t);
      SubsetSize(Covering(pre, p, t), Covering(steps, p, t));
      StepShape(Run(pre), st);
      TidsPrefix(steps);
      var lines := PriorLines(Run(pre), p);
      if st.pid != p || Tids(steps)[n] in lines {
        assert PriorLines(Run(steps), p).Keys == lines.Keys;
        assert |PriorLines(Run(steps), p)| == |lines| by { SameKeys(PriorLines(Run(steps), p), lines); }
      } else {
        t := st.x.start;
        OpeningPeak(steps, p);
      }
    }
  }

  lemma {:induction false} OpeningPeak(steps: seq<Step>, p: Pid)
    requires |steps| > 0 && Positive(steps, p) && StartOrder(steps, p)
    requires var n := |steps| - 1;
             && steps[n].pid == p
             && Tids(steps)[n] !in PriorLines(Run(steps[..n]), p)
    ensures |PriorLines(Run(steps[..|steps| - 1]), p)| + 1 <= |Covering(steps, p, steps[|steps| - 1].x.start)|
  {
    hide Run, Tids;
    var n := |steps| - 1;
    var lines := PriorLines(Run(steps[..n]), p);
    var A := Covering(steps, p, steps[n].x.start);
    forall k | k in lines.Keys ensures exists i :: i in A - {n} && Tids(steps)[i] == k {
      OpeningCovers(steps, p, k);
      var i :| i in A && i < n && Tids(steps)[i] == k;
      assert i in A - {n};
    }
    SurjectionBound(A - {n}, Tids(steps), lines.Keys);
    assert n in A;
    assert |A - {n}| == |A| - 1;
    assert |lines.Keys| == |lines|;
  }

  lemma {:induction false} SubsetSize(A: set<int>, B: set<int>)
    requires A <= B
    ensures |A| <= |B|
  {
    assert |B - A| + |A| == |B| by { assert A + (B - A) == B; }
  }

  lemma {:induction false} SameKeys(a: Lines, b: Lines)
    requires a.Keys == b.Keys
    ensures |a| == |b|
  {
    assert |a.Keys| == |a| && |b.Keys| == |b|;
  }

  /** Optimality: for any run in which the spans of process `p` have positive length and come
      in start order, the number of lanes opened for `p` is the largest number of its spans
      covering one instant, and no assignment to disjoint lanes uses fewer. */
  lemma {:induction false} LanesOptimal(steps: seq<Step>, p: Pid)
    requires Positive(steps, p) && StartOrder(steps, p)
    ensures var n := |PriorLines(Run(steps), p)|;
            && (exists t :: |Covering(steps, p, t)| == n)
            && (forall t :: |Covering(steps, p, t)| <= n)
            && (forall a :: Assignment(steps, p, a) ==> |LanesUsed(steps, p, a)| >= n)
  {
    hide Run, Tids, Covering, SharesInstant, LanesUsed;
    var n := |PriorLines(Run(steps), p)|;
    GreedyIsAssignment(steps, p);
    OpenedLanesAreUsed(steps, p);
    assert |PriorLines(Run(steps), p).Keys| == n;
    forall t ensures |Covering(steps, p, t)| <= n {
      AnyLayoutNeedsDepth(steps, p, Tids(steps), t);
    }
    var t := PeakReached(steps, p);
    forall a | Assignment(steps, p, a) ensures |LanesUsed(steps, p, a)| >= n {
      AnyLayoutNeedsDepth(steps, p, a, t);
    }
  }

  /** Positive length is what optimality needs: a lone span opens one lane, and the instant it
      should cover exists exactly when its length is positive. */
  lemma {:induction false} LoneSpanOptimalIff(p: Pid, x: Interval)
    ensures var steps := [Step(true, p, x)];
            && |PriorLines(Run(steps), p)| == 1
            && ((exists t :: |Covering(steps, p, t)| == 1) <==> x.start < x.end)
  {
    hide Run;
    FirstStep(p, x);
    var steps := [Step(true, p, x)];
    if x.start < x.end {
      assert Covering(steps, p, x.start) == {0};
    } else {
      forall t ensures |Covering(steps, p, t)| == 0 {
        assert Covering(steps, p, t) == {};
      }
    }
  }
}
