/** The rule by which spans get their lanes, told without the layout state: from the spans placed
    before and the lanes they were given. */
module LaneRule {
  import opened Lanes
  import opened LaneLayout
  import opened LaneRuns

  /** `i` is the latest span of the same request placed before `n` in the same process. */
  ghost predicate Previous(steps: seq<Step>, i: int, n: int) {
    && 0 <= i < n < |steps| && steps[i].pid == steps[n].pid
    && (forall k :: i < k <= n ==> !steps[k].first)
    && (forall k :: i < k < n ==> steps[k].pid != steps[n].pid)
  }

  /** No span given lane `k` of its process before `n` is in the way of span `n`. */
  ghost predicate Free(steps: seq<Step>, a: seq<int>, n: int, k: int)
    requires 0 <= n < |steps| && n <= |a|
  {
    forall i :: 0 <= i < n && steps[i].pid == steps[n].pid && a[i] == k ==>
      !Blocks(steps[i].x, steps[n].x.start, steps[n].x.end)
  }

  /** The previous lane will do: for a point, or when it is free. */
  ghost predicate StaysAt(steps: seq<Step>, a: seq<int>, i: int, n: int)
    requires 0 <= n < |steps| && n <= |a|
  {
    Previous(steps, i, n) && (steps[n].x.start == steps[n].x.end || Free(steps, a, n, a[i]))
  }

  /** Span `n` has the lane of its predecessor in the request if that will do, and otherwise the
      lowest-numbered free lane. */
  ghost predicate Rule(steps: seq<Step>, a: seq<int>, n: int)
    requires 0 <= n < |steps| && n < |a|
  {
    && (forall i :: StaysAt(steps, a, i, n) ==> a[n] == a[i])
    && ((forall i :: !StaysAt(steps, a, i, n)) ==>
          1 <= a[n] && Free(steps, a, n, a[n]) && forall k :: 1 <= k < a[n] ==> !Free(steps, a, n, k))
  }

  ghost predicate Follows(steps: seq<Step>, a: seq<int>) {
    |a| == |steps| && forall n :: 0 <= n < |steps| ==> Rule(steps, a, n)
  }

  // ---------- prefixes ----------

  lemma {:induction false} TidsTake(steps: seq<Step>, m: nat)
    requires m <= |steps|
    ensures Tids(steps[..m]) == Tids(steps)[..m]
  {
    hide Tids, Run;
    if m == |steps| {
      assert steps[..m] == steps && Tids(steps)[..m] == Tids(steps);
    } else {
      var pre := steps[..|steps| - 1];
      TidsPrefix(steps);
      TidsTake(pre, m);
      assert pre[..m] == steps[..m];
    }
  }

  lemma {:induction false} FreeTake(steps: seq<Step>, a: seq<int>, n: nat, m: nat, k: int)
    requires n < m <= |steps| && m <= |a|
    ensures Free(steps[..m], a[..m], n, k) <==> Free(steps, a, n, k)
  {
    hide Blocks;
    forall i | 0 <= i < m ensures steps[..m][i] == steps[i] && a[..m][i] == a[i] {}
  }

  lemma {:induction false} PreviousTake(steps: seq<Step>, i: int, n: nat, m: nat)
    requires n < m <= |steps|
    ensures Previous(steps[..m], i, n) <==> Previous(steps, i, n)
  {
    forall i | 0 <= i < m ensures steps[..m][i] == steps[i] {}
  }

  /** The rule at `n` speaks only of what comes up to `n`. */
  lemma {:induction false} RuleTake(steps: seq<Step>, a: seq<int>, n: nat, m: nat)
    requires n < m <= |steps| && m <= |a|
    ensures Rule(steps[..m], a[..m], n) <==> Rule(steps, a, n)
  {
    hide Free, Previous;
    forall k ensures Free(steps[..m], a[..m], n, k) <==> Free(steps, a, n, k) { FreeTake(steps, a, n, m, k); }
    forall i | 0 <= i < m ensures a[..m][i] == a[i] {}
    forall i
      ensures StaysAt(steps[..m], a[..m], i, n) <==> StaysAt(steps, a, i, n)
      ensures StaysAt(steps, a, i, n) ==> 0 <= i < n
    {
      PreviousTake(steps, i, n, m);
      if Previous(steps, i, n) { PreviousInRange(steps, i, n); }
    }
    hide StaysAt;
  }

  lemma {:induction false} PreviousInRange(steps: seq<Step>, i: int, n: int)
    requires Previous(steps, i, n)
    ensures 0 <= i < n < |steps| && steps[i].pid == steps[n].pid
  {
  }

  // ---------- the layout state, from the steps ----------

  /** `i` is the latest step of process `p`, and no request begins after it. */
  ghost predicate Latest(steps: seq<Step>, i: int, p: Pid) {
    && 0 <= i < |steps| && steps[i].pid == p
    && forall k :: i < k < |steps| ==> !steps[k].first && steps[k].pid != p
  }

  lemma {:induction false} LatestPrefix(steps: seq<Step>, i: int, p: Pid)
    requires |steps| > 0
    ensures var n := |steps| - 1;
            && (steps[n].pid == p ==> (Latest(steps, i, p) <==> i == n))
            && (steps[n].pid != p ==> (Latest(steps, i, p) <==> !steps[n].first && Latest(steps[..n], i, p)))
  {
    var n := |steps| - 1;
    forall k | 0 <= k < n ensures steps[..n][k] == steps[k] {}
  }

  /** What is remembered for a process is the lane of the latest step there. */
  lemma {:induction false} StatusIsLatest(steps: seq<Step>, i: int, p: Pid)
    requires Latest(steps, i, p)
    ensures p in Run(steps).status && Run(steps).status[p] == Tids(steps)[i]
  {
    hide Tids, Apply, WellFormed, Latest;
    LatestInRange(steps, i, p);
    var n := |steps| - 1;
    TidsPrefix(steps);
    LatestPrefix(steps, i, p);
    StepShape(Run(steps[..n]), steps[n]);
    if steps[n].pid != p {
      LatestInRange(steps[..n], i, p);
      StatusIsLatest(steps[..n], i, p);
    }
  }

  lemma {:induction false} LatestInRange(steps: seq<Step>, i: int, p: Pid)
    requires Latest(steps, i, p)
    ensures 0 <= i < |steps| && steps[i].pid == p
  {
  }

  lemma {:induction false} LatestOfStatus(steps: seq<Step>, p: Pid) returns (i: int)
    requires p in Run(steps).status
    ensures Latest(steps, i, p)
  {
    hide Tids, Apply, WellFormed, Latest;
    var n := |steps| - 1;
    StepShape(Run(steps[..n]), steps[n]);
    if steps[n].pid == p {
      i := n;
    } else {
      i := LatestOfStatus(steps[..n], p);
    }
    LatestPrefix(steps, i, p);
  }

  lemma {:induction false} PreviousIsLatest(steps: seq<Step>, i: int)
    requires |steps| > 0
    ensures var n := |steps| - 1;
            Previous(steps, i, n) <==> !steps[n].first && Latest(steps[..n], i, steps[n].pid)
  {
    var n := |steps| - 1;
    forall k | 0 <= k < n ensures steps[..n][k] == steps[k] {}
  }

  lemma {:induction false} FreeIsClear(steps: seq<Step>, k: int)
    requires |steps| > 0
    ensures var n := |steps| - 1;
            Free(steps, Tids(steps), n, k) <==> Clear(PriorLane(Run(steps[..n]), steps[n].pid, k), steps[n].x)
  {
    hide Run, Tids, Blocks, PriorLane;
    var n := |steps| - 1;
    var pre, p, x := steps[..n], steps[n].pid, steps[n].x;
    var lane := PriorLane(Run(pre), p, k);
    TidsPrefix(steps);
    if Clear(lane, x) {
      forall i | 0 <= i < n && steps[i].pid == p && Tids(steps)[i] == k ensures !Blocks(steps[i].x, x.start, x.end) {
        assert Drew(pre, i, p, k, steps[i].x);
        LaneMembers(pre, p, k, steps[i].x);
      }
    }
    if Free(steps, Tids(steps), n, k) {
      forall j | 0 <= j < |lane| ensures !Blocks(lane[j], x.start, x.end) {
        LaneMembers(pre, p, k, lane[j]);
        var i :| Drew(pre, i, p, k, lane[j]);
        assert steps[i] == pre[i];
      }
    }
  }

  // ---------- the layout follows the rule ----------

  lemma {:induction false} LastFollows(steps: seq<Step>)
    requires |steps| > 0 && NoHiddenPoint(steps[..|steps| - 1], steps[|steps| - 1].pid)
    ensures Rule(steps, Tids(steps), |steps| - 1)
  {
    hide Tids, WellFormed, Apply, NoHiddenPoint, Clear, Free, Previous, Latest, PriorLane;
    var n := |steps| - 1;
    var pre, p, t := steps[..n], steps[n].pid, Tids(steps);
    var s := Run(pre);
    RunSeparatedIff(pre, p);
    TidsPrefix(steps);
    StepLane(s, steps[n]);
    forall k ensures Free(steps, t, n, k) <==> Clear(PriorLane(s, p, k), steps[n].x) { FreeIsClear(steps, k); }
    forall i | StaysAt(steps, t, i, n) ensures 0 <= i < n && t[n] == t[i] {
      PreviousIsLatest(steps, i);
      LatestInRange(pre, i, p);
      StatusIsLatest(pre, i, p);
    }
    if !steps[n].first && p in s.status {
      var i := LatestOfStatus(pre, p);
      PreviousIsLatest(steps, i);
      LatestInRange(pre, i, p);
      StatusIsLatest(pre, i, p);
      assert StaysAt(steps, t, i, n) <==> steps[n].x.start == steps[n].x.end || Clear(PriorLane(s, p, s.status[p]), steps[n].x);
    }
  }

  /** Every span is placed by the rule, as long as no hidden point has been placed before it. */
  lemma {:induction false} TidsFollow(steps: seq<Step>, n: nat)
    requires n < |steps| && NoHiddenPoint(steps[..n], steps[n].pid)
    ensures Rule(steps, Tids(steps), n)
  {
    hide Tids, NoHiddenPoint, Rule, Run;
    var upto := steps[..n + 1];
    assert upto[..n] == steps[..n];
    LastFollows(upto);
    TidsTake(steps, n + 1);
    RuleTake(steps, Tids(steps), n, n + 1);
  }

  // ---------- and nothing else does ----------

  lemma {:induction false} RuleSame(steps: seq<Step>, a: seq<int>, b: seq<int>, n: nat)
    requires n < |steps| && n < |a| && n < |b| && a[..n] == b[..n] && Rule(steps, a, n) && Rule(steps, b, n)
    ensures a[n] == b[n]
  {
    hide Previous, Blocks;
    forall i | 0 <= i < n ensures a[i] == b[i] { assert a[..n][i] == b[..n][i]; }
    forall k ensures Free(steps, a, n, k) <==> Free(steps, b, n, k) {}
    hide Free;
    forall i ensures StaysAt(steps, a, i, n) <==> StaysAt(steps, b, i, n) {
      if Previous(steps, i, n) { PreviousInRange(steps, i, n); }
    }
    if i :| StaysAt(steps, a, i, n) {
      PreviousInRange(steps, i, n);
    }
  }

  lemma {:induction false} SameUpto(steps: seq<Step>, a: seq<int>, b: seq<int>, n: nat)
    requires Follows(steps, a) && Follows(steps, b) && n <= |steps|
    ensures a[..n] == b[..n]
  {
    hide Rule;
    if n > 0 {
      SameUpto(steps, a, b, n - 1);
      RuleSame(steps, a, b, n - 1);
      assert a[..n] == a[..n - 1] + [a[n - 1]] && b[..n] == b[..n - 1] + [b[n - 1]];
    }
  }

  /** The lanes are exactly those of the rule, for every sequence of spans without hidden points. */
  lemma {:induction false} RuleDecidesLanes(steps: seq<Step>, a: seq<int>)
    requires forall p :: NoHiddenPoint(steps, p)
    ensures Follows(steps, a) <==> a == Tids(steps)
  {
    hide Tids, Rule, Run;
    forall n | 0 <= n < |steps| ensures Rule(steps, Tids(steps), n) {
      NoHiddenTake(steps, n, steps[n].pid);
      TidsFollow(steps, n);
    }
    if Follows(steps, a) {
      SameUpto(steps, a, Tids(steps), |steps|);
      assert a[..|steps|] == a && Tids(steps)[..|steps|] == Tids(steps);
    }
  }

  lemma {:induction false} NoHiddenTake(steps: seq<Step>, n: nat, p: Pid)
    requires n <= |steps| && NoHiddenPoint(steps, p)
    ensures NoHiddenPoint(steps[..n], p)
  {
    hide HiddenPoint, Run;
    forall i | 0 <= i < n ensures steps[..n][..i] == steps[..i] && steps[..n][i] == steps[i] {}
  }
}
