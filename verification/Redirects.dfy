/** Redirect resolution (benchmark/line_retrieval/gen_data.py): following "same as" lines to
    their source, with ring detection, while the values are overwritten in place. */
module Redirects {
  import opened Wrappers

  /** `redirects[i]` is the line that line `i` refers to, or nothing. */
  type Redirects = seq<Option<nat>>

  predicate InBounds(red: Redirects) {
    forall i :: 0 <= i < |red| && red[i].Some? ==> red[i].value < |red|
  }

  predicate Terminal(red: Redirects, i: nat)
    requires i < |red|
  {
    red[i].None?
  }

  /** The line reached from `i` after `k` redirections, staying put at a terminal. */
  function At(red: Redirects, i: nat, k: nat): (j: nat)
    requires InBounds(red) && i < |red|
    ensures j < |red|
  {
    if k == 0 then i
    else
      var j := At(red, i, k - 1);
      if Terminal(red, j) then j else red[j].value
  }

  /** Some redirection leads out of line `i` to a line with a value of its own. */
  ghost predicate Resolves(red: Redirects, i: nat)
    requires InBounds(red) && i < |red|
  {
    exists k :: Terminal(red, At(red, i, k))
  }

  /** `i` reaches its terminal after exactly `k` redirections. */
  ghost predicate EndsAfter(red: Redirects, i: nat, k: nat)
    requires InBounds(red) && i < |red|
  {
    Terminal(red, At(red, i, k)) && forall j :: 0 <= j < k ==> !Terminal(red, At(red, i, j))
  }

  function Chain(red: Redirects, i: nat, k: nat): (c: seq<nat>)
    requires InBounds(red) && i < |red|
    ensures |c| == k && forall j :: 0 <= j < k ==> c[j] == At(red, i, j + 1)
  {
    seq(k, j requires 0 <= j => At(red, i, j + 1))
  }

  // ---------- rings ----------

  /** Equal places have equal futures. */
  lemma {:induction false} SameFuture(red: Redirects, i: nat, a: nat, b: nat, d: nat)
    requires InBounds(red) && i < |red| && At(red, i, a) == At(red, i, b)
    ensures At(red, i, a + d) == At(red, i, b + d)
  {
    if d > 0 { SameFuture(red, i, a, b, d - 1); }
  }

  /** Coming back to a visited line means never reaching a terminal. */
  lemma {:induction false} RingNeverEnds(red: Redirects, i: nat, a: nat, m: nat, k: nat)
    requires InBounds(red) && i < |red| && a < m && At(red, i, a) == At(red, i, m)
    requires forall j :: 0 <= j < m ==> !Terminal(red, At(red, i, j))
    ensures !Terminal(red, At(red, i, k))
    decreases k
  {
    if k >= m {
      SameFuture(red, i, a, m, k - m);
      RingNeverEnds(red, i, a, m, a + (k - m));
    }
  }

  /** A chain that ends visits no line twice. */
  lemma {:induction false} ChainDistinct(red: Redirects, i: nat, k: nat, a: nat, b: nat)
    requires InBounds(red) && i < |red| && EndsAfter(red, i, k) && a < b <= k
    ensures At(red, i, a) != At(red, i, b)
  {
    if At(red, i, a) == At(red, i, b) {
      if b < k || !Terminal(red, At(red, i, b)) {
        RingNeverEnds(red, i, a, b, k);
      }
    }
  }

  /** The lines a walk has been to before step `m`. */
  function Visited(red: Redirects, i: nat, m: nat): set<nat>
    requires InBounds(red) && i < |red|
  {
    if m == 0 then {} else Visited(red, i, m - 1) + {At(red, i, m - 1)}
  }

  lemma {:induction false} VisitedLast(red: Redirects, i: nat, m: nat, x: nat)
    requires InBounds(red) && i < |red| && m > 0
    ensures (exists j :: 0 <= j < m && At(red, i, j) == x) <==>
            (exists j :: 0 <= j < m - 1 && At(red, i, j) == x) || At(red, i, m - 1) == x
  {
    hide At;
    if At(red, i, m - 1) != x {
      assert forall j :: 0 <= j < m && At(red, i, j) == x ==> j != m - 1;
    }
  }

  lemma {:induction false} VisitedMember(red: Redirects, i: nat, m: nat, x: nat)
    requires InBounds(red) && i < |red|
    ensures x in Visited(red, i, m) <==> exists j :: 0 <= j < m && At(red, i, j) == x
  {
    if m > 0 {
      VisitedMember(red, i, m - 1, x);
      assert x in Visited(red, i, m) <==> x in Visited(red, i, m - 1) || x == At(red, i, m - 1);
      VisitedLast(red, i, m, x);
    }
  }

  lemma {:induction false} BoundedSet(s: set<nat>, n: nat)
    requires forall x :: x in s ==> x < n
    ensures |s| <= n
  {
    if n > 0 {
      BoundedSet(s - {n - 1}, n - 1);
    } else {
      assert s == {};
    }
  }

  // ---------- one chase ----------

  /** The inner loop: the walk from `i`, stopped at a terminal or on meeting a visited line. */
  lemma {:induction false} RingFound(red: Redirects, i: nat, m: nat)
    requires InBounds(red) && i < |red| && At(red, i, m) in Visited(red, i, m)
    requires forall j :: 0 <= j < m ==> !Terminal(red, At(red, i, j))
    ensures !Resolves(red, i)
  {
    hide At, Visited, Terminal;
    VisitedMember(red, i, m, At(red, i, m));
    var a :| 0 <= a < m && At(red, i, a) == At(red, i, m);
    forall k ensures !Terminal(red, At(red, i, k)) {
      RingNeverEnds(red, i, a, m, k);
    }
  }

  method Chase(red: Redirects, i: nat) returns (link: Option<seq<nat>>, cur: nat)
    requires InBounds(red) && i < |red|
    ensures cur < |red|
    ensures link.Some? <==> Resolves(red, i)
    ensures link.Some? ==>
              var k := |link.value|;
              EndsAfter(red, i, k) && cur == At(red, i, k) && link.value == Chain(red, i, k)
  {
    cur := i;
    var tmp: seq<nat> := [];
    var visited: set<nat> := {};
    ghost var m := 0;
    while red[cur].Some?
      invariant cur == At(red, i, m) && cur < |red|
      invariant visited == Visited(red, i, m) && cur !in visited
      invariant tmp == Chain(red, i, m)
      invariant forall j :: 0 <= j < m ==> !Terminal(red, At(red, i, j))
      invariant forall x :: x in visited ==> x < |red|
      decreases |red| - |visited|
    {
      visited := visited + {cur};
      BoundedSet(visited, |red|);
      tmp := tmp + [red[cur].value];
      cur := red[cur].value;
      m := m + 1;
      if cur in visited {
        RingFound(red, i, m);
        return None, cur;
      }
    }
    assert Terminal(red, At(red, i, m));
    link := Some(tmp);
  }

  // ---------- all lines ----------

  /** What the resolution of line `i` must have produced. */
  ghost predicate ResolvedLine(red: Redirects, given: seq<string>, values: seq<string>,
                               links: seq<Option<seq<nat>>>, ring: set<nat>, i: nat)
    requires InBounds(red) && i < |red| == |given| == |values| == |links|
  {
    && (i in ring <==> !Resolves(red, i))
    && (links[i].Some? <==> Resolves(red, i))
    && (links[i].Some? ==>
          var k := |links[i].value|;
          && EndsAfter(red, i, k) && links[i].value == Chain(red, i, k)
          && values[i] == given[At(red, i, k)])
  }

  /** The whole loop: rings are exactly the lines that never reach a value, every other line has
      its exact chain, and its value is the one its terminal was given, although values are
      overwritten while the loop runs. */
  method BuildLinks(red: Redirects, given: seq<string>)
    returns (values: seq<string>, links: seq<Option<seq<nat>>>, ring: set<nat>)
    requires InBounds(red) && |given| == |red|
    ensures |values| == |red| == |links|
    ensures forall i :: 0 <= i < |red| ==> ResolvedLine(red, given, values, links, ring, i)
    ensures forall i :: i in ring ==> i < |red|
  {
    values := given;
    links := seq(|red|, _ => Some([]));
    ring := {};
    for i := 0 to |red|
      invariant |values| == |red| == |links|
      invariant forall t :: 0 <= t < |red| && Terminal(red, t) ==> values[t] == given[t]
      invariant forall j :: 0 <= j < i ==> ResolvedLine(red, given, values, links, ring, j)
      invariant forall j :: j in ring ==> j < i
      invariant forall j :: i <= j < |red| ==> links[j] == Some([])
    {
      ghost var v0, l0, r0 := values, links, ring;
      if red[i].Some? {
        var link, cur := Chase(red, i);
        if link.None? { ring := ring + {i}; }
        values := values[i := values[cur]];
        links := links[i := link];
      } else {
        assert EndsAfter(red, i, 0);
      }
      forall j | 0 <= j < i ensures ResolvedLine(red, given, values, links, ring, j) {
        assert ResolvedLine(red, given, v0, l0, r0, j);
      }
    }
  }

  // ---------- grouping ----------

  /** The lines among the first `n` that take `h` lines to resolve, counting themselves. */
  function Group(links: seq<Option<seq<nat>>>, ring: set<nat>, h: nat, n: nat): (r: seq<nat>)
    requires n <= |links|
    ensures forall k :: 0 <= k < |r| ==> r[k] < n && r[k] !in ring && links[r[k]].Some? && |links[r[k]].value| + 1 == h
  {
    if n == 0 then []
    else
      var rest := Group(links, ring, h, n - 1);
      if n - 1 !in ring && links[n - 1].Some? && |links[n - 1].value| + 1 == h then rest + [n - 1] else rest
  }

  /** `group_by_num_hoops`: a group exists exactly when some line belongs to it. */
  method GroupByHoops(links: seq<Option<seq<nat>>>, ring: set<nat>) returns (groups: map<nat, seq<nat>>)
    requires forall i :: 0 <= i < |links| ==> (i in ring <==> links[i].None?)
    ensures forall h :: GroupShown(groups, links, ring, h, |links|)
  {
    hide Group;
    groups := map[];
    forall h ensures GroupShown(groups, links, ring, h, 0) {
      GroupNone(links, ring, h);
    }
    for i := 0 to |links|
      invariant forall h :: GroupShown(groups, links, ring, h, i)
    {
      ghost var before := groups;
      if i !in ring {
        var h := |links[i].value| + 1;
        groups := groups[h := (if h in groups then groups[h] else []) + [i]];
      }
      ghost var next := i + 1;
      forall h ensures GroupShown(groups, links, ring, h, next) {
        assert GroupShown(before, links, ring, h, i);
        GroupStep(links, ring, h, i);
      }
    }
  }

  ghost predicate GroupShown(groups: map<nat, seq<nat>>, links: seq<Option<seq<nat>>>, ring: set<nat>, h: nat, n: nat)
    requires n <= |links|
  {
    && (h in groups <==> Group(links, ring, h, n) != [])
    && (h in groups ==> groups[h] == Group(links, ring, h, n))
  }

  lemma {:induction false} GroupNone(links: seq<Option<seq<nat>>>, ring: set<nat>, h: nat)
    ensures Group(links, ring, h, 0) == []
  {
  }

  lemma {:induction false} GroupStep(links: seq<Option<seq<nat>>>, ring: set<nat>, h: nat, i: nat)
    requires i < |links|
    ensures Group(links, ring, h, i + 1) ==
              Group(links, ring, h, i) + if i !in ring && links[i].Some? && |links[i].value| + 1 == h then [i] else []
  {
  }
}
