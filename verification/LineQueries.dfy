/** Queries over generated lines (benchmark/line_retrieval/bench_sglang.py): which lines may be
    asked about when only a prefix of the list is shown, and what the right answer is. */
module LineQueries {
  import opened Wrappers
  import opened Redirects

  /** A line of the prompt, by the names it mentions. */
  datatype Line =
    | Literal(name: string, value: string)
    | SameAs(name: string, target: string)

  /** The text of the lines, before values are resolved. */
  function LineTexts(red: Redirects, names: seq<string>, given: seq<string>): (r: seq<Line>)
    requires InBounds(red) && |names| == |red| == |given|
    ensures |r| == |red|
    ensures forall i :: 0 <= i < |red| ==>
              r[i] == if red[i].None? then Literal(names[i], given[i]) else SameAs(names[i], names[red[i].value])
  {
    seq(|red|, i requires 0 <= i < |red| =>
      if red[i].None? then Literal(names[i], given[i]) else SameAs(names[i], names[red[i].value]))
  }

  // ---------- the reader ----------

  /** The first line that carries a name. */
  function FindLine(body: seq<Line>, name: string): (r: Option<Line>)
    ensures r.Some? ==> r.value in body && r.value.name == name
  {
    if body == [] then None
    else if body[0].name == name then Some(body[0])
    else FindLine(body[1..], name)
  }

  /** What someone who sees only `body` finds for a name by following at most `hops` references. */
  function Read(body: seq<Line>, name: string, hops: nat): Option<string>
    decreases hops
  {
    match FindLine(body, name)
    case None => None
    case Some(Literal(_, value)) => Some(value)
    case Some(SameAs(_, target)) => if hops == 0 then None else Read(body, target, hops - 1)
  }

  lemma {:induction false} ReadSame(body: seq<Line>, name: string, hops: nat)
    requires FindLine(body, name).Some? && FindLine(body, name).value.SameAs? && hops > 0
    ensures Read(body, name, hops) == Read(body, FindLine(body, name).value.target, hops - 1)
  {
  }

  lemma {:induction false} ReadLiteral(body: seq<Line>, name: string, hops: nat)
    requires FindLine(body, name).Some? && FindLine(body, name).value.Literal?
    ensures Read(body, name, hops) == Some(FindLine(body, name).value.value)
  {
  }

  ghost predicate Distinct(names: seq<string>) {
    forall i, j :: 0 <= i < j < |names| ==> names[i] != names[j]
  }

  lemma {:induction false} FindNamed(body: seq<Line>, names: seq<string>, i: nat)
    requires Distinct(names) && i < |body| <= |names|
    requires forall k :: 0 <= k < |body| ==> body[k].name == names[k]
    ensures FindLine(body, names[i]) == Some(body[i])
  {
    if i > 0 {
      assert body[0].name == names[0] != names[i];
      FindNamed(body[1..], names[1..], i - 1);
    }
  }

  /** If a whole chain is within the shown lines, the reader reaches its terminal. */
  lemma {:induction false} ReadFollows(red: Redirects, names: seq<string>, given: seq<string>, n: nat, i: nat, k: nat, j: nat)
    requires InBounds(red) && |names| == |red| == |given| && Distinct(names) && n <= |red|
    requires i < |red| && EndsAfter(red, i, k) && j <= k
    requires forall m :: 0 <= m <= k ==> At(red, i, m) < n
    ensures Read(LineTexts(red, names, given)[..n], names[At(red, i, j)], k - j) == Some(given[At(red, i, k)])
    decreases k - j
  {
    hide FindLine, Distinct, Read, LineTexts;
    var body, x := LineTexts(red, names, given)[..n], At(red, i, j);
    FindNamed(body, names, x);
    assert body[x] == LineTexts(red, names, given)[x];
    if j < k {
      ReadFollows(red, names, given, n, i, k, j + 1);
      assert At(red, i, j + 1) == red[x].value;
      ReadSame(body, names[x], k - j);
    } else {
      ReadLiteral(body, names[x], k - j);
    }
  }

  // ---------- the query ----------

  /** The generated data, as read back by the benchmark. */
  datatype LineData = LineData(lines: seq<Line>, names: seq<string>, values: seq<string>,
                               links: seq<Option<seq<nat>>>, groups: map<nat, seq<nat>>)

  datatype Query = Query(name: string, answer: string, parts: seq<seq<Line>>)

  predicate AllWithin(link: seq<nat>, src: int) {
    forall k :: 0 <= k < |link| ==> link[k] <= src
  }

  function Filtered(qs: seq<nat>, links: seq<Option<seq<nat>>>, src: int): (r: seq<nat>)
    requires forall k :: 0 <= k < |qs| ==> qs[k] < |links| && links[qs[k]].Some?
    ensures forall q :: q in r ==> q in qs && q < |links| && links[q].Some? && AllWithin(links[q].value, src) && q < src
    ensures forall q :: q in qs && AllWithin(links[q].value, src) && q < src ==> q in r
  {
    if qs == [] then []
    else
      var q := qs[|qs| - 1];
      var rest := Filtered(qs[..|qs| - 1], links, src);
      assert qs == qs[..|qs| - 1] + [q];
      if AllWithin(links[q].value, src) && q < src then rest + [q] else rest
  }

  /** The shown lines: `lines[: src + 1]`. */
  function Shown(lines: seq<Line>, src: int): seq<Line> {
    if src + 1 >= |lines| then lines
    else if src + 1 >= 0 then lines[..src + 1]
    else if |lines| + src + 1 >= 0 then lines[..|lines| + src + 1]
    else []
  }

  ghost predicate Generated(red: Redirects, given: seq<string>, d: LineData, ring: set<nat>) {
    && InBounds(red) && |given| == |red| == |d.names| == |d.values| == |d.links|
    && Distinct(d.names) && d.lines == LineTexts(red, d.names, given)
    && (forall i :: 0 <= i < |red| ==> ResolvedLine(red, given, d.values, d.links, ring, i))
    && (forall h :: GroupShown(d.groups, d.links, ring, h, |red|))
  }

  /** The part of `generate_lines` after the random draws. */
  method GenerateLines(red: Redirects, names: seq<string>, given: seq<string>) returns (d: LineData, ring: set<nat>)
    requires InBounds(red) && |names| == |red| == |given| && Distinct(names)
    ensures Generated(red, given, d, ring)
  {
    hide Group, Distinct, ResolvedLine;
    var values, links, r := BuildLinks(red, given);
    ring := r;
    forall i | 0 <= i < |links| ensures i in ring <==> links[i].None? {
      RingHasNoLink(red, given, values, links, ring, i);
    }
    var groups := GroupByHoops(links, ring);
    d := LineData(LineTexts(red, names, given), names, values, links, groups);
  }

  lemma {:induction false} RingHasNoLink(red: Redirects, given: seq<string>, values: seq<string>,
                                         links: seq<Option<seq<nat>>>, ring: set<nat>, i: nat)
    requires InBounds(red) && i < |red| == |given| == |values| == |links| && ResolvedLine(red, given, values, links, ring, i)
    ensures i in ring <==> links[i].None?
  {
  }

  // ---------- the line asked about ----------

  /** Line `q` takes `hoops` lines to resolve, counting itself, and all of them are shown. */
  ghost predicate Passes(red: Redirects, hoops: nat, src: int, q: nat)
    requires InBounds(red)
  {
    && q < |red| && q < src && hoops >= 1 && EndsAfter(red, q, hoops - 1)
    && ChainShown(red, q, hoops, src)
  }

  ghost predicate ChainShown(red: Redirects, q: nat, hoops: nat, src: int)
    requires InBounds(red) && q < |red|
  {
    forall m: nat :: 1 <= m < hoops ==> At(red, q, m) <= src
  }

  /** The number of passing lines before `q`. */
  ghost function Rank(red: Redirects, hoops: nat, src: int, q: nat): nat
    requires InBounds(red)
  {
    |set p: nat | p < q && Passes(red, hoops, src, p)|
  }

  /** The line asked about: of `n` passing lines, the one after `min(int(n * percent), n - 1)` others. */
  ghost predicate Chosen(red: Redirects, hoops: nat, src: int, percent: real, q: nat)
    requires InBounds(red)
  {
    Passes(red, hoops, src, q) && Rank(red, hoops, src, q) == Picked(Rank(red, hoops, src, |red|), percent)
  }

  function Picked(n: nat, percent: real): int {
    var k := (n as real * percent).Floor;
    if k < n then k else n - 1
  }

  ghost predicate Increasing(s: seq<nat>) {
    forall i, j :: 0 <= i < j < |s| ==> s[i] < s[j]
  }

  lemma {:induction false} GroupExact(links: seq<Option<seq<nat>>>, ring: set<nat>, h: nat, n: nat, q: nat)
    requires n <= |links|
    ensures q in Group(links, ring, h, n) <==> q < n && q !in ring && links[q].Some? && |links[q].value| + 1 == h
    ensures Increasing(Group(links, ring, h, n))
  {
    if n > 0 { GroupExact(links, ring, h, n - 1, q); }
  }

  lemma {:induction false} FilteredIncreasing(qs: seq<nat>, links: seq<Option<seq<nat>>>, src: int)
    requires forall k :: 0 <= k < |qs| ==> qs[k] < |links| && links[qs[k]].Some?
    requires Increasing(qs)
    ensures Increasing(Filtered(qs, links, src))
  {
    if qs != [] {
      var n := |qs| - 1;
      var rest := Filtered(qs[..n], links, src);
      FilteredIncreasing(qs[..n], links, src);
      forall i | 0 <= i < |rest| ensures rest[i] < qs[n] {
        assert rest[i] in rest;
        assert rest[i] in qs[..n];
      }
    }
  }

  lemma {:induction false} PassesIsFiltered(d: LineData, hoops: nat, src: int, q: nat, red: Redirects, given: seq<string>, ring: set<nat>)
    requires Generated(red, given, d, ring)
    ensures q in Filtered(Group(d.links, ring, hoops, |red|), d.links, src) <==> Passes(red, hoops, src, q)
    ensures Passes(red, hoops, src, q) ==> d.values[q] == given[At(red, q, hoops - 1)]
  {
    GroupExact(d.links, ring, hoops, |red|, q);
    if q < |red| {
      assert ResolvedLine(red, given, d.values, d.links, ring, q);
      hide Group, Filtered, Distinct, LineTexts, At, Generated, Terminal, ChainShown, Chain;
      if hoops >= 1 && EndsAfter(red, q, hoops - 1) { assert Resolves(red, q); }
      hide Resolves;
      if d.links[q].Some? {
        LinkWithin(red, q, d.links[q].value, hoops, src);
        if hoops >= 1 && EndsAfter(red, q, hoops - 1) { EndsOnce(red, q, hoops - 1, |d.links[q].value|); }
        hide EndsAfter, AllWithin;
      }
    }
  }

  lemma {:induction false} EndsOnce(red: Redirects, q: nat, j: nat, k: nat)
    requires InBounds(red) && q < |red| && EndsAfter(red, q, j) && EndsAfter(red, q, k)
    ensures j == k
  {
  }

  lemma {:induction false} LinkWithin(red: Redirects, q: nat, link: seq<nat>, hoops: nat, src: int)
    requires InBounds(red) && q < |red| && link == Chain(red, q, |link|)
    ensures |link| + 1 == hoops ==> (AllWithin(link, src) <==> ChainShown(red, q, hoops, src))
  {
    if |link| + 1 == hoops {
      if AllWithin(link, src) {
        forall m: nat | 1 <= m < hoops ensures At(red, q, m) <= src { assert link[m - 1] == At(red, q, m); }
      }
      if ChainShown(red, q, hoops, src) {
        forall k | 0 <= k < |link| ensures link[k] <= src {
          var m: nat := k + 1;
          assert link[k] == At(red, q, m) && 1 <= m < hoops;
        }
      }
    }
  }

  lemma {:induction false} SizeOfIncreasing(s: seq<nat>)
    requires Increasing(s)
    ensures |Items(s)| == |s|
  {
    if s != [] {
      var n := |s| - 1;
      SizeOfIncreasing(s[..n]);
      assert Items(s) == Items(s[..n]) + {s[n]};
    }
  }

  ghost function Items(s: seq<nat>): set<nat> {
    set i | 0 <= i < |s| :: s[i]
  }

  lemma {:induction false} RankInList(red: Redirects, hoops: nat, src: int, qs: seq<nat>, at: nat, q: nat)
    requires InBounds(red) && Increasing(qs) && at <= |qs| && forall p: nat :: p in qs <==> Passes(red, hoops, src, p)
    requires (at < |qs| && q == qs[at]) || (at == |qs| && q == |red|)
    ensures Rank(red, hoops, src, q) == at
  {
    hide EndsAfter, At;
    SizeOfIncreasing(qs[..at]);
    forall p: nat ensures p in Items(qs[..at]) <==> p < q && Passes(red, hoops, src, p) {
      assert p in Items(qs[..at]) <==> p in qs[..at];
      if p in qs { var i :| 0 <= i < |qs| && qs[i] == p; assert p in qs[..at] <==> i < at; }
    }
    assert (set p: nat | p < q && Passes(red, hoops, src, p)) == Items(qs[..at]);
  }

  /** The body of the loop of `eval_model`. `percent` is a fraction, as its caller makes them. */
  method MakeQuery(d: LineData, hoops: nat, src: int, percent: real,
                   ghost red: Redirects, ghost given: seq<string>, ghost ring: set<nat>)
    returns (r: Result<Query, string>)
    requires Generated(red, given, d, ring) && 0.0 <= percent
    ensures r.Failure? <==> forall q: nat :: !Passes(red, hoops, src, q)
    ensures r.Success? ==>
              hoops >= 1 && exists q: nat :: q < |red| && Chosen(red, hoops, src, percent, q) &&
                                             r.value.name == d.names[q] && r.value.answer == given[At(red, q, hoops - 1)]
    ensures r.Success? ==>
              && |r.value.parts| == 4 && Quartered(r.value.parts)
              && var body := r.value.parts[0] + r.value.parts[1] + r.value.parts[2] + r.value.parts[3];
                 && body == Shown(d.lines, src) && body <= d.lines && (0 <= src < |d.lines| ==> |body| == src + 1)
                 && Read(body, r.value.name, hoops - 1) == Some(r.value.answer)
  {
    hide Read, FindLine, Distinct, Filtered, Passes, Chosen, Group, AllWithin, LineTexts, Picked, Increasing;
    assert GroupShown(d.groups, d.links, ring, hoops, |red|);
    FilteredNone(d.links, src);
    QueriesExact(d, hoops, src, red, given, ring);
    if hoops !in d.groups { return Failure("KeyError"); }
    var qs := Filtered(d.groups[hoops], d.links, src);
    if qs == [] { return Failure("IndexError"); }
    assert qs[0] in qs;
    var at := PickIndex(|qs|, percent);
    var dst := qs[at];
    assert dst in qs;
    SelfContained(d, hoops, src, dst, red, given, ring);
    PassesIsFiltered(d, hoops, src, dst, red, given, ring);
    IsChosen(red, hoops, src, percent, at, qs);
    var parts := SplitBody(Shown(d.lines, src));
    r := Success(Query(d.names[dst], d.values[dst], parts));
  }

  lemma {:induction false} QueriesExact(d: LineData, hoops: nat, src: int, red: Redirects, given: seq<string>, ring: set<nat>)
    requires Generated(red, given, d, ring)
    ensures var qs := Filtered(Group(d.links, ring, hoops, |red|), d.links, src);
            Increasing(qs) && forall q: nat :: q in qs <==> Passes(red, hoops, src, q)
  {
    hide Filtered, Passes, Group;
    GroupExact(d.links, ring, hoops, |red|, 0);
    FilteredIncreasing(Group(d.links, ring, hoops, |red|), d.links, src);
    hide Generated;
    forall q: nat ensures q in Filtered(Group(d.links, ring, hoops, |red|), d.links, src) <==> Passes(red, hoops, src, q) {
      PassesIsFiltered(d, hoops, src, q, red, given, ring);
    }
  }

  lemma {:induction false} IsChosen(red: Redirects, hoops: nat, src: int, percent: real, at: nat, qs: seq<nat>)
    requires InBounds(red) && Increasing(qs) && forall q: nat :: q in qs <==> Passes(red, hoops, src, q)
    requires at < |qs| && at == Picked(|qs|, percent)
    ensures Chosen(red, hoops, src, percent, qs[at])
  {
    hide Passes, Rank, Increasing, Picked;
    assert qs[at] in qs;
    RankInList(red, hoops, src, qs, at, qs[at]);
    RankInList(red, hoops, src, qs, |qs|, |red|);
  }

  predicate Quartered(parts: seq<seq<Line>>)
    requires |parts| == 4
  {
    |parts[0]| == |parts[1]| == |parts[2]| <= |parts[3]| < |parts[0]| + 4
  }

  /** The four parts of the prompt. */
  method SplitBody(body: seq<Line>) returns (parts: seq<seq<Line>>)
    ensures |parts| == 4 && parts[0] + parts[1] + parts[2] + parts[3] == body
    ensures Quartered(parts)
  {
    var len := |body| / 4;
    parts := [body[..len], body[len..2 * len], body[2 * len..3 * len], body[3 * len..]];
  }

  lemma {:induction false} FilteredNone(links: seq<Option<seq<nat>>>, src: int)
    ensures Filtered([], links, src) == []
  {
  }

  /** `min(int(n * percent), n - 1)`. */
  method PickIndex(n: nat, percent: real) returns (at: nat)
    requires 0.0 <= percent && n > 0
    ensures at < n
    ensures at == Picked(n, percent)
  {
    assert n as real * percent >= 0.0;
    var pick := (n as real * percent).Floor;
    at := if pick < n then pick else n - 1;
  }

  /** The label is the value found by following redirects in the shown lines alone. */
  lemma {:induction false} SelfContained(d: LineData, hoops: nat, src: int, q: nat, red: Redirects, given: seq<string>, ring: set<nat>)
    requires Generated(red, given, d, ring) && hoops in d.groups
    requires q in Filtered(Group(d.links, ring, hoops, |red|), d.links, src)
    ensures q < |red| && hoops >= 1
    ensures Read(Shown(d.lines, src), d.names[q], hoops - 1) == Some(d.values[q])
  {
    hide Read, Group, LineTexts, Distinct, Filtered;
    assert GroupShown(d.groups, d.links, ring, hoops, |red|);
    assert ResolvedLine(red, given, d.values, d.links, ring, q);
    var k := hoops - 1;
    assert k == |d.links[q].value| && EndsAfter(red, q, k);
    var n := if src + 1 >= |red| then |red| else src + 1;
    assert Shown(d.lines, src) == d.lines[..n];
    forall m | 0 <= m <= k ensures At(red, q, m) < n {
      if m > 0 { assert d.links[q].value[m - 1] == At(red, q, m); }
    }
    ReadFollows(red, d.names, given, n, q, k, 0);
  }
}
