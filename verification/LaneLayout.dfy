/** Placing spans into lanes (scripts/convert_otel_2_perfetto.py, `__find_line` and
    `generate_perfetto_span_layout`), as a function of the layout so far. */
module LaneLayout {
  import opened Wrappers
  import opened Lanes

  /** A Perfetto process: an engine thread, or the gateway. */
  datatype Pid = Engine(id: int) | Smg

  /** A "slot" metadata record announces one lane of one process. */
  datatype Slot = Slot(pid: Pid, line: int)

  type Lines = map<int, Lane>

  /** `status` remembers the lane the current request last used in each process. */
  datatype State = State(graph: map<Pid, Lines>, status: map<Pid, int>, slots: seq<Slot>)

  const EMPTY := State(map[], map[], [])

  /** The lanes of a process are numbered 1..n. */
  ghost predicate LinesOk(lines: Lines) {
    && |lines| >= 1
    && (forall k :: k in lines <==> 1 <= k <= |lines|)
    && (forall k :: k in lines ==> Ordered(lines[k]))
  }

  ghost predicate HasLine(s: State, slot: Slot) {
    slot.pid in s.graph && slot.line in s.graph[slot.pid]
  }

  /** What every step keeps, for spans of any length. */
  ghost predicate WellFormed(s: State) {
    && (forall p :: p in s.graph ==> LinesOk(s.graph[p]))
    && (forall p :: p in s.status ==> HasLine(s, Slot(p, s.status[p])))
    && (forall x :: multiset(s.slots)[x] == if HasLine(s, x) then 1 else 0)
  }

  /** No two entries of a lane of process `p` are in each other's way. */
  ghost predicate SeparatedAt(s: State, p: Pid) {
    p in s.graph ==> forall k :: k in s.graph[p] ==> Separated(s.graph[p][k])
  }

  /** The scan over existing lanes, in the order they were opened. */
  function FirstFree(lines: Lines, from: int, x: Interval): (r: Option<int>)
    requires LinesOk(lines) && 1 <= from <= |lines| + 1
    ensures r.Some? ==> r.value in lines && !Overlaps(lines[r.value], x.start, x.end)
    ensures r.None? ==> forall k :: from <= k <= |lines| ==> Overlaps(lines[k], x.start, x.end)
    decreases |lines| - from
  {
    if from > |lines| then None
    else if !Overlaps(lines[from], x.start, x.end) then Some(from)
    else FirstFree(lines, from + 1, x)
  }

  /** The lane found is the lowest-numbered free one. */
  lemma {:induction false} FirstFreeLowest(lines: Lines, from: int, x: Interval, k: int)
    requires LinesOk(lines) && 1 <= from <= |lines| + 1
    requires FirstFree(lines, from, x).Some? && from <= k < FirstFree(lines, from, x).value
    ensures k in lines && Overlaps(lines[k], x.start, x.end)
    decreases |lines| - from
  {
    hide Ordered, Overlaps;
    if from <= |lines| && k > from { FirstFreeLowest(lines, from + 1, x, k); }
  }

  /** Use of the remembered lane: a zero-length span takes it unchecked. */
  predicate KeepsLine(s: State, pid: Pid, x: Interval)
    requires WellFormed(s)
  {
    && pid in s.status
    && (x.start == x.end || !Overlaps(s.graph[pid][s.status[pid]], x.start, x.end))
  }

  function Opened(s: State, pid: Pid, lines: Lines): State {
    var line := |lines| + 1;
    State(s.graph[pid := lines[line := []]], s.status[pid := line], s.slots + [Slot(pid, line)])
  }

  /** `__find_line`: afterwards the chosen lane is the remembered one. */
  function FindLine(s: State, pid: Pid, x: Interval): State
    requires WellFormed(s)
  {
    if KeepsLine(s, pid, x) then s
    else if pid !in s.graph then Opened(s, pid, map[])
    else match FirstFree(s.graph[pid], 1, x)
      case Some(k) => s.(status := s.status[pid := k])
      case None => Opened(s, pid, s.graph[pid])
  }

  function Insert(s: State, pid: Pid, x: Interval): State
    requires pid in s.status && HasLine(s, Slot(pid, s.status[pid]))
  {
    var lines := s.graph[pid];
    var k := s.status[pid];
    s.(graph := s.graph[pid := lines[k := Inserted(lines[k], x)]])
  }

  /** One iteration of the layout loop: `first` marks the first span of a request, which
      starts with nothing remembered. */
  datatype Step = Step(first: bool, pid: Pid, x: Interval)

  function Begin(s: State, st: Step): (r: State)
    ensures WellFormed(s) ==> WellFormed(r)
  {
    assert forall x :: HasLine(s, x) <==> HasLine(s.(status := map[]), x);
    if st.first then s.(status := map[]) else s
  }

  function Apply(s: State, st: Step): (r: State)
    requires WellFormed(s)
    ensures WellFormed(r) && st.pid in r.status
  {
    var b := Begin(s, st);
    FindLineWellFormed(b, st.pid, st.x);
    var f := FindLine(b, st.pid, st.x);
    InsertWellFormed(f, st.pid, st.x);
    Insert(f, st.pid, st.x)
  }

  // ---------- one step ----------

  lemma {:induction false} NextLineOk(lines: Lines)
    requires lines == map[] || LinesOk(lines)
    ensures |lines| + 1 !in lines
    ensures LinesOk(lines[|lines| + 1 := []])
  {
  }

  lemma {:induction false} OpenedWellFormed(s: State, pid: Pid, lines: Lines)
    requires WellFormed(s)
    requires lines == PriorLines(s, pid)
    ensures WellFormed(Opened(s, pid, lines))
  {
    NextLineOk(lines);
    var slot := Slot(pid, |lines| + 1);
    var r := Opened(s, pid, lines);
    OpenedHasLine(s, pid, lines);
    forall x ensures multiset(r.slots)[x] == if HasLine(r, x) then 1 else 0 {
      assert multiset(r.slots) == multiset(s.slots) + multiset{slot};
    }
  }

  lemma {:induction false} OpenedHasLine(s: State, pid: Pid, lines: Lines)
    requires lines == PriorLines(s, pid)
    requires |lines| + 1 !in lines
    ensures var slot := Slot(pid, |lines| + 1);
            && !HasLine(s, slot)
            && forall x :: HasLine(Opened(s, pid, lines), x) <==> HasLine(s, x) || x == slot
  {
  }

  /** Opening a lane adds one empty lane and changes no other. */
  lemma {:induction false} OpenedShape(s: State, pid: Pid, lines: Lines, slot: Slot)
    requires lines == PriorLines(s, pid) && |lines| + 1 !in lines
    ensures var r, k := Opened(s, pid, lines), |lines| + 1;
            && (HasLine(r, slot) <==> HasLine(s, slot) || slot == Slot(pid, k)) && !HasLine(s, Slot(pid, k))
            && (slot.pid in r.graph <==> slot.pid in s.graph || slot.pid == pid)
            && |PriorLines(r, slot.pid)| == |PriorLines(s, slot.pid)| + (if slot.pid == pid then 1 else 0)
            && PriorLane(r, slot.pid, slot.line) == PriorLane(s, slot.pid, slot.line) && PriorLane(s, pid, k) == []
  {
  }

  /** `__find_line` keeps the bookkeeping sound and always leaves an existing lane remembered. */
  lemma {:induction false} FindLineWellFormed(s: State, pid: Pid, x: Interval)
    requires WellFormed(s)
    ensures WellFormed(FindLine(s, pid, x))
    ensures pid in FindLine(s, pid, x).status
  {
    if !KeepsLine(s, pid, x) {
      if pid !in s.graph {
        OpenedWellFormed(s, pid, map[]);
      } else if FirstFree(s.graph[pid], 1, x).None? {
        OpenedWellFormed(s, pid, s.graph[pid]);
      } else {
        var r := FindLine(s, pid, x);
        assert forall y :: HasLine(r, y) <==> HasLine(s, y);
      }
    }
  }

  lemma {:induction false} InsertWellFormed(s: State, pid: Pid, x: Interval)
    requires WellFormed(s) && pid in s.status
    ensures WellFormed(Insert(s, pid, x))
  {
    var k := s.status[pid];
    assert HasLine(s, Slot(pid, k));
    InsertedOrdered(s.graph[pid][k], x);
    var r := Insert(s, pid, x);
    assert r.graph[pid].Keys == s.graph[pid].Keys;
    assert |r.graph[pid]| == |r.graph[pid].Keys| == |s.graph[pid]|;
    assert forall y :: HasLine(r, y) <==> HasLine(s, y);
  }

  lemma {:induction false} LaneIsOrdered(s: State, slot: Slot)
    requires WellFormed(s) && HasLine(s, slot)
    ensures Ordered(PriorLane(s, slot.pid, slot.line))
  {
  }

  /** An insertion changes one lane and opens none. */
  lemma {:induction false} InsertShape(s: State, pid: Pid, x: Interval, slot: Slot)
    requires pid in s.status && HasLine(s, Slot(pid, s.status[pid]))
    ensures var r := Insert(s, pid, x);
            && r.status == s.status && r.slots == s.slots
            && (HasLine(r, slot) <==> HasLine(s, slot))
            && (slot.pid in r.graph <==> slot.pid in s.graph)
            && |PriorLines(r, slot.pid)| == |PriorLines(s, slot.pid)|
            && PriorLane(r, slot.pid, slot.line) ==
               if slot == Slot(pid, s.status[pid]) then Inserted(PriorLane(s, slot.pid, slot.line), x)
               else PriorLane(s, slot.pid, slot.line)
  {
    hide Inserted;
    var r := Insert(s, pid, x);
    assert |r.graph[pid].Keys| == |r.graph[pid]| && |s.graph[pid].Keys| == |s.graph[pid]|;
    assert r.graph[pid].Keys == s.graph[pid].Keys;
  }

  /** The only unchecked placement: a zero-length span strictly inside a span of the
      remembered lane. A caller can evaluate this before the step. */
  predicate HiddenPoint(s: State, st: Step)
    requires WellFormed(s)
  {
    var b := Begin(s, st);
    && st.pid in b.status
    && st.x.start == st.x.end
    && Overlaps(b.graph[st.pid][b.status[st.pid]], st.x.start, st.x.end)
  }

  /** The lane a step inserts into is free, unless the step is a hidden point. */
  lemma {:induction false} ChosenLaneFree(s: State, st: Step)
    requires WellFormed(s)
    ensures var f := FindLine(Begin(s, st), st.pid, st.x);
            && WellFormed(f) && st.pid in f.status
            && (Overlaps(f.graph[st.pid][f.status[st.pid]], st.x.start, st.x.end) <==> HiddenPoint(s, st))
  {
    hide Ordered, Overlaps;
    var b := Begin(s, st);
    FindLineWellFormed(b, st.pid, st.x);
    EmptyLaneFree(st.x);
    if st.pid in b.status {
      assert HasLine(b, Slot(st.pid, b.status[st.pid]));
    }
  }

  function PriorLines(s: State, pid: Pid): Lines {
    if pid in s.graph then s.graph[pid] else map[]
  }

  function PriorLane(s: State, pid: Pid, k: int): Lane {
    if pid in s.graph && k in s.graph[pid] then s.graph[pid][k] else []
  }

  /** `__find_line` changes the graph only by opening the lane it then remembers. */
  lemma {:induction false} FindLineShape(s: State, pid: Pid, x: Interval)
    requires WellFormed(s)
    ensures var f := FindLine(s, pid, x);
            && pid in f.status
            && f.status == s.status[pid := f.status[pid]]
            && f.graph == s.graph[pid := PriorLines(s, pid)[f.status[pid] := PriorLane(s, pid, f.status[pid])]]
  {
    hide Ordered, Overlaps, PriorLines, PriorLane, Opened, HasLine;
    var f := FindLine(s, pid, x);
    if KeepsLine(s, pid, x) {
      assert HasLine(s, Slot(pid, s.status[pid]));
      KeptShape(s, pid, s.status[pid]);
    } else if pid in s.graph && FirstFree(s.graph[pid], 1, x).Some? {
      KeptShape(s, pid, FirstFree(s.graph[pid], 1, x).value);
    } else {
      OpenedGraph(s, pid);
      NoLines(s, pid);
    }
  }

  lemma {:induction false} NoLines(s: State, pid: Pid)
    ensures pid !in s.graph ==> PriorLines(s, pid) == map[]
    ensures pid in s.graph ==> PriorLines(s, pid) == s.graph[pid]
  {
  }

  lemma {:induction false} KeptShape(s: State, pid: Pid, k: int)
    requires HasLine(s, Slot(pid, k))
    ensures s.graph == s.graph[pid := PriorLines(s, pid)[k := PriorLane(s, pid, k)]]
  {
    assert s.graph[pid] == s.graph[pid][k := s.graph[pid][k]];
  }

  lemma {:induction false} OpenedGraph(s: State, pid: Pid)
    requires WellFormed(s)
    ensures var lines := PriorLines(s, pid);
            var r := Opened(s, pid, lines);
            var k := |lines| + 1;
            r.status == s.status[pid := k] && r.graph == s.graph[pid := lines[k := PriorLane(s, pid, k)]]
  {
    NextLineOk(PriorLines(s, pid));
  }

  /** A step puts one entry into the lane it leaves remembered, and changes nothing else. */
  lemma {:induction false} StepShape(s: State, st: Step)
    requires WellFormed(s)
    ensures var r := Apply(s, st);
            var k := r.status[st.pid];
            && r.status == Begin(s, st).status[st.pid := k]
            && r.graph == s.graph[st.pid := PriorLines(s, st.pid)[k := Inserted(PriorLane(s, st.pid, k), st.x)]]
  {
    hide FindLine, WellFormed, Inserted;
    FindLineWellFormed(Begin(s, st), st.pid, st.x);
    FindLineShape(Begin(s, st), st.pid, st.x);
    var f := FindLine(Begin(s, st), st.pid, st.x);
    var k := f.status[st.pid];
    var lane := Inserted(PriorLane(s, st.pid, k), st.x);
    assert f.graph[st.pid][k] == PriorLane(s, st.pid, k);
    assert f.graph[st.pid][k := lane] == PriorLines(s, st.pid)[k := lane];
  }

  lemma {:induction false} FindLineSeparated(s: State, pid: Pid, x: Interval, p: Pid)
    requires WellFormed(s) && SeparatedAt(s, p)
    ensures SeparatedAt(FindLine(s, pid, x), p)
  {
    hide WellFormed, FindLine, Separated;
    FindLineShape(s, pid, x);
    EmptySeparated();
  }

  lemma {:induction false} EmptyLaneFree(x: Interval)
    ensures !Overlaps([], x.start, x.end)
  {
  }

  lemma {:induction false} EmptySeparated()
    ensures Separated([])
  {
  }

  lemma {:induction false} InsertSeparated(s: State, pid: Pid, x: Interval)
    requires SeparatedAt(s, pid) && pid in s.status && HasLine(s, Slot(pid, s.status[pid]))
    ensures SeparatedAt(Insert(s, pid, x), pid) <==> Separated(Inserted(s.graph[pid][s.status[pid]], x))
  {
    hide Separated, Inserted;
    var r := Insert(s, pid, x);
    var k := s.status[pid];
    assert r.graph[pid][k] == Inserted(s.graph[pid][k], x);
    forall l | l in r.graph[pid] && l != k ensures Separated(r.graph[pid][l]) {
      assert r.graph[pid][l] == s.graph[pid][l];
    }
  }

  /** Lane safety of one step, exactly: from separated lanes, a span of any length leads
      to separated lanes if and only if it is not a hidden point. */
  lemma {:induction false} StepSeparatedIff(s: State, st: Step)
    requires WellFormed(s) && SeparatedAt(s, st.pid)
    ensures SeparatedAt(Apply(s, st), st.pid) <==> !HiddenPoint(s, st)
  {
    var f := FindLine(Begin(s, st), st.pid, st.x);
    ChosenLaneFree(s, st);
    FindLineSeparated(Begin(s, st), st.pid, st.x, st.pid);
    assert HasLine(f, Slot(st.pid, f.status[st.pid]));
    InsertSeparated(f, st.pid, st.x);
    var lane := f.graph[st.pid][f.status[st.pid]];
    if HiddenPoint(s, st) {
      PointInsertIff(lane, st.x);
    } else {
      InsertKeepsSeparated(lane, st.x);
    }
  }

  /** A lane is opened only when every lane of the process has a span in the way. */
  lemma {:induction false} OpensOnlyWhenBlocked(s: State, st: Step)
    requires WellFormed(s) && SeparatedAt(s, st.pid)
    requires st.pid in s.graph && Apply(s, st).status[st.pid] !in s.graph[st.pid]
    ensures forall k :: k in s.graph[st.pid] ==>
              exists i :: 0 <= i < |s.graph[st.pid][k]| && Blocks(s.graph[st.pid][k][i], st.x.start, st.x.end)
  {
    hide Ordered, Inserted, Blocks, Overlaps;
    var b := Begin(s, st);
    assert FirstFree(b.graph[st.pid], 1, st.x).None?;
    forall k | k in s.graph[st.pid]
      ensures exists i :: 0 <= i < |s.graph[st.pid][k]| && Blocks(s.graph[st.pid][k][i], st.x.start, st.x.end)
    {
      OverlapsIsScan(s.graph[st.pid][k], st.x.start, st.x.end);
    }
  }

  /** `k` is the lowest-numbered lane with nothing in the way of `x`. A lane not yet opened has
      nothing in it, so this is an existing lane or the next one. */
  ghost predicate FirstFit(s: State, pid: Pid, x: Interval, k: int) {
    1 <= k && Clear(PriorLane(s, pid, k), x) && forall l :: 1 <= l < k ==> !Clear(PriorLane(s, pid, l), x)
  }

  /** The remembered lane is used again: for a point, or when nothing there is in the way. */
  ghost predicate Stays(s: State, pid: Pid, x: Interval) {
    pid in s.status && (x.start == x.end || Clear(PriorLane(s, pid, s.status[pid]), x))
  }

  lemma {:induction false} LaneClear(s: State, pid: Pid, x: Interval, k: int)
    requires SeparatedAt(s, pid) && HasLine(s, Slot(pid, k))
    ensures Clear(PriorLane(s, pid, k), x) <==> !Overlaps(s.graph[pid][k], x.start, x.end)
  {
    hide Clear, Overlaps, Separated;
    ClearIsFree(s.graph[pid][k], x);
  }

  lemma {:induction false} KeepsIsStays(s: State, pid: Pid, x: Interval)
    requires WellFormed(s) && SeparatedAt(s, pid)
    ensures KeepsLine(s, pid, x) <==> Stays(s, pid, x)
  {
    hide Clear, Overlaps, SeparatedAt, PriorLane;
    if pid in s.status {
      assert HasLine(s, Slot(pid, s.status[pid]));
      LaneClear(s, pid, x, s.status[pid]);
    }
  }

  lemma {:induction false} ScanFits(s: State, pid: Pid, x: Interval, k: int)
    requires WellFormed(s) && SeparatedAt(s, pid) && pid in s.graph
    requires FirstFree(s.graph[pid], 1, x) == Some(k)
    ensures FirstFit(s, pid, x, k)
  {
    hide Clear, Overlaps, SeparatedAt, FirstFree, PriorLane;
    assert HasLine(s, Slot(pid, k)) && 1 <= k;
    LaneClear(s, pid, x, k);
    forall l | 1 <= l < k ensures !Clear(PriorLane(s, pid, l), x) {
      FirstFreeLowest(s.graph[pid], 1, x, l);
      LaneClear(s, pid, x, l);
    }
  }

  lemma {:induction false} OpenFits(s: State, pid: Pid, x: Interval)
    requires WellFormed(s) && SeparatedAt(s, pid)
    requires pid in s.graph ==> FirstFree(s.graph[pid], 1, x).None?
    ensures FirstFit(s, pid, x, |PriorLines(s, pid)| + 1)
  {
    hide Overlaps, SeparatedAt, FirstFree;
    NextLineOk(PriorLines(s, pid));
    forall l | 1 <= l < |PriorLines(s, pid)| + 1 ensures !Clear(PriorLane(s, pid, l), x) {
      assert HasLine(s, Slot(pid, l));
      LaneClear(s, pid, x, l);
    }
  }

  lemma {:induction false} FindLineLane(s: State, pid: Pid, x: Interval)
    requires WellFormed(s) && SeparatedAt(s, pid)
    ensures var f := FindLine(s, pid, x);
            && pid in f.status
            && if Stays(s, pid, x) then f.status == s.status else FirstFit(s, pid, x, f.status[pid])
  {
    hide Overlaps, SeparatedAt, FirstFree, Stays, FirstFit, PriorLane, Ordered;
    KeepsIsStays(s, pid, x);
    FindLineWellFormed(s, pid, x);
    hide KeepsLine;
    if !Stays(s, pid, x) {
      if pid in s.graph && FirstFree(s.graph[pid], 1, x).Some? {
        ScanFits(s, pid, x, FirstFree(s.graph[pid], 1, x).value);
      } else {
        OpenFits(s, pid, x);
      }
    }
  }

  /** The lane of one placement, from the contents of the lanes alone: the lane the request last
      used in the process, if the span is a point or nothing there is in the way; otherwise the
      lowest-numbered lane with nothing in the way, which may be a new one. */
  lemma {:induction false} StepLane(s: State, st: Step)
    requires WellFormed(s) && SeparatedAt(s, st.pid)
    ensures var k := Apply(s, st).status[st.pid];
            if !st.first && st.pid in s.status &&
               (st.x.start == st.x.end || Clear(PriorLane(s, st.pid, s.status[st.pid]), st.x))
            then k == s.status[st.pid]
            else FirstFit(s, st.pid, st.x, k)
  {
    hide FindLine, FirstFit, Clear, WellFormed;
    var b := Begin(s, st);
    FindLineWellFormed(b, st.pid, st.x);
    FindLineLane(b, st.pid, st.x);
    assert PriorLane(b, st.pid, 0) == PriorLane(s, st.pid, 0);
    FitsBegin(s, st, FindLine(b, st.pid, st.x).status[st.pid]);
  }

  lemma {:induction false} FitsBegin(s: State, st: Step, k: int)
    ensures FirstFit(Begin(s, st), st.pid, st.x, k) <==> FirstFit(s, st.pid, st.x, k)
  {
    hide Clear;
    assert forall l :: PriorLane(Begin(s, st), st.pid, l) == PriorLane(s, st.pid, l);
  }
}
