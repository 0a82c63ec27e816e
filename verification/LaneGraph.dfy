/** The layout state as the program keeps it: containers in a dictionary, updated in place.
    The nested dictionary `graph[pid][line]` is one map from (pid, line) to containers, with
    `len(graph[pid])` beside it. */
module LaneGraph {
  import opened Wrappers
  import opened Lanes
  import opened LaneLayout

  class Graph {
    var lanes: map<Slot, SpanLayoutContainer>
    var count: map<Pid, nat>
    var status: map<Pid, int>
    var slots: seq<Slot>

    /** The value of the dictionaries, with the containers' lists in place of the containers. */
    ghost var model: State
    ghost var containers: set<SpanLayoutContainer>
    ghost var owner: map<SpanLayoutContainer, Slot>

    /** A lane's container is its own: no two lanes share one. */
    ghost predicate Shows(slot: Slot)
      reads this, containers
    {
      && (slot in lanes <==> HasLine(model, slot))
      && (slot in lanes ==>
            && lanes[slot] in containers && lanes[slot] in owner && owner[lanes[slot]] == slot
            && lanes[slot].intervals == PriorLane(model, slot.pid, slot.line))
    }

    ghost predicate Counts(p: Pid)
      reads this
    {
      && (p in count <==> p in model.graph)
      && (p in count ==> count[p] == |PriorLines(model, p)|)
    }

    ghost predicate AllCounts()
      reads this
    {
      forall p :: Counts(p)
    }

    ghost predicate AllShow()
      reads this, containers
    {
      forall slot :: Shows(slot)
    }

    ghost predicate Valid()
      reads this, containers
    {
      && status == model.status && slots == model.slots
      && WellFormed(model)
      && AllCounts() && AllShow()
    }

    constructor ()
      ensures Valid() && model == EMPTY && containers == {}
    {
      lanes, count, status, slots, model, containers, owner := map[], map[], map[], [], EMPTY, {}, map[];
    }

    method OpenLine(pid: Pid) returns (line: int)
      requires Valid()
      modifies this
      ensures Valid()
      ensures model == Opened(old(model), pid, PriorLines(old(model), pid))
      ensures pid in status && line == status[pid]
      ensures fresh(containers - old(containers))
    {
      ghost var prior := PriorLines(model, pid);
      line := NextLine(pid);
      OpenedWellFormed(model, pid, prior);
      Install(pid, line, prior);
    }

    method NextLine(pid: Pid) returns (line: int)
      requires Valid()
      ensures line == |PriorLines(model, pid)| + 1 && line !in PriorLines(model, pid)
    {
      NextLineOk(PriorLines(model, pid));
      hide WellFormed, LinesOk;
      assert Counts(pid);
      line := 1;
      if pid in count { line := count[pid] + 1; }
    }

    method AddLane(slot: Slot)
      requires slot !in lanes
      modifies this`lanes, this`containers, this`owner
      ensures slot in lanes && fresh(lanes[slot]) && lanes[slot].intervals == []
      ensures lanes == old(lanes)[slot := lanes[slot]]
      ensures containers == old(containers) + {lanes[slot]} && owner == old(owner)[lanes[slot] := slot]
    {
      var lane := new SpanLayoutContainer();
      lanes, containers, owner := lanes[slot := lane], containers + {lane}, owner[lane := slot];
    }

    method Install(pid: Pid, line: int, ghost prior: Lines)
      requires Valid()
      requires prior == PriorLines(model, pid) && line == |prior| + 1 && line !in prior
      requires WellFormed(Opened(model, pid, prior))
      modifies this
      ensures Valid()
      ensures model == Opened(old(model), pid, prior)
      ensures fresh(containers - old(containers))
    {
      hide WellFormed, HasLine, PriorLane, PriorLines;
      ghost var m := model;
      var slot := Slot(pid, line);
      OpenedShape(m, pid, prior, slot);
      assert Opened(m, pid, prior).status == status[pid := line] && Opened(m, pid, prior).slots == slots + [slot];
      hide Opened;
      assert Shows(slot);
      AddLane(slot);
      count := count[pid := line];
      status := status[pid := line];
      slots := slots + [slot];
      model := Opened(m, pid, prior);
      assert AllShow() by {
        forall s ensures Shows(s) {
          OpenedShape(m, pid, prior, s);
          assert old(Shows(s));
        }
      }
      assert AllCounts() by {
        forall p ensures Counts(p) {
          OpenedShape(m, pid, prior, Slot(p, 0));
          assert old(Counts(p));
        }
      }
    }

    /** The remembered lane is used again when the span is a point or the lane is free. */
    method Keeps(pid: Pid, start: int, end: int) returns (keeps: bool)
      requires Valid()
      ensures keeps == KeepsLine(model, pid, Interval(start, end))
      ensures SeparatedAt(model, pid) ==>
                (keeps <==> pid in status &&
                            (start == end || Clear(PriorLane(model, pid, status[pid]), Interval(start, end))))
    {
      if SeparatedAt(model, pid) { KeepsIsStays(model, pid, Interval(start, end)); }
      hide Clear, SeparatedAt, PriorLane;
      if pid !in status { return false; }
      var line := status[pid];
      assert HasLine(model, Slot(pid, line)) && Shows(Slot(pid, line));
      if start == end { return true; }
      hide WellFormed, Overlaps;
      var conflict := lanes[Slot(pid, line)].CheckOverlap(start, end);
      return !conflict;
    }

    method FindLine(pid: Pid, start: int, end: int) returns (line: int)
      requires Valid()
      modifies this
      ensures Valid()
      ensures model == LaneLayout.FindLine(old(model), pid, Interval(start, end))
      ensures pid in status && line == status[pid]
      ensures fresh(containers - old(containers))
    {
      assert Counts(pid);
      var keeps := Keeps(pid, start, end);
      if keeps { return status[pid]; }
      hide AllShow, AllCounts, WellFormed, KeepsLine, FirstFree, Overlaps, Opened;
      if pid !in count {
        line := OpenLine(pid);
        return;
      }
      var free := ScanLines(pid, start, end);
      if free.Some? {
        line := free.value;
        SetStatus(pid, line, Interval(start, end));
      } else {
        line := OpenLine(pid);
      }
    }

    /** The loop over existing lanes. Dictionaries keep insertion order, which is 1..n. */
    method ScanLines(pid: Pid, start: int, end: int) returns (free: Option<int>)
      requires Valid() && pid in model.graph
      ensures free == FirstFree(model.graph[pid], 1, Interval(start, end))
    {
      assert Counts(pid);
      ghost var x := Interval(start, end);
      ghost var lines := model.graph[pid];
      var k := 1;
      while k <= count[pid]
        invariant 1 <= k <= count[pid] + 1
        invariant FirstFree(lines, 1, x) == FirstFree(lines, k, x)
      {
        assert HasLine(model, Slot(pid, k)) && Shows(Slot(pid, k));
        var conflict := lanes[Slot(pid, k)].CheckOverlap(start, end);
        if !conflict { return Some(k); }
        k := k + 1;
      }
      return None;
    }

    method SetStatus(pid: Pid, k: int, ghost x: Interval)
      requires Valid() && !KeepsLine(model, pid, x)
      requires pid in model.graph && FirstFree(model.graph[pid], 1, x) == Some(k)
      modifies this`status, this`model
      ensures Valid()
      ensures model == LaneLayout.FindLine(old(model), pid, x)
      ensures status == old(status)[pid := k]
    {
      FindLineWellFormed(model, pid, x);
      hide WellFormed, FirstFree, Overlaps, Opened;
      status := status[pid := k];
      model := model.(status := status);
      assert AllShow() by {
        forall s ensures Shows(s) { assert old(Shows(s)); }
      }
      assert AllCounts() by {
        forall p ensures Counts(p) { assert old(Counts(p)); }
      }
    }

    /** The body of the layout loop: forget the remembered lanes at the first span of a
        request, find a lane, insert the span. */
    method Place(first: bool, pid: Pid, start: int, end: int) returns (line: int)
      requires Valid()
      modifies this, containers
      ensures Valid()
      ensures model == Apply(old(model), Step(first, pid, Interval(start, end)))
      ensures pid in status && line == status[pid]
      ensures fresh(containers - old(containers))
    {
      hide AllShow, AllCounts, WellFormed, LaneLayout.FindLine, Insert;
      if first { Forget(); }
      line := FindLine(pid, start, end);
      Put(pid, line, Interval(start, end));
    }

    method Forget()
      requires Valid()
      modifies this`status, this`model
      ensures Valid()
      ensures model == old(model).(status := map[])
    {
      ghost var m := Begin(model, Step(true, Smg, Interval(0, 0)));
      hide WellFormed;
      status := map[];
      model := m;
      assert AllShow() by {
        forall s ensures Shows(s) { assert old(Shows(s)); }
      }
      assert AllCounts() by {
        forall p ensures Counts(p) { assert old(Counts(p)); }
      }
    }

    method Put(pid: Pid, line: int, x: Interval)
      requires Valid() && pid in status && line == status[pid]
      modifies this`model, containers
      ensures Valid()
      ensures model == Insert(old(model), pid, x)
    {
      var slot := Slot(pid, line);
      assert HasLine(model, slot) && Shows(slot);
      InsertWellFormed(model, pid, x);
      InsertShape(model, pid, x, slot);
      LaneIsOrdered(model, slot);
      ghost var m := model;
      hide WellFormed, HasLine, PriorLane, PriorLines, Insert, Inserted;
      lanes[slot].InsertSpan(x.start, x.end);
      model := Insert(model, pid, x);
      assert AllShow() by {
        forall s ensures Shows(s) {
          InsertShape(m, pid, x, s);
          assert old(Shows(s));
        }
      }
      assert AllCounts() by {
        forall p ensures Counts(p) {
          InsertShape(m, pid, x, Slot(p, 0));
          assert old(Counts(p));
        }
      }
    }
  }
}
