/** One lane of the trace layout: a list of (start, end) pairs kept in Python's
    tuple order and searched by bisection (scripts/convert_otel_2_perfetto.py, class
    SpanLayoutContainer). */
module Lanes {

  /** Times are nanoseconds; nothing forces `start < end`, because a span loses 1000 ns
      at its end before it is laid out. */
  datatype Interval = Interval(start: int, end: int)

  type Lane = seq<Interval>

  /** The probe of a bisection: `(start, -inf)` or `(start, end)`. */
  datatype Key = BeforeAll(start: int) | At(start: int, end: int)

  /** `x < key` in tuple order. */
  predicate Before(x: Interval, key: Key) {
    x.start < key.start || (x.start == key.start && key.At? && x.end < key.end)
  }

  predicate AtMost(x: Interval, y: Interval) {
    !Before(y, At(x.start, x.end))
  }

  predicate Ordered(s: Lane) {
    forall i, j :: 0 <= i < j < |s| ==> AtMost(s[i], s[j])
  }

  /** The index `bisect_left` is specified to return. */
  function Bisect(s: Lane, key: Key): (k: nat)
    ensures k <= |s|
    ensures forall i :: 0 <= i < k ==> Before(s[i], key)
    ensures k < |s| ==> !Before(s[k], key)
  {
    if s == [] || !Before(s[0], key) then 0 else 1 + Bisect(s[1..], key)
  }

  /** On an ordered lane the index splits the lane in two. */
  lemma {:induction false} BisectSplits(s: Lane, key: Key)
    requires Ordered(s)
    ensures forall i :: Bisect(s, key) <= i < |s| ==> !Before(s[i], key)
  {
    var k := Bisect(s, key);
    forall i | k < i < |s| ensures !Before(s[i], key) {
      assert AtMost(s[k], s[i]);
    }
  }

  /** What `check_overlap` answers: only the two neighbours of the probe are looked at. */
  predicate Overlaps(s: Lane, start: int, end: int) {
    var k := Bisect(s, BeforeAll(start));
    (k > 0 && s[k - 1].end > start) || (k < |s| && s[k].start < end)
  }

  function Inserted(s: Lane, x: Interval): Lane {
    var k := Bisect(s, At(x.start, x.end));
    s[..k] + [x] + s[k..]
  }

  // ---------- meaning ----------

  predicate Covers(x: Interval, t: int) {
    x.start <= t < x.end
  }

  /** `x` and the query `[start, end)` share an instant. */
  ghost predicate SharesInstant(x: Interval, start: int, end: int) {
    exists t: int :: Covers(x, t) && Covers(Interval(start, end), t)
  }

  /** `x` stands in the way of a query, for intervals and queries of any sign. */
  predicate Blocks(x: Interval, start: int, end: int) {
    if x.start < start then start < x.end else x.start < end
  }

  /** Every entry ends before any later entry starts. */
  predicate Separated(s: Lane) {
    Ordered(s) && forall i, j :: 0 <= i < j < |s| ==> s[i].end <= s[j].start
  }

  /** With positive lengths on both sides, blocking is sharing an instant. */
  lemma {:induction false} BlocksIsSharing(x: Interval, start: int, end: int)
    requires x.start < x.end && start < end
    ensures Blocks(x, start, end) <==> SharesInstant(x, start, end)
  {
    if Blocks(x, start, end) {
      var t := if x.start < start then start else x.start;
      assert Covers(x, t) && Covers(Interval(start, end), t);
    }
  }

  /** Looking at two neighbours decides the whole lane: the bisecting check agrees with a
      scan of every entry, for every separated lane and every query. */
  lemma {:induction false} OverlapsIsScan(s: Lane, start: int, end: int)
    requires Separated(s)
    ensures Overlaps(s, start, end) <==> exists i :: 0 <= i < |s| && Blocks(s[i], start, end)
  {
    var k := Bisect(s, BeforeAll(start));
    BisectSplits(s, BeforeAll(start));
    if Overlaps(s, start, end) {
      if k > 0 && s[k - 1].end > start {
        assert Blocks(s[k - 1], start, end);
      } else {
        assert Blocks(s[k], start, end);
      }
    }
    if i :| 0 <= i < |s| && Blocks(s[i], start, end) {
      if i < k {
        assert i < k - 1 ==> s[i].end <= s[k - 1].start < start;
      } else {
        assert !Before(s[i], BeforeAll(start)) && !Before(s[k], BeforeAll(start));
        assert i > k ==> AtMost(s[k], s[i]);
      }
    }
  }

  /** Nothing in the lane stands in the way of `x`. */
  predicate Clear(s: Lane, x: Interval) {
    forall i :: 0 <= i < |s| ==> !Blocks(s[i], x.start, x.end)
  }

  lemma {:induction false} ClearIsFree(s: Lane, x: Interval)
    requires Separated(s)
    ensures Clear(s, x) <==> !Overlaps(s, x.start, x.end)
  {
    hide Blocks, Overlaps;
    OverlapsIsScan(s, x.start, x.end);
  }

  /** For lanes and queries of positive length the check is the textbook overlap test. */
  lemma {:induction false} OverlapsIsSharing(s: Lane, start: int, end: int)
    requires Separated(s) && start < end
    requires forall i :: 0 <= i < |s| ==> s[i].start < s[i].end
    ensures Overlaps(s, start, end) <==> exists i :: 0 <= i < |s| && SharesInstant(s[i], start, end)
  {
    OverlapsIsScan(s, start, end);
    forall i | 0 <= i < |s| ensures Blocks(s[i], start, end) <==> SharesInstant(s[i], start, end) {
      BlocksIsSharing(s[i], start, end);
    }
  }

  lemma {:induction false} InsertedEntries(s: Lane, x: Interval)
    ensures var k, r := Bisect(s, At(x.start, x.end)), Inserted(s, x);
            && |r| == |s| + 1 && r[k] == x
            && (forall i :: 0 <= i < k ==> r[i] == s[i])
            && (forall i :: k < i < |r| ==> r[i] == s[i - 1])
  {
  }

  lemma {:induction false} InsertedContents(s: Lane, x: Interval)
    ensures multiset(Inserted(s, x)) == multiset(s) + multiset{x}
  {
    var k := Bisect(s, At(x.start, x.end));
    assert s == s[..k] + s[k..];
  }

  lemma {:induction false} InsertedMembers(s: Lane, x: Interval, y: Interval)
    ensures y in Inserted(s, x) <==> y in s || y == x
  {
    InsertedContents(s, x);
    assert y in Inserted(s, x) <==> y in multiset(Inserted(s, x));
  }

  lemma {:induction false} InsertedOrdered(s: Lane, x: Interval)
    requires Ordered(s)
    ensures Ordered(Inserted(s, x))
  {
    hide Inserted;
    var k, r := Bisect(s, At(x.start, x.end)), Inserted(s, x);
    BisectSplits(s, At(x.start, x.end));
    InsertedEntries(s, x);
    forall i, j | 0 <= i < j < |r| ensures AtMost(r[i], r[j]) {
      if j < k {
        assert AtMost(s[i], s[j]);
      } else if k < i {
        assert AtMost(s[i - 1], s[j - 1]);
      } else if i < k < j {
        assert AtMost(s[i], s[j - 1]);
      } else if i < k {
        assert Before(s[i], At(x.start, x.end));
      } else {
        assert !Before(s[j - 1], At(x.start, x.end));
      }
    }
  }

  /** After a negative answer, what precedes the insertion point ends in time and what
      follows it starts late enough. */
  lemma {:induction false} FreeSides(s: Lane, x: Interval)
    requires Separated(s) && !Overlaps(s, x.start, x.end)
    ensures var k := Bisect(s, At(x.start, x.end));
            && (forall i :: 0 <= i < k ==> s[i].end <= x.start)
            && (forall i :: k <= i < |s| ==> x.end <= s[i].start)
  {
    var key := At(x.start, x.end);
    BisectSplits(s, key);
    OverlapsIsScan(s, x.start, x.end);
    forall i | 0 <= i < |s|
      ensures if Before(s[i], key) then s[i].end <= x.start else x.end <= s[i].start
    {
      assert !Blocks(s[i], x.start, x.end);
    }
  }

  /** Inserting after a negative answer keeps the lane separated, whatever the lengths. */
  lemma {:induction false} InsertKeepsSeparated(s: Lane, x: Interval)
    requires Separated(s) && !Overlaps(s, x.start, x.end)
    ensures Separated(Inserted(s, x))
  {
    hide Inserted, Ordered, Overlaps;
    var k, r := Bisect(s, At(x.start, x.end)), Inserted(s, x);
    FreeSides(s, x);
    InsertedOrdered(s, x);
    InsertedEntries(s, x);
    forall i, j | 0 <= i < j < |r| ensures r[i].end <= r[j].start {
      if j < k {
        assert s[i].end <= s[j].start;
      } else if k < i {
        assert s[i - 1].end <= s[j - 1].start;
      } else if i < k < j {
        assert s[i].end <= s[j - 1].start;
      }
    }
  }

  /** A zero-length entry is inserted without a check. It keeps the lane separated exactly
      when the check would have let it in. */
  lemma {:induction false} PointInsertIff(s: Lane, x: Interval)
    requires Separated(s) && x.start == x.end
    ensures Separated(Inserted(s, x)) <==> !Overlaps(s, x.start, x.end)
  {
    if Overlaps(s, x.start, x.end) {
      var k := Bisect(s, BeforeAll(x.start));
      BisectSplits(s, BeforeAll(x.start));
      var m := Bisect(s, At(x.start, x.end));
      BisectSplits(s, At(x.start, x.end));
      assert k > 0 && s[k - 1].end > x.start;
      assert Before(s[k - 1], At(x.start, x.end)) && k - 1 < m;
      var r := Inserted(s, x);
      assert r[k - 1] == s[k - 1] && r[m] == x;
    } else {
      InsertKeepsSeparated(s, x);
    }
  }

  // ---------- the container ----------

  /** `bisect.bisect_left`. */
  method BisectLeft(s: Lane, key: Key) returns (lo: nat)
    requires Ordered(s)
    ensures lo == Bisect(s, key)
  {
    BisectSplits(s, key);
    lo := 0;
    var hi := |s|;
    while lo < hi
      invariant lo <= Bisect(s, key) <= hi <= |s|
    {
      var mid := (lo + hi) / 2;
      if Before(s[mid], key) {
        lo := mid + 1;
      } else {
        hi := mid;
      }
    }
  }

  class SpanLayoutContainer {
    var intervals: Lane

    constructor ()
      ensures intervals == []
    {
      intervals := [];
    }

    method CheckOverlap(start: int, end: int) returns (b: bool)
      requires Ordered(intervals)
      ensures b == Overlaps(intervals, start, end)
      ensures Separated(intervals) ==>
                b == exists i :: 0 <= i < |intervals| && Blocks(intervals[i], start, end)
    {
      if Separated(intervals) { OverlapsIsScan(intervals, start, end); }
      var idx := BisectLeft(intervals, BeforeAll(start));
      if idx > 0 {
        if intervals[idx - 1].end > start { return true; }
      }
      if idx < |intervals| {
        if intervals[idx].start < end { return true; }
      }
      return false;
    }

    method InsertSpan(start: int, end: int)
      requires Ordered(intervals)
      modifies this
      ensures intervals == Inserted(old(intervals), Interval(start, end))
      ensures Ordered(intervals)
      ensures multiset(intervals) == multiset(old(intervals)) + multiset{Interval(start, end)}
    {
      InsertedOrdered(intervals, Interval(start, end));
      InsertedContents(intervals, Interval(start, end));
      var idx := BisectLeft(intervals, At(start, end));
      intervals := intervals[..idx] + [Interval(start, end)] + intervals[idx..];
    }
  }
}
