/** What every step of the multi-turn workload keeps: counters, histories, the supply of
    sub-questions and the round barrier. */
module MultiTurnInvariants {
  import opened Counting
  import opened MultiTurn

  // ---------- counters ----------

  function HandCount(s: State): nat {
    if s.handler.Got? then 1 else 0
  }

  /** Responses handled for each client: its rounds, and one more if it failed. */
  function Answered(s: State): (a: seq<nat>)
    ensures |a| == |s.round|
    ensures forall c :: 0 <= c < |s.round| ==> a[c] == s.round[c] + if c in s.failed then 1 else 0
  {
    seq(|s.round|, c requires 0 <= c < |s.round| => s.round[c] + if c in s.failed then 1 else 0)
  }

  function LiveCounts(g: Config, s: State): (a: seq<nat>)
    ensures |a| == |g.total|
    ensures forall c :: 0 <= c < |g.total| ==> a[c] == if Live(g, s, c) then 1 else 0
  {
    seq(|g.total|, c requires 0 <= c < |g.total| => if Live(g, s, c) then 1 else 0)
  }

  function RaisedIn(rs: seq<Response>): nat {
    if rs == [] then 0 else RaisedIn(rs[1..]) + if rs[0].outcome.Raised? then 1 else 0
  }

  function RaisedInHand(s: State): nat {
    if s.handler.Got? && s.handler.response.outcome.Raised? then 1 else 0
  }

  lemma {:induction false} RaisedAppend(rs: seq<Response>, r: Response)
    ensures RaisedIn(rs + [r]) == RaisedIn(rs) + if r.outcome.Raised? then 1 else 0
  {
    if rs == [] {
      assert rs + [r] == [r] && [r][1..] == [];
    } else {
      assert (rs + [r])[1..] == rs[1..] + [r];
      RaisedAppend(rs[1..], r);
    }
  }

  ghost predicate Counters(g: Config, s: State) {
    && s.sent == s.completed + |s.inflight| + |s.responses| + HandCount(s)
    && s.pbar + s.raised == s.completed + |s.responses| + HandCount(s)
    && s.raised <= |s.failed| + RaisedIn(s.responses) + RaisedInHand(s)
    && (s.armed ==> s.sent - s.completed < g.maxParallel)
    && (s.sent > s.completed ==> s.sent - s.completed <= g.maxParallel)
    && s.completed == Sum(Answered(s))
    && |s.ready| + |s.inflight| + |s.responses| + HandCount(s) + |Waiting(s)| == Sum(LiveCounts(g, s))
  }

  /** Rounds stay within the client's total, and a client fails at most once, before its end. */
  ghost predicate RoundsOk(g: Config, s: State) {
    && (forall c :: 0 <= c < |g.total| && c < |s.round| ==> s.round[c] <= g.total[c])
    && (forall c :: c in s.failed ==> c < |g.total| && c < |s.round| && s.round[c] < g.total[c])
    && (s.handler.Got? ==> Live(g, s, s.handler.response.request.client))
    && (s.handler.Recorded? ==> s.handler.client < |s.round| && s.round[s.handler.client] > 0)
  }

  lemma {:induction false} CountersMoves(g: Config, s: State, e: Step)
    requires Shaped(g, s) && Enabled(g, s, e) && HandlerOk(g, s) && Counters(g, s) && Moves(e)
    ensures Counters(g, Next(g, s, e))
  {
    hide Sum, ClientsIn, RaisedIn;
    var t := Next(g, s, e);
    assert Answered(t) == Answered(s);
    assert LiveCounts(g, t) == LiveCounts(g, s);
    match e {
      case Finish(i, outcome) => RaisedAppend(s.responses, Response(s.inflight[i], outcome));
      case Get => RaisedHead(s.responses);
      case _ =>
    }
  }

  lemma {:induction false} RaisedHead(rs: seq<Response>)
    requires rs != []
    ensures RaisedIn(rs) == RaisedIn(rs[1..]) + if rs[0].outcome.Raised? then 1 else 0
  {
  }

  lemma {:induction false} RecordCounts(g: Config, s: State)
    requires Shaped(g, s) && s.handler.Got? && RoundsOk(g, s)
    ensures var c := s.handler.response.request.client;
            && Answered(OnRecord(s)) == Answered(s)[c := Answered(s)[c] + 1]
            && LiveCounts(g, OnRecord(s)) == LiveCounts(g, s)[c := 0] && LiveCounts(g, s)[c] == 1
  {
  }

  lemma {:induction false} CountersRecord(g: Config, s: State)
    requires Shaped(g, s) && s.handler.Got? && HandlerOk(g, s) && RoundsOk(g, s) && Counters(g, s)
    ensures Counters(g, OnRecord(s))
  {
    hide Sum, RaisedIn, Answered, LiveCounts;
    var c := s.handler.response.request.client;
    RecordCounts(g, s);
    SumUpdate(Answered(s), c, Answered(s)[c] + 1);
    SumUpdate(LiveCounts(g, s), c, 0);
  }

  lemma {:induction false} CountersQueue(g: Config, s: State)
    requires Shaped(g, s) && s.handler.Recorded? && HandlerOk(g, s) && Counters(g, s)
    requires s.round[s.handler.client] < g.total[s.handler.client] ==> s.pool != []
    ensures Counters(g, OnQueue(g, s))
  {
    hide Sum, RaisedIn;
    var t, c := OnQueue(g, s), s.handler.client;
    assert Answered(t) == Answered(s);
    var live := if s.round[c] < g.total[c] then 1 else 0;
    SumUpdate(LiveCounts(g, s), c, live);
    assert LiveCounts(g, t) == LiveCounts(g, s)[c := live];
  }

  lemma {:induction false} RoundsStep(g: Config, s: State, e: Step)
    requires Shaped(g, s) && Enabled(g, s, e) && HandlerOk(g, s) && OnePending(g, s) && RoundsOk(g, s)
    requires e.Queue? && s.round[s.handler.client] < g.total[s.handler.client] ==> s.pool != []
    ensures Shaped(g, Next(g, s, e)) && RoundsOk(g, Next(g, s, e)) && HandlerOk(g, Next(g, s, e))
  {
    hide ClientsIn, Copies;
    if e.Get? {
      hide Next;
      RoundsGet(g, s);
    }
  }

  lemma {:induction false} RoundsGet(g: Config, s: State)
    requires Shaped(g, s) && Enabled(g, s, Get) && HandlerOk(g, s) && OnePending(g, s) && RoundsOk(g, s)
    ensures Shaped(g, Next(g, s, Get)) && RoundsOk(g, Next(g, s, Get)) && HandlerOk(g, Next(g, s, Get))
  {
    hide ClientsIn, Copies;
    var r := s.responses[0].request;
    assert Requests(s.responses)[0] == r;
    CopiesMember(Requests(s.responses), 0);
    assert Pending(s, r) > 0;
    assert Due(g, s, r);
  }

  // ---------- histories ----------

  /** A conversation: the prompt, then outputs and sub-questions in turn. */
  function Talk(prompt: Tokens, outs: seq<Tokens>, subs: seq<Tokens>): Tokens
    decreases |outs| + |subs|
  {
    if subs != [] && |subs| >= |outs| then Talk(prompt, outs, subs[..|subs| - 1]) + subs[|subs| - 1]
    else if outs != [] then Talk(prompt, outs[..|outs| - 1], subs) + outs[|outs| - 1]
    else prompt
  }

  /** The number of requests built for a client so far. */
  function Built(g: Config, s: State, c: nat): nat
    requires c < |g.total| && c < |s.round|
  {
    if s.handler == Recorded(c) then s.round[c] else Min(s.round[c] + 1, g.total[c])
  }

  ghost predicate TalkOk(g: Config, s: State, c: nat)
    requires Shaped(g, s) && |g.prompts| == |g.total| && c < |g.total|
  {
    && |s.outs[c]| == s.round[c]
    && |s.log[c]| == Built(g, s, c) == |s.subs[c]| + 1
    && s.history[c] == Talk(g.prompts[c], s.outs[c], s.subs[c])
    && forall k :: 0 <= k < |s.log[c]| ==> k <= |s.outs[c]| && s.log[c][k] == Talk(g.prompts[c], s.outs[c][..k], s.subs[c][..k])
  }

  ghost predicate TalksOk(g: Config, s: State)
    requires Shaped(g, s) && |g.prompts| == |g.total|
  {
    forall c :: 0 <= c < |g.total| ==> TalkOk(g, s, c)
  }

  lemma {:induction false} TalkRecord(g: Config, s: State, c: nat)
    requires Shaped(g, s) && |g.prompts| == |g.total| && c < |g.total| && TalkOk(g, s, c)
    requires s.handler.Got? && RoundsOk(g, s)
    ensures Shaped(g, OnRecord(s)) && TalkOk(g, OnRecord(s), c)
  {
    var t := OnRecord(s);
    if s.handler.response.request.client == c && s.handler.response.outcome.Ok? {
      var o := s.handler.response.outcome.output;
      assert t.outs[c][..|s.outs[c]|] == s.outs[c];
      assert t.history[c] == Talk(g.prompts[c], t.outs[c], t.subs[c]);
      forall k | 0 <= k < |t.log[c]| ensures t.log[c][k] == Talk(g.prompts[c], t.outs[c][..k], t.subs[c][..k]) {
        assert t.outs[c][..k] == s.outs[c][..k];
      }
    }
  }

  lemma {:induction false} TalkQueue(g: Config, s: State, c: nat)
    requires Shaped(g, s) && |g.prompts| == |g.total| && c < |g.total| && TalkOk(g, s, c)
    requires s.handler.Recorded? && RoundsOk(g, s)
    requires s.round[s.handler.client] < g.total[s.handler.client] ==> s.pool != []
    ensures Shaped(g, OnQueue(g, s)) && TalkOk(g, OnQueue(g, s), c)
  {
    hide Talk;
    var t := OnQueue(g, s);
    if s.handler.client == c && s.round[c] < g.total[c] {
      var sub := s.pool[|s.pool| - 1];
      assert t.subs[c] == s.subs[c] + [sub] && t.outs[c] == s.outs[c];
      TalkAsk(g.prompts[c], s.outs[c], s.subs[c], sub);
      forall k | 0 <= k < |t.log[c]| ensures t.log[c][k] == Talk(g.prompts[c], t.outs[c][..k], t.subs[c][..k]) {
        if k < |s.log[c]| {
          assert t.subs[c][..k] == s.subs[c][..k];
        } else {
          assert t.subs[c][..k] == t.subs[c] && t.outs[c][..k] == t.outs[c];
        }
      }
    }
  }

  lemma {:induction false} TalkAsk(prompt: Tokens, outs: seq<Tokens>, subs: seq<Tokens>, sub: Tokens)
    requires |outs| == |subs| + 1
    ensures Talk(prompt, outs, subs + [sub]) == Talk(prompt, outs, subs) + sub
  {
    assert (subs + [sub])[..|subs|] == subs;
  }

  lemma {:induction false} TalksStep(g: Config, s: State, e: Step)
    requires Shaped(g, s) && |g.prompts| == |g.total| && Enabled(g, s, e) && RoundsOk(g, s) && TalksOk(g, s)
    requires e.Queue? && s.round[s.handler.client] < g.total[s.handler.client] ==> s.pool != []
    requires Shaped(g, Next(g, s, e))
    ensures TalksOk(g, Next(g, s, e))
  {
    hide Talk, ClientsIn;
    forall c | 0 <= c < |g.total| ensures TalkOk(g, Next(g, s, e), c) {
      assert TalkOk(g, s, c);
      match e {
        case Record => TalkRecord(g, s, c);
        case Queue => TalkQueue(g, s, c);
        case _ =>
      }
    }
  }

  // ---------- supply of sub-questions ----------

  function Needs(total: seq<nat>): (r: seq<nat>)
    ensures |r| == |total| && forall c :: 0 <= c < |total| ==> r[c] == if total[c] == 0 then 0 else total[c] - 1
  {
    seq(|total|, c requires 0 <= c < |total| => if total[c] == 0 then 0 else total[c] - 1)
  }

  lemma {:induction false} NeedsSum(total: seq<nat>)
    ensures Sum(Needs(total)) == SubQuestions(total)
  {
    if total != [] {
      var n := |total| - 1;
      NeedsSum(total[..n]);
      assert Needs(total)[..n] == Needs(total[..n]);
    }
  }

  ghost predicate PoolOk(g: Config, s: State) {
    |s.pool| + Sum(Lengths(s.subs)) == |g.pool|
  }

  lemma {:induction false} PoolStep(g: Config, s: State, e: Step)
    requires Shaped(g, s) && Enabled(g, s, e) && PoolOk(g, s)
    ensures PoolOk(g, Next(g, s, e))
  {
    hide Sum, ClientsIn;
    if e.Queue? {
      var t, c := OnQueue(g, s), s.handler.client;
      SumUpdate(Lengths(s.subs), c, |s.subs[c]| + 1);
      if s.round[c] < g.total[c] && s.pool != [] {
        assert Lengths(t.subs) == Lengths(s.subs)[c := |s.subs[c]| + 1];
      }
    }
  }

  /** The pool is never empty when a sub-question is taken from it. */
  lemma {:induction false} PoolSuffices(g: Config, s: State)
    requires ValidConfig(g) && Shaped(g, s) && TalksOk(g, s) && RoundsOk(g, s) && PoolOk(g, s)
    requires s.handler.Recorded? && s.round[s.handler.client] < g.total[s.handler.client]
    ensures s.pool != []
  {
    hide Sum, Talk;
    var used, need, c := Lengths(s.subs), Needs(g.total), s.handler.client;
    forall k | 0 <= k < |used| ensures used[k] <= need[k] {
      assert TalkOk(g, s, k);
    }
    assert TalkOk(g, s, c);
    assert used[c] != need[c];
    SumBound(used, need);
    NeedsSum(g.total);
  }

  // ---------- the round barrier ----------

  lemma {:induction false} ClientsInUpdate(s: seq<nat>, r: nat, i: nat, v: nat)
    requires i < |s|
    ensures ClientsIn(s[i := v], r) == ClientsIn(s, r) - (if s[i] > r then 1 else 0) + if v > r then 1 else 0
  {
    var n := |s| - 1;
    if i < n {
      assert s[i := v][..n] == s[..n][i := v];
      ClientsInUpdate(s[..n], r, i, v);
    } else {
      assert s[i := v][..n] == s[..n];
    }
  }

  /** Fewer rounds, fewer clients past `r`; equally many only if they are the same clients. */
  lemma {:induction false} ClientsInBound(s: seq<nat>, t: seq<nat>, r: nat)
    requires |s| == |t| && forall i :: 0 <= i < |s| ==> (s[i] > r ==> t[i] > r)
    ensures ClientsIn(s, r) <= ClientsIn(t, r)
    ensures ClientsIn(s, r) == ClientsIn(t, r) ==> forall i :: 0 <= i < |s| ==> (t[i] > r ==> s[i] > r)
  {
    if s != [] {
      var n := |s| - 1;
      ClientsInBound(s[..n], t[..n], r);
      assert forall i :: 0 <= i < n ==> s[..n][i] == s[i] && t[..n][i] == t[i];
    }
  }

  lemma {:induction false} ClientsInNone(s: seq<nat>, r: nat)
    ensures ClientsIn(s, r) == 0 <==> forall i :: 0 <= i < |s| ==> s[i] <= r
  {
    if s != [] {
      var n := |s| - 1;
      ClientsInNone(s[..n], r);
      assert forall i :: 0 <= i < n ==> s[..n][i] == s[i];
    }
  }

  /** A client next to the barrier at round `s.current`. */
  ghost predicate AtBarrier(g: Config, s: State, c: nat)
    requires Shaped(g, s) && c < |g.total|
  {
    && (g.total[c] <= s.current ==> s.round[c] == g.total[c])
    && (g.total[c] > s.current ==> s.current <= s.round[c] <= s.current + 1)
    && (c in s.failed ==> s.round[c] == s.current < g.total[c])
    && (s.handler.Releasing? && g.total[c] > s.current ==> s.round[c] == s.current + 1)
    && (s.handler == Recorded(c) ==> s.round[c] == s.current + 1)
  }

  /** Held requests are for the round after the barrier, requests under way for the round
      before it, until the release. */
  ghost predicate PlacedByRound(g: Config, s: State, r: Request)
    requires Shaped(g, s)
  {
    && (Copies(s.held, r) > 0 ==> r.client < |g.total| && s.round[r.client] == s.current + 1)
    && (!s.handler.Releasing? && Outstanding(s, r) > 0 ==> r.client < |g.total| && s.round[r.client] == s.current)
  }

  /** Every handled response of the round is counted, or about to be. */
  ghost predicate CountOk(g: Config, s: State)
  {
    var past, all := ClientsIn(s.round, s.current), ClientsIn(g.total, s.current);
    && s.counted + (if s.handler.Recorded? || s.handler.Queued? then 1 else 0) == past
    && (s.handler.Releasing? ==> past == all > 0)
    && (s.handler.Idle? || s.handler.Got? ==> past < all || all == 0)
  }

  ghost predicate BarrierOk(g: Config, s: State)
    requires Shaped(g, s)
  {
    && (forall c :: 0 <= c < |g.total| ==> AtBarrier(g, s, c))
    && (forall r :: PlacedByRound(g, s, r))
    && CountOk(g, s)
  }

  lemma {:induction false} BarrierRecord(g: Config, s: State)
    requires Shaped(g, s) && s.handler.Got? && RoundsOk(g, s) && OnePending(g, s) && BarrierOk(g, s)
    ensures Shaped(g, OnRecord(s)) && BarrierOk(g, OnRecord(s))
  {
    hide ClientsIn, Copies;
    var t, r0 := OnRecord(s), s.handler.response.request;
    var c := r0.client;
    assert PlacedByRound(g, s, r0) && Outstanding(s, r0) > 0;
    assert s.round[c] == s.current;
    ClientsInUpdate(s.round, s.current, c, s.round[c] + 1);
    forall k | 0 <= k < |g.total| ensures AtBarrier(g, t, k) {
      assert AtBarrier(g, s, k);
    }
    forall r ensures PlacedByRound(g, t, r) {
      assert PlacedByRound(g, s, r);
      OnePendingRecord(g, s, r);
    }
    ClientsInBound(s.round, g.total, s.current);
  }

  lemma {:induction false} BarrierQueue(g: Config, s: State)
    requires Shaped(g, s) && s.handler.Recorded? && g.barrier && BarrierOk(g, s)
    requires s.round[s.handler.client] < g.total[s.handler.client] ==> s.pool != []
    ensures Shaped(g, OnQueue(g, s)) && BarrierOk(g, OnQueue(g, s))
  {
    hide ClientsIn, Copies;
    var t, c := OnQueue(g, s), s.handler.client;
    forall k | 0 <= k < |g.total| ensures AtBarrier(g, t, k) {
      assert AtBarrier(g, s, k);
    }
    forall r ensures PlacedByRound(g, t, r) {
      assert PlacedByRound(g, s, r);
      CopiesAppend(s.held, Request(c, t.history[c]), r);
      assert AtBarrier(g, s, c);
    }
  }

  lemma {:induction false} SomeonePast(g: Config, s: State)
    requires ValidConfig(g) && Shaped(g, s) && RoundsOk(g, s) && ClientsIn(s.round, s.current) > 0
    ensures s.current < g.maxRounds
  {
    hide ClientsIn;
    ClientsInNone(s.round, s.current);
    var c :| 0 <= c < |s.round| && s.round[c] > s.current;
  }

  lemma {:induction false} BarrierCount(g: Config, s: State)
    requires ValidConfig(g) && Shaped(g, s) && s.handler.Queued? && g.barrier && RoundsOk(g, s) && BarrierOk(g, s)
    ensures Shaped(g, OnCount(g, s)) && BarrierOk(g, OnCount(g, s))
  {
    hide ClientsIn, Copies;
    var t := OnCount(g, s);
    SomeonePast(g, s);
    ClientsInBound(s.round, g.total, s.current);
    forall k | 0 <= k < |g.total| ensures AtBarrier(g, t, k) {
      assert AtBarrier(g, s, k);
    }
    forall r ensures PlacedByRound(g, t, r) {
      assert PlacedByRound(g, s, r);
    }
  }

  lemma {:induction false} BarrierEnd(g: Config, s: State)
    requires Shaped(g, s) && s.handler.Releasing? && s.handler.count >= |s.held| && OnePending(g, s) && BarrierOk(g, s)
    ensures var t := Next(g, s, ReleaseEnd); Shaped(g, t) && BarrierOk(g, t)
  {
    hide ClientsIn, Copies;
    var t := Next(g, s, ReleaseEnd);
    forall k | 0 <= k < |g.total| ensures AtBarrier(g, t, k) {
      assert AtBarrier(g, s, k);
    }
    forall r ensures PlacedByRound(g, t, r) {
      NoCopies(r);
      if Outstanding(t, r) > 0 {
        assert Pending(s, r) > 0 && Due(g, s, r) && AtBarrier(g, s, r.client);
      }
    }
    forall k | 0 <= k < |t.round| ensures t.round[k] <= t.current {
      assert AtBarrier(g, s, k);
    }
    ClientsInNone(t.round, t.current);
  }

  lemma {:induction false} BarrierMove(g: Config, s: State, e: Step)
    requires Shaped(g, s) && Enabled(g, s, e) && HandlerOk(g, s) && BarrierOk(g, s)
    requires Moves(e) && !e.Count? && !e.ReleaseEnd?
    requires Shaped(g, Next(g, s, e))
    ensures BarrierOk(g, Next(g, s, e))
  {
    hide ClientsIn, Copies, Without;
    var t := Next(g, s, e);
    forall k | 0 <= k < |g.total| ensures AtBarrier(g, t, k) {
      assert AtBarrier(g, s, k);
    }
    forall r ensures PlacedByRound(g, t, r) {
      assert PlacedByRound(g, s, r);
      MovesKeepPending(g, s, e, r);
    }
  }

  lemma {:induction false} BarrierStep(g: Config, s: State, e: Step)
    requires ValidConfig(g) && g.barrier && Shaped(g, s) && Enabled(g, s, e) && HandlerOk(g, s)
    requires RoundsOk(g, s) && OnePending(g, s) && BarrierOk(g, s)
    requires e.Queue? && s.round[s.handler.client] < g.total[s.handler.client] ==> s.pool != []
    requires Shaped(g, Next(g, s, e))
    ensures BarrierOk(g, Next(g, s, e))
  {
    hide BarrierOk, OnePending, RoundsOk, HandlerOk;
    match e {
      case Record => BarrierRecord(g, s);
      case Queue => BarrierQueue(g, s);
      case Count => BarrierCount(g, s);
      case ReleaseEnd => BarrierEnd(g, s);
      case _ => BarrierMove(g, s, e);
    }
  }
}
