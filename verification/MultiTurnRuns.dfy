/** Whole runs of the multi-turn workload: safety in every interleaving, progress, and what is
    true once nothing is left to do. */
module MultiTurnRuns {
  import opened Counting
  import opened MultiTurn
  import opened MultiTurnInvariants

  ghost predicate Inv(g: Config, s: State) {
    && Shaped(g, s) && |g.prompts| == |g.total|
    && HandlerOk(g, s) && RoundsOk(g, s) && OnePending(g, s) && Counters(g, s)
    && TalksOk(g, s) && PoolOk(g, s)
    && (g.barrier ==> BarrierOk(g, s))
  }

  lemma {:induction false} InvStep(g: Config, s: State, e: Step)
    requires ValidConfig(g) && Inv(g, s) && Enabled(g, s, e)
    ensures Inv(g, Next(g, s, e))
  {
    hide OnePending, Counters, TalksOk, PoolOk, BarrierOk, RoundsOk, HandlerOk, ValidConfig, OnQueue, OnRecord, OnCount;
    if e.Queue? && s.round[s.handler.client] < g.total[s.handler.client] {
      PoolSuffices(g, s);
    }
    RoundsStep(g, s, e);
    OnePendingStep(g, s, e);
    CountersStep(g, s, e);
    TalksStep(g, s, e);
    PoolStep(g, s, e);
    if g.barrier { BarrierStep(g, s, e); }
  }

  lemma {:induction false} CountersStep(g: Config, s: State, e: Step)
    requires Shaped(g, s) && Enabled(g, s, e) && HandlerOk(g, s) && RoundsOk(g, s) && Counters(g, s)
    requires e.Queue? && s.round[s.handler.client] < g.total[s.handler.client] ==> s.pool != []
    ensures Counters(g, Next(g, s, e))
  {
    hide Counters, HandlerOk, RoundsOk;
    match e {
      case Record => CountersRecord(g, s);
      case Queue => CountersQueue(g, s);
      case _ => CountersMoves(g, s, e);
    }
  }

  // ---------- the start ----------

  lemma {:induction false} ReadyCopies(g: Config, rs: seq<Request>, r: Request)
    requires |rs| <= |g.prompts| && forall c :: 0 <= c < |rs| ==> rs[c] == Request(c, g.prompts[c])
    ensures Copies(rs, r) == if r.client < |rs| && r.history == g.prompts[r.client] then 1 else 0
  {
    if rs != [] { ReadyCopies(g, rs[..|rs| - 1], r); }
  }

  lemma {:induction false} InitPending(g: Config)
    requires ValidConfig(g)
    ensures OnePending(g, Init(g))
  {
    hide Copies;
    var s := Init(g);
    forall r ensures Pending(s, r) == if Due(g, s, r) then 1 else 0 {
      ReadyCopies(g, s.ready, r);
      NoCopies(r);
      assert Requests(s.responses) == [];
    }
  }

  lemma {:induction false} InitCounters(g: Config)
    requires ValidConfig(g)
    ensures Counters(g, Init(g)) && PoolOk(g, Init(g))
  {
    hide Sum;
    var s := Init(g);
    SumConstant(Answered(s), 0);
    SumConstant(LiveCounts(g, s), 1);
    SumConstant(Lengths(s.subs), 0);
  }

  lemma {:induction false} InitBarrier(g: Config)
    requires ValidConfig(g)
    ensures Shaped(g, Init(g)) && BarrierOk(g, Init(g))
  {
    hide ClientsIn, Copies;
    var s := Init(g);
    ClientsInNone(s.round, 0);
    forall r ensures PlacedByRound(g, s, r) {
      NoCopies(r);
      ReadyCopies(g, s.ready, r);
      assert Requests(s.responses) == [];
    }
  }

  lemma {:induction false} InitInv(g: Config)
    requires ValidConfig(g)
    ensures Inv(g, Init(g))
  {
    InitPending(g);
    InitCounters(g);
    InitBarrier(g);
    var s := Init(g);
    forall c | 0 <= c < |g.total| ensures TalkOk(g, s, c) {
    }
  }

  // ---------- runs ----------

  /** A run: states linked by enabled steps, from the start. */
  ghost predicate IsRun(g: Config, steps: seq<Step>, states: seq<State>)
    requires |g.prompts| == |g.total|
  {
    && |states| == |steps| + 1 && states[0] == Init(g)
    && forall i :: 0 <= i < |steps| ==>
         Shaped(g, states[i]) && Enabled(g, states[i], steps[i]) && states[i + 1] == Next(g, states[i], steps[i])
  }

  /** Every state of every run satisfies the invariant. */
  lemma {:induction false} RunInv(g: Config, steps: seq<Step>, states: seq<State>, i: nat)
    requires ValidConfig(g) && IsRun(g, steps, states) && i < |states|
    ensures Inv(g, states[i])
  {
    hide Inv, Next, Enabled, Init;
    if i == 0 {
      InitInv(g);
    } else {
      RunInv(g, steps, states, i - 1);
      InvStep(g, states[i - 1], steps[i - 1]);
    }
  }

  /** In every interleaving: the handler never runs out of sub-questions, a client with rounds
      left that has not failed has one request and no other on its way, unless the handler is
      just advancing it, and no more than `maxParallel` requests are unanswered. */
  lemma {:induction false} OneRequestPerClient(g: Config, steps: seq<Step>, states: seq<State>, i: nat, c: nat)
    requires ValidConfig(g) && IsRun(g, steps, states) && i < |states| && c < |g.total|
    ensures var s := states[i];
            && Shaped(g, s) && !s.handler.Crashed?
            && (s.round[c] < g.total[c] && c !in s.failed && s.handler != Recorded(c) ==>
                  Pending(s, Request(c, s.history[c])) == 1)
            && (forall r: Request :: r.client == c && Pending(s, r) > 0 ==> r == Request(c, s.history[c]) && Pending(s, r) == 1)
            && 0 <= s.sent - s.completed <= (if g.maxParallel < 0 then 0 else g.maxParallel)
  {
    RunInv(g, steps, states, i);
    var s := states[i];
    hide Pending, Copies, IsRun, Sum, TalksOk, BarrierOk;
    assert Pending(s, Request(c, s.history[c])) == if Due(g, s, Request(c, s.history[c])) then 1 else 0;
    forall r: Request | r.client == c && Pending(s, r) > 0 ensures r == Request(c, s.history[c]) && Pending(s, r) == 1 {
      assert Due(g, s, r);
    }
  }

  // ---------- prefix growth ----------

  lemma {:induction false} TalkStep(p: Tokens, outs: seq<Tokens>, subs: seq<Tokens>, k: nat)
    requires k < |outs| && k < |subs|
    ensures Talk(p, outs[..k + 1], subs[..k + 1]) == Talk(p, outs[..k], subs[..k]) + outs[k] + subs[k]
  {
    assert subs[..k + 1][..k] == subs[..k] && outs[..k + 1][..k] == outs[..k];
  }

  lemma {:induction false} TalkGrows(p: Tokens, outs: seq<Tokens>, subs: seq<Tokens>, j: nat, k: nat)
    requires j <= k <= |outs| && k <= |subs|
    ensures Talk(p, outs[..j], subs[..j]) <= Talk(p, outs[..k], subs[..k])
    ensures j < k && (forall m :: 0 <= m < |subs| ==> subs[m] != []) ==>
              |Talk(p, outs[..j], subs[..j])| < |Talk(p, outs[..k], subs[..k])|
  {
    if j < k {
      hide Talk;
      TalkGrows(p, outs, subs, j, k - 1);
      TalkStep(p, outs, subs, k - 1);
    }
  }

  /** Each request built for a client is its prompt followed by the outputs recorded and the
      sub-questions used so far, in turn, and the request now pending is the last one built. */
  lemma {:induction false} BuiltRequests(g: Config, steps: seq<Step>, states: seq<State>, i: nat, c: nat, k: nat)
    requires ValidConfig(g) && IsRun(g, steps, states) && i < |states| && c < |g.total|
    requires Shaped(g, states[i]) && k < |states[i].log[c]|
    ensures var s := states[i];
            && k <= |s.outs[c]| && k <= |s.subs[c]|
            && s.log[c][k] == Talk(g.prompts[c], s.outs[c][..k], s.subs[c][..k])
            && (Live(g, s, c) ==> s.history[c] == s.log[c][|s.log[c]| - 1])
  {
    RunInv(g, steps, states, i);
    var s := states[i];
    hide OnePending, Counters, PoolOk, BarrierOk, IsRun, Talk;
    assert TalkOk(g, s, c);
    if Live(g, s, c) {
      assert s.outs[c][..|s.outs[c]|] == s.outs[c] && s.subs[c][..|s.subs[c]|] == s.subs[c];
    }
  }

  // ---------- the barrier ----------

  /** The round whose requests may be under way. */
  function Front(s: State): nat {
    if s.handler.Releasing? then s.current + 1 else s.current
  }

  /** With the barrier on, in every run, failures or not: whatever is under way belongs to the
      front round, and every client that takes part in the round before has finished it. */
  lemma {:induction false} BarrierSafety(g: Config, steps: seq<Step>, states: seq<State>, i: nat, r: Request, c: nat)
    requires ValidConfig(g) && g.barrier && IsRun(g, steps, states) && i < |states|
    requires Outstanding(states[i], r) > 0 && c < |g.total|
    ensures var s := states[i];
            && Shaped(g, s) && r.client < |g.total| && s.round[r.client] == Front(s)
            && (g.total[c] >= Front(s) ==> s.round[c] >= Front(s))
            && (g.total[c] < Front(s) ==> s.round[c] == g.total[c])
  {
    RunInv(g, steps, states, i);
    var s := states[i];
    hide Outstanding, Counters, TalksOk, PoolOk, IsRun, Copies;
    assert Pending(s, r) > 0;
    assert Due(g, s, r) && PlacedByRound(g, s, r) && AtBarrier(g, s, r.client) && AtBarrier(g, s, c);
  }

  /** The barrier moves past round `r` only when all of `clients_per_round[r]` responses of that
      round have been handled, and only if none of them was a failure. */
  lemma {:induction false} BarrierPassed(g: Config, steps: seq<Step>, states: seq<State>, i: nat, r: nat)
    requires ValidConfig(g) && g.barrier && IsRun(g, steps, states) && i < |states|
    requires states[i].current > r
    ensures Shaped(g, states[i])
    ensures ClientsIn(states[i].round, r) == ClientsIn(g.total, r)
    ensures forall c :: c in states[i].failed ==> c < |g.total| && states[i].round[c] > r
  {
    RunInv(g, steps, states, i);
    var s := states[i];
    hide OnePending, Counters, TalksOk, PoolOk, IsRun, ClientsIn;
    forall c | 0 <= c < |g.total| ensures s.round[c] > r <==> g.total[c] > r {
      assert AtBarrier(g, s, c);
    }
    ClientsInBound(s.round, g.total, r);
    ClientsInBound(g.total, s.round, r);
    forall c | c in s.failed ensures s.round[c] > r {
      assert AtBarrier(g, s, c);
    }
  }

  lemma {:induction false} FailedFrozen(g: Config, s: State, e: Step, c: nat)
    requires Inv(g, s) && Enabled(g, s, e) && c in s.failed
    ensures c < |g.total| && c in Next(g, s, e).failed && Next(g, s, e).round[c] == s.round[c]
  {
    hide OnePending, Counters, TalksOk, PoolOk, BarrierOk, ClientsIn;
  }

  lemma {:induction false} FailureStopsStep(g: Config, s: State, e: Step)
    requires ValidConfig(g) && g.barrier && Inv(g, s) && Enabled(g, s, e) && s.failed != {}
    ensures Next(g, s, e).current == s.current && s.failed <= Next(g, s, e).failed
  {
    InvStep(g, s, e);
    var t := Next(g, s, e);
    hide OnePending, Counters, TalksOk, PoolOk, Next, CountOk, PlacedByRound;
    forall c | c in s.failed ensures c in t.failed && t.current == s.current {
      FailedFrozen(g, s, e, c);
      assert AtBarrier(g, s, c) && AtBarrier(g, t, c);
    }
  }

  /** After one failed response the barrier never moves again. */
  lemma {:induction false} FailureStopsBarrier(g: Config, steps: seq<Step>, states: seq<State>, i: nat, j: nat)
    requires ValidConfig(g) && g.barrier && IsRun(g, steps, states) && i <= j < |states|
    requires states[i].failed != {}
    ensures states[j].current == states[i].current && states[i].failed <= states[j].failed
  {
    hide Next, Enabled, Inv;
    if i < j {
      FailureStopsBarrier(g, steps, states, i, j - 1);
      RunInv(g, steps, states, j - 1);
      FailureStopsStep(g, states[j - 1], steps[j - 1]);
    }
  }

  // ---------- progress ----------

  /** Nothing is queued, under way or being handled. */
  predicate Quiescent(s: State) {
    s.ready == [] && s.inflight == [] && s.responses == [] && s.handler.Idle?
  }

  /** A step that does more than poll. */
  predicate Works(e: Step) {
    !e.Arm? && !e.Disarm?
  }

  function Busy(h: Handler): nat {
    match h
    case Idle => 0
    case Got(_) => 1
    case Recorded(_) => 8
    case Queued => 2
    case Releasing(_) => 1
    case Crashed => 0
  }

  /** Work left, an upper bound on the working steps still to come. */
  function Work(g: Config, s: State): int {
    8 * (Sum(g.total) - Sum(s.round)) + 5 * |Waiting(s)| + 4 * |s.ready| + 3 * |s.inflight| + 2 * |s.responses| + Busy(s.handler)
  }

  lemma {:induction false} WorkNonNegative(g: Config, s: State)
    requires Inv(g, s)
    ensures Work(g, s) >= 0
  {
    hide OnePending, Counters, TalksOk, PoolOk, BarrierOk;
    SumBound(s.round, g.total);
  }

  lemma {:induction false} WorkRecord(g: Config, s: State)
    requires Shaped(g, s) && s.handler.Got?
    ensures Work(g, OnRecord(s)) < Work(g, s)
  {
    hide Sum;
    var c := s.handler.response.request.client;
    SumUpdate(s.round, c, s.round[c] + 1);
  }

  lemma {:induction false} WorkQueue(g: Config, s: State)
    requires Shaped(g, s) && HandlerOk(g, s) && s.handler.Recorded?
    requires s.round[s.handler.client] < g.total[s.handler.client] ==> s.pool != []
    ensures Work(g, OnQueue(g, s)) < Work(g, s)
  {
    hide Sum;
  }

  /** Each working step leaves less work, and polling leaves no more. */
  lemma {:induction false} WorkShrinks(g: Config, s: State, e: Step)
    requires ValidConfig(g) && Inv(g, s) && Enabled(g, s, e)
    ensures Work(g, Next(g, s, e)) <= Work(g, s) - if Works(e) then 1 else 0
  {
    hide Counters, PoolOk, BarrierOk, ClientsIn, Sum, OnePending, TalksOk, RoundsOk;
    match e {
      case Record => WorkRecord(g, s);
      case Queue =>
        if s.round[s.handler.client] < g.total[s.handler.client] { PoolSuffices(g, s); }
        WorkQueue(g, s);
      case _ =>
    }
  }

  function WorkSteps(steps: seq<Step>): nat {
    if steps == [] then 0
    else WorkSteps(steps[..|steps| - 1]) + if Works(steps[|steps| - 1]) then 1 else 0
  }

  /** Every run does a bounded amount of work: nothing can go round in circles. */
  lemma {:induction false} WorkBounded(g: Config, steps: seq<Step>, states: seq<State>)
    requires ValidConfig(g) && IsRun(g, steps, states)
    ensures WorkSteps(steps) <= 8 * Sum(g.total) + 4 * |g.total|
    ensures WorkSteps(steps) + Work(g, states[|steps|]) <= 8 * Sum(g.total) + 4 * |g.total|
  {
    hide Inv, Next, Enabled, Work;
    var n := |steps|;
    RunInv(g, steps, states, n);
    WorkNonNegative(g, states[n]);
    if n == 0 {
      InitialWork(g);
    } else {
      WorkBounded(g, steps[..n - 1], states[..n]);
      RunInv(g, steps, states, n - 1);
      WorkShrinks(g, states[n - 1], steps[n - 1]);
    }
  }

  lemma {:induction false} InitialWork(g: Config)
    requires ValidConfig(g)
    ensures Work(g, Init(g)) == 8 * Sum(g.total) + 4 * |g.total|
  {
    hide Sum;
    SumConstant(Init(g).round, 0);
  }

  /** A working step is possible now, or after the sender has looked at its limit. */
  ghost predicate CanWork(g: Config, s: State)
    requires Shaped(g, s)
  {
    || (exists e :: Works(e) && Enabled(g, s, e))
    || (Enabled(g, s, Arm) && Enabled(g, Next(g, s, Arm), Pop(0)))
  }

  /** Until it is quiescent the workload can always go on. */
  lemma {:induction false} NeverStuck(g: Config, steps: seq<Step>, states: seq<State>, i: nat)
    requires ValidConfig(g) && g.maxParallel >= 1 && IsRun(g, steps, states) && i < |states|
    ensures Shaped(g, states[i]) && (Quiescent(states[i]) || CanWork(g, states[i]))
  {
    RunInv(g, steps, states, i);
    var s := states[i];
    hide IsRun, OnePending, TalksOk, PoolOk, BarrierOk, RoundsOk;
    match s.handler {
      case Got(_) => assert Works(Record) && Enabled(g, s, Record);
      case Recorded(_) => assert Works(Queue) && Enabled(g, s, Queue);
      case Queued => assert Works(Count) && Enabled(g, s, Count);
      case Releasing(k) =>
        if k < |s.held| {
          assert Works(ReleaseOne) && Enabled(g, s, ReleaseOne);
        } else {
          assert Works(ReleaseEnd) && Enabled(g, s, ReleaseEnd);
        }
      case Idle =>
        if s.responses != [] {
          assert Works(Get) && Enabled(g, s, Get);
        } else if s.inflight != [] {
          assert Works(Finish(0, Refused)) && Enabled(g, s, Finish(0, Refused));
        } else if s.ready != [] && s.armed {
          assert Works(Pop(0)) && Enabled(g, s, Pop(0));
        }
      case Crashed =>
    }
  }

  // ---------- when nothing is left to do ----------

  lemma {:induction false} QuiescentNotOutstanding(g: Config, s: State, r: Request)
    requires Quiescent(s)
    ensures Outstanding(s, r) == 0
  {
    NoCopies(r);
    assert Requests(s.responses) == [];
  }

  /** Without the barrier every client ends finished or failed. */
  lemma {:induction false} EndWithoutBarrier(g: Config, s: State, c: nat)
    requires ValidConfig(g) && Inv(g, s) && Quiescent(s) && !g.barrier && c < |g.total|
    ensures s.round[c] == g.total[c] || c in s.failed
  {
    hide Counters, TalksOk, PoolOk, BarrierOk;
    var r := Request(c, s.history[c]);
    QuiescentNotOutstanding(g, s, r);
    NoCopies(r);
    assert Pending(s, r) == if Due(g, s, r) then 1 else 0;
  }

  /** With the barrier and no failure, no round gets stuck: every client ends finished. */
  lemma {:induction false} EndWithBarrier(g: Config, s: State, c: nat)
    requires ValidConfig(g) && Inv(g, s) && Quiescent(s) && g.barrier && s.failed == {} && c < |g.total|
    ensures s.round[c] == g.total[c]
  {
    hide Counters, TalksOk, PoolOk, ClientsIn, Copies, Outstanding;
    assert AtBarrier(g, s, c);
    if s.round[c] < g.total[c] {
      ClientsInBound(s.round, g.total, s.current);
      ClientsInNone(g.total, s.current);
      assert ClientsIn(s.round, s.current) < ClientsIn(g.total, s.current);
      if forall k :: 0 <= k < |g.total| ==> (g.total[k] > s.current ==> s.round[k] > s.current) {
        ClientsInBound(g.total, s.round, s.current);
      } else {
        var k :| 0 <= k < |g.total| && g.total[k] > s.current && s.round[k] <= s.current;
        var r := Request(k, s.history[k]);
        assert AtBarrier(g, s, k) && PlacedByRound(g, s, r);
        assert Due(g, s, r) && Pending(s, r) == 1;
        QuiescentNotOutstanding(g, s, r);
      }
    }
  }

  /** What a finished workload looks like, exactly: all clients have all their rounds if and
      only if no request failed; and the progress bar is full, which is what ends both threads,
      if and only if no request raised and every client failed, if at all, in its last round. */
  lemma {:induction false} EndState(g: Config, steps: seq<Step>, states: seq<State>, i: nat)
    requires ValidConfig(g) && IsRun(g, steps, states) && i < |states| && Quiescent(states[i])
    ensures var s := states[i];
            && Shaped(g, s)
            && (s.round == g.total <==> s.failed == {})
            && s.sent == s.completed == s.pbar + s.raised
            && (s.failed == {} ==> s.pbar == Sum(g.total))
            && (s.pbar == Sum(g.total) <==> s.raised == 0 && Answered(s) == g.total)
  {
    RunInv(g, steps, states, i);
    var s := states[i];
    hide IsRun, OnePending, TalksOk, PoolOk, BarrierOk, Sum;
    if s.failed == {} {
      forall c | 0 <= c < |g.total| ensures s.round[c] == g.total[c] {
        if g.barrier { EndWithBarrier(g, s, c); } else { EndWithoutBarrier(g, s, c); }
      }
      assert Answered(s) == s.round == g.total;
    } else {
      var c :| c in s.failed;
      assert s.round[c] < g.total[c];
    }
    SumBound(Answered(s), g.total);
  }

  /** When the sender sees a full progress bar and stops, nothing is left for it to send. */
  lemma {:induction false} SenderExitSafe(g: Config, steps: seq<Step>, states: seq<State>, i: nat)
    requires ValidConfig(g) && IsRun(g, steps, states) && i < |states| && states[i].pbar == Sum(g.total)
    ensures states[i].ready == [] && states[i].inflight == [] && Waiting(states[i]) == []
  {
    RunInv(g, steps, states, i);
    var s := states[i];
    hide IsRun, OnePending, TalksOk, PoolOk, BarrierOk, Sum;
    var owed := Owed(g, s);
    OwedSum(g, s);
    SumBound(owed, g.total);
  }

  /** Answers handled or still to come for the requests already built. */
  function Owed(g: Config, s: State): (a: seq<nat>)
    requires Shaped(g, s)
    ensures |a| == |g.total| && forall c :: 0 <= c < |a| ==> a[c] == Answered(s)[c] + LiveCounts(g, s)[c]
  {
    seq(|g.total|, c requires 0 <= c < |g.total| => Answered(s)[c] + LiveCounts(g, s)[c])
  }

  lemma {:induction false} OwedSum(g: Config, s: State)
    requires Shaped(g, s)
    ensures Sum(Owed(g, s)) == Sum(Answered(s)) + Sum(LiveCounts(g, s))
  {
    SumPlus(Answered(s), LiveCounts(g, s), Owed(g, s));
  }
}
