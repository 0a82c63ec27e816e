/** The workload generator as the program runs it: objects whose fields the sender, the request
    tasks and the response handler update in place. Each method is a stretch of code between
    two points at which another thread can run, and is tied to a step of the workload. */
module MultiTurnThreads {
  import opened Counting
  import opened Wrappers
  import opened MultiTurn

  class ReadyQueue {
    var requests: seq<Request>
    const policy: Policy

    constructor (requests: seq<Request>, policy: Policy)
      ensures this.requests == requests && this.policy == policy
    {
      this.requests := requests;
      this.policy := policy;
    }

    method Append(item: Request)
      modifies this
      ensures requests == old(requests) + [item]
    {
      requests := requests + [item];
    }

    /** `draw` stands for `random.randrange(len(requests))`. */
    method Take(draw: nat) returns (r: Option<Request>, ghost i: nat)
      requires requests != [] ==> draw < |requests|
      modifies this
      ensures r.None? <==> old(requests) == []
      ensures r.None? ==> requests == old(requests)
      ensures r.Some? ==> i < |old(requests)| && r.value == old(requests)[i] && requests == Without(old(requests), i)
      ensures r.Some? ==> i == if policy == Fifo then 0 else draw
    {
      i := 0;
      if requests == [] { return None, 0; }
      if policy == Random {
        i := draw;
        r := Some(requests[draw]);
        requests := requests[..draw] + requests[draw + 1..];
      } else {
        r := Some(requests[0]);
        requests := requests[1..];
        assert requests == Without(old(requests), 0);
      }
    }
  }

  /** `clients_per_round`. */
  method ClientsPerRound(total: seq<nat>, maxRounds: nat) returns (counts: seq<nat>)
    ensures |counts| == maxRounds && forall r :: 0 <= r < maxRounds ==> counts[r] == ClientsIn(total, r)
  {
    counts := [];
    for r := 0 to maxRounds
      invariant |counts| == r && forall k :: 0 <= k < r ==> counts[k] == ClientsIn(total, k)
    {
      var n := 0;
      for c := 0 to |total|
        invariant n == ClientsIn(total[..c], r)
      {
        assert total[..c + 1][..c] == total[..c];
        if total[c] > r { n := n + 1; }
      }
      assert total[..|total|] == total;
      counts := counts + [n];
    }
  }

  class WorkloadGenerator {
    const g: Config
    const clientsPerRound: seq<nat>
    const readyQueue: ReadyQueue
    var inflight: seq<Request>
    var responseQueue: seq<Response>
    var round: seq<nat>
    var history: seq<Tokens>
    var sent: nat
    var completed: nat
    var pbar: nat
    var subQuestions: seq<Tokens>

    // Locals of `response_handler`.
    var nextRoundReqs: seq<Request>
    var currentBarrierRound: nat
    var barrierRoundCompleted: nat

    // Where the two threads stand, and what has happened so far.
    ghost var armed: bool
    ghost var handler: Handler
    ghost var raised: nat
    ghost var failed: set<nat>
    ghost var log: seq<seq<Tokens>>
    ghost var outs: seq<seq<Tokens>>
    ghost var subs: seq<seq<Tokens>>

    ghost function View(): State
      reads this, readyQueue
    {
      State(readyQueue.requests, inflight, responseQueue, nextRoundReqs, handler, armed, round, history, failed,
            currentBarrierRound, barrierRoundCompleted, sent, completed, pbar, raised, subQuestions, log, outs, subs)
    }

    ghost predicate Valid()
      reads this, readyQueue
    {
      && Shaped(g, View())
      && readyQueue.policy == g.policy
      && CountsRight()
    }

    ghost predicate CountsRight() {
      |clientsPerRound| == g.maxRounds && forall r :: 0 <= r < g.maxRounds ==> clientsPerRound[r] == ClientsIn(g.total, r)
    }

    constructor (g: Config)
      requires |g.prompts| == |g.total|
      ensures this.g == g && Valid() && View() == Init(g)
    {
      var counts := ClientsPerRound(g.total, g.maxRounds);
      var n := |g.total|;
      var queue := new ReadyQueue(seq(n, c requires 0 <= c < n => Request(c, g.prompts[c])), g.policy);
      this.g := g;
      clientsPerRound := counts;
      readyQueue := queue;
      inflight, responseQueue, nextRoundReqs := [], [], [];
      round, history := seq(n, _ => 0), g.prompts;
      sent, completed, pbar, currentBarrierRound, barrierRoundCompleted := 0, 0, 0, 0, 0;
      subQuestions := g.pool;
      armed, handler, raised, failed := false, Idle, 0, {};
      log, outs, subs := seq(n, c requires 0 <= c < n => [g.prompts[c]]), seq(n, _ => []), seq(n, _ => []);
    }

    /** `request_sender`: the test of the limit. */
    method CheckLimit() returns (below: bool)
      requires Valid() && !armed
      modifies this`armed
      ensures Valid() && below == Enabled(g, old(View()), Arm)
      ensures View() == if below then Next(g, old(View()), Arm) else old(View())
    {
      below := sent - completed < g.maxParallel;
      armed := below;
    }

    /** `request_sender`: the pop that follows, and the start of a request task. */
    method SendOne(draw: nat) returns (ghost e: Step)
      requires Valid() && armed && (readyQueue.requests != [] ==> draw < |readyQueue.requests|)
      modifies this, readyQueue
      ensures Valid() && (e.Pop? || e.Disarm?) && Enabled(g, old(View()), e)
      ensures View() == Next(g, old(View()), e)
    {
      var request, i := readyQueue.Take(draw);
      armed := false;
      if request.Some? {
        inflight := inflight + [request.value];
        sent := sent + 1;
        e := Pop(i);
      } else {
        e := Disarm;
      }
    }

    /** `handle_request`, once the request function has returned or raised. */
    method FinishRequest(i: nat, outcome: Outcome)
      requires Valid() && i < |inflight|
      modifies this
      ensures Valid() && View() == Next(g, old(View()), Finish(i, outcome))
    {
      var request := inflight[i];
      inflight := inflight[..i] + inflight[i + 1..];
      if outcome.Raised? {
        raised := raised + 1;
      } else {
        pbar := pbar + 1;
      }
      responseQueue := responseQueue + [Response(request, outcome)];
    }

    /** `response_handler`: take a response and record it. */
    method TakeResponse() returns (response: Response)
      requires Valid() && handler == Idle && responseQueue != [] && responseQueue[0].request.client < |g.total|
      modifies this
      ensures Valid() && View() == Next(g, old(View()), Get) && handler == Got(response)
    {
      response := responseQueue[0];
      responseQueue := responseQueue[1..];
      handler := Got(response);
    }

    method RecordResponse(response: Response)
      requires Valid() && handler == Got(response)
      modifies this
      ensures Valid() && View() == Next(g, old(View()), Record)
    {
      hide CountsRight;
      if response.outcome.Ok? {
        RecordOutput(response.request.client, response.outcome.output);
        handler := Recorded(response.request.client);
      } else {
        failed := failed + {response.request.client};
        handler := Idle;
      }
      completed := completed + 1;
    }

    method RecordOutput(c: nat, output: Tokens)
      requires Valid() && c < |g.total|
      modifies this
      ensures Valid()
      ensures View() == old(View()).(history := old(history)[c := old(history)[c] + output],
                                     round := old(round)[c := old(round)[c] + 1],
                                     outs := old(outs)[c := old(outs)[c] + [output]])
    {
      hide CountsRight;
      history := history[c := history[c] + output];
      round := round[c := round[c] + 1];
      outs := outs[c := outs[c] + [output]];
    }

    /** `response_handler`: build the client's next request, if it has rounds left. An empty
        list of sub-questions is an uncaught error. */
    method QueueNext(c: nat) returns (ok: bool)
      requires Valid() && handler == Recorded(c)
      modifies this, readyQueue
      ensures Valid() && View() == Next(g, old(View()), Queue) && ok == !handler.Crashed?
    {
      hide CountsRight;
      ok := true;
      if round[c] < g.total[c] {
        if subQuestions == [] {
          handler := Crashed;
          return false;
        }
        var request := NextPrompt(c);
        FileRequest(request);
      } else {
        handler := Queued;
      }
    }

    method NextPrompt(c: nat) returns (request: Request)
      requires Valid() && handler == Recorded(c) && subQuestions != []
      modifies this
      ensures Valid()
      ensures var sub := Last(old(subQuestions));
              var prompt := old(history)[c] + sub;
              && request == Request(c, prompt)
              && View() == old(View()).(pool := old(subQuestions)[..|old(subQuestions)| - 1],
                                        history := old(history)[c := prompt], log := old(log)[c := old(log)[c] + [prompt]],
                                        subs := old(subs)[c := old(subs)[c] + [sub]])
    {
      hide CountsRight;
      var sub := Last(subQuestions);
      subQuestions := subQuestions[..|subQuestions| - 1];
      history := history[c := history[c] + sub];
      request := Request(c, history[c]);
      log := log[c := log[c] + [history[c]]];
      subs := subs[c := subs[c] + [sub]];
    }

    method FileRequest(request: Request)
      requires Valid()
      modifies this, readyQueue
      ensures Valid()
      ensures var t := old(View()).(handler := Queued);
              View() == if g.barrier then t.(held := old(nextRoundReqs) + [request])
                        else t.(ready := old(readyQueue.requests) + [request])
    {
      hide CountsRight;
      if g.barrier {
        nextRoundReqs := nextRoundReqs + [request];
      } else {
        readyQueue.Append(request);
      }
      handler := Queued;
    }

    /** `response_handler`: count the response at the barrier. */
    method CountAtBarrier() returns (release: bool)
      requires Valid() && handler == Queued
      modifies this
      ensures Valid() && View() == Next(g, old(View()), Count)
      ensures release == handler.Releasing?
    {
      release := false;
      handler := Idle;
      if g.barrier && currentBarrierRound < g.maxRounds {
        barrierRoundCompleted := barrierRoundCompleted + 1;
        var expected := clientsPerRound[currentBarrierRound];
        if barrierRoundCompleted == expected {
          release := true;
          handler := Releasing(0);
        }
      }
    }

    /** `response_handler`: the release loop, one append at a time. */
    method ReleaseRound()
      requires Valid() && handler == Releasing(0)
      modifies this, readyQueue
      ensures Valid()
      ensures View() == Released(old(View()))
    {
      hide CountsRight;
      for k := 0 to |nextRoundReqs|
        invariant Valid() && handler == Releasing(k) && nextRoundReqs == old(nextRoundReqs)
        invariant View() == old(View()).(ready := old(readyQueue.requests) + nextRoundReqs[..k], handler := Releasing(k))
      {
        ReleaseRequest(k);
        assert nextRoundReqs[..k + 1] == nextRoundReqs[..k] + [nextRoundReqs[k]];
      }
      assert nextRoundReqs[..|nextRoundReqs|] == nextRoundReqs;
      EndRound();
    }

    method ReleaseRequest(k: nat)
      requires Valid() && handler == Releasing(k) && k < |nextRoundReqs|
      modifies this, readyQueue
      ensures Valid() && View() == Next(g, old(View()), ReleaseOne)
    {
      hide CountsRight;
      readyQueue.Append(nextRoundReqs[k]);
      handler := Releasing(k + 1);
    }

    method EndRound()
      requires Valid() && handler == Releasing(|nextRoundReqs|)
      modifies this
      ensures Valid() && View() == Next(g, old(View()), ReleaseEnd)
    {
      hide CountsRight;
      nextRoundReqs := [];
      currentBarrierRound := currentBarrierRound + 1;
      barrierRoundCompleted := 0;
      handler := Idle;
    }

    /** One turn of the handler's loop, when it is not interrupted. */
    method HandleResponse()
      requires Valid() && handler == Idle && responseQueue != [] && responseQueue[0].request.client < |g.total|
      modifies this, readyQueue
      ensures Valid() && View() == Handled(g, old(View()))
    {
      hide CountsRight, ClientsIn;
      var response := TakeResponse();
      RecordResponse(response);
      if response.outcome.Ok? {
        var ok := QueueNext(response.request.client);
        if ok {
          var release := CountAtBarrier();
          if release { ReleaseRound(); }
        }
      }
    }
  }

  function Last(s: seq<Tokens>): Tokens
    requires s != []
  {
    s[|s| - 1]
  }

  /** The effect of a release when no other thread runs in between. */
  function Released(s: State): State {
    s.(ready := s.ready + s.held, held := [], current := s.current + 1, counted := 0, handler := Idle)
  }

  /** One turn of the handler's loop, as a composition of steps. */
  function Handled(g: Config, s: State): State
    requires Shaped(g, s) && s.handler.Idle? && s.responses != [] && s.responses[0].request.client < |g.total|
  {
    var t := Next(g, Next(g, s, Get), Record);
    if !t.handler.Recorded? then t
    else
      var u := Next(g, t, Queue);
      if u.handler.Crashed? then u
      else
        var v := Next(g, u, Count);
        if v.handler.Releasing? then Released(v) else v
  }

  /** A release is a run of single appends, so an uninterrupted turn is a run of steps. */
  lemma {:induction false} ReleaseIsSteps(g: Config, s: State, k: nat)
    requires Shaped(g, s) && s.handler == Releasing(k) && k <= |s.held|
    ensures s.(ready := s.ready + s.held[k..], held := [], current := s.current + 1, counted := 0, handler := Idle)
            == ReleaseFrom(g, s)
    decreases |s.held| - k
  {
    if k < |s.held| {
      var t := Next(g, s, ReleaseOne);
      ReleaseIsSteps(g, t, k + 1);
      assert s.held[k..] == [s.held[k]] + s.held[k + 1..];
      assert t.ready + t.held[k + 1..] == s.ready + s.held[k..];
    } else {
      assert s.ready + s.held[k..] == s.ready;
    }
  }

  function ReleaseFrom(g: Config, s: State): State
    requires Shaped(g, s) && s.handler.Releasing? && s.handler.count <= |s.held|
    decreases |s.held| - s.handler.count
  {
    if s.handler.count < |s.held| then ReleaseFrom(g, Next(g, s, ReleaseOne)) else Next(g, s, ReleaseEnd)
  }
}
