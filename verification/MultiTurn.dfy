/** The multi-turn workload (benchmark/hicache/bench_multiturn.py) as a system of interleaved
    steps: a sender that polls a ready queue, requests in flight, a response queue, and a
    response handler with an optional round barrier. Network and clock are the choice of
    which step comes next and of each response's outcome. */
module MultiTurn {
  import opened Counting

  type Tokens = seq<int>

  datatype Policy = Random | Fifo

  /** `total[c]` is `client_total_rounds[c]`, `pool` the sampled sub-questions. */
  datatype Config = Config(total: seq<nat>, prompts: seq<Tokens>, maxRounds: nat, barrier: bool,
                           maxParallel: int, policy: Policy, pool: seq<Tokens>)

  /** A queued request: the token list handed to `gen_payload`, as it was at that moment. */
  datatype Request = Request(client: nat, history: Tokens)

  /** `Refused` is an unsuccessful response, `Raised` an exception out of the request function. */
  datatype Outcome = Ok(output: Tokens) | Refused | Raised

  datatype Response = Response(request: Request, outcome: Outcome)

  /** Where the handler thread stands: between its reads and writes of shared state the sender
      may run. `Crashed` is an uncaught exception. */
  datatype Handler =
    | Idle
    | Got(response: Response)
    | Recorded(client: nat)
    | Queued
    | Releasing(count: nat)
    | Crashed

  /** `log`, `outs` and `subs` keep, per client, the requests built, the outputs received and
      the sub-questions used so far. */
  datatype State = State(
    ready: seq<Request>, inflight: seq<Request>, responses: seq<Response>, held: seq<Request>,
    handler: Handler, armed: bool,
    round: seq<nat>, history: seq<Tokens>, failed: set<nat>,
    current: nat, counted: nat,
    sent: nat, completed: nat, pbar: nat, raised: nat,
    pool: seq<Tokens>,
    log: seq<seq<Tokens>>, outs: seq<seq<Tokens>>, subs: seq<seq<Tokens>>)

  // ---------- counts ----------

  /** The sub-questions a workload needs: one for every round after a client's first. */
  function SubQuestions(total: seq<nat>): nat {
    if total == [] then 0
    else
      var t := total[|total| - 1];
      SubQuestions(total[..|total| - 1]) + if t == 0 then 0 else t - 1
  }

  /** `clients_per_round[r]`. */
  function ClientsIn(total: seq<nat>, r: nat): nat {
    if total == [] then 0
    else ClientsIn(total[..|total| - 1], r) + if total[|total| - 1] > r then 1 else 0
  }

  function ClientsBefore(total: seq<nat>, r: nat): nat {
    if r == 0 then 0 else ClientsBefore(total, r - 1) + ClientsIn(total, r - 1)
  }

  function Min(a: nat, b: nat): nat {
    if a < b then a else b
  }

  function Capped(total: seq<nat>, r: nat): (s: seq<nat>)
    ensures |s| == |total| && forall i :: 0 <= i < |total| ==> s[i] == Min(total[i], r)
  {
    seq(|total|, i requires 0 <= i < |total| => Min(total[i], r))
  }

  lemma {:induction false} CappedStep(total: seq<nat>, r: nat)
    ensures Sum(Capped(total, r + 1)) == Sum(Capped(total, r)) + ClientsIn(total, r)
  {
    if total != [] {
      var n := |total| - 1;
      CappedStep(total[..n], r);
      assert Capped(total, r)[..n] == Capped(total[..n], r);
      assert Capped(total, r + 1)[..n] == Capped(total[..n], r + 1);
    }
  }

  lemma {:induction false} ClientsBeforeSum(total: seq<nat>, r: nat)
    ensures ClientsBefore(total, r) == Sum(Capped(total, r))
  {
    if r == 0 {
      NoneCapped(total);
    } else {
      ClientsBeforeSum(total, r - 1);
      CappedStep(total, r - 1);
    }
  }

  lemma {:induction false} NoneCapped(total: seq<nat>)
    ensures Sum(Capped(total, 0)) == 0
  {
    if total != [] {
      var n := |total| - 1;
      NoneCapped(total[..n]);
      assert Capped(total, 0)[..n] == Capped(total[..n], 0);
    }
  }

  /** The per-round client counts add up to the number of requests. */
  lemma {:induction false} RoundsSumToRequests(total: seq<nat>, maxRounds: nat)
    requires forall c :: 0 <= c < |total| ==> total[c] <= maxRounds
    ensures ClientsBefore(total, maxRounds) == Sum(total)
  {
    ClientsBeforeSum(total, maxRounds);
    assert Capped(total, maxRounds) == total;
  }

  /** And they never grow from one round to the next. */
  lemma {:induction false} RoundsShrink(total: seq<nat>, r: nat, r': nat)
    requires r <= r'
    ensures ClientsIn(total, r') <= ClientsIn(total, r)
  {
    if total != [] { RoundsShrink(total[..|total| - 1], r, r'); }
  }

  // ---------- steps ----------

  ghost predicate ValidConfig(g: Config) {
    && |g.prompts| == |g.total|
    && (forall c :: 0 <= c < |g.total| ==> 1 <= g.total[c] <= g.maxRounds)
    && |g.pool| >= SubQuestions(g.total)
  }

  function Init(g: Config): State
    requires |g.prompts| == |g.total|
  {
    var n := |g.total|;
    State(seq(n, c requires 0 <= c < n => Request(c, g.prompts[c])), [], [], [],
          Idle, false,
          seq(n, _ => 0), g.prompts, {},
          0, 0, 0, 0, 0, 0, g.pool,
          seq(n, c requires 0 <= c < n => [g.prompts[c]]), seq(n, _ => []), seq(n, _ => []))
  }

  datatype Step =
    | Arm
    | Pop(i: nat)
    | Disarm
    | Finish(i: nat, outcome: Outcome)
    | Get
    | Record
    | Queue
    | Count
    | ReleaseOne
    | ReleaseEnd

  /** Every list indexed by client has an entry for each client. */
  predicate Shaped(g: Config, s: State) {
    var n := |g.total|;
    && |s.round| == n && |s.history| == n && |s.log| == n && |s.outs| == n && |s.subs| == n
    && (s.handler.Got? ==> s.handler.response.request.client < n)
    && (s.handler.Recorded? ==> s.handler.client < n)
  }

  predicate Enabled(g: Config, s: State, e: Step) {
    match e
    case Arm => !s.armed && s.sent - s.completed < g.maxParallel
    case Pop(i) => s.armed && i < |s.ready| && (g.policy == Fifo ==> i == 0)
    case Disarm => s.armed && s.ready == []
    case Finish(i, _) => i < |s.inflight|
    case Get => s.handler.Idle? && s.responses != []
    case Record => s.handler.Got?
    case Queue => s.handler.Recorded?
    case Count => s.handler.Queued?
    case ReleaseOne => s.handler.Releasing? && s.handler.count < |s.held|
    case ReleaseEnd => s.handler.Releasing? && s.handler.count >= |s.held|
  }

  function OnRecord(s: State): State
    requires s.handler.Got? && s.handler.response.request.client < |s.round| == |s.history| == |s.outs|
  {
    var c := s.handler.response.request.client;
    match s.handler.response.outcome
    case Ok(output) =>
      s.(handler := Recorded(c), completed := s.completed + 1,
         history := s.history[c := s.history[c] + output],
         round := s.round[c := s.round[c] + 1],
         outs := s.outs[c := s.outs[c] + [output]])
    case _ =>
      s.(handler := Idle, completed := s.completed + 1, failed := s.failed + {c})
  }

  function OnQueue(g: Config, s: State): State
    requires Shaped(g, s) && s.handler.Recorded?
  {
    var c := s.handler.client;
    if s.round[c] >= g.total[c] then s.(handler := Queued)
    else if s.pool == [] then s.(handler := Crashed)
    else
      var sub := s.pool[|s.pool| - 1];
      var history := s.history[c] + sub;
      var t := s.(handler := Queued, pool := s.pool[..|s.pool| - 1],
                  history := s.history[c := history],
                  log := s.log[c := s.log[c] + [history]],
                  subs := s.subs[c := s.subs[c] + [sub]]);
      if g.barrier then t.(held := s.held + [Request(c, history)])
      else t.(ready := s.ready + [Request(c, history)])
  }

  function OnCount(g: Config, s: State): State {
    if g.barrier && s.current < g.maxRounds then
      s.(counted := s.counted + 1,
         handler := if s.counted + 1 == ClientsIn(g.total, s.current) then Releasing(0) else Idle)
    else s.(handler := Idle)
  }

  function Next(g: Config, s: State, e: Step): State
    requires Shaped(g, s) && Enabled(g, s, e)
  {
    match e
    case Arm => s.(armed := true)
    case Pop(i) =>
      s.(armed := false, sent := s.sent + 1, ready := Without(s.ready, i), inflight := s.inflight + [s.ready[i]])
    case Disarm => s.(armed := false)
    case Finish(i, outcome) =>
      s.(inflight := Without(s.inflight, i), responses := s.responses + [Response(s.inflight[i], outcome)],
         pbar := if outcome.Raised? then s.pbar else s.pbar + 1,
         raised := if outcome.Raised? then s.raised + 1 else s.raised)
    case Get => s.(handler := Got(s.responses[0]), responses := s.responses[1..])
    case Record => OnRecord(s)
    case Queue => OnQueue(g, s)
    case Count => OnCount(g, s)
    case ReleaseOne => s.(ready := s.ready + [s.held[s.handler.count]], handler := Releasing(s.handler.count + 1))
    case ReleaseEnd => s.(held := [], current := s.current + 1, counted := 0, handler := Idle)
  }

  // ---------- one pending request per client ----------

  function Requests(rs: seq<Response>): (q: seq<Request>)
    ensures |q| == |rs| && forall i :: 0 <= i < |rs| ==> q[i] == rs[i].request
  {
    seq(|rs|, i requires 0 <= i < |rs| => rs[i].request)
  }

  /** Held requests not yet released. */
  function Waiting(s: State): seq<Request> {
    if s.handler.Releasing? && s.handler.count <= |s.held| then s.held[s.handler.count..] else s.held
  }

  function InHand(s: State, r: Request): nat {
    if s.handler.Got? && s.handler.response.request == r then 1 else 0
  }

  /** Copies of a request on its way: queued, in flight, answered or in the handler's hands. */
  function Outstanding(s: State, r: Request): nat {
    Copies(s.ready, r) + Copies(s.inflight, r) + Copies(Requests(s.responses), r) + InHand(s, r)
  }

  function Pending(s: State, r: Request): nat {
    Outstanding(s, r) + Copies(Waiting(s), r)
  }

  /** The client has rounds left, has not failed, and is not being advanced right now. */
  predicate Live(g: Config, s: State, c: nat) {
    && c < |g.total| && c < |s.round| && s.round[c] < g.total[c]
    && c !in s.failed && s.handler != Recorded(c)
  }

  /** `r` is the request a live client must have: its token list is the client's history. */
  predicate Due(g: Config, s: State, r: Request) {
    Live(g, s, r.client) && r.client < |s.history| && r.history == s.history[r.client]
  }

  /** Exactly one pending request per live client, and its token list is still the client's
      history: nothing was added to it since it was handed out. */
  ghost predicate OnePending(g: Config, s: State) {
    forall r :: Pending(s, r) == if Due(g, s, r) then 1 else 0
  }

  ghost predicate HandlerOk(g: Config, s: State) {
    && !s.handler.Crashed?
    && (s.handler.Recorded? ==> s.handler.client !in s.failed)
    && (s.handler.Releasing? ==> s.handler.count <= |s.held|)
    && (!g.barrier ==> s.held == [] && !s.handler.Releasing?)
  }

  predicate Moves(e: Step) {
    !e.Record? && !e.Queue?
  }

  /** Sending, finishing, fetching, counting and releasing only move requests about. */
  lemma {:induction false} MovesKeepPending(g: Config, s: State, e: Step, r: Request)
    requires Shaped(g, s) && Enabled(g, s, e) && HandlerOk(g, s) && Moves(e)
    ensures Pending(Next(g, s, e), r) == Pending(s, r)
  {
    hide ClientsIn, Copies, Without;
    var t := Next(g, s, e);
    match e {
      case Pop(i) =>
        CopiesWithout(s.ready, i, r);
        CopiesAppend(s.inflight, s.ready[i], r);
      case Finish(i, outcome) =>
        CopiesWithout(s.inflight, i, r);
        CopiesAppend(Requests(s.responses), s.inflight[i], r);
        assert Requests(t.responses) == Requests(s.responses) + [s.inflight[i]];
      case Get =>
        var q := Requests(s.responses);
        assert q == [] + [q[0]] + q[1..] && Requests(t.responses) == q[1..];
        CopiesConcat([] + [q[0]], q[1..], r);
        CopiesAppend([], q[0], r);
        NoCopies(r);
      case ReleaseOne =>
        var k := s.handler.count;
        assert s.held[k..] == [] + [s.held[k]] + s.held[k + 1..];
        CopiesConcat([] + [s.held[k]], s.held[k + 1..], r);
        CopiesAppend([], s.held[k], r);
        CopiesAppend(s.ready, s.held[k], r);
        NoCopies(r);
      case Count => assert s.held[0..] == s.held;
      case ReleaseEnd => assert Waiting(s) == [] == Waiting(t);
      case _ =>
    }
  }

  lemma {:induction false} MovesKeepLive(g: Config, s: State, e: Step, c: nat)
    requires Shaped(g, s) && Enabled(g, s, e) && Moves(e)
    ensures Live(g, Next(g, s, e), c) == Live(g, s, c) && Next(g, s, e).history == s.history
    ensures Next(g, s, e).round == s.round && Next(g, s, e).failed == s.failed
  {
    hide ClientsIn;
  }

  lemma {:induction false} OnePendingRecord(g: Config, s: State, r: Request)
    requires Shaped(g, s) && s.handler.Got? && OnePending(g, s)
    ensures Live(g, s, s.handler.response.request.client)
    ensures Pending(OnRecord(s), r) == if Due(g, OnRecord(s), r) then 1 else 0
  {
    hide Copies;
    var t, r0 := OnRecord(s), s.handler.response.request;
    assert Waiting(t) == Waiting(s);
    assert Pending(s, r0) > 0;
    assert Pending(s, r) == if Due(g, s, r) then 1 else 0;
    assert Pending(s, r) == Pending(t, r) + if r == r0 then 1 else 0;
  }

  lemma {:induction false} OnePendingQueue(g: Config, s: State, r: Request)
    requires Shaped(g, s) && s.handler.Recorded? && HandlerOk(g, s) && OnePending(g, s)
    requires s.round[s.handler.client] < g.total[s.handler.client] ==> s.pool != []
    ensures Pending(OnQueue(g, s), r) == if Due(g, OnQueue(g, s), r) then 1 else 0
  {
    hide Copies;
    var t, c := OnQueue(g, s), s.handler.client;
    assert Pending(s, r) == if Due(g, s, r) then 1 else 0;
    if s.round[c] < g.total[c] {
      var r1 := Request(c, t.history[c]);
      CopiesAppend(s.held, r1, r);
      CopiesAppend(s.ready, r1, r);
      assert Pending(t, r) == Pending(s, r) + if r == r1 then 1 else 0;
    } else {
      assert Pending(t, r) == Pending(s, r);
    }
  }

  /** One pending request per client is kept by every step. */
  lemma {:induction false} OnePendingStep(g: Config, s: State, e: Step)
    requires Shaped(g, s) && Enabled(g, s, e) && HandlerOk(g, s) && OnePending(g, s)
    requires e.Queue? && s.round[s.handler.client] < g.total[s.handler.client] ==> s.pool != []
    ensures OnePending(g, Next(g, s, e))
  {
    var t := Next(g, s, e);
    forall r ensures Pending(t, r) == if Due(g, t, r) then 1 else 0 {
      if e.Record? {
        OnePendingRecord(g, s, r);
      } else if e.Queue? {
        OnePendingQueue(g, s, r);
      } else {
        hide Next, Pending, Live;
        MovesKeepPending(g, s, e, r);
        MovesKeepLive(g, s, e, r.client);
        assert Pending(s, r) == if Due(g, s, r) then 1 else 0;
      }
    }
  }
}
