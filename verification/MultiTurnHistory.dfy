/** What the requests of a run contain, told from outside: by the answers the network gave, the
    list of sub-questions, and the requests the sender took. */
module MultiTurnHistory {
  import opened Counting
  import opened MultiTurn
  import opened MultiTurnInvariants
  import opened MultiTurnRuns

  // ---------- what happened in a run ----------

  /** The output a step brings for client `c`: a request task of the client returned. */
  function Answer(s: State, e: Step, c: nat): seq<Tokens> {
    if e.Finish? && e.i < |s.inflight| && s.inflight[e.i].client == c && e.outcome.Ok? then [e.outcome.output] else []
  }

  /** The outputs that came back for client `c` in the first `i` steps, in order. */
  function Answers(steps: seq<Step>, states: seq<State>, i: nat, c: nat): seq<Tokens>
    requires i <= |steps| < |states|
  {
    if i == 0 then [] else Answers(steps, states, i - 1, c) + Answer(states[i - 1], steps[i - 1], c)
  }

  /** The client a step asks a sub-question. */
  function Asks(g: Config, s: State, e: Step): seq<nat> {
    if e.Queue? && s.handler.Recorded? && s.handler.client < |s.round| && s.handler.client < |g.total| &&
       s.round[s.handler.client] < g.total[s.handler.client]
    then [s.handler.client] else []
  }

  /** The clients asked a sub-question in the first `i` steps, in order. */
  function Asked(g: Config, steps: seq<Step>, states: seq<State>, i: nat): seq<nat>
    requires i <= |steps| < |states|
  {
    if i == 0 then [] else Asked(g, steps, states, i - 1) + Asks(g, states[i - 1], steps[i - 1])
  }

  /** The questions for client `c` when the clients `asked` are served from the end of the list. */
  function Questions(pool: seq<Tokens>, asked: seq<nat>, c: nat): seq<Tokens> {
    if asked == [] then []
    else
      var n := |asked| - 1;
      Questions(pool, asked[..n], c) + if asked[n] == c && n < |pool| then [pool[|pool| - 1 - n]] else []
  }

  /** The token list a step sends for client `c`. */
  function Sends(s: State, e: Step, c: nat): seq<Tokens> {
    if e.Pop? && e.i < |s.ready| && s.ready[e.i].client == c then [s.ready[e.i].history] else []
  }

  /** The requests the sender took for client `c` in the first `i` steps, in order. */
  function Sent(steps: seq<Step>, states: seq<State>, i: nat, c: nat): seq<Tokens>
    requires i <= |steps| < |states|
  {
    if i == 0 then [] else Sent(steps, states, i - 1, c) + Sends(states[i - 1], steps[i - 1], c)
  }

  // ---------- outputs ----------

  function Output(r: Response, c: nat): seq<Tokens> {
    if r.request.client == c && r.outcome.Ok? then [r.outcome.output] else []
  }

  function Outputs(rs: seq<Response>, c: nat): seq<Tokens> {
    if rs == [] then [] else Outputs(rs[..|rs| - 1], c) + Output(rs[|rs| - 1], c)
  }

  lemma {:induction false} OutputsHead(rs: seq<Response>, c: nat)
    requires rs != []
    ensures Outputs(rs, c) == Output(rs[0], c) + Outputs(rs[1..], c)
  {
    hide Output;
    if |rs| > 1 {
      var n := |rs| - 1;
      OutputsHead(rs[..n], c);
      assert rs[..n][1..] == rs[1..][..n - 1];
    } else {
      assert rs[..0] == [] && rs[1..] == [];
    }
  }

  /** Outputs that have come back and are not yet in the history. */
  function Unread(s: State, c: nat): seq<Tokens> {
    (if s.handler.Got? then Output(s.handler.response, c) else []) + Outputs(s.responses, c)
  }

  lemma {:induction false} AnswerStep(g: Config, s: State, e: Step, c: nat)
    requires Shaped(g, s) && Enabled(g, s, e) && c < |g.total| && Shaped(g, Next(g, s, e))
    ensures Next(g, s, e).outs[c] + Unread(Next(g, s, e), c) == s.outs[c] + Unread(s, c) + Answer(s, e, c)
  {
    hide Outputs, ClientsIn, Without;
    var t := Next(g, s, e);
    match e {
      case Finish(i, outcome) => FinishOutputs(s.responses, Response(s.inflight[i], outcome), c);
      case Get => OutputsHead(s.responses, c);
      case Record => assert Unread(s, c) == Output(s.handler.response, c) + Unread(t, c);
      case _ => assert t.outs == s.outs && t.responses == s.responses;
    }
  }

  lemma {:induction false} FinishOutputs(rs: seq<Response>, r: Response, c: nat)
    ensures Outputs(rs + [r], c) == Outputs(rs, c) + Output(r, c)
  {
    assert (rs + [r])[..|rs|] == rs;
  }

  /** The outputs in a client's history, and those still to be read, are what came back. */
  lemma {:induction false} AllAnswers(g: Config, steps: seq<Step>, states: seq<State>, i: nat, c: nat)
    requires ValidConfig(g) && IsRun(g, steps, states) && i < |states| && c < |g.total|
    ensures Shaped(g, states[i]) && states[i].outs[c] + Unread(states[i], c) == Answers(steps, states, i, c)
  {
    RunInv(g, steps, states, i);
    hide Inv, Next, Unread, Answer;
    if i == 0 {
      NothingUnread(g, c);
    } else {
      AllAnswers(g, steps, states, i - 1, c);
      AnswerStep(g, states[i - 1], steps[i - 1], c);
    }
  }

  lemma {:induction false} NothingUnread(g: Config, c: nat)
    requires |g.prompts| == |g.total| && c < |g.total|
    ensures Init(g).outs[c] + Unread(Init(g), c) == []
    ensures Init(g).subs[c] == [] && Init(g).pool == g.pool
  {
  }

  // ---------- sub-questions ----------

  ghost predicate Supplied(g: Config, s: State, asked: seq<nat>)
    requires Shaped(g, s)
  {
    && |asked| <= |g.pool| && s.pool == g.pool[..|g.pool| - |asked|]
    && forall c :: 0 <= c < |g.total| ==> s.subs[c] == Questions(g.pool, asked, c)
  }

  lemma {:induction false} SuppliedStep(g: Config, s: State, e: Step, asked: seq<nat>)
    requires Shaped(g, s) && Enabled(g, s, e) && Shaped(g, Next(g, s, e)) && Supplied(g, s, asked)
    requires e.Queue? && s.round[s.handler.client] < g.total[s.handler.client] ==> s.pool != []
    ensures Supplied(g, Next(g, s, e), asked + Asks(g, s, e))
  {
    hide Questions, ClientsIn, Without;
    var t := Next(g, s, e);
    if Asks(g, s, e) == [] {
      assert asked + [] == asked;
      assert t.subs == s.subs && t.pool == s.pool;
    } else {
      var n, a := |asked|, asked + [s.handler.client];
      assert s.pool[|s.pool| - 1] == g.pool[|g.pool| - 1 - n];
      forall c | 0 <= c < |g.total| ensures t.subs[c] == Questions(g.pool, a, c) {
        QuestionsSnoc(g.pool, asked, s.handler.client, c);
      }
    }
  }

  lemma {:induction false} QuestionsSnoc(pool: seq<Tokens>, asked: seq<nat>, x: nat, c: nat)
    requires |asked| < |pool|
    ensures Questions(pool, asked + [x], c) ==
            Questions(pool, asked, c) + if x == c then [pool[|pool| - 1 - |asked|]] else []
  {
    assert (asked + [x])[..|asked|] == asked;
  }

  /** Sub-questions are taken from the end of the list, each once. */
  lemma {:induction false} AllQuestions(g: Config, steps: seq<Step>, states: seq<State>, i: nat)
    requires ValidConfig(g) && IsRun(g, steps, states) && i < |states|
    ensures Shaped(g, states[i]) && Supplied(g, states[i], Asked(g, steps, states, i))
  {
    RunInv(g, steps, states, i);
    if i == 0 {
      forall c | 0 <= c < |g.total| ensures states[0].subs[c] == Questions(g.pool, [], c) { NothingUnread(g, c); }
    } else {
      AllQuestions(g, steps, states, i - 1);
      RunInv(g, steps, states, i - 1);
      var s, e := states[i - 1], steps[i - 1];
      hide IsRun, Supplied, Next, Asks, OnePending, Counters, BarrierOk;
      if e.Queue? && s.round[s.handler.client] < g.total[s.handler.client] { PoolSuffices(g, s); }
      StepIn(g, steps, states, i - 1);
      SuppliedStep(g, s, e, Asked(g, steps, states, i - 1));
    }
  }

  lemma {:induction false} StepIn(g: Config, steps: seq<Step>, states: seq<State>, i: nat)
    requires |g.prompts| == |g.total| && IsRun(g, steps, states) && i < |steps|
    ensures |states| == |steps| + 1 && Shaped(g, states[i]) && Enabled(g, states[i], steps[i])
    ensures states[i + 1] == Next(g, states[i], steps[i])
  {
  }

  // ---------- requests ----------

  /** Copies of a request that the sender has taken and that is not yet recorded. */
  function Away(s: State, r: Request): nat {
    Copies(s.inflight, r) + Copies(Requests(s.responses), r) + InHand(s, r)
  }

  /** `sent` are the first requests built for the client: all of them, but for one not yet taken. */
  ghost predicate SentOk(g: Config, s: State, c: nat, sent: seq<Tokens>)
    requires Shaped(g, s) && c < |g.total|
  {
    && sent <= s.log[c]
    && |sent| + (if Live(g, s, c) then 1 else 0) == |s.log[c]| + Away(s, Request(c, s.history[c]))
  }

  lemma {:induction false} AwayDue(g: Config, s: State, r: Request)
    requires OnePending(g, s)
    ensures Away(s, r) + Copies(s.ready, r) <= if Due(g, s, r) then 1 else 0
  {
    hide Copies, Due;
    assert Pending(s, r) == if Due(g, s, r) then 1 else 0;
  }

  lemma {:induction false} AwayMoves(g: Config, s: State, e: Step, r: Request)
    requires Shaped(g, s) && Enabled(g, s, e) && Moves(e)
    ensures Away(Next(g, s, e), r) == Away(s, r) + if e.Pop? && s.ready[e.i] == r then 1 else 0
  {
    hide ClientsIn, Copies, Without;
    var t := Next(g, s, e);
    match e {
      case Pop(i) => CopiesAppend(s.inflight, s.ready[i], r);
      case Finish(i, outcome) =>
        CopiesWithout(s.inflight, i, r);
        CopiesAppend(Requests(s.responses), s.inflight[i], r);
        assert Requests(t.responses) == Requests(s.responses) + [s.inflight[i]];
      case Get =>
        var q := Requests(s.responses);
        assert q == [] + [q[0]] + q[1..] && Requests(t.responses) == q[1..];
        CopiesConcat([] + [q[0]], q[1..], r);
        CopiesAppend([], q[0], r);
        NoCopies(r);
      case _ =>
    }
  }

  lemma {:induction false} SentKept(g: Config, s: State, t: State, c: nat, sent: seq<Tokens>, n: nat)
    requires Shaped(g, s) && Shaped(g, t) && c < |g.total| && SentOk(g, s, c, sent)
    requires t.log == s.log && t.history == s.history && Live(g, t, c) == Live(g, s, c)
    requires Away(t, Request(c, s.history[c])) == Away(s, Request(c, s.history[c])) + n
    ensures n == 0 ==> SentOk(g, t, c, sent)
    ensures n == 1 && Live(g, s, c) && Away(s, Request(c, s.history[c])) == 0 && s.log[c] != [] ==>
              SentOk(g, t, c, sent + [s.log[c][|s.log[c]| - 1]])
  {
    hide Live, Away;
    if |sent| + 1 == |s.log[c]| { assert sent + [s.log[c][|sent|]] == s.log[c]; }
  }

  lemma {:induction false} SentMoves(g: Config, s: State, e: Step, c: nat, sent: seq<Tokens>)
    requires Shaped(g, s) && Enabled(g, s, e) && Moves(e) && OnePending(g, s) && c < |g.total|
    requires Live(g, s, c) ==> s.log[c] != [] && s.history[c] == s.log[c][|s.log[c]| - 1]
    requires SentOk(g, s, c, sent) && Shaped(g, Next(g, s, e)) && Next(g, s, e).log == s.log
    ensures SentOk(g, Next(g, s, e), c, sent + Sends(s, e, c))
  {
    var r, t := Request(c, s.history[c]), Next(g, s, e);
    MovesKeepLive(g, s, e, c);
    AwayMoves(g, s, e, r);
    assert e.Pop? ==> e.i < |s.ready|;
    hide Next, Away, Live, OnePending, Enabled, SentOk, Shaped;
    if e.Pop? && s.ready[e.i].client == c {
      PopIsDue(g, s, e.i);
      SentKept(g, s, t, c, sent, 1);
    } else {
      SentKept(g, s, t, c, sent, 0);
      assert sent + [] == sent;
    }
  }

  /** A request taken is the client's only one, and its token list is the present history. */
  lemma {:induction false} PopIsDue(g: Config, s: State, i: nat)
    requires Shaped(g, s) && OnePending(g, s) && i < |s.ready|
    ensures var r := s.ready[i]; Live(g, s, r.client) && r == Request(r.client, s.history[r.client]) && Away(s, r) == 0
  {
    CopiesMember(s.ready, i);
    AwayDue(g, s, s.ready[i]);
    hide Away, OnePending, Copies;
  }

  lemma {:induction false} SentRecord(g: Config, s: State, c: nat, sent: seq<Tokens>)
    requires Shaped(g, s) && s.handler.Got? && OnePending(g, s) && OnePending(g, OnRecord(s)) && c < |g.total|
    requires SentOk(g, s, c, sent) && Shaped(g, OnRecord(s))
    ensures SentOk(g, OnRecord(s), c, sent)
  {
    hide Copies, OnePending;
    var t, r0 := OnRecord(s), s.handler.response.request;
    AwayDue(g, s, r0);
    AwayDue(g, s, Request(c, s.history[c]));
    AwayDue(g, t, Request(c, t.history[c]));
    if r0.client == c {
      assert r0 == Request(c, s.history[c]) && Away(s, r0) >= 1;
    }
  }

  lemma {:induction false} SentQueue(g: Config, s: State, c: nat, sent: seq<Tokens>)
    requires Shaped(g, s) && s.handler.Recorded? && OnePending(g, s) && OnePending(g, OnQueue(g, s)) && c < |g.total|
    requires s.round[s.handler.client] < g.total[s.handler.client] ==> s.pool != []
    requires s.handler.client !in s.failed
    requires SentOk(g, s, c, sent) && Shaped(g, OnQueue(g, s))
    ensures SentOk(g, OnQueue(g, s), c, sent)
  {
    hide Copies, OnePending;
    var t := OnQueue(g, s);
    AwayDue(g, s, Request(c, s.history[c]));
    AwayDue(g, s, Request(c, t.history[c]));
    assert Away(t, Request(c, t.history[c])) == Away(s, Request(c, t.history[c]));
  }

  lemma {:induction false} SentStart(g: Config, c: nat)
    requires |g.prompts| == |g.total| && c < |g.total| && g.total[c] > 0
    ensures SentOk(g, Init(g), c, [])
  {
    var r := Request(c, Init(g).history[c]);
    NoCopies(r);
    assert Requests([]) == [];
  }

  /** What the sender took for a client is what was built for it, in order. */
  lemma {:induction false} AllSent(g: Config, steps: seq<Step>, states: seq<State>, i: nat, c: nat)
    requires ValidConfig(g) && IsRun(g, steps, states) && i < |states| && c < |g.total|
    ensures Shaped(g, states[i]) && SentOk(g, states[i], c, Sent(steps, states, i, c))
  {
    RunInv(g, steps, states, i);
    if i == 0 {
      hide SentOk;
      SentStart(g, c);
    } else {
      var s, e, t := states[i - 1], steps[i - 1], states[i];
      AllSent(g, steps, states, i - 1, c);
      RunInv(g, steps, states, i - 1);
      StepIn(g, steps, states, i - 1);
      SentAlong(g, s, e, c, Sent(steps, states, i - 1, c));
    }
  }

  lemma {:induction false} SentAlong(g: Config, s: State, e: Step, c: nat, sent: seq<Tokens>)
    requires ValidConfig(g) && Inv(g, s) && Enabled(g, s, e) && c < |g.total| && SentOk(g, s, c, sent)
    ensures Shaped(g, Next(g, s, e)) && SentOk(g, Next(g, s, e), c, sent + Sends(s, e, c))
  {
    InvStep(g, s, e);
    hide Counters, BarrierOk, SentOk, OnePending, Talk;
    assert TalkOk(g, s, c);
    if e.Record? || e.Queue? { assert sent + Sends(s, e, c) == sent; }
    match e {
      case Record => SentRecord(g, s, c, sent);
      case Queue =>
        if s.round[s.handler.client] < g.total[s.handler.client] { PoolSuffices(g, s); }
        SentQueue(g, s, c, sent);
      case _ =>
        LastBuilt(g, s, c);
        hide Inv;
        SentMoves(g, s, e, c, sent);
    }
  }

  lemma {:induction false} LastBuilt(g: Config, s: State, c: nat)
    requires Shaped(g, s) && |g.prompts| == |g.total| && c < |g.total| && TalkOk(g, s, c)
    ensures Live(g, s, c) ==> s.log[c] != [] && s.history[c] == s.log[c][|s.log[c]| - 1]
  {
    hide Talk;
    assert s.outs[c][..|s.outs[c]|] == s.outs[c] && s.subs[c][..|s.subs[c]|] == s.subs[c];
  }

  // ---------- prefix growth ----------

  /** In every run, the `k`-th request sent for a client is its prompt followed, in turn, by the
      first `k` outputs that came back for it and the first `k` sub-questions it was given. */
  lemma {:induction false} SentIsTalk(g: Config, steps: seq<Step>, states: seq<State>, i: nat, c: nat, k: nat)
    requires ValidConfig(g) && IsRun(g, steps, states) && i < |states| && c < |g.total|
    requires k < |Sent(steps, states, i, c)|
    ensures var outs, subs := Answers(steps, states, i, c), Questions(g.pool, Asked(g, steps, states, i), c);
            && k <= |outs| && k <= |subs|
            && Sent(steps, states, i, c)[k] == Talk(g.prompts[c], outs[..k], subs[..k])
  {
    assert |states| == |steps| + 1;
    hide IsRun, Talk, Answers, Asked, Questions, Sent, Unread;
    AllSent(g, steps, states, i, c);
    AllAnswers(g, steps, states, i, c);
    AllQuestions(g, steps, states, i);
    BuiltRequests(g, steps, states, i, c, k);
    assert Answers(steps, states, i, c)[..k] == states[i].outs[c][..k];
  }

  /** So a later request of a client extends every earlier one, strictly if no sub-question in
      the list is empty. */
  lemma {:induction false} PrefixGrowth(g: Config, steps: seq<Step>, states: seq<State>, i: nat, c: nat, j: nat, k: nat)
    requires ValidConfig(g) && IsRun(g, steps, states) && i < |states| && c < |g.total|
    requires j < k < |Sent(steps, states, i, c)|
    ensures Sent(steps, states, i, c)[j] <= Sent(steps, states, i, c)[k]
    ensures (forall m :: 0 <= m < |g.pool| ==> g.pool[m] != []) ==>
              Sent(steps, states, i, c)[j] < Sent(steps, states, i, c)[k]
  {
    assert |states| == |steps| + 1;
    hide IsRun, Talk, Answers, Asked, Questions, Sent;
    SentIsTalk(g, steps, states, i, c, j);
    SentIsTalk(g, steps, states, i, c, k);
    var asked := Asked(g, steps, states, i);
    var outs, subs := Answers(steps, states, i, c), Questions(g.pool, asked, c);
    if forall m :: 0 <= m < |g.pool| ==> g.pool[m] != [] { QuestionsNonEmpty(g.pool, asked, c); }
    TalkGrows(g.prompts[c], outs, subs, j, k);
  }

  lemma {:induction false} QuestionsNonEmpty(pool: seq<Tokens>, asked: seq<nat>, c: nat)
    requires forall m :: 0 <= m < |pool| ==> pool[m] != []
    ensures forall m :: 0 <= m < |Questions(pool, asked, c)| ==> Questions(pool, asked, c)[m] != []
  {
    if asked != [] { QuestionsNonEmpty(pool, asked[..|asked| - 1], c); }
  }

  // ---------- order ----------

  /** The response a step adds to the response queue. */
  function FinishedBy(s: State, e: Step): seq<Response> {
    if e.Finish? && e.i < |s.inflight| then [Response(s.inflight[e.i], e.outcome)] else []
  }

  function Finished(steps: seq<Step>, states: seq<State>, i: nat): seq<Response>
    requires i <= |steps| < |states|
  {
    if i == 0 then [] else Finished(steps, states, i - 1) + FinishedBy(states[i - 1], steps[i - 1])
  }

  /** The response a step hands to the handler: `t` is the state it leads to. */
  function FetchedBy(e: Step, t: State): seq<Response> {
    if e.Get? && t.handler.Got? then [t.handler.response] else []
  }

  function Fetched(steps: seq<Step>, states: seq<State>, i: nat): seq<Response>
    requires i <= |steps| < |states|
  {
    if i == 0 then [] else Fetched(steps, states, i - 1) + FetchedBy(steps[i - 1], states[i])
  }

  lemma {:induction false} ResponseStep(g: Config, s: State, e: Step)
    requires Shaped(g, s) && Enabled(g, s, e)
    ensures FetchedBy(e, Next(g, s, e)) + Next(g, s, e).responses == s.responses + FinishedBy(s, e)
  {
    hide ClientsIn, Without;
  }

  /** Responses are handled in the order in which the requests finished. */
  lemma {:induction false} ResponsesInOrder(g: Config, steps: seq<Step>, states: seq<State>, i: nat)
    requires |g.prompts| == |g.total| && IsRun(g, steps, states) && i < |states|
    ensures Fetched(steps, states, i) + states[i].responses == Finished(steps, states, i)
  {
    if i > 0 {
      var s, e, t := states[i - 1], steps[i - 1], states[i];
      ResponsesInOrder(g, steps, states, i - 1);
      StepIn(g, steps, states, i - 1);
      ResponseStep(g, s, e);
      hide Next, IsRun, FetchedBy, FinishedBy, Enabled, Shaped;
      QueueMoves(Fetched(steps, states, i - 1), FetchedBy(e, t), t.responses, s.responses, FinishedBy(s, e),
                 [], Finished(steps, states, i - 1));
    }
  }

  /** The request a step starts a task for. */
  function TakenBy(e: Step, t: State): seq<Request> {
    if e.Pop? && t.inflight != [] then [t.inflight[|t.inflight| - 1]] else []
  }

  function Taken(steps: seq<Step>, states: seq<State>, i: nat): seq<Request>
    requires i <= |steps| < |states|
  {
    if i == 0 then [] else Taken(steps, states, i - 1) + TakenBy(steps[i - 1], states[i])
  }

  /** The request a step builds. */
  function BuiltBy(g: Config, s: State, e: Step, t: State): seq<Request> {
    if Asks(g, s, e) != [] && s.handler.Recorded? && s.handler.client < |t.history|
    then [Request(s.handler.client, t.history[s.handler.client])] else []
  }

  function BuiltSoFar(g: Config, steps: seq<Step>, states: seq<State>, i: nat): seq<Request>
    requires i <= |steps| < |states|
  {
    if i == 0 then [] else BuiltSoFar(g, steps, states, i - 1) + BuiltBy(g, states[i - 1], steps[i - 1], states[i])
  }

  /** Requests built and not yet sent, in the order in which they will be. */
  function Unsent(s: State): seq<Request> {
    s.ready + Waiting(s)
  }

  lemma {:induction false} ReadyPop(g: Config, s: State, i: nat)
    requires Shaped(g, s) && Enabled(g, s, Pop(i)) && g.policy == Fifo
    ensures TakenBy(Pop(i), Next(g, s, Pop(i))) + Unsent(Next(g, s, Pop(i))) == Unsent(s)
  {
    hide ClientsIn;
    var w := Waiting(s);
    assert s.ready == [s.ready[0]] + s.ready[1..] && Without(s.ready, 0) == s.ready[1..];
    assert [s.ready[0]] + (s.ready[1..] + w) == ([s.ready[0]] + s.ready[1..]) + w;
  }

  lemma {:induction false} ReadyRelease(g: Config, s: State)
    requires Shaped(g, s) && Enabled(g, s, ReleaseOne)
    ensures Unsent(Next(g, s, ReleaseOne)) == Unsent(s)
  {
    hide ClientsIn;
    var k := s.handler.count;
    assert s.held[k..] == [s.held[k]] + s.held[k + 1..];
    assert s.ready + ([s.held[k]] + s.held[k + 1..]) == (s.ready + [s.held[k]]) + s.held[k + 1..];
  }

  lemma {:induction false} ReadyQueue(g: Config, s: State)
    requires Shaped(g, s) && s.handler.Recorded? && HandlerOk(g, s)
    requires s.round[s.handler.client] < g.total[s.handler.client] ==> s.pool != []
    ensures Unsent(OnQueue(g, s)) == Unsent(s) + BuiltBy(g, s, Queue, OnQueue(g, s))
  {
    hide ClientsIn;
  }

  lemma {:induction false} ReadyOther(g: Config, s: State, e: Step)
    requires Shaped(g, s) && Enabled(g, s, e) && HandlerOk(g, s) && !e.Pop? && !e.ReleaseOne? && !e.Queue?
    ensures Unsent(Next(g, s, e)) == Unsent(s)
  {
    hide ClientsIn, Without, OnRecord, OnQueue;
    if e.Record? {
      RecordUnsent(s);
    } else if e.Count? {
      assert s.held[0..] == s.held;
    } else if e.ReleaseEnd? {
      assert Waiting(s) == [] == Waiting(Next(g, s, e));
    } else {
      assert Waiting(Next(g, s, e)) == Waiting(s);
    }
  }

  lemma {:induction false} RecordUnsent(s: State)
    requires s.handler.Got? && s.handler.response.request.client < |s.round| == |s.history| == |s.outs|
    ensures Unsent(OnRecord(s)) == Unsent(s)
  {
  }

  lemma {:induction false} ReadyStep(g: Config, s: State, e: Step)
    requires Shaped(g, s) && Enabled(g, s, e) && HandlerOk(g, s) && g.policy == Fifo
    requires e.Queue? && s.round[s.handler.client] < g.total[s.handler.client] ==> s.pool != []
    ensures TakenBy(e, Next(g, s, e)) + Unsent(Next(g, s, e)) == Unsent(s) + BuiltBy(g, s, e, Next(g, s, e))
  {
    var t := Next(g, s, e);
    assert e.Queue? ==> t == OnQueue(g, s);
    assert !e.Queue? ==> BuiltBy(g, s, e, t) == [];
    assert !e.Pop? ==> TakenBy(e, t) == [];
    hide Next, Unsent, OnQueue, BuiltBy, TakenBy;
    if e.Pop? {
      ReadyPop(g, s, e.i);
    } else if e.ReleaseOne? {
      ReadyRelease(g, s);
    } else if e.Queue? {
      ReadyQueue(g, s);
    } else {
      ReadyOther(g, s, e);
    }
  }

  /** Under the first-in first-out policy, with or without the barrier, requests are sent in the
      order in which they were built. */
  lemma {:induction false} SentInOrder(g: Config, steps: seq<Step>, states: seq<State>, i: nat)
    requires ValidConfig(g) && g.policy == Fifo && IsRun(g, steps, states) && i < |states|
    ensures Taken(steps, states, i) + Unsent(states[i]) == Init(g).ready + BuiltSoFar(g, steps, states, i)
  {
    if i > 0 {
      var s, e, t := states[i - 1], steps[i - 1], states[i];
      SentInOrder(g, steps, states, i - 1);
      StepIn(g, steps, states, i - 1);
      RunInv(g, steps, states, i - 1);
      InvQueue(g, s, e);
      ReadyStep(g, s, e);
      hide Next, Inv, IsRun, TakenBy, BuiltBy, Unsent, Enabled, Shaped, Init, ValidConfig;
      QueueMoves(Taken(steps, states, i - 1), TakenBy(e, t), Unsent(t), Unsent(s), BuiltBy(g, s, e, t),
                 Init(g).ready, BuiltSoFar(g, steps, states, i - 1));
    }
  }

  lemma {:induction false} InvQueue(g: Config, s: State, e: Step)
    requires ValidConfig(g) && Inv(g, s) && Enabled(g, s, e)
    ensures HandlerOk(g, s)
    ensures e.Queue? && s.round[s.handler.client] < g.total[s.handler.client] ==> s.pool != []
  {
    hide OnePending, Counters, BarrierOk, TalkOk;
    if e.Queue? && s.round[s.handler.client] < g.total[s.handler.client] { PoolSuffices(g, s); }
  }
}
