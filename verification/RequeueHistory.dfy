/** What the conversations of a run contain, told from outside: by the replies that came and the
    message lists that were posted. */
module RequeueHistory {
  import opened Counting
  import opened Requeue

  /** The reply a step brings for conversation `c`. */
  function ReplyOf(s: State, e: Step, c: nat): seq<string> {
    if e.Complete? && e.i < |s.sending| && s.sending[e.i] == c && e.outcome.Reply? then [e.outcome.text] else []
  }

  /** The replies that came for conversation `c` in the first `i` steps, in order. */
  function Replies(steps: seq<Step>, states: seq<State>, i: nat, c: nat): seq<string>
    requires i <= |steps| < |states|
  {
    if i == 0 then [] else Replies(steps, states, i - 1, c) + ReplyOf(states[i - 1], steps[i - 1], c)
  }

  /** The message list a step posts for conversation `c`: `t` is the state it leads to. */
  function PostOf(s: State, e: Step, t: State, c: nat): seq<seq<Message>> {
    if e.Start? && e.i < |s.waiting| && s.waiting[e.i] == c && c < |t.messages| then [t.messages[c]] else []
  }

  /** The message lists posted for conversation `c` in the first `i` steps, in order. */
  function Posts(steps: seq<Step>, states: seq<State>, i: nat, c: nat): seq<seq<Message>>
    requires i <= |steps| < |states|
  {
    if i == 0 then [] else Posts(steps, states, i - 1, c) + PostOf(states[i - 1], steps[i - 1], states[i], c)
  }

  /** Every reply is recorded, as it came. */
  lemma {:induction false} ReplyStep(g: Config, s: State, e: Step, c: nat)
    requires Shaped(g, s) && Enabled(g, s, e) && c < |g.convs| && Shaped(g, Next(g, s, e)) && !Next(g, s, e).crashed
    ensures Next(g, s, e).replies[c] == s.replies[c] + ReplyOf(s, e, c)
    ensures |Next(g, s, e).sends[c]| == |s.sends[c]| + |PostOf(s, e, Next(g, s, e), c)|
  {
    hide Without;
  }

  lemma {:induction false} Recorded(g: Config, steps: seq<Step>, states: seq<State>, i: nat, c: nat)
    requires NonEmpty(g) && IsRun(g, steps, states) && i < |states| && c < |g.convs|
    ensures Shaped(g, states[i]) && states[i].replies[c] == Replies(steps, states, i, c)
    ensures |states[i].sends[c]| == |Posts(steps, states, i, c)|
  {
    RunInv(g, steps, states, i);
    if i > 0 {
      hide Next, Enabled, ReplyOf, PostOf, OnePlace, ConvOk, Yields, Sum;
      Recorded(g, steps, states, i - 1, c);
      ReplyStep(g, states[i - 1], steps[i - 1], c);
    }
  }

  /** The post of a turn: the prompts up to the turn, with the replies so far between them. */
  ghost predicate IsTurn(prompts: seq<string>, replies: seq<string>, k: nat, post: seq<Message>) {
    k < |prompts| && k <= |replies| && |post| == 2 * k + 1 && Alternates(prompts, replies[..k], post)
  }

  lemma {:induction false} TurnPosted(g: Config, s: State, e: Step, c: nat)
    requires Inv(g, s) && Enabled(g, s, e) && c < |g.convs| && PostOf(s, e, Next(g, s, e), c) != []
    ensures var t := Next(g, s, e);
            Shaped(g, t) && IsTurn(g.convs[c], t.replies[c], |s.sends[c]|, t.messages[c])
  {
    InvStep(g, s, e);
    CopiesMember(s.waiting, e.i);
    CopiesStep(g, s, e, c);
    hide Copies, Sum, Alternates, Yields, Without;
    var t := Next(g, s, e);
    assert OnePlace(g, s, c) && ConvOk(g, s, c) && ConvOk(g, t, c) && OnePlace(g, t, c);
    assert t.replies[c][..|t.replies[c]|] == t.replies[c];
  }

  /** In every run the posts of a conversation are its turns, in order, each once: the `k`-th post
      has the first `k + 1` prompts, with the first `k` replies between them. */
  lemma {:induction false} PostsAreTurns(g: Config, steps: seq<Step>, states: seq<State>, i: nat, c: nat, k: nat)
    requires NonEmpty(g) && IsRun(g, steps, states) && i < |states| && c < |g.convs|
    requires k < |Posts(steps, states, i, c)|
    ensures IsTurn(g.convs[c], Replies(steps, states, i, c), k, Posts(steps, states, i, c)[k])
  {
    hide Inv, Next, Enabled, ReplyOf, PostOf, IsTurn;
    assert i > 0;
    Recorded(g, steps, states, i - 1, c);
    Recorded(g, steps, states, i, c);
    if k < |Posts(steps, states, i - 1, c)| {
      PostsAreTurns(g, steps, states, i - 1, c, k);
      TurnKept(g.convs[c], Replies(steps, states, i - 1, c), ReplyOf(states[i - 1], steps[i - 1], c), k,
               Posts(steps, states, i - 1, c)[k]);
    } else {
      RunInv(g, steps, states, i - 1);
      PostOne(states[i - 1], steps[i - 1], states[i], c);
      TurnPosted(g, states[i - 1], steps[i - 1], c);
    }
  }

  lemma {:induction false} PostOne(s: State, e: Step, t: State, c: nat)
    ensures |PostOf(s, e, t, c)| <= 1
    ensures PostOf(s, e, t, c) != [] ==> c < |t.messages| && PostOf(s, e, t, c) == [t.messages[c]]
  {
  }

  lemma {:induction false} TurnKept(prompts: seq<string>, replies: seq<string>, more: seq<string>, k: nat, post: seq<Message>)
    requires IsTurn(prompts, replies, k, post)
    ensures IsTurn(prompts, replies + more, k, post)
  {
    hide Alternates;
    assert (replies + more)[..k] == replies[..k];
  }

  /** Without failures, once every turn has been handed out and every task is over, each turn of
      each conversation has been posted exactly once, in order, and has its reply, and the
      messages are the prompts and the replies that came, in turn. */
  lemma {:induction false} EveryTurnOnce(g: Config, steps: seq<Step>, states: seq<State>, i: nat, c: nat)
    requires NonEmpty(g) && IsRun(g, steps, states) && i < |states| && c < |g.convs|
    requires var s := states[i]; s.failed == {} && s.left == 0 && s.waiting == [] && s.sending == []
    ensures Shaped(g, states[i]) && c in states[i].done
    ensures var replies, posts := Replies(steps, states, i, c), Posts(steps, states, i, c);
            && |posts| == |replies| == |g.convs[c]| && |states[i].messages[c]| == 2 * |g.convs[c]|
            && (forall k: nat :: k < |posts| ==> IsTurn(g.convs[c], replies, k, posts[k]))
            && Alternates(g.convs[c], replies, states[i].messages[c])
  {
    RunInv(g, steps, states, i);
    AllDone(g, states[i], c);
    Recorded(g, steps, states, i, c);
    hide Inv, IsTurn, Alternates, Replies, Posts, Copies;
    forall k: nat | k < |Posts(steps, states, i, c)|
      ensures IsTurn(g.convs[c], Replies(steps, states, i, c), k, Posts(steps, states, i, c)[k])
    {
      PostsAreTurns(g, steps, states, i, c, k);
    }
  }

  // ---------- the end ----------

  /** Steps still possible: a turn to yield takes three, a started one two, a posted one one. */
  function Work(s: State): nat {
    3 * s.left + 2 * |s.waiting| + |s.sending| + if s.aborted then 0 else 1
  }

  lemma {:induction false} WorkShrinks(g: Config, s: State, e: Step)
    requires Shaped(g, s) && Enabled(g, s, e) && !Next(g, s, e).crashed
    ensures Work(Next(g, s, e)) < Work(s)
  {
  }

  /** Every run is finite: no more than three steps for each turn, and one for a timeout. */
  lemma {:induction false} StepsBounded(g: Config, steps: seq<Step>, states: seq<State>, i: nat)
    requires NonEmpty(g) && IsRun(g, steps, states) && i < |states|
    ensures i + Work(states[i]) <= 3 * Total(g) + 1
  {
    if i > 0 {
      StepsBounded(g, steps, states, i - 1);
      RunInv(g, steps, states, i - 1);
      StepSafe(g, states[i - 1], steps[i - 1]);
      WorkShrinks(g, states[i - 1], steps[i - 1]);
    }
  }

  /** And it goes on until every task is over and every turn has been yielded or the wait for the
      queue has timed out, if the concurrency limit lets one task run at all. */
  lemma {:induction false} GoesOn(g: Config, steps: seq<Step>, states: seq<State>, i: nat)
    requires NonEmpty(g) && IsRun(g, steps, states) && i < |states| && (g.limited ==> g.limit >= 1)
    ensures var s := states[i];
            (exists e :: Enabled(g, s, e)) <==> s.waiting != [] || s.sending != [] || (s.left > 0 && !s.aborted)
  {
    RunInv(g, steps, states, i);
    var s := states[i];
    hide OnePlace, ConvOk, Yields, Sum, IsRun;
    if s.sending != [] {
      assert Enabled(g, s, Complete(0, Failure));
    } else if s.waiting != [] {
      assert Enabled(g, s, Start(0));
    } else if s.left > 0 && !s.aborted {
      assert Enabled(g, s, Yield) || Enabled(g, s, Timeout);
    }
  }

  // ---------- the queue ----------

  /** The conversation a step starts a task for: `t` is the state it leads to. */
  function TakenBy(e: Step, t: State): seq<nat> {
    if e.Yield? && t.waiting != [] then [t.waiting[|t.waiting| - 1]] else []
  }

  function Taken(steps: seq<Step>, states: seq<State>, i: nat): seq<nat>
    requires i <= |steps| < |states|
  {
    if i == 0 then [] else Taken(steps, states, i - 1) + TakenBy(steps[i - 1], states[i])
  }

  /** The conversation a step puts back: one that was answered and has turns left. */
  function ReturnedBy(g: Config, s: State, e: Step): seq<nat> {
    if e.Complete? && e.i < |s.sending| && e.outcome.Reply? && s.sending[e.i] < |s.turn| && s.sending[e.i] < |g.convs| &&
       s.turn[s.sending[e.i]] + 1 < |g.convs[s.sending[e.i]]|
    then [s.sending[e.i]] else []
  }

  function Returned(g: Config, steps: seq<Step>, states: seq<State>, i: nat): seq<nat>
    requires i <= |steps| < |states|
  {
    if i == 0 then [] else Returned(g, steps, states, i - 1) + ReturnedBy(g, states[i - 1], steps[i - 1])
  }

  lemma {:induction false} QueueStep(g: Config, s: State, e: Step)
    requires Shaped(g, s) && Enabled(g, s, e) && Shaped(g, Next(g, s, e)) && (e.Complete? ==> |s.queue| < |g.convs|)
    ensures TakenBy(e, Next(g, s, e)) + Next(g, s, e).queue == s.queue + ReturnedBy(g, s, e)
  {
    hide Without;
  }

  /** In every run conversations are taken in turn: all of them first, then in the order in which
      they were put back. */
  lemma {:induction false} RoundRobin(g: Config, steps: seq<Step>, states: seq<State>, i: nat)
    requires NonEmpty(g) && IsRun(g, steps, states) && i < |states|
    ensures Taken(steps, states, i) + states[i].queue == Upto(|g.convs|) + Returned(g, steps, states, i)
  {
    if i > 0 {
      var s, e, t := states[i - 1], steps[i - 1], states[i];
      RoundRobin(g, steps, states, i - 1);
      RunInv(g, steps, states, i - 1);
      StepSafe(g, s, e);
      QueueStep(g, s, e);
      hide Next, Inv, TakenBy, ReturnedBy, Enabled, IsRun, Shaped, Upto;
      QueueMoves(Taken(steps, states, i - 1), TakenBy(e, t), t.queue, s.queue, ReturnedBy(g, s, e),
                 Upto(|g.convs|), Returned(g, steps, states, i - 1));
    }
  }
}
