/** The conversation re-queue of the serving benchmark (benchmark/hicache/bench_serving.py): a
    bounded queue of conversations, a loop that takes one at a time and starts a task for its
    next turn, and tasks that put the conversation back when the turn succeeds. Network and
    clock are the choice of step and outcome. */
module Requeue {
  import opened Counting

  datatype Message = User(content: string) | Assistant(content: string)

  datatype Outcome = Reply(text: string) | Failure

  /** `convs[c]` lists the prompts of a conversation; `limit` is the concurrency limit, if any. */
  datatype Config = Config(convs: seq<seq<string>>, limited: bool, limit: nat)

  /** `waiting` and `sending` hold the conversations of started tasks, before and after they
      hold the semaphore. `blocked` are tasks whose put found the queue full. `turn[c]` is
      `finished_prompts`, `sends[c]` the turns sent so far, `replies[c]` the answers. */
  datatype State = State(
    queue: seq<nat>, waiting: seq<nat>, sending: seq<nat>, blocked: seq<nat>,
    done: set<nat>, failed: set<nat>, crashed: bool,
    left: nat, aborted: bool,
    turn: seq<nat>, messages: seq<seq<Message>>,
    sends: seq<seq<nat>>, replies: seq<seq<string>>)

  /** `num_actual_requests`. */
  function Total(g: Config): nat {
    Sum(Lengths(g.convs))
  }

  function Init(g: Config): State {
    var n := |g.convs|;
    State(Upto(n), [], [], [], {}, {}, false, Total(g), false,
          seq(n, _ => 0), seq(n, _ => []), seq(n, _ => []), seq(n, _ => []))
  }

  datatype Step =
    | Yield
    | Timeout
    | Start(i: nat)
    | Complete(i: nat, outcome: Outcome)

  predicate Shaped(g: Config, s: State) {
    var n := |g.convs|;
    && |s.turn| == n && |s.messages| == n && |s.sends| == n && |s.replies| == n
    && (forall i :: 0 <= i < |s.queue| ==> s.queue[i] < n)
    && (forall i :: 0 <= i < |s.waiting| ==> s.waiting[i] < n)
    && (forall i :: 0 <= i < |s.sending| ==> s.sending[i] < n)
  }

  predicate Enabled(g: Config, s: State, e: Step) {
    && !s.crashed
    && match e
       case Yield => s.left > 0 && !s.aborted && s.queue != []
       case Timeout => s.left > 0 && !s.aborted && s.queue == []
       case Start(i) => i < |s.waiting| && (g.limited ==> |s.sending| < g.limit)
       case Complete(i, _) => i < |s.sending|
  }

  function OnStart(g: Config, s: State, i: nat): State
    requires Shaped(g, s) && i < |s.waiting|
  {
    var c := s.waiting[i];
    var k := s.turn[c];
    if k >= |g.convs[c]| then s.(crashed := true)
    else
      s.(waiting := Without(s.waiting, i), sending := s.sending + [c],
         messages := s.messages[c := s.messages[c] + [User(g.convs[c][k])]],
         sends := s.sends[c := s.sends[c] + [k]])
  }

  function OnComplete(g: Config, s: State, i: nat, outcome: Outcome): State
    requires Shaped(g, s) && i < |s.sending|
  {
    var c := s.sending[i];
    var t := s.(sending := Without(s.sending, i));
    match outcome
    case Failure => t.(failed := s.failed + {c})
    case Reply(text) =>
      var u := t.(messages := s.messages[c := s.messages[c] + [Assistant(text)]],
                  replies := s.replies[c := s.replies[c] + [text]]);
      if s.turn[c] + 1 < |g.convs[c]| then
        var v := u.(turn := s.turn[c := s.turn[c] + 1]);
        if |s.queue| < |g.convs| then v.(queue := s.queue + [c]) else v.(blocked := s.blocked + [c])
      else u.(done := s.done + {c})
  }

  function Next(g: Config, s: State, e: Step): State
    requires Shaped(g, s) && Enabled(g, s, e)
  {
    match e
    case Yield => s.(queue := s.queue[1..], waiting := s.waiting + [s.queue[0]], left := s.left - 1)
    case Timeout => s.(aborted := true)
    case Start(i) => OnStart(g, s, i)
    case Complete(i, outcome) => OnComplete(g, s, i, outcome)
  }

  // ---------- one place per conversation ----------

  function In(s: set<nat>, c: nat): nat {
    if c in s then 1 else 0
  }

  ghost predicate OnePlace(g: Config, s: State, c: nat) {
    Copies(s.queue, c) + Copies(s.waiting, c) + Copies(s.sending, c) + In(s.done, c) + In(s.failed, c) ==
      if c < |g.convs| then 1 else 0
  }

  /** Turns sent: all of them when done, one more than answered while a turn is out or lost. */
  function Sent(g: Config, s: State, c: nat): nat
    requires Shaped(g, s) && c < |g.convs|
  {
    if c in s.done || c in s.failed || Copies(s.sending, c) > 0 then s.turn[c] + 1 else s.turn[c]
  }

  function Answered(g: Config, s: State, c: nat): nat
    requires Shaped(g, s) && c < |g.convs|
  {
    if c in s.done then s.turn[c] + 1 else s.turn[c]
  }

  /** The messages of a conversation alternate: prompt, reply, prompt, reply, ... */
  ghost predicate Alternates(prompts: seq<string>, replies: seq<string>, messages: seq<Message>) {
    && (|messages| == 2 * |replies| || |messages| == 2 * |replies| + 1)
    && forall j :: 0 <= j < |messages| ==>
         && j / 2 < |prompts| && (j % 2 == 1 ==> j / 2 < |replies|)
         && messages[j] == if j % 2 == 0 then User(prompts[j / 2]) else Assistant(replies[j / 2])
  }

  ghost predicate ConvOk(g: Config, s: State, c: nat)
    requires Shaped(g, s) && c < |g.convs|
  {
    && s.turn[c] < |g.convs[c]|
    && (c in s.done ==> s.turn[c] + 1 == |g.convs[c]|)
    && s.sends[c] == Upto(Sent(g, s, c))
    && |s.replies[c]| == Answered(g, s, c)
    && |s.messages[c]| == Sent(g, s, c) + Answered(g, s, c)
    && Alternates(g.convs[c], s.replies[c], s.messages[c])
  }

  /** Times a conversation was taken from the queue. */
  function Yields(g: Config, s: State): (r: seq<nat>)
    requires Shaped(g, s)
    ensures |r| == |g.convs|
    ensures forall c: nat :: c < |g.convs| ==> r[c] == s.turn[c] + if Copies(s.queue, c) > 0 then 0 else 1
  {
    seq(|g.convs|, (c: nat) requires c < |g.convs| => s.turn[c] + if Copies(s.queue, c) > 0 then 0 else 1)
  }

  ghost predicate Inv(g: Config, s: State) {
    && Shaped(g, s) && !s.crashed && s.blocked == []
    && (forall c: nat :: OnePlace(g, s, c))
    && (forall c: nat :: c < |g.convs| ==> ConvOk(g, s, c))
    && |s.queue| + |s.waiting| + |s.sending| + |s.done| + |s.failed| == |g.convs|
    && s.left + Sum(Yields(g, s)) == Total(g)
    && (g.limited ==> |s.sending| <= g.limit)
  }

  ghost predicate NonEmpty(g: Config) {
    forall c: nat :: c < |g.convs| ==> g.convs[c] != []
  }

  lemma {:induction false} CopiesHead(s: seq<nat>, c: nat)
    requires s != []
    ensures Copies(s, c) == Copies(s[1..], c) + if s[0] == c then 1 else 0
  {
    hide Copies;
    assert s == ([] + [s[0]]) + s[1..];
    CopiesConcat([] + [s[0]], s[1..], c);
    CopiesAppend([], s[0], c);
    NoCopies(c);
  }

  /** How one step moves a conversation between places. */
  lemma {:induction false} CopiesStep(g: Config, s: State, e: Step, c: nat)
    requires Shaped(g, s) && Enabled(g, s, e)
    ensures var t := Next(g, s, e);
            match e
            case Yield =>
              var d := if s.queue[0] == c then 1 else 0;
              Copies(t.queue, c) == Copies(s.queue, c) - d && Copies(t.waiting, c) == Copies(s.waiting, c) + d
            case Timeout => t == s.(aborted := true)
            case Start(i) =>
              var d := if s.waiting[i] == c && !t.crashed then 1 else 0;
              && (s.turn[s.waiting[i]] < |g.convs[s.waiting[i]]| ==> !t.crashed)
              && Copies(t.waiting, c) == Copies(s.waiting, c) - d && Copies(t.sending, c) == Copies(s.sending, c) + d
            case Complete(i, outcome) =>
              var d := if s.sending[i] == c then 1 else 0;
              && Copies(t.sending, c) == Copies(s.sending, c) - d
              && Copies(t.queue, c) == Copies(s.queue, c) + if t.queue == s.queue then 0 else d
  {
    hide Copies, Without;
    match e {
      case Yield =>
        CopiesHead(s.queue, c);
        CopiesAppend(s.waiting, s.queue[0], c);
      case Start(i) =>
        CopiesWithout(s.waiting, i, c);
        CopiesAppend(s.sending, s.waiting[i], c);
      case Complete(i, outcome) =>
        CopiesWithout(s.sending, i, c);
        CopiesAppend(s.queue, s.sending[i], c);
      case _ =>
    }
  }

  /** A started turn of a conversation always exists, and a put always finds room. */
  lemma {:induction false} StepSafe(g: Config, s: State, e: Step)
    requires Inv(g, s) && Enabled(g, s, e)
    ensures var t := Next(g, s, e);
            && Shaped(g, s) && Shaped(g, t) && !t.crashed && t.blocked == []
            && (e.Complete? ==> |s.queue| < |g.convs|)
            && (e.Start? ==> s.turn[s.waiting[e.i]] < |g.convs[s.waiting[e.i]]|)
  {
    hide Copies, Sum, Alternates, Yields;
    match e {
      case Start(i) => assert ConvOk(g, s, s.waiting[i]);
      case _ =>
    }
  }

  lemma {:induction false} PlaceStep(g: Config, s: State, e: Step, c: nat)
    requires Inv(g, s) && Enabled(g, s, e)
    ensures OnePlace(g, Next(g, s, e), c)
  {
    hide Copies, Sum, Alternates, Yields, Without, ConvOk;
    StepSafe(g, s, e);
    CopiesStep(g, s, e, c);
    assert OnePlace(g, s, c);
    if e.Complete? {
      CopiesMember(s.sending, e.i);
      assert OnePlace(g, s, s.sending[e.i]);
    }
  }

  lemma {:induction false} Alternate(prompts: seq<string>, replies: seq<string>, messages: seq<Message>, k: nat)
    requires Alternates(prompts, replies, messages) && |messages| == 2 * k == 2 * |replies| && k < |prompts|
    ensures Alternates(prompts, replies, messages + [User(prompts[k])])
  {
  }

  lemma {:induction false} AlternateReply(prompts: seq<string>, replies: seq<string>, messages: seq<Message>, text: string)
    requires Alternates(prompts, replies, messages) && |messages| == 2 * |replies| + 1
    ensures Alternates(prompts, replies + [text], messages + [Assistant(text)])
  {
    var n := |replies|;
    var m := messages + [Assistant(text)];
    assert (2 * n + 1) / 2 == n && (2 * n + 1) % 2 == 1;
    forall j | 0 <= j < |m|
      ensures j / 2 < |prompts| && (j % 2 == 1 ==> j / 2 < n + 1)
      ensures m[j] == if j % 2 == 0 then User(prompts[j / 2]) else Assistant((replies + [text])[j / 2])
    {
      if j < 2 * n + 1 {
        assert m[j] == messages[j];
      } else {
        assert messages[2 * n] == messages[j - 1];
      }
    }
  }

  lemma {:induction false} ConvStart(g: Config, s: State, i: nat)
    requires Inv(g, s) && Enabled(g, s, Start(i)) && Shaped(g, OnStart(g, s, i))
    ensures ConvOk(g, OnStart(g, s, i), s.waiting[i])
  {
    hide Copies, Sum, Alternates, Yields, Without;
    var c := s.waiting[i];
    StepSafe(g, s, Start(i));
    CopiesStep(g, s, Start(i), c);
    CopiesMember(s.waiting, i);
    assert OnePlace(g, s, c) && ConvOk(g, s, c);
    Alternate(g.convs[c], s.replies[c], s.messages[c], s.turn[c]);
  }

  lemma {:induction false} ConvComplete(g: Config, s: State, i: nat, outcome: Outcome)
    requires Inv(g, s) && Enabled(g, s, Complete(i, outcome)) && Shaped(g, OnComplete(g, s, i, outcome))
    ensures ConvOk(g, OnComplete(g, s, i, outcome), s.sending[i])
  {
    hide Copies, Sum, Alternates, Yields, Without;
    var c := s.sending[i];
    StepSafe(g, s, Complete(i, outcome));
    CopiesStep(g, s, Complete(i, outcome), c);
    CopiesMember(s.sending, i);
    assert OnePlace(g, s, c) && ConvOk(g, s, c);
    if outcome.Reply? { AlternateReply(g.convs[c], s.replies[c], s.messages[c], outcome.text); }
  }

  /** A step leaves the other conversations alone. */
  lemma {:induction false} ConvElse(g: Config, s: State, e: Step, c: nat)
    requires Inv(g, s) && Enabled(g, s, e) && c < |g.convs| && Shaped(g, Next(g, s, e))
    requires e.Start? ==> s.waiting[e.i] != c
    requires e.Complete? ==> s.sending[e.i] != c
    ensures ConvOk(g, Next(g, s, e), c)
  {
    hide Copies, Sum, Alternates, Yields, Without, OnePlace;
    CopiesStep(g, s, e, c);
    assert ConvOk(g, s, c);
  }

  lemma {:induction false} ConvStep(g: Config, s: State, e: Step, c: nat)
    requires Inv(g, s) && Enabled(g, s, e) && c < |g.convs| && Shaped(g, Next(g, s, e))
    ensures ConvOk(g, Next(g, s, e), c)
  {
    hide Inv, ConvOk, OnStart, OnComplete;
    if e.Start? && s.waiting[e.i] == c {
      ConvStart(g, s, e.i);
    } else if e.Complete? && s.sending[e.i] == c {
      ConvComplete(g, s, e.i, e.outcome);
    } else {
      ConvElse(g, s, e, c);
    }
  }

  lemma {:induction false} YieldAt(g: Config, s: State, e: Step, c: nat)
    requires Inv(g, s) && Enabled(g, s, e) && Shaped(g, Next(g, s, e)) && c < |g.convs|
    ensures Yields(g, Next(g, s, e))[c] == Yields(g, s)[c] + if e.Yield? && c == s.queue[0] then 1 else 0
  {
    hide Copies, Sum, Alternates, Without, ConvOk;
    CopiesStep(g, s, e, c);
    StepSafe(g, s, e);
    assert OnePlace(g, s, c);
    if e.Yield? && c == s.queue[0] { CopiesMember(s.queue, 0); }
    if e.Complete? && c == s.sending[e.i] { CopiesMember(s.sending, e.i); }
  }

  lemma {:induction false} YieldStep(g: Config, s: State, e: Step)
    requires Inv(g, s) && Enabled(g, s, e) && Shaped(g, Next(g, s, e))
    ensures var t := Next(g, s, e); t.left + Sum(Yields(g, t)) == Total(g)
  {
    hide Copies, Sum, OnePlace, ConvOk, Yields, OnStart, OnComplete;
    var t := Next(g, s, e);
    var y := Yields(g, s);
    forall c: nat | c < |g.convs|
      ensures Yields(g, t)[c] == y[c] + if e.Yield? && c == s.queue[0] then 1 else 0
    {
      YieldAt(g, s, e, c);
    }
    LeftStep(g, s, e);
    if e.Yield? {
      var c := s.queue[0];
      SumUpdate(y, c, y[c] + 1);
      assert Yields(g, t) == y[c := y[c] + 1];
    } else {
      assert Yields(g, t) == y;
    }
  }

  lemma {:induction false} LeftStep(g: Config, s: State, e: Step)
    requires Shaped(g, s) && Enabled(g, s, e)
    ensures Next(g, s, e).left == if e.Yield? then s.left - 1 else s.left
  {
  }

  lemma {:induction false} SizeStep(g: Config, s: State, e: Step)
    requires Inv(g, s) && Enabled(g, s, e)
    ensures var t := Next(g, s, e);
            && |t.queue| + |t.waiting| + |t.sending| + |t.done| + |t.failed| == |g.convs|
            && (g.limited ==> |t.sending| <= g.limit)
  {
    StepSafe(g, s, e);
    if e.Complete? { NotPlacedTwice(g, s, e.i); }
    assert |s.queue| + |s.waiting| + |s.sending| + |s.done| + |s.failed| == |g.convs|;
    assert g.limited ==> |s.sending| <= g.limit;
    hide Inv, OnStart, OnComplete;
    match e {
      case Start(i) => StartSize(g, s, i);
      case Complete(i, outcome) => CompleteSize(g, s, i, outcome);
      case _ =>
    }
  }

  lemma {:induction false} StartSize(g: Config, s: State, i: nat)
    requires Shaped(g, s) && i < |s.waiting| && !OnStart(g, s, i).crashed
    ensures var t := OnStart(g, s, i);
            && |t.waiting| == |s.waiting| - 1 && |t.sending| == |s.sending| + 1
            && t.queue == s.queue && t.done == s.done && t.failed == s.failed
  {
  }

  lemma {:induction false} CompleteSize(g: Config, s: State, i: nat, outcome: Outcome)
    requires Shaped(g, s) && i < |s.sending| && |s.queue| < |g.convs|
    requires s.sending[i] !in s.done && s.sending[i] !in s.failed
    ensures var t := OnComplete(g, s, i, outcome);
            && |t.sending| == |s.sending| - 1 && t.waiting == s.waiting
            && |t.queue| + |t.done| + |t.failed| == |s.queue| + |s.done| + |s.failed| + 1
  {
  }

  lemma {:induction false} NotPlacedTwice(g: Config, s: State, i: nat)
    requires Inv(g, s) && i < |s.sending|
    ensures s.sending[i] !in s.done && s.sending[i] !in s.failed
  {
    hide Copies, Sum, Alternates, ConvOk, Yields;
    CopiesMember(s.sending, i);
    assert OnePlace(g, s, s.sending[i]);
  }

  lemma {:induction false} InvStep(g: Config, s: State, e: Step)
    requires Inv(g, s) && Enabled(g, s, e)
    ensures Inv(g, Next(g, s, e))
  {
    StepSafe(g, s, e);
    SizeStep(g, s, e);
    YieldStep(g, s, e);
    var t := Next(g, s, e);
    hide Next, OnePlace, ConvOk, Yields, Sum;
    forall c: nat ensures OnePlace(g, t, c) {
      PlaceStep(g, s, e, c);
    }
    forall c: nat | c < |g.convs| ensures ConvOk(g, t, c) {
      ConvStep(g, s, e, c);
    }
  }

  lemma {:induction false} UptoCopies(n: nat, c: nat)
    ensures Copies(Upto(n), c) == if c < n then 1 else 0
  {
    if n > 0 {
      UptoCopies(n - 1, c);
      assert Upto(n)[..n - 1] == Upto(n - 1);
    }
  }

  lemma {:induction false} InitInv(g: Config)
    requires NonEmpty(g)
    ensures Inv(g, Init(g))
  {
    hide Copies, Sum;
    var s := Init(g);
    forall c: nat ensures OnePlace(g, s, c) {
      UptoCopies(|g.convs|, c);
      NoCopies(c);
    }
    forall c: nat | c < |g.convs| ensures ConvOk(g, s, c) && Yields(g, s)[c] == 0 {
      UptoCopies(|g.convs|, c);
      NoCopies(c);
    }
    SumConstant(Yields(g, s), 0);
  }

  // ---------- runs ----------

  ghost predicate IsRun(g: Config, steps: seq<Step>, states: seq<State>) {
    && |states| == |steps| + 1 && states[0] == Init(g)
    && forall i :: 0 <= i < |steps| ==>
         Shaped(g, states[i]) && Enabled(g, states[i], steps[i]) && states[i + 1] == Next(g, states[i], steps[i])
  }

  /** In every run each conversation is in exactly one place, the queue never overfills, no put
      ever waits, turns go out in order and at most once, and messages alternate. */
  lemma {:induction false} RunInv(g: Config, steps: seq<Step>, states: seq<State>, i: nat)
    requires NonEmpty(g) && IsRun(g, steps, states) && i < |states|
    ensures Inv(g, states[i])
  {
    hide Inv, Next, Enabled, Init;
    if i == 0 {
      InitInv(g);
    } else {
      RunInv(g, steps, states, i - 1);
      InvStep(g, states[i - 1], steps[i - 1]);
    }
  }

  lemma {:induction false} AllHandedOut(g: Config, s: State)
    requires NonEmpty(g) && Inv(g, s) && s.failed == {} && s.queue == [] && s.waiting == [] && s.sending == []
    ensures Yields(g, s) == Lengths(g.convs)
  {
    hide Alternates, Sum, Copies;
    forall c: nat | c < |g.convs| ensures Yields(g, s)[c] == |g.convs[c]| {
      NoCopies(c);
      assert OnePlace(g, s, c) && ConvOk(g, s, c);
    }
  }

  /** Without failures, as long as turns are left there is something to take or to finish. */
  lemma {:induction false} NeverStarved(g: Config, steps: seq<Step>, states: seq<State>, i: nat)
    requires NonEmpty(g) && IsRun(g, steps, states) && i < |states|
    requires states[i].failed == {} && states[i].left > 0
    ensures states[i].queue != [] || states[i].waiting != [] || states[i].sending != []
  {
    RunInv(g, steps, states, i);
    var s := states[i];
    hide IsRun, Alternates, Sum, Copies;
    if s.queue == [] && s.waiting == [] && s.sending == [] {
      AllHandedOut(g, s);
    }
  }

  lemma {:induction false} AllDone(g: Config, s: State, c: nat)
    requires Inv(g, s) && c < |g.convs| && s.failed == {} && s.left == 0 && s.waiting == [] && s.sending == []
    ensures c in s.done && ConvOk(g, s, c)
  {
    hide Alternates, Sum, Copies;
    var y := Yields(g, s);
    forall k: nat | k < |g.convs| ensures y[k] <= |g.convs[k]| {
      assert ConvOk(g, s, k);
    }
    SumBound(y, Lengths(g.convs));
    assert y[c] == Lengths(g.convs)[c];
    NoCopies(c);
    assert OnePlace(g, s, c) && ConvOk(g, s, c);
  }

  // ---------- the program ----------

  /** The benchmark's shared state, updated in place by the yielding loop and the tasks. */
  class Serving {
    const g: Config
    var queue: seq<nat>
    var waiting: seq<nat>
    var sending: seq<nat>
    var left: nat
    var finishedPrompts: seq<nat>
    var prevMessages: seq<seq<Message>>
    ghost var blocked: seq<nat>
    ghost var done: set<nat>
    ghost var failed: set<nat>
    ghost var crashed: bool
    ghost var aborted: bool
    ghost var sends: seq<seq<nat>>
    ghost var replies: seq<seq<string>>

    ghost function View(): State
      reads this
    {
      State(queue, waiting, sending, blocked, done, failed, crashed, left, aborted, finishedPrompts, prevMessages, sends, replies)
    }

    constructor (g: Config)
      ensures this.g == g && View() == Init(g)
    {
      this.g := g;
      var n := |g.convs|;
      var total := CountTurns(g);
      queue, waiting, sending, left := Upto(n), [], [], total;
      finishedPrompts, prevMessages := seq(n, _ => 0), seq(n, _ => []);
      blocked, done, failed, crashed, aborted := [], {}, {}, false, false;
      sends, replies := seq(n, _ => []), seq(n, _ => []);
    }

    /** `get_requests` and the loop over it: take a conversation and start its task. */
    method TakeNext()
      requires Inv(g, View()) && Enabled(g, View(), Yield)
      modifies this`queue, this`waiting, this`left
      ensures Inv(g, View()) && View() == Next(g, old(View()), Yield)
    {
      InvStep(g, View(), Yield);
      var c := queue[0];
      queue := queue[1..];
      waiting := waiting + [c];
      left := left - 1;
    }

    /** `async_request_openai_completions` up to the post: append the turn's prompt. */
    method StartTurn(i: nat) returns (payload: seq<Message>)
      requires Inv(g, View()) && Enabled(g, View(), Start(i))
      modifies this`waiting, this`sending, this`prevMessages, this`sends
      ensures Inv(g, View()) && View() == Next(g, old(View()), Start(i))
      ensures payload == prevMessages[old(waiting)[i]]
    {
      hide Inv;
      StepSafe(g, View(), Start(i));
      InvStep(g, View(), Start(i));
      var c := waiting[i];
      var promptIdx := finishedPrompts[c];
      waiting := waiting[..i] + waiting[i + 1..];
      sending := sending + [c];
      prevMessages := prevMessages[c := prevMessages[c] + [User(g.convs[c][promptIdx])]];
      sends := sends[c := sends[c] + [promptIdx]];
      payload := prevMessages[c];
    }

    /** The rest of the request: record the reply and put the conversation back, or give up. */
    method CompleteTurn(i: nat, outcome: Outcome)
      requires Inv(g, View()) && Enabled(g, View(), Complete(i, outcome))
      modifies this
      ensures Inv(g, View()) && View() == Next(g, old(View()), Complete(i, outcome))
    {
      hide Inv;
      StepSafe(g, View(), Complete(i, outcome));
      InvStep(g, View(), Complete(i, outcome));
      var c := sending[i];
      sending := sending[..i] + sending[i + 1..];
      if outcome.Failure? {
        failed := failed + {c};
        return;
      }
      prevMessages := prevMessages[c := prevMessages[c] + [Assistant(outcome.text)]];
      replies := replies[c := replies[c] + [outcome.text]];
      PutBack(c);
    }

    method PutBack(c: nat)
      requires Shaped(g, View()) && c < |g.convs|
      modifies this
      ensures View() == if old(finishedPrompts)[c] + 1 < |g.convs[c]| then
                          old(View()).(turn := old(finishedPrompts)[c := old(finishedPrompts)[c] + 1], queue := old(queue) + [c])
                        else old(View()).(done := old(done) + {c})
    {
      if finishedPrompts[c] + 1 < |g.convs[c]| {
        finishedPrompts := finishedPrompts[c := finishedPrompts[c] + 1];
        queue := queue + [c];
      } else {
        done := done + {c};
      }
    }
  }

  method CountTurns(g: Config) returns (n: nat)
    ensures n == Total(g)
  {
    n := 0;
    var lengths := Lengths(g.convs);
    for c := 0 to |g.convs|
      invariant n == Sum(lengths[..c])
    {
      assert lengths[..c + 1][..c] == lengths[..c];
      n := n + |g.convs[c]|;
    }
    assert lengths[..|g.convs|] == lengths;
  }
}
