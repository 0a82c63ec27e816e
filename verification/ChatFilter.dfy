/** Choosing conversations for a benchmark (benchmark/hicache/data_processing.py,
    `common_filter_chat`): the dataset is filtered and gone round until enough conversations
    have been taken. Token counts are part of the input. */
module ChatFilter {
  import opened Wrappers

  datatype Turn = Turn(prompt: string, promptLen: nat, completionLen: nat)

  type Chat = seq<Turn>

  datatype Bounds = Bounds(minPrompt: Option<nat>, minOutput: Option<nat>, maxPrompt: Option<nat>,
                           maxOutput: Option<nat>, fixedOutput: Option<nat>)

  /** A turn as it is returned: prompt, prompt length, output length. */
  datatype Item = Item(prompt: string, promptLen: nat, outputLen: nat)

  function OutputLen(b: Bounds, t: Turn): nat {
    if b.fixedOutput.Some? then b.fixedOutput.value else t.completionLen
  }

  predicate Pruned(b: Bounds, t: Turn) {
    || (b.minPrompt.Some? && t.promptLen < b.minPrompt.value)
    || (b.minOutput.Some? && OutputLen(b, t) < b.minOutput.value)
    || (b.maxPrompt.Some? && t.promptLen > b.maxPrompt.value)
    || (b.maxOutput.Some? && OutputLen(b, t) > b.maxOutput.value)
  }

  /** The turns of a conversation that are kept, in order. */
  function Kept(b: Bounds, c: Chat): seq<Item> {
    if c == [] then []
    else
      var t := c[|c| - 1];
      Kept(b, c[..|c| - 1]) + if Pruned(b, t) then [] else [Item(t.prompt, t.promptLen, OutputLen(b, t))]
  }

  /** The conversations of which something is kept, in dataset order. */
  function Eligible(b: Bounds, data: seq<Chat>): seq<seq<Item>> {
    if data == [] then []
    else
      var k := Kept(b, data[|data| - 1]);
      Eligible(b, data[..|data| - 1]) + if k == [] then [] else [k]
  }

  lemma {:induction false} NoneEligible(b: Bounds, data: seq<Chat>)
    ensures Eligible(b, data) == [] <==> forall i :: 0 <= i < |data| ==> Kept(b, data[i]) == []
  {
    if data != [] {
      var n := |data| - 1;
      NoneEligible(b, data[..n]);
      assert forall i :: 0 <= i < n ==> data[..n][i] == data[i];
    }
  }

  function InputTokens(items: seq<Item>): nat {
    if items == [] then 0 else InputTokens(items[..|items| - 1]) + items[|items| - 1].promptLen
  }

  function OutputTokens(items: seq<Item>): nat {
    if items == [] then 0 else OutputTokens(items[..|items| - 1]) + items[|items| - 1].outputLen
  }

  function AllInput(r: seq<seq<Item>>): nat {
    if r == [] then 0 else AllInput(r[..|r| - 1]) + InputTokens(r[|r| - 1])
  }

  function AllOutput(r: seq<seq<Item>>): nat {
    if r == [] then 0 else AllOutput(r[..|r| - 1]) + OutputTokens(r[|r| - 1])
  }

  /** A turn within all bounds that are given. */
  predicate Within(b: Bounds, promptLen: nat, outputLen: nat) {
    && (b.minPrompt.Some? ==> b.minPrompt.value <= promptLen)
    && (b.maxPrompt.Some? ==> promptLen <= b.maxPrompt.value)
    && (b.minOutput.Some? ==> b.minOutput.value <= outputLen)
    && (b.maxOutput.Some? ==> outputLen <= b.maxOutput.value)
  }

  /** `item` is the turn `t`, with the fixed output length if there is one. */
  predicate Shows(b: Bounds, t: Turn, item: Item) {
    && item.prompt == t.prompt && item.promptLen == t.promptLen
    && (b.fixedOutput.Some? ==> item.outputLen == b.fixedOutput.value)
    && (b.fixedOutput.None? ==> item.outputLen == t.completionLen)
  }

  /** `items` are the turns at the positions `at`, in order, and these are exactly the turns that
      are within bounds. */
  ghost predicate Selects(b: Bounds, c: Chat, items: seq<Item>, at: seq<nat>) {
    && |at| == |items|
    && (forall i, j :: 0 <= i < j < |at| ==> at[i] < at[j])
    && (forall i :: 0 <= i < |at| ==>
          at[i] < |c| && Shows(b, c[at[i]], items[i]) && Within(b, items[i].promptLen, items[i].outputLen))
    && (forall j: nat :: j < |c| && j !in at ==> forall item :: Shows(b, c[j], item) ==> !Within(b, item.promptLen, item.outputLen))
  }

  lemma {:induction false} KeptSelects(b: Bounds, c: Chat) returns (at: seq<nat>)
    ensures Selects(b, c, Kept(b, c), at)
  {
    at := [];
    if c != [] {
      var n := |c| - 1;
      var rest := KeptSelects(b, c[..n]);
      var t := c[n];
      at := if Pruned(b, t) then rest else rest + [n];
      SelectsSnoc(b, c, Kept(b, c[..n]), rest);
    }
  }

  lemma {:induction false} SelectsSnoc(b: Bounds, c: Chat, items: seq<Item>, rest: seq<nat>)
    requires c != [] && Selects(b, c[..|c| - 1], items, rest)
    ensures var n := |c| - 1;
            var t := c[n];
            if Pruned(b, t) then Selects(b, c, items, rest)
            else Selects(b, c, items + [Item(t.prompt, t.promptLen, OutputLen(b, t))], rest + [n])
  {
    var n := |c| - 1;
    var t := c[n];
    var item := Item(t.prompt, t.promptLen, OutputLen(b, t));
    assert Shows(b, t, item) && (Pruned(b, t) <==> !Within(b, item.promptLen, item.outputLen));
    assert forall i :: Shows(b, t, i) ==> i == item;
    hide Shows, Within, Pruned, OutputLen;
    forall j: nat | j < n ensures c[..n][j] == c[j] {}
    if !Pruned(b, t) {
      assert n in rest + [n];
      forall j: nat | j in rest ensures j in rest + [n] {}
    }
  }

  /** The inner loop: filter one conversation, adding its lengths to the totals. */
  method Process(b: Bounds, c: Chat, input: nat, output: nat) returns (items: seq<Item>, input': nat, output': nat)
    ensures items == Kept(b, c) && exists at :: Selects(b, c, items, at)
    ensures input' == input + InputTokens(items) && output' == output + OutputTokens(items)
  {
    items, input', output' := [], input, output;
    for j := 0 to |c|
      invariant items == Kept(b, c[..j])
      invariant input' == input + InputTokens(items) && output' == output + OutputTokens(items)
    {
      assert c[..j + 1][..j] == c[..j];
      if !Pruned(b, c[j]) {
        var item := Item(c[j].prompt, c[j].promptLen, OutputLen(b, c[j]));
        assert (items + [item])[..|items|] == items;
        input', output' := input' + item.promptLen, output' + item.outputLen;
        items := items + [item];
      }
    }
    assert c[..|c|] == c;
    ghost var at := KeptSelects(b, c);
  }

  /** The result so far goes round the eligible conversations. */
  ghost predicate Cyclic(e: seq<seq<Item>>, r: seq<seq<Item>>) {
    |e| > 0 && forall k :: 0 <= k < |r| ==> r[k] == e[k % |e|]
  }

  lemma {:induction false} ModPlus(base: nat, j: nat, m: nat)
    requires m > 0 && base % m == 0 && j < m
    ensures (base + j) % m == j
  {
    var q := base / m;
    assert base == q * m;
    assert base + j == q * m + j;
    ModStep(q, j, m);
  }

  lemma {:induction false} ModStep(q: nat, j: nat, m: nat)
    requires m > 0 && j < m
    ensures (q * m + j) % m == j
  {
    if q > 0 {
      ModStep(q - 1, j, m);
      assert q * m + j == (q - 1) * m + j + m;
      AddModulus((q - 1) * m + j, m);
    }
  }

  lemma {:induction false} AddModulus(a: nat, m: nat)
    requires m > 0
    ensures (a + m) % m == a % m
  {
    var d := (a + m) / m - a / m;
    assert (a + m) % m - a % m == m - d * m;
    assert 0 - m < (a + m) % m - a % m < m;
    assert d < 1 ==> m - d * m >= m;
    assert d > 1 ==> m - d * m <= 0 - m;
  }

  // ---------- one time round ----------

  /** The result after going once over the dataset, stopping when `num` are reached. */
  function Pass(num: nat, b: Bounds, data: seq<Chat>, r: seq<seq<Item>>): seq<seq<Item>> {
    if data == [] then r
    else
      var q := Pass(num, b, data[..|data| - 1], r);
      var k := Kept(b, data[|data| - 1]);
      if |q| == num || k == [] then q else q + [k]
  }

  function Min(a: int, b: int): int {
    if a < b then a else b
  }

  /** A pass takes the eligible conversations in order, as many as are still wanted. */
  lemma {:induction false} PassTakes(num: nat, b: Bounds, data: seq<Chat>, r: seq<seq<Item>>)
    requires |r| <= num
    ensures var e := Eligible(b, data); Pass(num, b, data, r) == r + e[..Min(num - |r|, |e|)]
  {
    if data != [] {
      hide Kept;
      PassTakes(num, b, data[..|data| - 1], r);
    }
  }

  /** The outer loop makes no progress, and so never ends, exactly when nothing is eligible. */
  lemma {:induction false} PassStuckIff(num: nat, b: Bounds, data: seq<Chat>, r: seq<seq<Item>>)
    requires |r| < num
    ensures Pass(num, b, data, r) == r <==> forall i :: 0 <= i < |data| ==> Kept(b, data[i]) == []
  {
    hide Kept, Pass, Eligible;
    PassTakes(num, b, data, r);
    NoneEligible(b, data);
  }

  /** From the start of a round, a pass keeps the result cyclic. */
  lemma {:induction false} PassCyclic(num: nat, b: Bounds, data: seq<Chat>, r: seq<seq<Item>>)
    requires |r| < num && Cyclic(Eligible(b, data), r) && |r| % |Eligible(b, data)| == 0
    ensures var q := Pass(num, b, data, r);
            && |r| < |q| <= num && Cyclic(Eligible(b, data), q)
            && (|q| == num || |q| % |Eligible(b, data)| == 0)
  {
    hide Kept, Pass, Eligible;
    PassTakes(num, b, data, r);
    var e, q := Eligible(b, data), Pass(num, b, data, r);
    forall k | |r| <= k < |q| ensures q[k] == e[k % |e|] {
      ModPlus(|r|, k - |r|, |e|);
    }
    AddModulus(|r|, |e|);
  }

  /** The inner loop of `common_filter_chat`. */
  method OnePass(num: nat, data: seq<Chat>, b: Bounds, r0: seq<seq<Item>>, input0: nat, output0: nat)
    returns (r: seq<seq<Item>>, input: nat, output: nat)
    requires |r0| <= num && input0 == AllInput(r0) && output0 == AllOutput(r0)
    ensures r == Pass(num, b, data, r0) && |r| <= num
    ensures input == AllInput(r) && output == AllOutput(r)
  {
    hide Kept, InputTokens, OutputTokens;
    r, input, output := r0, input0, output0;
    for i := 0 to |data|
      invariant r == Pass(num, b, data[..i], r0) && |r| <= num
      invariant input == AllInput(r) && output == AllOutput(r)
    {
      if |r| == num {
        PassFull(num, b, data, r0, i);
        break;
      }
      assert data[..i + 1][..i] == data[..i];
      var items, input', output' := Process(b, data[i], input, output);
      if |items| != 0 {
        assert (r + [items])[..|r|] == r;
        r := r + [items];
      } else {
        NoTokens();
      }
      input, output := input', output';
    }
    assert data[..|data|] == data;
  }

  lemma {:induction false} PassFull(num: nat, b: Bounds, data: seq<Chat>, r: seq<seq<Item>>, i: nat)
    requires i <= |data| && |Pass(num, b, data[..i], r)| == num
    ensures Pass(num, b, data, r) == Pass(num, b, data[..i], r)
    decreases |data|
  {
    if i < |data| {
      assert data[..|data| - 1][..i] == data[..i];
      PassFull(num, b, data[..|data| - 1], r, i);
    } else {
      assert data[..i] == data;
    }
  }

  /** `common_filter_chat`, when something is eligible or nothing is asked for: it returns as
      many conversations as asked for, going round the eligible ones, and the totals are those
      of what is returned. */
  method CommonFilterChat(num: nat, data: seq<Chat>, b: Bounds)
    returns (r: seq<seq<Item>>, input: nat, output: nat)
    requires num == 0 || Eligible(b, data) != []
    ensures |r| == num
    ensures num > 0 ==> Cyclic(Eligible(b, data), r)
    ensures input == AllInput(r) && output == AllOutput(r)
  {
    hide Kept, Eligible, Pass;
    ghost var e := Eligible(b, data);
    r, input, output := [], 0, 0;
    while |r| < num
      invariant |r| <= num && (num > 0 ==> Cyclic(e, r))
      invariant |r| == num || |r| % |e| == 0
      invariant input == AllInput(r) && output == AllOutput(r)
      decreases num - |r|
    {
      PassCyclic(num, b, data, r);
      r, input, output := OnePass(num, data, b, r, input, output);
    }
  }

  lemma {:induction false} NoTokens()
    ensures InputTokens([]) == 0 && OutputTokens([]) == 0
  {
  }

  lemma {:induction false} EligibleNonEmpty(b: Bounds, data: seq<Chat>, k: nat)
    requires k < |Eligible(b, data)|
    ensures Eligible(b, data)[k] != []
  {
    if k < |Eligible(b, data[..|data| - 1])| { EligibleNonEmpty(b, data[..|data| - 1], k); }
  }

  /** No returned conversation is empty. */
  lemma {:induction false} CyclicNonEmpty(b: Bounds, data: seq<Chat>, r: seq<seq<Item>>, k: nat)
    requires Cyclic(Eligible(b, data), r) && k < |r|
    ensures r[k] != []
  {
    EligibleNonEmpty(b, data, k % |Eligible(b, data)|);
  }
}
