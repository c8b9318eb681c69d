/** Choosing where a chat history is cut: nls/agentic/compactor.py. */
module CutPoint {
  import opened Sequences
  import opened Messages

  // ----- Size estimates -----

  function ArgumentChars(calls: seq<ToolCall>): nat {
    if calls == [] then 0 else ArgumentChars(calls[..|calls| - 1]) + |calls[|calls| - 1].arguments|
  }

  function MessageChars(m: Message): nat {
    |m.content| + ArgumentChars(m.toolCalls)
  }

  function TotalChars(context: seq<Message>): nat {
    if context == [] then 0
    else TotalChars(context[..|context| - 1]) + MessageChars(context[|context| - 1])
  }

  function EstimatedTokens(context: seq<Message>): nat {
    TotalChars(context) / 4
  }

  method MeasureMessage(m: Message) returns (chars: nat)
    ensures chars == MessageChars(m)
  {
    chars := |m.content|;
    for i := 0 to |m.toolCalls|
      invariant chars == |m.content| + ArgumentChars(m.toolCalls[..i])
    {
      chars := chars + |m.toolCalls[i].arguments|;
      assert m.toolCalls[..i + 1][..i] == m.toolCalls[..i];
    }
    assert m.toolCalls[..|m.toolCalls|] == m.toolCalls;
  }

  method EstimateTokens(context: seq<Message>) returns (tokens: nat)
    ensures tokens == EstimatedTokens(context)
  {
    var chars := 0;
    for i := 0 to |context|
      invariant chars == TotalChars(context[..i])
    {
      var size := MeasureMessage(context[i]);
      chars := chars + size;
      assert context[..i + 1][..i] == context[..i];
    }
    assert context[..|context|] == context;
    tokens := chars / 4;
  }

  /** What the backward walk charges for one message: its size rounded down. */
  function MessageTokens(m: Message): nat {
    MessageChars(m) / 4
  }

  function SumTokens(context: seq<Message>): nat {
    if context == [] then 0 else MessageTokens(context[0]) + SumTokens(context[1..])
  }

  lemma SumNothing()
    ensures SumTokens([]) == 0
  {
  }

  lemma SumStep(context: seq<Message>, i: nat)
    requires i < |context|
    ensures SumTokens(context[i..]) == MessageTokens(context[i]) + SumTokens(context[i + 1..])
  {
    assert context[i..][1..] == context[i + 1..];
  }

  lemma {:induction false} SumTokensShrinks(context: seq<Message>, i: nat, j: nat)
    requires i <= j <= |context|
    ensures SumTokens(context[j..]) <= SumTokens(context[i..])
    decreases j - i
  {
    if i < j {
      SumStep(context, i);
      SumTokensShrinks(context, i + 1, j);
    }
  }

  lemma {:induction false} TotalCharsSplit(context: seq<Message>)
    requires context != []
    ensures TotalChars(context) == MessageChars(context[0]) + TotalChars(context[1..])
  {
    var n := |context|;
    if n == 1 {
      assert context[..0] == [] && context[1..] == [];
    } else {
      TotalCharsSplit(context[..n - 1]);
      assert context[..n - 1][1..] == context[1..][..n - 2];
    }
  }

  lemma {:induction false} RoundingLoss(context: seq<Message>)
    ensures 4 * SumTokens(context) <= TotalChars(context) <= 4 * SumTokens(context) + 3 * |context|
  {
    if context != [] {
      TotalCharsSplit(context);
      RoundingLoss(context[1..]);
    }
  }

  /** The estimate of a kept span exceeds what the walk charged by at most three quarters of a token a message. */
  lemma EstimateWithinBudget(context: seq<Message>)
    ensures SumTokens(context) <= EstimatedTokens(context) <= SumTokens(context) + 3 * |context| / 4
  {
    RoundingLoss(context);
  }

  // ----- The cut -----

  /** `c` is the smallest index whose suffix fits the budget, or the last message alone. */
  predicate IsBudgetCut(context: seq<Message>, keepTokens: int, c: nat) {
    if context == [] then c == 0
    else
      && c < |context|
      && (forall i {:trigger context[i..]} ::
          0 <= i < |context| - 1 ==> (c <= i <==> SumTokens(context[i..]) <= keepTokens))
  }

  /** Moves a cut left past tool results, never below 1. */
  function PullBack(context: seq<Message>, c: nat): (r: nat)
    requires c < |context|
    ensures r <= c
    ensures r > 1 ==> context[r].role != Tool
    ensures forall i :: r < i <= c ==> context[i].role == Tool
    ensures c >= 1 ==> r >= 1
  {
    if c > 1 && context[c].role == Tool then PullBack(context, c - 1) else c
  }

  /** The alignment applied after the budget walk. */
  function Align(context: seq<Message>, c: nat): (r: nat)
    requires c < |context| || context == []
    ensures r <= c
  {
    if c <= 1 || context == [] then 0
    else
      var r := PullBack(context, c);
      if r > 0 && IssuesCalls(context[r]) then r
      else if r > 1 && IssuesCalls(context[r - 1]) then r - 1
      else r
  }

  method WalkBack(context: seq<Message>, keepTokens: int) returns (cut: nat)
    ensures IsBudgetCut(context, keepTokens, cut)
  {
    hide SumTokens, MessageChars;
    var accum := 0;
    cut := |context|;
    var i := |context| - 1;
    assert context[cut..] == [];
    SumNothing();
    while i >= 0
      invariant -1 <= i < |context| && cut == i + 1
      invariant accum == SumTokens(context[cut..])
      invariant forall j {:trigger context[j..]} :: cut <= j < |context| - 1 ==> SumTokens(context[j..]) <= keepTokens
    {
      var chars := MeasureMessage(context[i]);
      SumStep(context, i);
      if accum + chars / 4 > keepTokens && cut < |context| {
        forall j {:trigger context[j..]} | 0 <= j < cut && j < |context| - 1
          ensures SumTokens(context[j..]) > keepTokens
        {
          SumTokensShrinks(context, j, i);
        }
        return;
      }
      accum := accum + chars / 4;
      cut := i;
      i := i - 1;
    }
  }

  method FindCutPoint(context: seq<Message>, keepTokens: int) returns (cut: nat)
    ensures cut <= |context|
    ensures exists c: nat :: IsBudgetCut(context, keepTokens, c) && cut == Align(context, c)
  {
    cut := WalkBack(context, keepTokens);
    ghost var c := cut;
    if cut <= 1 {
      return 0;
    }
    while cut > 1 && context[cut].role == Tool
      invariant 1 <= cut <= c
      invariant PullBack(context, c) == PullBack(context, cut)
    {
      cut := cut - 1;
    }
    if cut > 0 && IssuesCalls(context[cut]) {
    } else if cut > 1 && IssuesCalls(context[cut - 1]) {
      cut := cut - 1;
    }
  }

  lemma BudgetCutUnique(context: seq<Message>, keepTokens: int, c: nat, d: nat)
    requires IsBudgetCut(context, keepTokens, c) && IsBudgetCut(context, keepTokens, d)
    ensures c == d
  {
    if c < |context| - 1 {
      assert d <= c <==> SumTokens(context[c..]) <= keepTokens;
    }
    if d < |context| - 1 {
      assert c <= d <==> SumTokens(context[d..]) <= keepTokens;
    }
  }

  // ----- Tool exchanges -----

  /** Every call is answered by exactly one result, in any order. */
  predicate Answers(calls: seq<ToolCall>, results: seq<Message>) {
    && |calls| == |results|
    && multiset(seq(|calls|, i requires 0 <= i < |calls| => calls[i].id))
       == multiset(seq(|results|, i requires 0 <= i < |results| => results[i].toolCallId))
  }

  /** A message without calls, or an assistant turn with calls followed by their results. */
  predicate IsExchange(block: seq<Message>) {
    && block != []
    && block[0].role != Tool
    && (forall i :: 1 <= i < |block| ==> block[i].role == Tool)
    && Answers(if IssuesCalls(block[0]) then block[0].toolCalls else [], block[1..])
  }

  function Concat(blocks: seq<seq<Message>>): seq<Message> {
    if blocks == [] then [] else blocks[0] + Concat(blocks[1..])
  }

  ghost predicate MadeOf(context: seq<Message>, blocks: seq<seq<Message>>) {
    context == Concat(blocks) && forall i :: 0 <= i < |blocks| ==> IsExchange(blocks[i])
  }

  /** A history made of whole exchanges. */
  ghost predicate WellFormed(context: seq<Message>) {
    exists blocks :: MadeOf(context, blocks)
  }

  lemma ConcatStep(block: seq<Message>, rest: seq<seq<Message>>)
    ensures Concat([block] + rest) == block + Concat(rest)
  {
    assert ([block] + rest)[1..] == rest;
  }

  lemma {:induction false} ConcatAppend(left: seq<seq<Message>>, right: seq<seq<Message>>)
    ensures Concat(left + right) == Concat(left) + Concat(right)
  {
    if left == [] {
      assert left + right == right;
    } else {
      hide Concat;
      var block, rest := left[0], left[1..];
      assert left == [block] + rest && left + right == [block] + (rest + right);
      ConcatStep(block, rest);
      ConcatStep(block, rest + right);
      ConcatAppend(rest, right);
      assert block + (Concat(rest) + Concat(right)) == (block + Concat(rest)) + Concat(right);
    }
  }

  lemma WellFormedConcat(left: seq<Message>, right: seq<Message>)
    requires WellFormed(left) && WellFormed(right)
    ensures WellFormed(left + right)
  {
    var a :| MadeOf(left, a);
    var b :| MadeOf(right, b);
    ConcatAppend(a, b);
    assert MadeOf(left + right, a + b);
  }

  /** A position that does not hold a tool result is a boundary between exchanges. */
  lemma {:induction false} BoundaryOf(blocks: seq<seq<Message>>, c: nat) returns (k: nat)
    requires forall i :: 0 <= i < |blocks| ==> IsExchange(blocks[i])
    requires c <= |Concat(blocks)| && (c < |Concat(blocks)| ==> Concat(blocks)[c].role != Tool)
    ensures k <= |blocks| && Concat(blocks)[..c] == Concat(blocks[..k]) && Concat(blocks)[c..] == Concat(blocks[k..])
  {
    if c == 0 {
      k := 0;
      assert blocks[..0] == [];
      assert blocks[0..] == blocks;
    } else {
      hide Concat;
      var first, rest := blocks[0], blocks[1..];
      assert blocks == [first] + rest;
      ConcatStep(first, rest);
      NotInsideFirst(first, Concat(rest), c);
      var j := BoundaryOf(rest, c - |first|);
      k := j + 1;
      SlicesAfterFirst(first, rest, j);
      ConcatStep(first, rest[..j]);
    }
  }

  lemma NotInsideFirst(block: seq<Message>, rest: seq<Message>, c: nat)
    requires IsExchange(block) && 0 < c <= |block + rest|
    requires c < |block + rest| ==> (block + rest)[c].role != Tool
    ensures c >= |block|
    ensures (block + rest)[..c] == block + rest[..c - |block|]
    ensures (block + rest)[c..] == rest[c - |block|..]
    ensures c < |block + rest| ==> rest[c - |block|] == (block + rest)[c]
  {
  }

  /** A history of whole exchanges may be split before any message that is not a tool result. */
  lemma SplitBetweenExchanges(context: seq<Message>, c: nat)
    requires WellFormed(context)
    requires c <= |context| && (c < |context| ==> context[c].role != Tool)
    ensures WellFormed(context[..c]) && WellFormed(context[c..])
  {
    var blocks :| MadeOf(context, blocks);
    var k := BoundaryOf(blocks, c);
    assert MadeOf(context[..c], blocks[..k]) && MadeOf(context[c..], blocks[k..]);
  }

  /** A cut above 1 never separates calls from results: both sides are again made of whole exchanges. */
  lemma CutKeepsExchangesWhole(context: seq<Message>, c: nat)
    requires WellFormed(context) && c < |context| && Align(context, c) > 1
    ensures WellFormed(context[..Align(context, c)]) && WellFormed(context[Align(context, c)..])
  {
    SplitBetweenExchanges(context, Align(context, c));
  }

  // ----- What sizes count -----

  lemma {:induction false} ArgumentsOneMore(calls: seq<ToolCall>, call: ToolCall)
    ensures ArgumentChars(calls + [call]) == ArgumentChars(calls) + |call.arguments|
  {
    assert (calls + [call])[..|calls|] == calls;
  }

  /** The size of a message is that of its body, and each call adds its arguments. */
  lemma MessageSize(role: Role, content: string, calls: seq<ToolCall>, call: ToolCall, id: string)
    ensures MessageChars(Message(role, content, [], id)) == |content|
    ensures MessageChars(Message(role, content, calls + [call], id))
              == MessageChars(Message(role, content, calls, id)) + |call.arguments|
  {
    ArgumentsOneMore(calls, call);
  }

  /** The estimate of a longer history grows by a quarter of the size of what is added, give or take one. */
  lemma EstimateOneMore(context: seq<Message>, m: Message)
    ensures TotalChars(context + [m]) == TotalChars(context) + MessageChars(m)
    ensures 4 * EstimatedTokens(context) <= TotalChars(context) < 4 * EstimatedTokens(context) + 4
  {
    assert (context + [m])[..|context|] == context;
  }

  /** A smaller budget never cuts earlier. */
  lemma SmallerBudgetCutsMore(context: seq<Message>, keep: int, less: int, c: nat, d: nat)
    requires less <= keep && IsBudgetCut(context, keep, c) && IsBudgetCut(context, less, d)
    ensures c <= d
  {
    if d < |context| - 1 {
      assert SumTokens(context[d..]) <= less;
    }
  }
}
