/** Tool exchanges: which results answer which turn, and what stays whole when part of a history is kept. */
module Exchanges {
  import opened Sequences
  import opened Messages
  import opened CutPoint

  /** Neither a tool result nor a turn that issues calls. */
  predicate IsPlain(m: Message) {
    m.role != Tool && !IssuesCalls(m)
  }

  predicate AllPlain(messages: seq<Message>) {
    forall i :: 0 <= i < |messages| ==> IsPlain(messages[i])
  }

  lemma PlainFirst(m: Message, rest: seq<Message>)
    requires IsPlain(m)
    ensures WellFormed([m] + rest) <==> WellFormed(rest)
  {
    hide Concat, Answers;
    if blocks :| MadeOf([m] + rest, blocks) {
      assert blocks != [] by { ConcatOfNothing(); }
      var first, others := blocks[0], blocks[1..];
      assert blocks == [first] + others;
      ConcatStep(first, others);
      assert (first + Concat(others))[0] == first[0];
      NoCallsNoResults(first);
      assert rest == ([m] + rest)[1..] == ([m] + Concat(others))[1..] == Concat(others);
      assert MadeOf(rest, others);
    }
    if blocks :| MadeOf(rest, blocks) {
      PlainIsExchange(m);
      ConcatStep([m], blocks);
      assert MadeOf([m] + rest, [[m]] + blocks);
    }
  }

  lemma ConcatOfNothing()
    ensures Concat([]) == []
  {
  }

  lemma NoCallsNoResults(block: seq<Message>)
    requires IsExchange(block) && IsPlain(block[0])
    ensures |block| == 1
  {
  }

  lemma PlainIsExchange(m: Message)
    requires IsPlain(m)
    ensures IsExchange([m])
  {
  }

  lemma {:induction false} PlainFront(front: seq<Message>, rest: seq<Message>)
    requires AllPlain(front)
    ensures WellFormed(front + rest) <==> WellFormed(rest)
  {
    hide WellFormed, IsPlain;
    if front == [] {
      assert front + rest == rest;
    } else {
      assert front + rest == [front[0]] + (front[1..] + rest);
      PlainFirst(front[0], front[1..] + rest);
      PlainFront(front[1..], rest);
    }
  }

  lemma SystemIsPlain(messages: seq<Message>)
    requires forall m :: m in messages ==> m.role == System
    ensures AllPlain(messages)
  {
  }

  lemma FirstIsNoResult(context: seq<Message>)
    requires WellFormed(context) && context != []
    ensures context[0].role != Tool
  {
    hide Answers;
    var blocks :| MadeOf(context, blocks);
    assert context[0] == blocks[0][0];
  }

  lemma {:induction false} OthersOfConcat(blocks: seq<seq<Message>>)
    requires forall i :: 0 <= i < |blocks| ==> IsExchange(blocks[i])
    ensures WellFormed(OtherMessages(Concat(blocks)))
  {
    if blocks == [] {
      assert MadeOf([], []);
    } else {
      hide WellFormed, IsExchange, Filter;
      var first, rest := blocks[0], blocks[1..];
      assert blocks == [first] + rest;
      OthersOfConcat(rest);
      ConcatStep(first, rest);
      FilterConcat(first, Concat(rest), IsNotSystem);
      OthersOfExchange(first);
      hide Concat;
      WellFormedConcat(OtherMessages(first), OtherMessages(Concat(rest)));
    }
  }

  lemma OthersOfExchange(block: seq<Message>)
    requires IsExchange(block)
    ensures WellFormed(OtherMessages(block))
  {
    if block[0].role == System {
      NoCallsNoResults(block);
      hide IsExchange;
      assert block == [block[0]] + [];
      FilterStep(block[0], [], IsNotSystem);
      assert MadeOf([], []);
    } else {
      hide Answers;
      FilterAll(block, IsNotSystem);
      hide IsExchange;
      assert Concat([block]) == block;
      assert MadeOf(block, [block]);
    }
  }

  /** Setting system messages aside never separates calls from results. */
  lemma OthersStayWhole(context: seq<Message>)
    requires WellFormed(context)
    ensures WellFormed(OtherMessages(context))
  {
    var blocks :| MadeOf(context, blocks);
    OthersOfConcat(blocks);
  }

  // ----- Which result answers which turn -----

  predicate AnsweredBy(turn: Message, result: Message) {
    IssuesCalls(turn) && result.role == Tool && exists call :: call in turn.toolCalls && call.id == result.toolCallId
  }

  /** No two tool results carry the same call id. */
  predicate UniqueResultIds(context: seq<Message>) {
    forall i, j :: 0 <= i < j < |context| && context[i].role == Tool && context[j].role == Tool ==>
      context[i].toolCallId != context[j].toolCallId
  }

  predicate DisjointResults(left: seq<Message>, right: seq<Message>) {
    forall i, j :: 0 <= i < |left| && 0 <= j < |right| && left[i].role == Tool && right[j].role == Tool ==>
      left[i].toolCallId != right[j].toolCallId
  }

  lemma ResultsDiffer(left: seq<Message>, right: seq<Message>, i: nat, j: nat)
    requires DisjointResults(left, right) && i < |left| && j < |right| && left[i].role == Tool && right[j].role == Tool
    ensures left[i].toolCallId != right[j].toolCallId
  {
  }

  lemma UniqueParts(left: seq<Message>, right: seq<Message>)
    requires UniqueResultIds(left + right)
    ensures UniqueResultIds(left) && UniqueResultIds(right) && DisjointResults(left, right)
  {
    var all := left + right;
    assert forall i :: 0 <= i < |left| ==> all[i] == left[i];
    assert forall j :: 0 <= j < |right| ==> all[|left| + j] == right[j];
    forall i, j | 0 <= i < |left| && 0 <= j < |right| && left[i].role == Tool && right[j].role == Tool
      ensures left[i].toolCallId != right[j].toolCallId
    {
      assert all[i] == left[i] && all[|left| + j] == right[j];
    }
    forall i, j | 0 <= i < j < |right| && right[i].role == Tool && right[j].role == Tool
      ensures right[i].toolCallId != right[j].toolCallId
    {
      assert all[|left| + i] == right[i] && all[|left| + j] == right[j];
    }
  }

  lemma AnswerExists(calls: seq<ToolCall>, results: seq<Message>, i: nat) returns (k: nat)
    requires Answers(calls, results) && i < |calls|
    ensures k < |results| && results[k].toolCallId == calls[i].id
  {
    var ids := seq(|calls|, j requires 0 <= j < |calls| => calls[j].id);
    var answered := seq(|results|, j requires 0 <= j < |results| => results[j].toolCallId);
    assert ids[i] in multiset(ids);
    assert ids[i] in answered;
    k :| 0 <= k < |answered| && answered[k] == ids[i];
  }

  lemma AnswerInExchange(block: seq<Message>, i: nat, call: ToolCall) returns (k: nat)
    requires IsExchange(block) && i < |block| && IssuesCalls(block[i]) && call in block[i].toolCalls
    ensures k < |block| && block[k].role == Tool && block[k].toolCallId == call.id
  {
    hide Answers;
    assert i == 0;
    var c :| 0 <= c < |block[0].toolCalls| && block[0].toolCalls[c] == call;
    var r := AnswerExists(block[0].toolCalls, block[1..], c);
    k := r + 1;
  }

  lemma {:induction false} AnswerInBlocks(blocks: seq<seq<Message>>, i: nat, call: ToolCall) returns (k: nat)
    requires forall b :: 0 <= b < |blocks| ==> IsExchange(blocks[b])
    requires i < |Concat(blocks)| && IssuesCalls(Concat(blocks)[i]) && call in Concat(blocks)[i].toolCalls
    ensures k < |Concat(blocks)| && Concat(blocks)[k].role == Tool && Concat(blocks)[k].toolCallId == call.id
  {
    assert blocks != [];
    hide *;
    var first, rest := blocks[0], blocks[1..];
    assert blocks == [first] + rest;
    ConcatStep(first, rest);
    if i < |first| {
      k := AnswerInExchange(first, i, call);
    } else {
      var r := AnswerInBlocks(rest, i - |first|, call);
      k := r + |first|;
    }
  }

  lemma CallExists(calls: seq<ToolCall>, results: seq<Message>, k: nat) returns (i: nat)
    requires Answers(calls, results) && k < |results|
    ensures i < |calls| && calls[i].id == results[k].toolCallId
  {
    var ids := seq(|calls|, j requires 0 <= j < |calls| => calls[j].id);
    var answered := seq(|results|, j requires 0 <= j < |results| => results[j].toolCallId);
    assert answered[k] in multiset(answered);
    assert answered[k] in ids;
    i :| 0 <= i < |ids| && ids[i] == answered[k];
  }

  /** In an exchange every result answers the turn. */
  lemma ResultsAnswer(block: seq<Message>, k: nat)
    requires IsExchange(block) && 1 <= k < |block|
    ensures AnsweredBy(block[0], block[k])
  {
    hide Answers;
    var calls := if IssuesCalls(block[0]) then block[0].toolCalls else [];
    var i := CallExists(calls, block[1..], k - 1);
    assert calls[i] in block[0].toolCalls;
  }

  // ----- Keeping part of a history -----

  function Selected(messages: seq<Message>, flags: seq<bool>): (r: seq<Message>)
    requires |flags| == |messages|
    ensures |r| <= |messages|
  {
    if messages == [] then []
    else (if flags[0] then [messages[0]] else []) + Selected(messages[1..], flags[1..])
  }

  /** A turn is kept exactly if the results that answer it are. */
  predicate KeptTogether(messages: seq<Message>, flags: seq<bool>)
    requires |flags| == |messages|
  {
    forall i, k :: 0 <= i < |messages| && 0 <= k < |messages| && AnsweredBy(messages[i], messages[k]) ==>
        flags[i] == flags[k]
  }

  predicate AllOrNone(flags: seq<bool>) {
    forall i :: 0 <= i < |flags| ==> flags[i] == flags[0]
  }

  lemma {:induction false} SelectedConcat(s: seq<Message>, t: seq<Message>, f: seq<bool>, g: seq<bool>)
    requires |f| == |s| && |g| == |t|
    ensures Selected(s + t, f + g) == Selected(s, f) + Selected(t, g)
  {
    if s == [] {
      assert s + t == t && f + g == g;
    } else {
      assert (s + t)[1..] == s[1..] + t && (f + g)[1..] == f[1..] + g;
      SelectedConcat(s[1..], t, f[1..], g);
      var head := if f[0] then [s[0]] else [];
      AppendAssoc(head, Selected(s[1..], f[1..]), Selected(t, g));
    }
  }

  lemma {:induction false} SelectedMember(messages: seq<Message>, flags: seq<bool>, m: Message) returns (k: nat)
    requires |flags| == |messages| && m in Selected(messages, flags)
    ensures k < |messages| && flags[k] && messages[k] == m
  {
    if flags[0] && m == messages[0] {
      k := 0;
    } else {
      var j := SelectedMember(messages[1..], flags[1..], m);
      k := j + 1;
    }
  }

  lemma {:induction false} SelectedWhole(messages: seq<Message>, flags: seq<bool>)
    requires |flags| == |messages|
    ensures (forall i :: 0 <= i < |flags| ==> flags[i]) <==> |Selected(messages, flags)| == |messages|
    ensures (forall i :: 0 <= i < |flags| ==> flags[i]) ==> Selected(messages, flags) == messages
    ensures (forall i :: 0 <= i < |flags| ==> !flags[i]) <==> Selected(messages, flags) == []
  {
    if messages != [] {
      SelectedWhole(messages[1..], flags[1..]);
      assert flags == [flags[0]] + flags[1..];
      assert messages == [messages[0]] + messages[1..];
    }
  }

  function CallCount(m: Message): nat {
    if IssuesCalls(m) then |m.toolCalls| else 0
  }

  /** The first message and its number of calls determine the first exchange. */
  lemma FirstExchange(context: seq<Message>)
    requires WellFormed(context) && context != []
    ensures var n := 1 + CallCount(context[0]);
            n <= |context| && IsExchange(context[..n]) && WellFormed(context[n..])
  {
    var blocks :| MadeOf(context, blocks);
    assert blocks != [] by { ConcatOfNothing(); }
    var first, others := blocks[0], blocks[1..];
    assert blocks == [first] + others;
    ConcatStep(first, others);
    assert first[0] == context[0] && |first| == 1 + CallCount(context[0]);
    hide IsExchange, Concat;
    assert context[..|first|] == first && context[|first|..] == Concat(others);
    assert MadeOf(context[|first|..], others);
  }

  lemma ExchangeInFront(block: seq<Message>, rest: seq<Message>)
    requires IsExchange(block)
    ensures WellFormed(block + rest) <==> WellFormed(rest)
  {
    if WellFormed(block + rest) {
      FirstExchange(block + rest);
      assert (block + rest)[|block|..] == rest;
    }
    hide IsExchange, Concat;
    if blocks :| MadeOf(rest, blocks) {
      ConcatStep(block, blocks);
      assert MadeOf(block + rest, [block] + blocks);
    }
  }

  /** Results without their turn stand at the front, where no exchange begins. */
  lemma LoneResults(block: seq<Message>, flags: seq<bool>, rest: seq<Message>)
    requires IsExchange(block) && |flags| == |block| && !flags[0] && !AllOrNone(flags)
    ensures !WellFormed(Selected(block, flags) + rest)
  {
    hide WellFormed, Answers;
    var piece := Selected(block[1..], flags[1..]);
    SelectedWhole(block[1..], flags[1..]);
    assert Selected(block, flags) == [] + piece == piece;
    assert piece != [];
    var k := SelectedMember(block[1..], flags[1..], piece[0]);
    if WellFormed(piece + rest) {
      FirstIsNoResult(piece + rest);
    }
  }

  lemma ExchangeLength(block: seq<Message>)
    requires IsExchange(block)
    ensures block != [] && |block| == 1 + CallCount(block[0])
  {
  }

  lemma AnsweredWithin(block: seq<Message>, result: Message) returns (k: nat)
    requires IsExchange(block) && AnsweredBy(block[0], result)
    ensures k < |block| && block[k].role == Tool && block[k].toolCallId == result.toolCallId && result.role == Tool
  {
    hide Answers;
    var call :| call in block[0].toolCalls && call.id == result.toolCallId;
    k := AnswerInExchange(block, 0, call);
  }

  /** A turn without all of its results takes none from elsewhere. */
  lemma MissingResults(block: seq<Message>, flags: seq<bool>, rest: seq<Message>)
    requires IsExchange(block) && |flags| == |block| && flags[0] && !AllOrNone(flags)
    requires DisjointResults(block, rest)
    ensures !WellFormed(Selected(block, flags) + rest)
  {
    hide WellFormed, Selected, DisjointResults, IsExchange, CallCount, AnsweredBy;
    var piece := Selected(block, flags);
    ExchangeLength(block);
    SelectedWhole(block, flags);
    KeepsFirst(block, flags);
    if WellFormed(piece + rest) {
      FirstExchange(piece + rest);
      var first := (piece + rest)[..|block|];
      assert first[0] == block[0] && first[|piece|] == rest[0];
      ResultsAnswer(first, |piece|);
      var k := AnsweredWithin(block, rest[0]);
      ResultsDiffer(block, rest, k, 0);
    }
  }

  lemma KeepsFirst(messages: seq<Message>, flags: seq<bool>)
    requires |flags| == |messages| && messages != [] && flags[0]
    ensures Selected(messages, flags) != [] && Selected(messages, flags)[0] == messages[0]
  {
  }

  /** Part of an exchange in front of messages with other result ids: whole only if all of it is kept, or none. */
  lemma PieceFits(block: seq<Message>, flags: seq<bool>, rest: seq<Message>)
    requires IsExchange(block) && |flags| == |block|
    requires DisjointResults(block, rest)
    ensures WellFormed(Selected(block, flags) + rest) <==> AllOrNone(flags) && WellFormed(rest)
  {
    hide WellFormed, Selected, Answers;
    SelectedWhole(block, flags);
    if !AllOrNone(flags) {
      if flags[0] {
        MissingResults(block, flags, rest);
      } else {
        LoneResults(block, flags, rest);
      }
    } else if flags[0] {
      ExchangeInFront(block, rest);
    } else {
      assert [] + rest == rest;
    }
  }

  lemma TogetherInExchange(block: seq<Message>, flags: seq<bool>)
    requires IsExchange(block) && |flags| == |block|
    ensures KeptTogether(block, flags) <==> AllOrNone(flags)
  {
    hide Answers;
    if KeptTogether(block, flags) {
      forall k | 0 <= k < |flags| ensures flags[k] == flags[0] {
        if k > 0 { ResultsAnswer(block, k);
      }
      }
    }
  }

  lemma TogetherConcat(left: seq<Message>, right: seq<Message>, f: seq<bool>, g: seq<bool>)
    requires |f| == |left| && |g| == |right| && KeptTogether(left + right, f + g)
    ensures KeptTogether(left, f) && KeptTogether(right, g)
  {
    hide AnsweredBy;
    var all, flags := left + right, f + g;
    forall i, k | 0 <= i < |left| && 0 <= k < |left| && AnsweredBy(left[i], left[k]) ensures f[i] == f[k] {
      assert all[i] == left[i] && all[k] == left[k] && flags[i] == f[i] && flags[k] == f[k];
    }
    forall i, k | 0 <= i < |right| && 0 <= k < |right| && AnsweredBy(right[i], right[k]) ensures g[i] == g[k] {
      var n := |left|;
      assert all[n + i] == right[i] && all[n + k] == right[k] && flags[n + i] == g[i] && flags[n + k] == g[k];
    }
  }

  /** No answer crosses from one part to the other. */
  predicate AnsweredApart(left: seq<Message>, right: seq<Message>) {
    forall i, k :: 0 <= i < |left| && 0 <= k < |right| ==>
        !AnsweredBy(left[i], right[k]) && !AnsweredBy(right[k], left[i])
  }

  lemma SameSide(left: seq<Message>, right: seq<Message>, i: nat, k: nat)
    requires AnsweredApart(left, right) && i < |left + right| && k < |left + right|
    requires AnsweredBy((left + right)[i], (left + right)[k])
    ensures i < |left| <==> k < |left|
  {
    hide AnsweredBy;
  }

  lemma TogetherApart(left: seq<Message>, right: seq<Message>, f: seq<bool>, g: seq<bool>)
    requires |f| == |left| && |g| == |right| && KeptTogether(left, f) && KeptTogether(right, g)
               && AnsweredApart(left, right)
    ensures KeptTogether(left + right, f + g)
  {
    hide AnsweredBy, AnsweredApart;
    var all, flags, n := left + right, f + g, |left|;
    forall i, k | 0 <= i < |all| && 0 <= k < |all| && AnsweredBy(all[i], all[k]) ensures flags[i] == flags[k] {
      SameSide(left, right, i, k);
      if i < n {
        assert all[i] == left[i] && all[k] == left[k];
      } else {
        assert all[i] == right[i - n] && all[k] == right[k - n];
      }
    }
  }

  /** Turns are answered within their own exchange. */
  lemma ExchangesApart(block: seq<Message>, rest: seq<seq<Message>>)
    requires IsExchange(block) && (forall b :: 0 <= b < |rest| ==> IsExchange(rest[b]))
    requires DisjointResults(block, Concat(rest))
    ensures AnsweredApart(block, Concat(rest))
  {
    hide IsExchange, Concat, DisjointResults;
    var tail := Concat(rest);
    forall i, k | 0 <= i < |block| && 0 <= k < |tail|
      ensures !AnsweredBy(block[i], tail[k]) && !AnsweredBy(tail[k], block[i])
    {
      if call :| AnsweredBy(block[i], tail[k]) && call in block[i].toolCalls && call.id == tail[k].toolCallId {
        var j := AnswerInExchange(block, i, call);
        ResultsDiffer(block, tail, j, k);
      }
      if call :| AnsweredBy(tail[k], block[i]) && call in tail[k].toolCalls && call.id == block[i].toolCallId {
        var j := AnswerInBlocks(rest, k, call);
        ResultsDiffer(block, tail, i, j);
      }
    }
  }

  lemma {:induction false} SelectedBlocks(blocks: seq<seq<Message>>, flags: seq<bool>)
    requires forall i :: 0 <= i < |blocks| ==> IsExchange(blocks[i])
    requires |flags| == |Concat(blocks)| && UniqueResultIds(Concat(blocks))
    ensures WellFormed(Selected(Concat(blocks), flags)) <==> KeptTogether(Concat(blocks), flags)
  {
    if blocks == [] {
      assert MadeOf([], []);
    } else {
      hide *;
      var block, rest := blocks[0], blocks[1..];
      assert blocks == [block] + rest;
      ConcatStep(block, rest);
      var tail := Concat(rest);
      var f, g := flags[..|block|], flags[|block|..];
      SplitAt(flags, |block|);
      UniqueParts(block, tail);
      SelectedBlocks(rest, g);
      SelectedConcat(block, tail, f, g);
      SelectedStaysDisjoint(block, tail, g);
      PieceFits(block, f, Selected(tail, g));
      ExchangesApart(block, rest);
      TogetherSplits(block, tail, f, g);
    }
  }

  lemma TogetherSplits(block: seq<Message>, tail: seq<Message>, f: seq<bool>, g: seq<bool>)
    requires IsExchange(block) && |f| == |block| && |g| == |tail| && AnsweredApart(block, tail)
    ensures KeptTogether(block + tail, f + g) <==> AllOrNone(f) && KeptTogether(tail, g)
  {
    hide IsExchange, AnsweredApart, KeptTogether, AllOrNone;
    TogetherInExchange(block, f);
    if KeptTogether(block + tail, f + g) {
      TogetherConcat(block, tail, f, g);
    }
    if KeptTogether(block, f) && KeptTogether(tail, g) {
      TogetherApart(block, tail, f, g);
    }
  }

  lemma SelectedStaysDisjoint(left: seq<Message>, right: seq<Message>, flags: seq<bool>)
    requires DisjointResults(left, right) && |flags| == |right|
    ensures DisjointResults(left, Selected(right, flags))
  {
    hide Selected;
    var kept := Selected(right, flags);
    forall i, j | 0 <= i < |left| && 0 <= j < |kept| && left[i].role == Tool && kept[j].role == Tool
      ensures left[i].toolCallId != kept[j].toolCallId
    {
      var k := SelectedMember(right, flags, kept[j]);
    }
  }

  /** Keeping part of a history leaves whole exchanges exactly if every turn is kept or dropped with its results. */
  lemma KeepingPartIsWhole(context: seq<Message>, flags: seq<bool>)
    requires WellFormed(context) && UniqueResultIds(context) && |flags| == |context|
    ensures WellFormed(Selected(context, flags)) <==> KeptTogether(context, flags)
  {
    var blocks :| MadeOf(context, blocks);
    SelectedBlocks(blocks, flags);
  }

  // ----- Where a cut is aligned -----

  /** `s` is the message at or before `c` behind which only results stand up to `c`. */
  predicate IsTurnOf(context: seq<Message>, c: nat, s: nat)
    requires c < |context|
  {
    s <= c && context[s].role != Tool && forall i :: s < i <= c ==> context[i].role == Tool
  }

  lemma {:induction false} PulledBackTo(context: seq<Message>, c: nat, s: nat)
    requires 1 <= c < |context| && IsTurnOf(context, c, s)
    ensures PullBack(context, c) == if s == 0 then 1 else s
    decreases c
  {
    if c > s && c > 1 {
      PulledBackTo(context, c - 1, s);
    }
  }

  /**
   * A cut of more than one message moves left to the turn of the results it would split off; to the turn before that
   * one, if that still waits for results; and never to the very first message.
   */
  lemma AlignExactly(context: seq<Message>, c: nat, s: nat)
    requires 1 < c < |context| && IsTurnOf(context, c, s)
    ensures Align(context, c) == if s == 0 then 1
                                 else if s > 1 && !IssuesCalls(context[s]) && IssuesCalls(context[s - 1]) then s - 1
                                 else s
    ensures Align(context, 0) == 0 && Align(context, 1) == 0
  {
    PulledBackTo(context, c, s);
    hide PullBack;
  }

  /** In a history of whole exchanges it is moved to the start of the exchange it falls into, no further. */
  lemma AlignedToExchange(context: seq<Message>, c: nat, s: nat)
    requires WellFormed(context) && 1 < c < |context| && IsTurnOf(context, c, s)
    ensures Align(context, c) == if s == 0 then 1 else s
  {
    hide WellFormed, Align;
    AlignExactly(context, c, s);
    if s > 1 && IssuesCalls(context[s - 1]) {
      SplitBetweenExchanges(context, s - 1);
      var rest := context[s - 1..];
      FirstExchange(rest);
      assert rest[1] == context[s] && rest[..1 + CallCount(rest[0])][1] == rest[1];
    }
  }
}
