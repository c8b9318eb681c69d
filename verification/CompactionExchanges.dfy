/** Whether a compacted history still pairs every tool call with its result. */
module CompactionExchanges {
  import opened Sequences
  import opened Text
  import opened Messages
  import opened CutPoint
  import opened Exchanges
  import opened Anchor
  import opened Sanitizer
  import opened CleanUp
  import opened KeptExchanges
  import opened Compaction

  // ----- Keeping by a condition -----

  function FlagsOf(messages: seq<Message>, keep: Message -> bool): (flags: seq<bool>)
    ensures |flags| == |messages| && forall i :: 0 <= i < |flags| ==> flags[i] == keep(messages[i])
  {
    seq(|messages|, i requires 0 <= i < |messages| => keep(messages[i]))
  }

  lemma {:induction false} FilterIsSelected(messages: seq<Message>, keep: Message -> bool)
    ensures Filter(messages, keep) == Selected(messages, FlagsOf(messages, keep))
  {
    if messages != [] {
      FilterIsSelected(messages[1..], keep);
      assert FlagsOf(messages, keep)[1..] == FlagsOf(messages[1..], keep);
    }
  }

  predicate IsMovedPriority(m: Message) {
    m.role != System && IsPriority(m)
  }

  lemma {:induction false} PriorityIsFilter(messages: seq<Message>)
    ensures PriorityMessages(messages) == Filter(messages, IsMovedPriority)
  {
    if messages != [] {
      hide IsPriority;
      PriorityIsFilter(messages[1..]);
      FilterStep(messages[0], OtherMessages(messages[1..]), IsPriority);
    }
  }

  lemma {:induction false} FilterKeepsUnique(messages: seq<Message>, keep: Message -> bool)
    requires UniqueResultIds(messages)
    ensures UniqueResultIds(Filter(messages, keep))
  {
    hide Filter;
    var f := Filter(messages, keep);
    forall i, j | 0 <= i < j < |f| && f[i].role == Tool && f[j].role == Tool
      ensures f[i].toolCallId != f[j].toolCallId
    {
      var p, q := FilterPositions(messages, keep, i, j);
    }
  }

  // ----- The anchored step -----

  /** Adding the stand-in user message, behind plain messages, decides nothing. */
  lemma StandInBehindPlain(front: seq<Message>, back: seq<Message>, pool: seq<Message>)
    requires AllPlain(front)
    ensures WellFormed(WithUser(front + back, |front|, pool)) <==> WellFormed(back)
  {
    hide WellFormed, StandIn, HasRole;
    PlainFront(front, back);
    if !HasRole(front + back, User) {
      var added := front + [StandIn(pool)];
      assert (front + back)[..|front|] == front && (front + back)[|front|..] == back;
      assert IsPlain(StandIn(pool));
      PlainFront(added, back);
    }
  }

  lemma AnchoredWholeIfPriorityIs(context: seq<Message>, c: nat, a: Summary)
    requires WellFormed(context) && c < |context| && Align(context, c) > 1
    ensures WellFormed(AnchoredKept(context, Align(context, c), a)) <==>
              WellFormed(PriorityMessages(context[..Align(context, c)]))
  {
    hide WellFormed, Align, KeptSystem, PriorityMessages, ToSummarize, ContextMessage, WithUser, IsPlain;
    var cut := Align(context, c);
    var dropped, suffix := context[..cut], context[cut..];
    var front, priority := KeptSystem(dropped) + [ContextMessage(a)], PriorityMessages(dropped);
    KeptSystemIsPlain(dropped, a);
    StandInBehindPlain(front, priority + suffix, ToSummarize(dropped));
    CutKeepsExchangesWhole(context, c);
    CutNotAtResult(context, c);
    if WellFormed(priority) {
      WellFormedConcat(priority, suffix);
    }
    if WellFormed(priority + suffix) {
      assert (priority + suffix)[..|priority|] == priority;
      SplitBetweenExchanges(priority + suffix, |priority|);
    }
  }

  /** A turn is a priority message exactly if the results that answer it are. */
  predicate PriorityTogether(messages: seq<Message>) {
    forall i, k :: 0 <= i < |messages| && 0 <= k < |messages| && AnsweredBy(messages[i], messages[k]) ==>
      (IsPriority(messages[i]) <==> IsPriority(messages[k]))
  }

  /**
   * The anchored history pairs every call with its result exactly when, in the dropped span, a turn is moved for being
   * a priority message together with its results or not at all.
   */
  lemma AnchoredKeepsExchangesWhole(context: seq<Message>, c: nat, a: Summary)
    requires WellFormed(context) && c < |context| && Align(context, c) > 1
    requires UniqueResultIds(context[..Align(context, c)])
    ensures WellFormed(AnchoredKept(context, Align(context, c), a)) <==> PriorityTogether(context[..Align(context, c)])
  {
    hide WellFormed, Align, AnchoredKept, PriorityMessages, Selected, UniqueResultIds, Filter, IsPriority;
    var dropped := context[..Align(context, c)];
    var flags := FlagsOf(dropped, IsMovedPriority);
    AnchoredWholeIfPriorityIs(context, c, a);
    CutKeepsExchangesWhole(context, c);
    PriorityIsFilter(dropped);
    FilterIsSelected(dropped, IsMovedPriority);
    KeepingPartIsWhole(dropped, flags);
  }

  lemma CutNotAtResult(context: seq<Message>, c: nat)
    requires c < |context| && Align(context, c) > 1
    ensures context[Align(context, c)].role != Tool
  {
  }

  lemma KeptSystemIsPlain(dropped: seq<Message>, a: Summary)
    ensures AllPlain(KeptSystem(dropped) + [ContextMessage(a)])
  {
    forall m | m in KeptSystem(dropped) ensures m.role == System {
      FilterMember(SystemMessages(dropped), IsNotSummary, m);
      FilterMember(dropped, IsSystem, m);
    }
    hide Filter, KeptSystem, Render;
    SystemIsPlain(KeptSystem(dropped) + [ContextMessage(a)]);
  }

  // ----- The fallback -----

  /** The turns the fallback keeps: old priority messages, then the recent ones. */
  function FallbackTurns(context: seq<Message>, force: bool): seq<Message> {
    var other := OtherMessages(context);
    var stale := OldCount(|other|, force);
    Filter(other[..stale], IsPriority) + other[stale..]
  }

  lemma FallbackWholeIfTurnsAre(context: seq<Message>, force: bool)
    ensures WellFormed(SimpleKept(context, force)) <==> WellFormed(FallbackTurns(context, force))
  {
    hide WellFormed, Filter, IsPriority, WithUser, IsPlain, OldCount;
    var systems := SystemMessages(context);
    forall m | m in systems ensures m.role == System { FilterMember(context, IsSystem, m); }
    SystemIsPlain(systems);
    var other := OtherMessages(context);
    var stale := OldCount(|other|, force);
    AppendAssoc(systems, Filter(other[..stale], IsPriority), other[stale..]);
    assert RecentBase(context, force) == systems + FallbackTurns(context, force);
    StandInBehindPlain(systems, FallbackTurns(context, force), other);
  }

  /** Which of the messages that are no system messages the fallback keeps. */
  function KeptFlags(other: seq<Message>, stale: nat): (flags: seq<bool>)
    requires stale <= |other|
    ensures |flags| == |other| && forall i :: 0 <= i < |flags| ==> flags[i] == (i >= stale || IsPriority(other[i]))
  {
    seq(|other|, i requires 0 <= i < |other| => i >= stale || IsPriority(other[i]))
  }

  lemma KeptIsSelected(other: seq<Message>, stale: nat)
    requires stale <= |other|
    ensures Filter(other[..stale], IsPriority) + other[stale..] == Selected(other, KeptFlags(other, stale))
  {
    hide Filter, Selected, IsPriority, FlagsOf, KeptFlags;
    var before, recent := other[..stale], other[stale..];
    var f, g := FlagsOf(before, IsPriority), FlagsOf(recent, IsMessage);
    FilterIsSelected(before, IsPriority);
    SelectedWhole(recent, g);
    SelectedConcat(before, recent, f, g);
    KeptFlagsSplit(other, stale);
    assert other == before + recent;
  }

  predicate IsMessage(m: Message) {
    true
  }

  lemma KeptFlagsSplit(other: seq<Message>, stale: nat)
    requires stale <= |other|
    ensures KeptFlags(other, stale) == FlagsOf(other[..stale], IsPriority) + FlagsOf(other[stale..], IsMessage)
  {
    hide IsPriority;
  }

  /**
   * The recency fallback takes no care of tool exchanges: it keeps them whole exactly if each turn is kept together
   * with its results or not at all, where a message is kept for being recent or for being a priority message.
   */
  lemma FallbackKeepsExchangesWhole(context: seq<Message>, force: bool)
    requires WellFormed(context) && UniqueResultIds(context)
    ensures var other := OtherMessages(context);
            WellFormed(SimpleKept(context, force)) <==>
                KeptTogether(other, KeptFlags(other, OldCount(|other|, force)))
  {
    hide WellFormed, Filter, IsPriority, SimpleKept, OldCount, UniqueResultIds, Selected, KeptFlags;
    var other := OtherMessages(context);
    var stale := OldCount(|other|, force);
    FallbackWholeIfTurnsAre(context, force);
    KeptIsSelected(other, stale);
    OthersStayWhole(context);
    FilterKeepsUnique(context, IsNotSystem);
    KeepingPartIsWhole(other, KeptFlags(other, stale));
  }

  /**
   * When no tool result and no turn with calls is moved for being a priority message, that is exactly if the oldest
   * message kept for being recent is no tool result; here ids may repeat.
   */
  lemma FallbackWithPlainPriority(context: seq<Message>, force: bool)
    requires WellFormed(context)
    requires var other := OtherMessages(context); AllPlain(Filter(other[..OldCount(|other|, force)], IsPriority))
    ensures var other := OtherMessages(context);
            var stale := OldCount(|other|, force);
            WellFormed(SimpleKept(context, force)) <==> (stale < |other| ==> other[stale].role != Tool)
  {
    hide WellFormed, Filter, IsPriority, SimpleKept, OldCount, IsPlain;
    var other := OtherMessages(context);
    var stale := OldCount(|other|, force);
    var recent := other[stale..];
    FallbackWholeIfTurnsAre(context, force);
    PlainFront(Filter(other[..stale], IsPriority), recent);
    OthersStayWhole(context);
    if WellFormed(recent) && recent != [] {
      FirstIsNoResult(recent);
    }
    if stale < |other| ==> other[stale].role != Tool {
      SplitBetweenExchanges(other, stale);
    }
  }

  // ----- After clean-up -----

  /** The stand-in user message, if one is needed, comes behind the system messages. */
  lemma StandInBetween(front: seq<Message>, back: seq<Message>, pool: seq<Message>) returns (added: seq<Message>)
    ensures WithUser(front + back, |front|, pool) == (front + added) + back
    ensures AllPlain(added) && forall m :: m in added ==> m.role != System
  {
    hide StandIn, HasRole;
    added := [];
    if !HasRole(front + back, User) {
      added := [StandIn(pool)];
      assert (front + back)[..|front|] == front && (front + back)[|front|..] == back;
    } else {
      assert front + [] == front;
    }
  }

  lemma MergedFront(front: seq<Message>, tail: seq<Message>) returns (head: Message)
    requires front != [] && forall m :: m in front ==> m.role == System
    ensures IsPlain(head) && Consolidated(front + tail) == [head] + OtherMessages(tail)
  {
    var context := front + tail;
    assert context[0] == front[0] && context[1..] == front[1..] + tail;
    head := WithParts(context[0], SystemParts(context[1..]));
    hide Filter, SystemParts;
    NoneLeft(front[1..], IsNotSystem);
    FilterConcat(front[1..], tail, IsNotSystem);
    assert [] + OtherMessages(tail) == OtherMessages(tail);
  }

  lemma NothingMerged(context: seq<Message>)
    requires forall m :: m in context ==> m.role != System
    ensures Consolidated(context) == context && OtherMessages(context) == context
  {
    FilterAll(context, IsNotSystem);
    assert forall i :: 0 <= i < |context| ==> context[i] in context;
  }

  /** System messages merged, what is kept stands behind plain messages. */
  lemma MergedKept(front: seq<Message>, back: seq<Message>, pool: seq<Message>) returns (plain: seq<Message>)
    requires forall m :: m in front ==> m.role == System
    requires front == [] ==> forall m :: m in back ==> m.role != System
    ensures AllPlain(plain)
    ensures Consolidated(WithUser(front + back, |front|, pool)) == plain + OtherMessages(back)
  {
    var added := StandInBetween(front, back, pool);
    hide WithUser, Consolidated, Filter;
    AppendAssoc(front, added, back);
    FilterConcat(added, back, IsNotSystem);
    FilterAll(added, IsNotSystem);
    if front == [] {
      plain := added;
      assert front + (added + back) == added + back;
      NothingMerged(added + back);
    } else {
      var head := MergedFront(front, added + back);
      plain := [head] + added;
      AppendAssoc([head], added, OtherMessages(back));
    }
  }

  lemma KeptIsProper(front: seq<Message>, back: seq<Message>, pool: seq<Message>)
    requires IsProper(back) && forall m :: m in front ==> m.role == System
    ensures IsProper(WithUser(front + back, |front|, pool))
  {
    SystemIsPlain(front);
    hide IsProper, WithUser;
    var added := StandInBetween(front, back, pool);
    PlainFrontIsProper(front + added, back);
  }

  /** Clean-up of system messages and what is kept of a history: whole exactly if placeholders suffice. */
  lemma CleanedKeptIsWhole(front: seq<Message>, back: seq<Message>, pool: seq<Message>, other: seq<Message>,
                           flags: seq<bool>, repair: Repair)
    requires forall m :: m in front ==> m.role == System
    requires front == [] ==> forall m :: m in back ==> m.role != System
    requires WellFormed(other) && IsProper(other) && |flags| == |other|
    requires IsProper(back) && OtherMessages(back) == Selected(other, flags)
    ensures WellFormed(Sanitized(WithUser(front + back, |front|, pool), repair)) <==>
              TurnsFollow(other, flags) && AtMostOneGap(other, flags)
  {
    UniqueIn(other);
    hide WellFormed, IsProper, WithUser, Consolidated, Sanitized, Selected, Attached, AtMostOneLacks, TurnsFollow,
        AtMostOneGap, Filter, UniqueResultIds;
    var plain := MergedKept(front, back, pool);
    KeptIsProper(front, back, pool);
    CleanedIsWhole(WithUser(front + back, |front|, pool), repair);
    KeptIsMendable(plain, other, flags);
  }

  /** How many messages before the cut are no system messages. */
  function OthersBefore(context: seq<Message>, cut: nat): (n: nat)
    requires cut <= |context|
    ensures n <= |OtherMessages(context)|
    ensures n == |OtherMessages(context[..cut])|
    ensures OtherMessages(context)[..n] == OtherMessages(context[..cut])
    ensures OtherMessages(context)[n..] == OtherMessages(context[cut..])
  {
    FilterConcat(context[..cut], context[cut..], IsNotSystem);
    SplitAt(context, cut);
    |OtherMessages(context[..cut])|
  }

  lemma PriorityAndSuffix(context: seq<Message>, cut: nat)
    requires IsProper(context) && cut <= |context|
    ensures var back, other := PriorityMessages(context[..cut]) + context[cut..], OtherMessages(context);
            IsProper(back) && OtherMessages(back) == Selected(other, KeptFlags(other, OthersBefore(context, cut)))
  {
    hide IsProper, Filter, IsPriority, Selected, FlagsOf, KeptFlags;
    var dropped, suffix := context[..cut], context[cut..];
    var priority := PriorityMessages(dropped);
    SplitAt(context, cut);
    PriorityIsFilter(dropped);
    FilterIsSelected(dropped, IsMovedPriority);
    SelectedWhole(suffix, FlagsOf(suffix, IsMessage));
    SelectedConcat(dropped, suffix, FlagsOf(dropped, IsMovedPriority), FlagsOf(suffix, IsMessage));
    assert IsProper(priority + suffix) by {
      AllSelected(suffix);
      SelectedIsProper(context, FlagsOf(dropped, IsMovedPriority) + FlagsOf(suffix, IsMessage));
    }
    forall m | m in priority ensures IsNotSystem(m) {
      FilterMember(OtherMessages(dropped), IsPriority, m);
      FilterMember(dropped, IsNotSystem, m);
    }
    FilterAll(priority, IsNotSystem);
    FilterConcat(priority, suffix, IsNotSystem);
    KeptIsSelected(OtherMessages(context), OthersBefore(context, cut));
  }

  lemma AllSelected(messages: seq<Message>)
    ensures Selected(messages, FlagsOf(messages, IsMessage)) == messages
  {
    hide Selected;
    SelectedWhole(messages, FlagsOf(messages, IsMessage));
  }

  /**
   * What the loop gets back from an anchored step pairs every call with its result exactly if, of the messages kept
   * behind the cut or for being priority ones, every result comes with its turn, and at most one turn without some of
   * its results. This holds for every cut.
   */
  lemma CleanedAnchoredIsWhole(context: seq<Message>, cut: nat, a: Summary, repair: Repair)
    requires WellFormed(context) && IsProper(context) && cut <= |context|
    ensures var other := OtherMessages(context);
            var flags := KeptFlags(other, OthersBefore(context, cut));
            WellFormed(Sanitized(AnchoredKept(context, cut, a), repair)) <==>
                TurnsFollow(other, flags) && AtMostOneGap(other, flags)
  {
    hide *;
    var front := KeptSystem(context[..cut]) + [ContextMessage(a)];
    var back := PriorityMessages(context[..cut]) + context[cut..];
    OthersAreProper(context);
    FrontSystems(context[..cut], a);
    PriorityAndSuffix(context, cut);
    AnchoredShape(context, cut, a);
    CleanedKeptIsWhole(front, back, ToSummarize(context[..cut]), OtherMessages(context),
        KeptFlags(OtherMessages(context), OthersBefore(context, cut)), repair);
  }

  lemma OthersAreProper(context: seq<Message>)
    requires WellFormed(context) && IsProper(context)
    ensures WellFormed(OtherMessages(context)) && IsProper(OtherMessages(context))
  {
    OthersStayWhole(context);
    FilterIsProper(context, IsNotSystem);
  }

  lemma AnchoredShape(context: seq<Message>, cut: nat, a: Summary)
    requires cut <= |context|
    ensures var front := KeptSystem(context[..cut]) + [ContextMessage(a)];
            AnchoredKept(context, cut, a)
            == WithUser(front + (PriorityMessages(context[..cut]) + context[cut..]), |front|,
                        ToSummarize(context[..cut]))
  {
    hide KeptSystem, PriorityMessages, ToSummarize, ContextMessage, WithUser;
  }

  lemma FrontSystems(dropped: seq<Message>, a: Summary)
    ensures forall m :: m in KeptSystem(dropped) + [ContextMessage(a)] ==> m.role == System
  {
    hide Filter, Render;
    forall m | m in KeptSystem(dropped) ensures m.role == System {
      FilterMember(SystemMessages(dropped), IsNotSummary, m);
      FilterMember(dropped, IsSystem, m);
    }
  }

  /** The same for the recency fallback, after its clean-up. */
  lemma CleanedFallbackIsWhole(context: seq<Message>, force: bool, repair: Repair)
    requires WellFormed(context) && IsProper(context)
    ensures var other := OtherMessages(context);
            var flags := KeptFlags(other, OldCount(|other|, force));
            WellFormed(Sanitized(SimpleKept(context, force), repair)) <==>
                TurnsFollow(other, flags) && AtMostOneGap(other, flags)
  {
    var other := OtherMessages(context);
    var stale := OldCount(|other|, force);
    var back := FallbackTurns(context, force);
    OthersAreProper(context);
    KeptIsSelected(other, stale);
    SelectedIsProper(other, KeptFlags(other, stale));
    TurnsAreNoSystems(context, force);
    forall m | m in SystemMessages(context) ensures m.role == System { FilterMember(context, IsSystem, m); }
    hide WellFormed, IsProper, Sanitized, TurnsFollow, AtMostOneGap, WithUser, Selected, KeptFlags, Filter, OldCount,
        IsPriority;
    AppendAssoc(SystemMessages(context), Filter(other[..stale], IsPriority), other[stale..]);
    CleanedKeptIsWhole(SystemMessages(context), back, other, other, KeptFlags(other, stale), repair);
  }

  lemma TurnsAreNoSystems(context: seq<Message>, force: bool)
    ensures var back := FallbackTurns(context, force);
            OtherMessages(back) == back && forall m :: m in back ==> m.role != System
  {
    hide Filter, IsPriority, OldCount;
    var other, back := OtherMessages(context), FallbackTurns(context, force);
    var stale := OldCount(|other|, force);
    forall m | m in back ensures IsNotSystem(m) {
      if m in Filter(other[..stale], IsPriority) {
        FilterMember(other[..stale], IsPriority, m);
      }
      assert m in other;
      FilterMember(context, IsNotSystem, m);
    }
    FilterAll(back, IsNotSystem);
  }

  // ----- Histories that come back torn -----

  /**
   * A result in the dropped span that reads as a user message or a digest is kept without its turn if that one does
   * not, and clean-up does not mend it.
   */
  lemma PriorityResultIsTorn(context: seq<Message>, c: nat, a: Summary, i: nat, k: nat, repair: Repair)
    requires WellFormed(context) && IsProper(context) && c < |context|
    requires i < Align(context, c) && k < Align(context, c) && AnsweredBy(context[i], context[k])
    requires IsPriority(context[k]) && !IsPriority(context[i])
    ensures !WellFormed(AnchoredKept(context, Align(context, c), a))
              && !WellFormed(Sanitized(AnchoredKept(context, Align(context, c), a), repair))
  {
    hide WellFormed, AnchoredKept, Sanitized, Align, IsPriority, IsProper, Filter, OthersBefore, KeptFlags;
    var cut := Align(context, c);
    var dropped, other := context[..cut], OtherMessages(context);
    UniqueIn(context);
    assert dropped[i] == context[i] && dropped[k] == context[k];
    AnchoredKeepsExchangesWhole(context, c, a);
    CleanedAnchoredIsWhole(context, cut, a, repair);
    var n := OthersBefore(context, cut);
    FilterMember(dropped, IsNotSystem, context[i]);
    FilterMember(context, IsNotSystem, context[k]);
    var p :| 0 <= p < n && OtherMessages(dropped)[p] == context[i];
    var q :| 0 <= q < |other| && other[q] == context[k];
    assert other[..n][p] == other[p];
    assert !KeptFlags(other, n)[p] && KeptFlags(other, n)[q];
  }

  /** A call, its result and the user messages around them. */
  function OneExchange(call: ToolCall, result: Message, later: Message): seq<Message> {
    [UserMessage(""), Message(Assistant, "", [call], ""), result, later]
  }

  lemma BoundaryAtUser(context: seq<Message>, cut: nat)
    requires 1 < cut < |context| && context[cut].role == User && !IssuesCalls(context[cut - 1])
    ensures Align(context, cut) == cut
  {
    assert PullBack(context, cut) == cut;
  }

  lemma OneCallOneResult(call: ToolCall, turn: Message, result: Message)
    requires turn.role == Assistant && turn.toolCalls == [call] && result.role == Tool && result.toolCallId == call.id
    ensures IsExchange([turn, result])
  {
    assert [turn, result][1..] == [result];
    assert seq(1, j requires 0 <= j < 1 => [call][j].id) == seq(1, j requires 0 <= j < 1 => [result][j].toolCallId);
  }

  lemma OneExchangeIsWhole(call: ToolCall, result: Message, later: Message)
    requires result.role == Tool && result.toolCallId == call.id && later.role == User
    ensures WellFormed(OneExchange(call, result, later)) && Align(OneExchange(call, result, later), 3) == 3
  {
    BoundaryAtUser(OneExchange(call, result, later), 3);
    var turn := Message(Assistant, "", [call], "");
    OneCallOneResult(call, turn, result);
    assert IsPlain(later) && IsPlain(UserMessage(""));
    NothingIsWhole();
    hide IsExchange, Align, WellFormed, IsPlain;
    PlainFirst(later, []);
    ExchangeInFront([turn, result], [later] + []);
    PlainFirst(UserMessage(""), [turn, result] + ([later] + []));
    assert OneExchange(call, result, later) == [UserMessage("")] + ([turn, result] + ([later] + []));
  }

  lemma NothingIsWhole()
    ensures WellFormed([])
  {
    assert MadeOf([], []);
  }

  lemma NothingIsNotPriority()
    ensures !Contains("", "[USER MESSAGE") && !StartsWith("", "[Digest of ")
  {
  }

  lemma OneExchangeCut(call: ToolCall, result: Message, later: Message, keepTokens: int)
    requires SumTokens([later]) <= keepTokens < SumTokens([later]) + MessageTokens(result)
    ensures IsBudgetCut(OneExchange(call, result, later), keepTokens, 3)
  {
    var context := OneExchange(call, result, later);
    assert context[3..] == [later];
    hide SumTokens, MessageTokens;
    SumStep(context, 2);
    forall i {:trigger context[i..]} | 0 <= i < 3 ensures SumTokens(context[i..]) > keepTokens {
      SumTokensShrinks(context, i, 2);
    }
  }

  /** It happens, with every budget that the last message fits but not the result before it. */
  lemma PriorityResultIsKeptAlone(call: ToolCall, result: Message, later: Message, a: Summary, keepTokens: int,
                                  repair: Repair)
    requires result.role == Tool && result.toolCallId == call.id != "" && IsPriority(result) && later.role == User
    requires SumTokens([later]) <= keepTokens < SumTokens([later]) + MessageTokens(result)
    ensures var context := OneExchange(call, result, later);
            && WellFormed(context) && IsBudgetCut(context, keepTokens, 3) && Align(context, 3) == 3
            && !WellFormed(AnchoredKept(context, 3, a)) && !WellFormed(Sanitized(AnchoredKept(context, 3, a), repair))
  {
    var context := OneExchange(call, result, later);
    assert IsProper(context);
    NothingIsNotPriority();
    assert call in context[1].toolCalls;
    hide WellFormed, AnchoredKept, Sanitized, Align, Render, IsProper, SumTokens, IsBudgetCut, Contains;
    OneExchangeIsWhole(call, result, later);
    OneExchangeCut(call, result, later, keepTokens);
    PriorityResultIsTorn(context, 3, a, 1, 2, repair);
  }

  /**
   * The fallback tears an exchange if its boundary falls between a turn that is no priority message and one of its
   * results, and clean-up does not mend it.
   */
  lemma FallbackTears(context: seq<Message>, force: bool, i: nat, k: nat, repair: Repair)
    requires WellFormed(context) && IsProper(context)
    requires var other := OtherMessages(context);
             && i < OldCount(|other|, force) <= k < |other| && AnsweredBy(other[i], other[k]) && !IsPriority(other[i])
    ensures !WellFormed(SimpleKept(context, force)) && !WellFormed(Sanitized(SimpleKept(context, force), repair))
  {
    hide WellFormed, SimpleKept, Sanitized, IsProper, IsPriority, OldCount, Filter;
    UniqueIn(context);
    FallbackKeepsExchangesWhole(context, force);
    CleanedFallbackIsWhole(context, force, repair);
  }

  /** So it does with the last turn of any history, once that has as many results as the fallback keeps messages. */
  lemma LongTurnIsTorn(front: seq<Message>, turn: Message, results: seq<Message>, force: bool, repair: Repair)
    requires WellFormed(front) && IsExchange([turn] + results) && IsProper(front + ([turn] + results))
    requires results != [] && !IsPriority(turn)
    requires Max(if force then 4 else 6, (|OtherMessages(front)| + 1 + |results|) / 3) <= |results|
    ensures var context := front + ([turn] + results);
            && WellFormed(context) && !WellFormed(SimpleKept(context, force))
            && !WellFormed(Sanitized(SimpleKept(context, force), repair))
  {
    hide WellFormed, SimpleKept, Sanitized, IsExchange, IsProper, IsPriority, AnsweredBy, Filter;
    var block := [turn] + results;
    var context, before := front + block, OtherMessages(front);
    ResultsAnswer(block, |results|);
    OthersBehindFront(front, block);
    var other := OtherMessages(context);
    assert other[|before|] == turn && other[|other| - 1] == block[|results|];
    SingleIsWhole(block);
    WellFormedConcat(front, block);
    FallbackTears(context, force, |before|, |other| - 1, repair);
  }

  lemma OthersBehindFront(front: seq<Message>, block: seq<Message>)
    requires IsExchange(block) && |block| >= 2
    ensures OtherMessages(front + block) == OtherMessages(front) + block
  {
    ResultsAnswer(block, 1);
    hide Answers, Filter;
    assert forall m :: m in block ==> m.role != System;
    FilterAll(block, IsNotSystem);
    FilterConcat(front, block, IsNotSystem);
  }

  lemma SingleIsWhole(block: seq<Message>)
    requires IsExchange(block)
    ensures WellFormed(block)
  {
    hide IsExchange;
    assert MadeOf([], []);
    ExchangeInFront(block, []);
    assert block + [] == block;
  }

  function FourCalls(): seq<ToolCall> {
    [ToolCall("a", "read", ""), ToolCall("b", "read", ""), ToolCall("c", "read", ""), ToolCall("d", "read", "")]
  }

  function FourResults(): seq<Message> {
    [Message(Tool, "", [], "a"), Message(Tool, "", [], "b"), Message(Tool, "", [], "c"), Message(Tool, "", [], "d")]
  }

  /** A turn that reads four files, behind a system prompt and a request. */
  function FourReads(prompt: Message, request: Message): seq<Message> {
    [prompt, request] + ([Message(Assistant, "", FourCalls(), "")] + FourResults())
  }

  lemma FourAreAnswered()
    ensures IsExchange([Message(Assistant, "", FourCalls(), "")] + FourResults())
  {
    var calls, results := FourCalls(), FourResults();
    assert seq(4, i requires 0 <= i < 4 => calls[i].id) == seq(4, i requires 0 <= i < 4 => results[i].toolCallId);
    assert ([Message(Assistant, "", calls, "")] + results)[1..] == results;
  }

  lemma TurnWithResultsIsProper(turn: Message, results: seq<Message>)
    requires turn.role == Assistant && DistinctCalls(turn.toolCalls) && UniqueResultIds(results)
    requires forall m :: m in results ==> m.role == Tool && m.toolCallId != ""
    ensures IsProper([turn] + results)
  {
    hide DistinctCalls, UniqueResultIds;
    var context := [turn] + results;
    assert forall i :: 1 <= i < |context| ==> context[i] == results[i - 1] && context[i] in results;
    ResultsBehindTurn(turn, results);
  }

  lemma ResultsBehindTurn(turn: Message, results: seq<Message>)
    requires turn.role == Assistant && UniqueResultIds(results)
    ensures UniqueResultIds([turn] + results)
  {
    var context := [turn] + results;
    forall i, j | 0 <= i < j < |context| && context[i].role == Tool && context[j].role == Tool
      ensures context[i].toolCallId != context[j].toolCallId
    {
      assert results[i - 1] == context[i] && results[j - 1] == context[j];
    }
  }

  lemma FourAreDistinct()
    ensures DistinctCalls(FourCalls()) && UniqueResultIds(FourResults()) && |FourResults()| == 4
    ensures forall m :: m in FourResults() ==> m.role == Tool && m.toolCallId != ""
  {
  }

  lemma PromptAndRequest(prompt: Message, request: Message)
    requires prompt.role == System && request.role == User
    ensures AllPlain([prompt, request]) && WellFormed([prompt, request]) && |OtherMessages([prompt, request])| == 1
  {
    var front := [prompt, request];
    assert AllPlain(front);
    NothingIsWhole();
    hide WellFormed, IsPlain, Filter;
    assert front == [prompt] + [request];
    FilterStep(prompt, [request], IsNotSystem);
    FilterOne(request, IsNotSystem);
    PlainFront(front, []);
    assert front + [] == front;
  }

  /** Four files read in one turn are enough, whatever the prompt and the request. */
  lemma FourReadsAreTorn(prompt: Message, request: Message, repair: Repair)
    requires prompt.role == System && request.role == User
    ensures var context := FourReads(prompt, request);
            && WellFormed(context) && !WellFormed(SimpleKept(context, true))
            && !WellFormed(Sanitized(SimpleKept(context, true), repair))
  {
    NothingIsNotPriority();
    hide WellFormed, SimpleKept, Sanitized, IsExchange, IsProper, FourCalls, FourResults, DistinctCalls,
        UniqueResultIds, Contains, Filter, AllPlain;
    var turn := Message(Assistant, "", FourCalls(), "");
    FourAreAnswered();
    FourAreDistinct();
    TurnWithResultsIsProper(turn, FourResults());
    PromptAndRequest(prompt, request);
    PlainFrontIsProper([prompt, request], [turn] + FourResults());
    LongTurnIsTorn([prompt, request], turn, FourResults(), true, repair);
  }
}
