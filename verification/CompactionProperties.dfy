/** What compaction keeps, over one call and over whole runs. */
module CompactionProperties {
  import opened Sequences
  import opened Text
  import opened Messages
  import opened CutPoint
  import opened Exchanges
  import opened Anchor
  import opened Sanitizer
  import opened Compaction
  import opened Extraction

  // ----- Conservation in one step -----

  predicate StartsWithMark(m: Message) {
    StartsWith(m.content, SUMMARY_MARK)
  }

  /** Summaries in the dropped span, which the new one replaces. */
  function Replaced(dropped: seq<Message>): seq<Message> {
    Filter(SystemMessages(dropped), StartsWithMark)
  }

  /** The user message added when none is left, if any. */
  function Added(messages: seq<Message>, pool: seq<Message>): multiset<Message> {
    if HasRole(messages, User) then multiset{} else multiset{StandIn(pool)}
  }

  lemma WithUserAdds(messages: seq<Message>, at: nat, pool: seq<Message>)
    requires at <= |messages|
    ensures multiset(WithUser(messages, at, pool)) == multiset(messages) + Added(messages, pool)
    ensures HasRole(WithUser(messages, at, pool), User)
  {
    hide StandIn;
    if !HasRole(messages, User) {
      assert messages == messages[..at] + messages[at..];
      assert WithUser(messages, at, pool)[at] == StandIn(pool);
    }
  }

  lemma WithUserKeepsSystem(messages: seq<Message>, at: nat, pool: seq<Message>)
    requires at <= |messages|
    ensures SystemMessages(WithUser(messages, at, pool)) == SystemMessages(messages)
  {
    hide StandIn;
    if !HasRole(messages, User) {
      hide HasRole;
      var standIn := StandIn(pool);
      assert messages == messages[..at] + messages[at..];
      FilterConcat(messages[..at], messages[at..], IsSystem);
      FilterConcat(messages[..at] + [standIn], messages[at..], IsSystem);
      FilterConcat(messages[..at], [standIn], IsSystem);
      FilterStep(standIn, [], IsSystem);
      hide Filter;
      assert [standIn] + [] == [standIn];
    }
  }

  lemma SystemPartition(s: seq<Message>)
    ensures multiset(s) == multiset(SystemMessages(s)) + multiset(OtherMessages(s))
  {
    Partition(s, IsSystem, IsNotSystem);
  }

  lemma PriorityPartition(s: seq<Message>)
    ensures multiset(s) == multiset(Filter(s, IsPriority)) + multiset(Filter(s, IsNotPriority))
  {
    hide IsPriority;
    Partition(s, IsPriority, IsNotPriority);
  }

  /** The pieces of the dropped span, nothing lost and nothing doubled. */
  lemma DroppedSplit(dropped: seq<Message>)
    ensures multiset(dropped) ==
            multiset(KeptSystem(dropped)) + multiset(Replaced(dropped)) + multiset(PriorityMessages(dropped))
                + multiset(ToSummarize(dropped))
  {
    SystemPartition(dropped);
    Partition(SystemMessages(dropped), IsNotSummary, StartsWithMark);
    PriorityPartition(OtherMessages(dropped));
  }

  /**
   * An anchored step replaces exactly the summarised span and the old summaries by one new summary: every other
   * message survives as often as it occurred, and there is a user message.
   */
  lemma AnchoredConservation(context: seq<Message>, cut: nat, a: Summary)
    requires cut <= |context|
    ensures multiset(AnchoredKept(context, cut, a)) + multiset(ToSummarize(context[..cut]))
              + multiset(Replaced(context[..cut]))
            == multiset(context) + multiset{ContextMessage(a)}
                + Added(AnchoredBase(context, cut, a), ToSummarize(context[..cut]))
    ensures HasRole(AnchoredKept(context, cut, a), User)
  {
    hide KeptSystem, PriorityMessages, ToSummarize, Replaced, WithUser, Added, ContextMessage, HasRole;
    var dropped, suffix := context[..cut], context[cut..];
    WithUserAdds(AnchoredBase(context, cut, a), |KeptSystem(dropped)| + 1, ToSummarize(dropped));
    DroppedSplit(dropped);
    assert multiset(context) == multiset(dropped) + multiset(suffix) by { assert context == dropped + suffix; }
  }

  /** The kept suffix stays the suffix, in order. */
  lemma AnchoredKeepsSuffix(context: seq<Message>, cut: nat, a: Summary)
    requires cut <= |context|
    ensures |AnchoredKept(context, cut, a)| >= |context| - cut
    ensures AnchoredKept(context, cut, a)[|AnchoredKept(context, cut, a)| - (|context| - cut)..] == context[cut..]
  {
    hide KeptSystem, PriorityMessages, ToSummarize, ContextMessage, HasRole, StandIn;
  }

  /** Neither the kept system messages nor the priority ones of a dropped span are summaries. */
  lemma NoSummaryIsKept(dropped: seq<Message>)
    ensures Filter(KeptSystem(dropped), IsSummaryMessage) == []
              && Filter(PriorityMessages(dropped), IsSummaryMessage) == []
  {
    hide Filter, IsPriority, StartsWith;
    forall m | m in KeptSystem(dropped) ensures !IsSummaryMessage(m) {
      FilterMember(SystemMessages(dropped), IsNotSummary, m);
    }
    forall m | m in PriorityMessages(dropped) ensures !IsSummaryMessage(m) {
      FilterMember(OtherMessages(dropped), IsPriority, m);
      FilterMember(dropped, IsNotSystem, m);
    }
    NoneLeft(KeptSystem(dropped), IsSummaryMessage);
    NoneLeft(PriorityMessages(dropped), IsSummaryMessage);
  }

  /** Putting a stand-in user message anywhere adds no summary. */
  lemma StandInIsNoSummary(messages: seq<Message>, at: nat, pool: seq<Message>)
    requires at <= |messages|
    ensures Filter(WithUser(messages, at, pool), IsSummaryMessage) == Filter(messages, IsSummaryMessage)
  {
    hide Filter, HasRole, StandIn, StartsWith;
    if !HasRole(messages, User) {
      FilterInsert(messages, at, StandIn(pool), IsSummaryMessage);
    }
  }

  /** Exactly one summary is added to those of the kept suffix. */
  lemma OneSummaryMore(context: seq<Message>, cut: nat, a: Summary)
    requires cut <= |context|
    ensures |Filter(AnchoredKept(context, cut, a), IsSummaryMessage)| == 1 + |Filter(context[cut..], IsSummaryMessage)|
  {
    var dropped, suffix := context[..cut], context[cut..];
    var kept, priority := KeptSystem(dropped), PriorityMessages(dropped);
    var anchored := ContextMessage(a);
    RenderIsMarked(a);
    assert IsSummaryMessage(anchored);
    NoSummaryIsKept(dropped);
    hide KeptSystem, PriorityMessages, ToSummarize, ContextMessage, IsSummaryMessage, Filter, WithUser, Render;
    StandInIsNoSummary(AnchoredBase(context, cut, a), |kept| + 1, ToSummarize(dropped));
    FilterConcat(kept + [anchored], priority + suffix, IsSummaryMessage);
    FilterConcat(kept, [anchored], IsSummaryMessage);
    FilterConcat(priority, suffix, IsSummaryMessage);
    FilterOne(anchored, IsSummaryMessage);
  }

  /** The fallback drops only old messages that are not priority ones. */
  lemma FallbackConservation(context: seq<Message>, force: bool)
    ensures var other := OtherMessages(context);
            multiset(SimpleKept(context, force)) + multiset(Filter(other[..OldCount(|other|, force)], IsNotPriority))
            == multiset(context) + Added(RecentBase(context, force), other)
    ensures HasRole(SimpleKept(context, force), User)
  {
    hide Filter, WithUser, Added, HasRole, IsPriority, IsNotPriority, SystemMessages, OtherMessages;
    var other := OtherMessages(context);
    var stale := OldCount(|other|, force);
    WithUserAdds(RecentBase(context, force), |SystemMessages(context)|, other);
    SystemPartition(context);
    PriorityPartition(other[..stale]);
    assert multiset(other) == multiset(other[..stale]) + multiset(other[stale..]) by {
      assert other == other[..stale] + other[stale..];
    }
  }

  /** The fallback keeps every system message, in order. */
  lemma FallbackKeepsSystem(context: seq<Message>, force: bool)
    ensures SystemMessages(SimpleKept(context, force)) == SystemMessages(context)
  {
    var systems, other := SystemMessages(context), OtherMessages(context);
    var stale := OldCount(|other|, force);
    var priority, recent := Filter(other[..stale], IsPriority), other[stale..];
    WithUserKeepsSystem(RecentBase(context, force), |systems|, other);
    forall m | m in systems ensures IsSystem(m) { FilterMember(context, IsSystem, m); }
    FilterAll(systems, IsSystem);
    forall m | m in priority || m in recent ensures !IsSystem(m) {
      FilterMember(other[..stale], IsPriority, m);
      FilterMember(context, IsNotSystem, m);
    }
    NoneLeft(priority, IsSystem);
    NoneLeft(recent, IsSystem);
    FilterConcat(systems, priority, IsSystem);
    FilterConcat(systems + priority, recent, IsSystem);
  }

  // ----- Communications in the dropped span -----

  /** At most one tool result carries this call id. */
  predicate HasUniqueResult(context: seq<Message>, id: string) {
    forall i, j :: 0 <= i < j < |context| && context[i].role == Tool && context[j].role == Tool ==>
      context[i].toolCallId != id || context[j].toolCallId != id
  }

  /** Cutting above 1 keeps a call in the dropped span together with its result. */
  lemma ResultDroppedWithCall(context: seq<Message>, c: nat, i: nat, call: ToolCall, k: nat)
    requires WellFormed(context) && HasUniqueResult(context, call.id)
    requires c < |context| && Align(context, c) > 1
    requires i < Align(context, c) && IssuesCalls(context[i]) && call in context[i].toolCalls
    requires k < |context| && context[k].role == Tool && context[k].toolCallId == call.id
    ensures k < Align(context, c)
  {
    var cut := Align(context, c);
    CutKeepsExchangesWhole(context, c);
    var blocks :| MadeOf(context[..cut], blocks);
    assert context[..cut][i] == context[i];
    var j := AnswerInBlocks(blocks, i, call);
    assert context[..cut][j] == context[j];
    assert j == k;
  }

  /**
   * After an anchored step the anchor lists exactly what it listed before, what the model reported, and what the
   * summarised messages themselves show to have been sent.
   */
  lemma RecordedExactly(context: seq<Message>, cut: nat, a: Summary, model: Summarizer, iteration: nat,
                        scanner: Scanner, x: string)
    requires cut <= |context| && Summarizes(context, cut, model)
    ensures x in AnchorAfter(context, cut, a, model, iteration, scanner).communicationsSent <==>
              x in a.communicationsSent || x in model.delta.communicationsSent
              || exists call :: WasSent(ToSummarize(context[..cut]), call, scanner)
                                && x == scanner.describe(call.name, call.arguments)
  {
    hide ToSummarize, WasSent, CommunicationsSent;
    var span := ToSummarize(context[..cut]);
    CommunicationsExactly(span, scanner, x);
    AppendNewMember(model.delta.communicationsSent, CommunicationsSent(span, scanner), [], x);
    AppendNewMember(a.communicationsSent, CompleteDelta(model.delta, span, scanner).communicationsSent, [], x);
  }

  /** And the files it listed, the model reported, and the calls of the summarised messages name. */
  lemma FilesRecordedExactly(context: seq<Message>, cut: nat, a: Summary, model: Summarizer, iteration: nat,
                             scanner: Scanner, x: string)
    requires cut <= |context| && Summarizes(context, cut, model)
    ensures var b, span := AnchorAfter(context, cut, a, model, iteration, scanner), ToSummarize(context[..cut]);
            && (x in b.filesRead <==>
                  x in a.filesRead || x in model.delta.filesRead
                  || exists call :: IssuedIn(span, call) && call.name == "read"
                                    && scanner.readPath(call.arguments) == Some(x))
            && (x in b.filesModified <==>
                  x in a.filesModified || x in model.delta.filesModified
                  || exists call :: IssuedIn(span, call) && (call.name == "write" || call.name == "edit")
                                    && scanner.writtenPath(call.arguments) == Some(x))
  {
    hide ToSummarize, IssuedIn, FilesRead, FilesModified;
    var span := ToSummarize(context[..cut]);
    var d := CompleteDelta(model.delta, span, scanner);
    ReadsExactly(span, scanner, x);
    WritesExactly(span, scanner, x);
    AppendNewMember(model.delta.filesRead, FilesRead(span, scanner), [], x);
    AppendNewMember(model.delta.filesModified, FilesModified(span, scanner), [], x);
    AppendNewMember(a.filesRead, d.filesRead, [], x);
    AppendNewMember(a.filesModified, d.filesModified, [], x);
  }

  /**
   * Every message sent in the span an anchored step drops is recorded in the anchor, whatever the model answered:
   * a send call whose result, wherever it is in the history, is neither empty nor an error nor itself kept.
   */
  lemma SendRecorded(context: seq<Message>, c: nat, a: Summary, model: Summarizer, iteration: nat, scanner: Scanner,
                     i: nat, call: ToolCall, k: nat)
    requires WellFormed(context) && HasUniqueResult(context, call.id)
    requires c < |context| && Summarizes(context, Align(context, c), model)
    requires i < Align(context, c) && IssuesCalls(context[i]) && !IsPriority(context[i]) && call in context[i].toolCalls
    requires call.name == "whatsapp_send" || call.name == "telegram_send" || call.name == "email_send"
    requires k < |context| && context[k].role == Tool && context[k].toolCallId == call.id != ""
    requires !IsPriority(context[k]) && context[k].content != "" && !SaysError(scanner.lower(context[k].content))
    ensures scanner.describe(call.name, call.arguments)
            in AnchorAfter(context, Align(context, c), a, model, iteration, scanner).communicationsSent
  {
    var cut := Align(context, c);
    ResultDroppedWithCall(context, c, i, call, k);
    SentInSpan(context, cut, i, call, k, scanner);
    hide ToSummarize, Align, IsPriority, WasSent, AnchorAfter, Summarizes;
    RecordedExactly(context, cut, a, model, iteration, scanner, scanner.describe(call.name, call.arguments));
  }

  lemma SpanMember(dropped: seq<Message>, m: Message)
    ensures m in ToSummarize(dropped) <==> m in dropped && m.role != System && !IsPriority(m)
  {
    FilterMember(OtherMessages(dropped), IsNotPriority, m);
    FilterMember(dropped, IsNotSystem, m);
  }

  lemma SentInSpan(context: seq<Message>, cut: nat, i: nat, call: ToolCall, k: nat, scanner: Scanner)
    requires HasUniqueResult(context, call.id) && cut <= |context|
    requires i < cut && IssuesCalls(context[i]) && !IsPriority(context[i]) && call in context[i].toolCalls
    requires call.name == "whatsapp_send" || call.name == "telegram_send" || call.name == "email_send"
    requires k < cut && context[k].role == Tool && context[k].toolCallId == call.id != ""
    requires !IsPriority(context[k]) && context[k].content != "" && !SaysError(scanner.lower(context[k].content))
    ensures WasSent(ToSummarize(context[..cut]), call, scanner)
  {
    hide IsPriority, SaysError, ToSummarize;
    SpanIssues(context, cut, i, call);
    SpanAnswers(context, cut, call.id, k);
  }

  lemma SpanIssues(context: seq<Message>, cut: nat, i: nat, call: ToolCall)
    requires cut <= |context| && i < cut && IssuesCalls(context[i]) && !IsPriority(context[i])
    requires call in context[i].toolCalls
    ensures IssuedIn(ToSummarize(context[..cut]), call)
  {
    hide IsPriority, ToSummarize;
    var dropped, span := context[..cut], ToSummarize(context[..cut]);
    assert dropped[i] == context[i];
    SpanMember(dropped, context[i]);
    var n :| 0 <= n < |span| && span[n] == context[i];
  }

  lemma SpanAnswers(context: seq<Message>, cut: nat, id: string, k: nat)
    requires HasUniqueResult(context, id) && k < cut <= |context| && id != ""
    requires context[k].role == Tool && context[k].toolCallId == id && !IsPriority(context[k])
    ensures IsLastResult(ToSummarize(context[..cut]), id, context[k].content)
  {
    hide IsPriority, Filter;
    var dropped, span := context[..cut], ToSummarize(context[..cut]);
    assert dropped[k] == context[k];
    SpanMember(dropped, context[k]);
    hide ToSummarize;
    var first :| 0 <= first < |span| && span[first] == context[k];
    var n := LastAnswer(span, id, first);
    SpanMember(dropped, span[n]);
    var j :| 0 <= j < |dropped| && dropped[j] == span[n];
    assert context[j] == span[n];
  }

  lemma {:induction false} LastAnswer(messages: seq<Message>, id: string, k: nat) returns (n: nat)
    requires k < |messages| && messages[k].role == Tool && messages[k].toolCallId == id
    ensures n < |messages| && messages[n].role == Tool && messages[n].toolCallId == id
              && NoResultBehind(messages, id, n)
    decreases |messages| - k
  {
    if NoResultBehind(messages, id, k) {
      n := k;
    } else {
      var j :| k < j < |messages| && messages[j].role == Tool && messages[j].toolCallId == id;
      n := LastAnswer(messages, id, j);
    }
  }

  // ----- Whole runs -----

  datatype State = State(context: seq<Message>, anchor: Summary)

  /** What may happen to the history and its anchor between two moments of a run. */
  datatype Event =
    | Compacting(config: Config, model: Summarizer, force: bool, iteration: nat, isDelegate: bool, cut: nat)
    | Appending(messages: seq<Message>)
    | RewritingToolBodies(context: seq<Message>)
    | UpdatingAnchor(anchor: Summary)
    | ReplacingSystem(i: nat, m: Message)
    | Inserting(i: nat, m: Message)

  ghost predicate Step(s: State, e: Event, t: State, repair: Repair, scanner: Scanner) {
    match e
    case Compacting(config, model, force, iteration, isDelegate, cut) =>
      && IsCut(s.context, config, force, isDelegate, cut) && cut <= |s.context|
      && t.anchor == AnchorAfter(s.context, cut, s.anchor, model, iteration, scanner)
      && t.context == ContextAfter(s.context, cut, s.anchor, config, model, force, iteration, repair, scanner)
    case Appending(messages) => t == s.(context := s.context + messages)
    case RewritingToolBodies(context) => OnlyToolBodiesDiffer(s.context, context) && t == s.(context := context)
    case UpdatingAnchor(anchor) => anchor.communicationsSent == s.anchor.communicationsSent && t == s.(anchor := anchor)
    case ReplacingSystem(i, m) =>
      i < |s.context| && s.context[i].role == System && m.role == System && t == s.(context := s.context[i := m])
    case Inserting(i, m) => i <= |s.context| && t == s.(context := s.context[..i] + [m] + s.context[i..])
  }

  /** A system message carries, whole, a rendered summary that knows every communication of the anchor. */
  ghost predicate Remembers(s: State) {
    s.anchor.communicationsSent == [] ||
    exists b: Summary :: s.anchor.communicationsSent <= b.communicationsSent && CarriesSystemText(s.context, Render(b))
  }

  lemma SystemTextFromList(context: seq<Message>, m: Message, t: string)
    requires m in context && m.role == System && Contains(m.content, t)
    ensures CarriesSystemText(context, t)
  {
    var i :| 0 <= i < |context| && context[i] == m;
  }

  lemma AnchoredStepRemembers(s: State, cut: nat, a: Summary, repair: Repair)
    requires cut <= |s.context|
    ensures CarriesSystemText(Sanitized(AnchoredKept(s.context, cut, a), repair), Render(a))
  {
    SummaryIsCarried(s.context, cut, a);
    RenderIsMarked(a);
    hide *;
    SanitizedKeepsSystemText(AnchoredKept(s.context, cut, a), repair, Render(a));
  }

  lemma SummaryIsCarried(context: seq<Message>, cut: nat, a: Summary)
    requires cut <= |context|
    ensures CarriesSystemText(AnchoredKept(context, cut, a), Render(a))
  {
    hide Render, KeptSystem, PriorityMessages, ToSummarize, WithUser, Contains;
    var text := Render(a);
    assert text[0..0 + |text|] == text;
    ContainsAt(text, 0, text);
    WithUserKeeps(AnchoredBase(context, cut, a), |KeptSystem(context[..cut])| + 1, ToSummarize(context[..cut]),
        ContextMessage(a));
    SystemTextFromList(AnchoredKept(context, cut, a), ContextMessage(a), text);
  }

  lemma WithUserKeeps(messages: seq<Message>, at: nat, pool: seq<Message>, m: Message)
    requires at <= |messages| && m in messages
    ensures m in WithUser(messages, at, pool)
  {
    assert messages == messages[..at] + messages[at..];
  }

  lemma FallbackKeepsText(context: seq<Message>, config: Config, force: bool, repair: Repair, t: string)
    requires IsTrimmed(t) && CarriesSystemText(context, t)
    ensures CarriesSystemText(SimpleCompacted(context, config, force, repair), t)
  {
    hide Contains, SimpleKept, Sanitized;
    var i :| 0 <= i < |context| && context[i].role == System && Contains(context[i].content, t);
    FallbackKeepsSystem(context, force);
    FilterMember(context, IsSystem, context[i]);
    FilterMember(SimpleKept(context, force), IsSystem, context[i]);
    SystemTextFromList(SimpleKept(context, force), context[i], t);
    SanitizedKeepsSystemText(SimpleKept(context, force), repair, t);
  }

  lemma CompactingGrowsList(s: State, cut: nat, model: Summarizer, iteration: nat, scanner: Scanner)
    requires cut <= |s.context|
    ensures s.anchor.communicationsSent <=
              AnchorAfter(s.context, cut, s.anchor, model, iteration, scanner).communicationsSent
  {
    hide ToSummarize, CompleteDelta, AppendNew;
    if Summarizes(s.context, cut, model) {
      var d := CompleteDelta(model.delta, ToSummarize(s.context[..cut]), scanner);
      AppendNewExtends(s.anchor.communicationsSent, d.communicationsSent, []);
    }
  }

  /** Trimming by recency keeps the summaries there are. */
  lemma FallbackRemembers(context: seq<Message>, config: Config, force: bool, repair: Repair, a: Summary)
    requires Remembers(State(context, a))
    ensures Remembers(State(SimpleCompacted(context, config, force, repair), a))
  {
    hide Render, SimpleCompacted;
    if a.communicationsSent != [] {
      var b: Summary :| a.communicationsSent <= b.communicationsSent && CarriesSystemText(context, Render(b));
      RenderIsMarked(b);
      FallbackKeepsText(context, config, force, repair, Render(b));
    }
  }

  /** A history with at most one system message keeps it as it is. */
  lemma FallbackSparesOneSystem(context: seq<Message>, config: Config, force: bool, repair: Repair)
    requires |SystemMessages(context)| <= 1
    ensures SystemMessages(SimpleCompacted(context, config, force, repair)) == SystemMessages(context)
  {
    FallbackKeepsSystem(context, force);
    hide SimpleKept, Sanitized, Filter;
    SanitizedSparesOneSystem(SimpleKept(context, force), repair);
  }

  lemma SanitizedSparesOneSystem(context: seq<Message>, repair: Repair)
    requires |SystemMessages(context)| <= 1
    ensures SystemMessages(Sanitized(context, repair)) == SystemMessages(context)
  {
    hide Consolidated, RepairAll, WithPlaceholders, Filter;
    ConsolidatedSparesOneSystem(context);
    RepairSparesSystems(Consolidated(context), repair);
    PlaceholdersSpareSystems(RepairAll(Consolidated(context), repair));
  }

  lemma ConsolidatedSparesOneSystem(context: seq<Message>)
    requires |SystemMessages(context)| <= 1
    ensures SystemMessages(Consolidated(context)) == SystemMessages(context)
  {
    var n := FirstSystem(context);
    if n < |context| {
      FilterMember(context, IsSystem, context[n]);
      OnlySystem(context, n);
      hide Filter, SystemParts, FirstSystem;
      var later := context[n + 1..];
      forall k | 0 <= k < |later| ensures later[k].role != System {
        assert later[k] == context[n + 1 + k];
      }
      NoSystemParts(later);
      FilterAll(later, IsNotSystem);
      assert context[n := context[n]] == context;
      assert n == 0 ==> context == [context[0]] + later;
    }
  }

  lemma {:induction false} RepairSparesSystems(context: seq<Message>, repair: Repair)
    ensures SystemMessages(RepairAll(context, repair)) == SystemMessages(context)
  {
    if context != [] {
      var m, rest := context[0], context[1..];
      assert context == [m] + rest;
      assert RepairMessage(m, repair).role == m.role && (m.role == System ==> RepairMessage(m, repair) == m);
      hide Filter, RepairMessage;
      RepairSparesSystems(rest, repair);
      FilterStep(m, rest, IsSystem);
      FilterStep(RepairMessage(m, repair), RepairAll(rest, repair), IsSystem);
    }
  }

  lemma PlaceholdersSpareSystems(context: seq<Message>)
    ensures SystemMessages(WithPlaceholders(context)) == SystemMessages(context)
  {
    hide Filter, PlaceholderIndex, Placeholders, OrphanIds, ExpectedIds;
    var orphans := OrphanIds(ExpectedIds(context), context);
    if orphans != [] {
      var at := PlaceholderIndex(context, orphans, |context|);
      PlaceholdersIssueNothing(orphans);
      NoneLeft(Placeholders(orphans), IsSystem);
      FilterConcat(context[..at] + Placeholders(orphans), context[at..], IsSystem);
      FilterConcat(context[..at], Placeholders(orphans), IsSystem);
      FilterConcat(context[..at], context[at..], IsSystem);
      SplitAt(context, at);
    }
  }

  lemma SameSystemSameText(context: seq<Message>, next: seq<Message>, t: string)
    requires SystemMessages(context) == SystemMessages(next)
    ensures CarriesSystemText(context, t) <==> CarriesSystemText(next, t)
  {
    hide Contains, Filter;
    forall m ensures m in context && m.role == System <==> m in next && m.role == System {
      FilterMember(context, IsSystem, m);
      FilterMember(next, IsSystem, m);
    }
    forall i | 0 <= i < |context| && context[i].role == System ensures context[i] in next {
      assert context[i] in context;
    }
    forall i | 0 <= i < |next| && next[i].role == System ensures next[i] in context {
      assert next[i] in next;
    }
    if CarriesSystemText(context, t) { TextSurvives(context, next, t); }
    if CarriesSystemText(next, t) { TextSurvives(next, context, t); }
  }

  /**
   * With at most one system message, which is what every anchored step leaves, trimming by recency also adds nothing
   * to what is remembered. Without any, nothing is remembered but an empty list.
   */
  lemma FallbackRemembersExactly(context: seq<Message>, config: Config, force: bool, repair: Repair, a: Summary)
    requires |SystemMessages(context)| <= 1
    ensures Remembers(State(SimpleCompacted(context, config, force, repair), a)) <==> Remembers(State(context, a))
    ensures SystemMessages(context) == [] ==> (Remembers(State(context, a)) <==> a.communicationsSent == [])
  {
    hide Render, SimpleCompacted, CarriesSystemText, Filter;
    FallbackSparesOneSystem(context, config, force, repair);
    var next := SimpleCompacted(context, config, force, repair);
    forall b: Summary ensures CarriesSystemText(context, Render(b)) <==> CarriesSystemText(next, Render(b)) {
      SameSystemSameText(context, next, Render(b));
    }
    if b: Summary :| SystemMessages(context) == [] && CarriesSystemText(context, Render(b)) {
      NoSystemNoText(context, Render(b));
    }
  }

  lemma NoSystemNoText(context: seq<Message>, t: string)
    requires SystemMessages(context) == []
    ensures !CarriesSystemText(context, t)
  {
    hide Contains, Filter;
    forall i | 0 <= i < |context| ensures context[i].role != System {
      FilterMember(context, IsSystem, context[i]);
    }
  }

  lemma TextSurvives(context: seq<Message>, next: seq<Message>, text: string)
    requires CarriesSystemText(context, text)
    requires forall i :: 0 <= i < |context| && context[i].role == System ==> context[i] in next
    ensures CarriesSystemText(next, text)
  {
    hide Contains;
    var i :| 0 <= i < |context| && context[i].role == System && Contains(context[i].content, text);
    SystemTextFromList(next, context[i], text);
  }

  lemma SystemTextSurvives(s: State, t: State)
    requires Remembers(s) && s.anchor.communicationsSent == t.anchor.communicationsSent
    requires forall i :: 0 <= i < |s.context| && s.context[i].role == System ==> s.context[i] in t.context
    ensures Remembers(t)
  {
    hide Render, CarriesSystemText;
    if s.anchor.communicationsSent != [] {
      var b: Summary :| s.anchor.communicationsSent <= b.communicationsSent && CarriesSystemText(s.context, Render(b));
      TextSurvives(s.context, t.context, Render(b));
    }
  }

  /** The text stands in the message that replaces the one at `i`, or in some other system message. */
  predicate CarriesElsewhere(context: seq<Message>, i: nat, m: Message, text: string) {
    Contains(m.content, text)
    || exists j :: 0 <= j < |context| && j != i && context[j].role == System && Contains(context[j].content, text)
  }

  ghost predicate KeepsSummary(s: State, i: nat, m: Message) {
    s.anchor.communicationsSent == [] ||
    exists b: Summary :: s.anchor.communicationsSent <= b.communicationsSent
        && CarriesElsewhere(s.context, i, m, Render(b))
  }

  lemma ReplacedText(context: seq<Message>, i: nat, m: Message, text: string)
    requires i < |context| && context[i].role == System && m.role == System
    ensures CarriesSystemText(context[i := m], text) <==> CarriesElsewhere(context, i, m, text)
  {
    hide Contains;
    var next := context[i := m];
    if CarriesSystemText(next, text) {
      var j :| 0 <= j < |next| && next[j].role == System && Contains(next[j].content, text);
      assert j != i ==> next[j] == context[j];
    }
    if CarriesElsewhere(context, i, m, text) {
      if Contains(m.content, text) {
        assert next[i] == m;
      } else {
        var j :| 0 <= j < |context| && j != i && context[j].role == System && Contains(context[j].content, text);
        assert next[j] == context[j];
      }
    }
  }

  /**
   * Replacing a system message keeps the communications exactly if another one, or the new one, carries a summary of
   * them.
   */
  lemma ReplacingRemembers(s: State, i: nat, m: Message)
    requires i < |s.context| && s.context[i].role == System && m.role == System
    ensures Remembers(s.(context := s.context[i := m])) <==> KeepsSummary(s, i, m)
  {
    hide Render, CarriesSystemText, CarriesElsewhere;
    forall b: Summary
      ensures CarriesSystemText(s.context[i := m], Render(b)) <==> CarriesElsewhere(s.context, i, m, Render(b))
    {
      ReplacedText(s.context, i, m, Render(b));
    }
  }

  /** The history is rebuilt around the anchor. */
  predicate Restores(s: State, e: Event) {
    e.Compacting? && e.cut <= |s.context| && Rebuilds(s.context, e.cut, e.model)
  }

  /**
   * What loses a summary: a replaced system message that held the only one, and a step that merges new communications
   * into the anchor, does not rebuild the history around it, and finds no summary of them there.
   */
  ghost predicate Loses(s: State, e: Event, scanner: Scanner) {
    (e.ReplacingSystem? && !KeepsSummary(s, e.i, e.m)) || (MergesOnly(s, e) && !Remembers(Merging(s, e, scanner)))
  }

  /** A compaction that does not rebuild the history. */
  predicate MergesOnly(s: State, e: Event) {
    e.Compacting? && e.cut <= |s.context| && !Restores(s, e)
  }

  /** The state with only the anchor updated. */
  function Merging(s: State, e: Event, scanner: Scanner): State
    requires MergesOnly(s, e)
  {
    s.(anchor := AnchorAfter(s.context, e.cut, s.anchor, e.model, e.iteration, scanner))
  }

  lemma StepGrowsList(s: State, e: Event, t: State, repair: Repair, scanner: Scanner)
    requires Step(s, e, t, repair, scanner)
    ensures s.anchor.communicationsSent <= t.anchor.communicationsSent
  {
    hide AnchorAfter, ContextAfter, IsCut;
    if e.Compacting? {
      CompactingGrowsList(s, e.cut, e.model, e.iteration, scanner);
    }
  }

  /** Every rebuilding step leaves the history with a summary of all communications, whatever it was before. */
  lemma RebuildingRemembers(s: State, e: Event, t: State, repair: Repair, scanner: Scanner)
    requires Step(s, e, t, repair, scanner) && Restores(s, e)
    ensures Remembers(t)
  {
    hide Sanitized, Render, AnchoredKept, SimpleCompacted, AnchorAfter, IsCut, Summarizes;
    AnchoredStepRemembers(s, e.cut, t.anchor, repair);
    assert t.context == Sanitized(AnchoredKept(s.context, e.cut, t.anchor), repair);
  }

  lemma StepRemembers(s: State, e: Event, t: State, repair: Repair, scanner: Scanner)
    requires Step(s, e, t, repair, scanner)
    requires Restores(s, e) || (Remembers(s) && !Loses(s, e, scanner))
    ensures Remembers(t)
  {
    hide Remembers, AnchorAfter, IsCut, KeepsSummary, Rebuilds, SimpleCompacted, Sanitized;
    if Restores(s, e) {
      RebuildingRemembers(s, e, t, repair, scanner);
    } else {
      match e
      case Compacting(config, _, force, _, _, _) => FallbackRemembers(s.context, config, force, repair, t.anchor);
      case ReplacingSystem(i, m) => ReplacingRemembers(s, i, m);
      case Inserting(i, m) =>
        assert s.context == s.context[..i] + s.context[i..];
        SystemTextSurvives(s, t);
      case _ => SystemTextSurvives(s, t);
    }
  }

  /**
   * The losses are exact: such a replacement leaves no summary of all communications, and neither does such a
   * compaction of a history with at most one system message.
   */
  lemma LossIsExact(s: State, e: Event, t: State, repair: Repair, scanner: Scanner)
    requires Step(s, e, t, repair, scanner)
    requires e.ReplacingSystem? || (MergesOnly(s, e) && |SystemMessages(s.context)| <= 1)
    ensures Remembers(t) <==> !Loses(s, e, scanner)
  {
    hide Remembers, AnchorAfter, IsCut, KeepsSummary, Rebuilds, SimpleCompacted, Sanitized, Filter;
    match e
    case ReplacingSystem(i, m) => ReplacingRemembers(s, i, m);
    case Compacting(config, _, force, _, _, _) =>
      FallbackRemembersExactly(s.context, config, force, repair, t.anchor);
  }

  ghost predicate IsRun(states: seq<State>, events: seq<Event>, repair: Repair, scanner: Scanner) {
    |states| == |events| + 1 &&
    forall i :: 0 <= i < |events| ==> Step(states[i], events[i], states[i + 1], repair, scanner)
  }

  ghost predicate LosesAt(states: seq<State>, events: seq<Event>, scanner: Scanner, n: int)
    requires |states| == |events| + 1
  {
    0 <= n < |events| && Loses(states[n], events[n], scanner)
  }

  predicate RestoresAt(states: seq<State>, events: seq<Event>, n: int)
    requires |states| == |events| + 1
  {
    0 <= n < |events| && Restores(states[n], events[n])
  }

  /**
   * After everything that lost a summary before moment `j`, the history was rebuilt around the anchor again.
   */
  ghost predicate RecoveredAt(states: seq<State>, events: seq<Event>, scanner: Scanner, j: int)
    requires |states| == |events| + 1
  {
    forall n :: n < j && LosesAt(states, events, scanner, n) ==> exists r :: n <= r < j && RestoresAt(states, events, r)
  }

  lemma {:induction false} RunRemembers(states: seq<State>, events: seq<Event>, repair: Repair, scanner: Scanner,
                                        j: nat)
    requires IsRun(states, events, repair, scanner) && Remembers(states[0])
    requires j < |states| && RecoveredAt(states, events, scanner, j)
    ensures Remembers(states[j])
    decreases j
  {
    hide Step, Remembers, Loses, Restores;
    if j > 0 {
      if !RestoresAt(states, events, j - 1) {
        RunRemembers(states, events, repair, scanner, j - 1);
        assert !LosesAt(states, events, scanner, j - 1);
      }
      StepRemembers(states[j - 1], events[j - 1], states[j], repair, scanner);
    }
  }

  lemma {:induction false} RunGrowsList(states: seq<State>, events: seq<Event>, repair: Repair, scanner: Scanner,
                                        i: nat, j: nat)
    requires IsRun(states, events, repair, scanner) && i <= j < |states|
    ensures states[i].anchor.communicationsSent <= states[j].anchor.communicationsSent
    decreases j
  {
    hide Step;
    if i < j {
      RunGrowsList(states, events, repair, scanner, i, j - 1);
      StepGrowsList(states[j - 1], events[j - 1], states[j], repair, scanner);
    }
  }

  /**
   * Communications are never forgotten. Over any run that starts with an empty anchor, once the anchor holds a sent
   * communication, every later history has a system message that lists it on a line of its own, provided the history
   * was rebuilt around the anchor after each step that lost a summary.
   */
  lemma NeverForgotten(states: seq<State>, events: seq<Event>, repair: Repair, scanner: Scanner, i: nat, j: nat,
                       item: string)
    requires IsRun(states, events, repair, scanner) && states[0].anchor == EMPTY && i <= j < |states|
    requires RecoveredAt(states, events, scanner, j) && item in states[i].anchor.communicationsSent
    ensures CarriesSystemText(states[j].context, CommunicationLine(item))
  {
    hide Step, Render, Loses, Restores, RecoveredAt;
    RunRemembers(states, events, repair, scanner, j);
    RunGrowsList(states, events, repair, scanner, i, j);
    ListedWhenRemembered(states[j], item);
  }

  lemma ListedWhenRemembered(s: State, item: string)
    requires Remembers(s) && item in s.anchor.communicationsSent
    ensures CarriesSystemText(s.context, CommunicationLine(item))
  {
    hide Render;
    var b: Summary :| s.anchor.communicationsSent <= b.communicationsSent && CarriesSystemText(s.context, Render(b));
    var k :| 0 <= k < |s.context| && s.context[k].role == System && Contains(s.context[k].content, Render(b));
    RenderListsEveryCommunication(b, item);
    ContainsTransitive(s.context[k].content, Render(b), CommunicationLine(item));
  }

  // ----- What happens to the previous summary -----

  /** The system messages an anchored step puts in front: those kept from the dropped span, then the new summary. */
  function FrontSystem(context: seq<Message>, cut: nat, a: Summary): (r: seq<Message>)
    requires cut <= |context|
    ensures r != []
  {
    KeptSystem(context[..cut]) + [ContextMessage(a)]
  }

  /**
   * Whatever system messages a history has, an anchored step leaves a single one: the first that is kept, or else the
   * new summary, followed by the texts of all others.
   */
  lemma SystemAfterStep(context: seq<Message>, cut: nat, a: Summary, repair: Repair)
    requires cut <= |context|
    ensures var front := FrontSystem(context, cut, a);
            SystemMessages(Sanitized(AnchoredKept(context, cut, a), repair))
            == [WithParts(front[0], SystemParts(front[1..]) + SystemParts(context[cut..]))]
  {
    var front := FrontSystem(context, cut, a);
    FrontIsSystem(context[..cut], a);
    assert front[0].role == System;
    var tail := AnchoredTail(context, cut, a);
    hide *;
    assert front == [front[0]] + front[1..];
    AppendAssoc([front[0]], front[1..], tail);
    LeadingSystemAbsorbs(front[0], front[1..] + tail, repair);
    PartsConcat(front[1..], tail);
  }

  lemma FrontIsSystem(dropped: seq<Message>, a: Summary)
    ensures (KeptSystem(dropped) + [ContextMessage(a)])[0].role == System
  {
    hide Filter;
    if KeptSystem(dropped) != [] {
      var m := KeptSystem(dropped)[0];
      FilterMember(SystemMessages(dropped), IsNotSummary, m);
      FilterMember(dropped, IsSystem, m);
    }
  }

  lemma {:induction false} PartsConcat(left: seq<Message>, right: seq<Message>)
    ensures SystemParts(left + right) == SystemParts(left) + SystemParts(right)
  {
    if left == [] {
      assert left + right == right;
    } else {
      hide Strip;
      assert (left + right)[1..] == left[1..] + right;
      PartsConcat(left[1..], right);
    }
  }

  lemma WithUserTail(front: seq<Message>, back: seq<Message>, pool: seq<Message>) returns (tail: seq<Message>)
    ensures WithUser(front + back, |front|, pool) == front + tail && SystemParts(tail) == SystemParts(back)
  {
    hide SystemParts, HasRole, StandIn;
    tail := back;
    if !HasRole(front + back, User) {
      var standIn := StandIn(pool);
      assert (front + back)[..|front|] == front && (front + back)[|front|..] == back;
      NoSystemParts([standIn]);
      PartsConcat([standIn], back);
      tail := [standIn] + back;
      AppendAssoc(front, [standIn], back);
    }
  }

  lemma NoPriorityParts(dropped: seq<Message>)
    ensures SystemParts(PriorityMessages(dropped)) == []
  {
    hide Filter, IsPriority, SystemParts;
    forall m | m in PriorityMessages(dropped) ensures m.role != System {
      FilterMember(OtherMessages(dropped), IsPriority, m);
      FilterMember(dropped, IsNotSystem, m);
    }
    NoSystemParts(PriorityMessages(dropped));
  }

  /** What follows the front of a rebuilt history adds just the system texts of the kept suffix. */
  lemma AnchoredTail(context: seq<Message>, cut: nat, a: Summary) returns (tail: seq<Message>)
    requires cut <= |context|
    ensures AnchoredKept(context, cut, a) == FrontSystem(context, cut, a) + tail
    ensures SystemParts(tail) == SystemParts(context[cut..])
  {
    hide KeptSystem, PriorityMessages, ToSummarize, SystemParts, WithUser;
    var dropped, suffix := context[..cut], context[cut..];
    var priority := PriorityMessages(dropped);
    NoPriorityParts(dropped);
    PartsConcat(priority, suffix);
    tail := WithUserTail(FrontSystem(context, cut, a), priority + suffix, ToSummarize(dropped));
  }

  lemma JoinOneMessage(head: Message, a: Summary)
    ensures WithParts(head, SystemParts([ContextMessage(a)]))
              == head.(content := RightStrip(head.content) + "\n\n" + Render(a))
  {
    RenderIsMarked(a);
    StripTrimmed(Render(a));
    assert [ContextMessage(a)][1..] == [] && SystemParts([]) == [];
    hide Render, StartsWith, Strip;
    JoinOne("\n\n", Render(a));
    assert SystemParts([ContextMessage(a)]) == [Render(a)] + [];
  }

  /**
   * The previous summary is meant to be replaced. For a history with one system message, in front, it is replaced
   * exactly when that message begins with the summary mark; behind a system prompt the new summary is appended and
   * every older one stays, because clean-up has merged them into the prompt.
   */
  lemma OnlyALeadingSummaryIsReplaced(context: seq<Message>, cut: nat, a: Summary, repair: Repair)
    requires 1 <= cut <= |context| && context[0].role == System
    requires forall i :: 1 <= i < |context| ==> context[i].role != System
    ensures SystemMessages(Sanitized(AnchoredKept(context, cut, a), repair)) ==
            if StartsWith(context[0].content, SUMMARY_MARK) then [ContextMessage(a)]
            else [context[0].(content := RightStrip(context[0].content) + "\n\n" + Render(a))]
  {
    var front := FrontSystem(context, cut, a);
    SystemAfterStep(context, cut, a, repair);
    LeadingKept(context, cut);
    NoSystemParts(context[cut..]);
    NoSystemParts([]);
    hide KeptSystem, Sanitized, AnchoredKept, SystemParts, Render, StartsWith, RightStrip;
    if StartsWith(context[0].content, SUMMARY_MARK) {
      assert front == [ContextMessage(a)] && front[1..] == [];
    } else {
      JoinOneMessage(context[0], a);
      assert front == [context[0]] + [ContextMessage(a)] && front[1..] == [ContextMessage(a)];
      assert SystemParts([ContextMessage(a)]) + [] == SystemParts([ContextMessage(a)]);
    }
  }

  lemma LeadingKept(context: seq<Message>, cut: nat)
    requires 1 <= cut <= |context| && context[0].role == System
    requires forall i :: 1 <= i < |context| ==> context[i].role != System
    ensures KeptSystem(context[..cut]) == if StartsWith(context[0].content, SUMMARY_MARK) then [] else [context[0]]
  {
    hide Filter, StartsWith;
    assert context[..cut] == [context[0]] + context[1..cut];
    NoneLeft(context[1..cut], IsSystem);
    FilterConcat([context[0]], context[1..cut], IsSystem);
    FilterOne(context[0], IsSystem);
    assert SystemMessages(context[..cut]) == [context[0]];
    FilterOne(context[0], IsNotSummary);
  }

  lemma CarriedConcat(left: seq<Message>, right: seq<Message>, t: string)
    ensures CarriesSystemText(left + right, t) <==> CarriesSystemText(left, t) || CarriesSystemText(right, t)
  {
    hide Contains;
    var all := left + right;
    assert forall i :: 0 <= i < |left| ==> all[i] == left[i];
    assert forall i :: 0 <= i < |right| ==> all[|left| + i] == right[i];
  }

  lemma InsertedCarries(context: seq<Message>, i: nat, m: Message, t: string)
    requires i <= |context|
    ensures CarriesSystemText(context[..i] + [m] + context[i..], t) <==>
              (m.role == System && Contains(m.content, t)) || CarriesSystemText(context, t)
  {
    hide Contains;
    assert CarriesSystemText([m], t) <==> m.role == System && Contains(m.content, t) by { assert [m][0] == m; }
    hide CarriesSystemText;
    CarriedConcat(context[..i] + [m], context[i..], t);
    CarriedConcat(context[..i], [m], t);
    CarriedConcat(context[..i], context[i..], t);
    SplitAt(context, i);
  }

  // ----- The prompt hook of the loop -----

  /**
   * What the loop's prompt hook makes of a history: the first system message is replaced, and a second fresh one, if
   * there is one, replaces the second or is inserted behind the first.
   */
  function Composed(context: seq<Message>, prompt: Message, second: Option<Message>): seq<Message> {
    var n := FirstSystem(context);
    if n == |context| then context
    else
      var next := context[n := prompt];
      var k := n + 1 + FirstSystem(context[n + 1..]);
      match second
      case None => next
      case Some(m) => if k < |context| then next[k := m] else next[..n + 1] + [m] + next[n + 1..]
  }

  /** The hook is a step of a run, or two. */
  lemma HookIsStepsOfRun(s: State, prompt: Message, second: Option<Message>, repair: Repair, scanner: Scanner)
    requires FirstSystem(s.context) < |s.context| && prompt.role == System
               && (second.Some? ==> second.value.role == System)
    ensures var n := FirstSystem(s.context);
            var next, last := s.(context := s.context[n := prompt]), s.(context := Composed(s.context, prompt, second));
            && Step(s, ReplacingSystem(n, prompt), next, repair, scanner)
            && (second.None? ==> last == next)
            && (second.Some? ==> exists k: nat, e :: e in {ReplacingSystem(k, second.value), Inserting(k, second.value)}
                                                     && Step(next, e, last, repair, scanner))
  {
    hide FirstSystem;
    var n := FirstSystem(s.context);
    if second.Some? {
      var k := n + 1 + FirstSystem(s.context[n + 1..]);
      var next, last := s.(context := s.context[n := prompt]), s.(context := Composed(s.context, prompt, second));
      if k < |s.context| {
        assert next.context[k] == s.context[k] == s.context[n + 1..][k - n - 1];
        assert Step(next, ReplacingSystem(k, second.value), last, repair, scanner);
      } else {
        assert Step(next, Inserting(n + 1, second.value), last, repair, scanner);
      }
    }
  }

  /**
   * It does lose summaries: clean-up leaves a rebuilt history with one system message, and once the hook has replaced
   * that one, a text is carried exactly if the new prompt itself has it, or the second message if there is one.
   */
  lemma HookForgets(context: seq<Message>, prompt: Message, second: Option<Message>, text: string)
    requires |SystemMessages(context)| == 1 && prompt.role == System
    requires second.Some? ==> second.value.role == System
    ensures CarriesSystemText(Composed(context, prompt, second), text) <==>
              Contains(prompt.content, text) || (second.Some? && Contains(second.value.content, text))
  {
    var n := FirstSystem(context);
    if n == |context| {
      NoneLeft(context, IsSystem);
    }
    OnlySystem(context, n);
    hide Contains, Filter;
    ReplacedText(context, n, prompt, text);
    var next := context[n := prompt];
    if second.Some? {
      NoSecondSystem(context, n);
      InsertedCarries(next, n + 1, second.value, text);
    }
  }

  lemma NoSecondSystem(context: seq<Message>, n: nat)
    requires n < |context| && forall j :: 0 <= j < |context| && j != n ==> context[j].role != System
    ensures FirstSystem(context[n + 1..]) == |context| - n - 1
  {
    var rest := context[n + 1..];
    forall k | 0 <= k < |rest| ensures rest[k].role != System {
      assert rest[k] == context[n + 1 + k];
    }
  }

  lemma OnlySystem(context: seq<Message>, n: nat)
    requires n < |context| && context[n].role == System && |SystemMessages(context)| == 1
    ensures forall j :: 0 <= j < |context| && j != n ==> context[j].role != System
  {
    hide Filter;
    var left, right := context[..n], context[n + 1..];
    assert context == left + ([context[n]] + right);
    FilterConcat(left, [context[n]] + right, IsSystem);
    FilterConcat([context[n]], right, IsSystem);
    FilterOne(context[n], IsSystem);
    forall j | 0 <= j < |context| && j != n ensures context[j].role != System {
      FilterMember(if j < n then left else right, IsSystem, context[j]);
      assert if j < n then left[j] == context[j] else right[j - n - 1] == context[j];
    }
  }
}
