/** Anchored compaction of a chat history and its fallback: nls/agentic/compactor.py. */
module Compaction {
  import opened Sequences
  import opened Text
  import opened Messages
  import opened CutPoint
  import opened Anchor
  import opened Sanitizer

  datatype Config = Config(
    contextWindowTokens: int,
    reserveTokens: int,
    keepRecentTokens: int,
    delegateKeepRecentTokens: int)

  /** What the patterns over call arguments find, and lower-casing. */
  datatype Scanner = Scanner(
    readPath: string -> Option<string>,
    writtenPath: string -> Option<string>,
    describe: (string, string) -> string,
    lower: string -> string)

  /**
   * The summarising model: not configured, failing, or answering with a parsed delta. In the last case something may
   * still fail after the anchor was merged, while the new history is put together and cleaned up.
   */
  datatype Summarizer = NoClient | Unavailable | Reply(delta: Delta, completes: bool)

  // ----- Operations found in a dropped span -----

  const SEND_TOOLS := {"whatsapp_send", "telegram_send", "email_send"}

  /** The last result recorded for each call id. */
  function ToolResults(messages: seq<Message>): map<string, string> {
    if messages == [] then map[]
    else
      var last, earlier := messages[|messages| - 1], ToolResults(messages[..|messages| - 1]);
      if last.role == Tool && last.toolCallId != "" then earlier[last.toolCallId := last.content] else earlier
  }

  predicate IsErrorText(result: string, scanner: Scanner) {
    Contains(Prefix(scanner.lower(result), 50), "error")
  }

  function ReadByCall(call: ToolCall, scanner: Scanner): seq<string> {
    if call.name == "read" && scanner.readPath(call.arguments).Some? then [scanner.readPath(call.arguments).value]
        else []
  }

  function ModifiedByCall(call: ToolCall, scanner: Scanner): seq<string> {
    if call.name in {"write", "edit"} && scanner.writtenPath(call.arguments).Some? then
      [scanner.writtenPath(call.arguments).value]
    else []
  }

  function SentByCall(call: ToolCall, results: map<string, string>, scanner: Scanner): seq<string> {
    if call.name in SEND_TOOLS && call.id in results && results[call.id] != ""
        && !IsErrorText(results[call.id], scanner) then
      [scanner.describe(call.name, call.arguments)]
    else []
  }

  function OverCalls(calls: seq<ToolCall>, find: ToolCall -> seq<string>): seq<string> {
    if calls == [] then [] else OverCalls(calls[..|calls| - 1], find) + find(calls[|calls| - 1])
  }

  /** What `find` yields for every call of every assistant turn, in order. */
  function OverMessages(messages: seq<Message>, find: ToolCall -> seq<string>): seq<string> {
    if messages == [] then []
    else
      var last := messages[|messages| - 1];
      OverMessages(messages[..|messages| - 1], find)
          + (if last.role == Assistant then OverCalls(last.toolCalls, find) else [])
  }

  function Reads(scanner: Scanner): ToolCall -> seq<string> {
    call => ReadByCall(call, scanner)
  }

  function Modifies(scanner: Scanner): ToolCall -> seq<string> {
    call => ModifiedByCall(call, scanner)
  }

  function Sends(results: map<string, string>, scanner: Scanner): ToolCall -> seq<string> {
    call => SentByCall(call, results, scanner)
  }

  function FilesRead(messages: seq<Message>, scanner: Scanner): seq<string> {
    OverMessages(messages, Reads(scanner))
  }

  function FilesModified(messages: seq<Message>, scanner: Scanner): seq<string> {
    OverMessages(messages, Modifies(scanner))
  }

  function CommunicationsSent(messages: seq<Message>, scanner: Scanner): seq<string> {
    OverMessages(messages, Sends(ToolResults(messages), scanner))
  }

  method CollectToolResults(messages: seq<Message>) returns (results: map<string, string>)
    ensures results == ToolResults(messages)
  {
    results := map[];
    for i := 0 to |messages|
      invariant results == ToolResults(messages[..i])
    {
      var m := messages[i];
      if m.role == Tool && m.toolCallId != "" {
        results := results[m.toolCallId := m.content];
      }
      assert messages[..i + 1][..i] == messages[..i];
    }
    assert messages[..|messages|] == messages;
  }

  method ScanCalls(calls: seq<ToolCall>, results: map<string, string>, scanner: Scanner)
    returns (read: seq<string>, modified: seq<string>, sent: seq<string>)
    ensures read == OverCalls(calls, Reads(scanner))
    ensures modified == OverCalls(calls, Modifies(scanner))
    ensures sent == OverCalls(calls, Sends(results, scanner))
  {
    hide ReadByCall, ModifiedByCall, SentByCall;
    read, modified, sent := [], [], [];
    for j := 0 to |calls|
      invariant read == OverCalls(calls[..j], Reads(scanner))
      invariant modified == OverCalls(calls[..j], Modifies(scanner))
      invariant sent == OverCalls(calls[..j], Sends(results, scanner))
    {
      assert calls[..j + 1][..j] == calls[..j];
      read := read + ReadByCall(calls[j], scanner);
      modified := modified + ModifiedByCall(calls[j], scanner);
      sent := sent + SentByCall(calls[j], results, scanner);
    }
    assert calls[..|calls|] == calls;
  }

  method ExtractFileOps(messages: seq<Message>, scanner: Scanner)
    returns (read: seq<string>, modified: seq<string>, sent: seq<string>)
    ensures read == FilesRead(messages, scanner)
    ensures modified == FilesModified(messages, scanner)
    ensures sent == CommunicationsSent(messages, scanner)
  {
    hide Reads, Modifies, Sends, ToolResults, OverCalls;
    var results := CollectToolResults(messages);
    read, modified, sent := [], [], [];
    for i := 0 to |messages|
      invariant read == OverMessages(messages[..i], Reads(scanner))
      invariant modified == OverMessages(messages[..i], Modifies(scanner))
      invariant sent == OverMessages(messages[..i], Sends(results, scanner))
    {
      assert messages[..i + 1][..i] == messages[..i];
      if messages[i].role == Assistant {
        var r, m, s := ScanCalls(messages[i].toolCalls, results, scanner);
        read, modified, sent := read + r, modified + m, sent + s;
      }
    }
    assert messages[..|messages|] == messages;
  }

  /** The model's delta, completed with the operations found in the span itself. */
  function CompleteDelta(d: Delta, messages: seq<Message>, scanner: Scanner): Delta {
    d.(filesRead := AppendNew(d.filesRead, FilesRead(messages, scanner), []),
       filesModified := AppendNew(d.filesModified, FilesModified(messages, scanner), []),
       communicationsSent := AppendNew(d.communicationsSent, CommunicationsSent(messages, scanner), []))
  }

  method SummarizeSpan(messages: seq<Message>, parsed: Delta, scanner: Scanner) returns (delta: Delta)
    ensures delta == CompleteDelta(parsed, messages, scanner)
  {
    var read, modified, sent := ExtractFileOps(messages, scanner);
    read := ExtendWithNew(parsed.filesRead, read, []);
    modified := ExtendWithNew(parsed.filesModified, modified, []);
    sent := ExtendWithNew(parsed.communicationsSent, sent, []);
    delta := parsed.(filesRead := read, filesModified := modified, communicationsSent := sent);
  }

  // ----- Rebuilding the history -----

  /** User messages and digests that are kept however old they are. */
  predicate IsPriority(m: Message) {
    Contains(m.content, "[USER MESSAGE") || StartsWith(m.content, "[Digest of ")
  }

  function LastUser(pool: seq<Message>): (r: Option<Message>)
    ensures r.Some? ==> r.value in pool && r.value.role == User
    ensures r.None? ==> !HasRole(pool, User)
  {
    if pool == [] then None
    else if pool[|pool| - 1].role == User then Some(pool[|pool| - 1])
    else LastUser(pool[..|pool| - 1])
  }

  method FindLastUser(pool: seq<Message>) returns (r: Option<Message>)
    ensures r == LastUser(pool)
  {
    var i := |pool|;
    assert pool[..i] == pool;
    while i > 0
      invariant 0 <= i <= |pool|
      invariant LastUser(pool[..i]) == LastUser(pool)
    {
      i := i - 1;
      assert pool[..i + 1][..i] == pool[..i];
      if pool[i].role == User {
        return Some(pool[i]);
      }
    }
    return None;
  }

  /** The user message put back when none is left. */
  function StandIn(pool: seq<Message>): (m: Message)
    ensures m.role == User
  {
    match LastUser(pool)
    case Some(m) => m
    case None => UserMessage(CONTINUE_TEXT)
  }

  function WithUser(messages: seq<Message>, at: nat, pool: seq<Message>): seq<Message>
    requires at <= |messages|
  {
    if HasRole(messages, User) then messages else messages[..at] + [StandIn(pool)] + messages[at..]
  }

  method EnsureUser(messages: seq<Message>, at: nat, pool: seq<Message>) returns (r: seq<Message>)
    requires at <= |messages|
    ensures r == WithUser(messages, at, pool)
    ensures HasRole(r, User)
  {
    r := messages;
    if !HasRole(messages, User) {
      var last := FindLastUser(pool);
      var standIn := if last.Some? then last.value else UserMessage(CONTINUE_TEXT);
      r := messages[..at] + [standIn] + messages[at..];
      assert r[at].role == User;
    }
  }

  // ----- Recency fallback -----

  /** How many of `n` non-system messages the fallback does not keep for being recent. */
  function OldCount(n: nat, force: bool): (stale: nat)
    ensures stale <= n
  {
    var keep := Max(if force then 4 else 6, n / 3);
    if keep < n then n - keep else 0
  }

  /** The messages the fallback keeps, before it makes sure of a user message. */
  function RecentBase(context: seq<Message>, force: bool): seq<Message> {
    var other := OtherMessages(context);
    var stale := OldCount(|other|, force);
    SystemMessages(context) + Filter(other[..stale], IsPriority) + other[stale..]
  }

  function SimpleKept(context: seq<Message>, force: bool): seq<Message> {
    WithUser(RecentBase(context, force), |SystemMessages(context)|, OtherMessages(context))
  }

  function SimpleCompacted(context: seq<Message>, config: Config, force: bool, repair: Repair): seq<Message> {
    if !force && EstimatedTokens(context) <= config.contextWindowTokens - config.reserveTokens then context
    else Sanitized(SimpleKept(context, force), repair)
  }

  method SimpleCompact(context: seq<Message>, config: Config, force: bool, repair: Repair) returns (r: seq<Message>)
    ensures r == SimpleCompacted(context, config, force, repair)
  {
    hide Sanitized, WithUser, EstimatedTokens, IsPriority;
    var tokens := EstimateTokens(context);
    if !force && tokens <= config.contextWindowTokens - config.reserveTokens {
      return context;
    }
    var systemMessages := SystemMessages(context);
    var other := OtherMessages(context);
    var keep := Max(if force then 4 else 6, |other| / 3);
    var older := if keep < |other| then other[..|other| - keep] else [];
    var recent := if keep < |other| then other[|other| - keep..] else other;
    assert older == other[..OldCount(|other|, force)] && recent == other[OldCount(|other|, force)..];
    var trimmed := systemMessages + Filter(older, IsPriority) + recent;
    trimmed := EnsureUser(trimmed, |systemMessages|, other);
    return Sanitized(trimmed, repair);
  }

  // ----- Anchored compaction -----

  function KeepTokens(config: Config, force: bool, isDelegate: bool): int {
    var base := if isDelegate && config.delegateKeepRecentTokens > 0 then config.delegateKeepRecentTokens
                else config.keepRecentTokens;
    if force then base / 2 else base
  }

  predicate IsNotPriority(m: Message) {
    !IsPriority(m)
  }

  predicate IsNotSummary(m: Message) {
    !StartsWith(m.content, SUMMARY_MARK)
  }

  function PriorityMessages(dropped: seq<Message>): seq<Message> {
    Filter(OtherMessages(dropped), IsPriority)
  }

  function ToSummarize(dropped: seq<Message>): seq<Message> {
    Filter(OtherMessages(dropped), IsNotPriority)
  }

  function KeptSystem(dropped: seq<Message>): seq<Message> {
    Filter(SystemMessages(dropped), IsNotSummary)
  }

  function AnchoredBase(context: seq<Message>, cut: nat, a: Summary): seq<Message>
    requires cut <= |context|
  {
    KeptSystem(context[..cut]) + [ContextMessage(a)] + (PriorityMessages(context[..cut]) + context[cut..])
  }

  /** The history built around an updated anchor, before clean-up. */
  function AnchoredKept(context: seq<Message>, cut: nat, a: Summary): seq<Message>
    requires cut <= |context|
  {
    WithUser(AnchoredBase(context, cut, a), |KeptSystem(context[..cut])| + 1, ToSummarize(context[..cut]))
  }

  /** Whether the span before the cut is summarised into the anchor. */
  predicate Summarizes(context: seq<Message>, cut: nat, model: Summarizer)
    requires cut <= |context|
  {
    cut > 1 && ToSummarize(context[..cut]) != [] && model.Reply?
  }

  /** Whether the history is then rebuilt around the anchor rather than trimmed by recency. */
  predicate Rebuilds(context: seq<Message>, cut: nat, model: Summarizer)
    requires cut <= |context|
  {
    Summarizes(context, cut, model) && model.completes
  }

  function AnchorAfter(context: seq<Message>, cut: nat, a: Summary, model: Summarizer, iteration: nat,
                       scanner: Scanner): Summary
    requires cut <= |context|
  {
    if Summarizes(context, cut, model) then
      Merged(a, CompleteDelta(model.delta, ToSummarize(context[..cut]), scanner), iteration)
    else a
  }

  function ContextAfter(context: seq<Message>, cut: nat, a: Summary, config: Config, model: Summarizer, force: bool,
                        iteration: nat, repair: Repair, scanner: Scanner): seq<Message>
    requires cut <= |context|
  {
    if Rebuilds(context, cut, model) then
      Sanitized(AnchoredKept(context, cut, AnchorAfter(context, cut, a, model, iteration, scanner)), repair)
    else SimpleCompacted(context, config, force, repair)
  }

  /** `cut` is where compaction cuts this history. */
  ghost predicate IsCut(context: seq<Message>, config: Config, force: bool, isDelegate: bool, cut: nat) {
    exists c: nat :: IsBudgetCut(context, KeepTokens(config, force, isDelegate), c) && cut == Align(context, c)
  }

  /** Removing messages equal to a priority message removes exactly the priority messages. */
  lemma {:induction false} RemovalByValue(messages: seq<Message>, priority: seq<Message>)
    requires forall m :: m in messages ==> (m in priority <==> IsPriority(m))
    ensures Filter(messages, m => m !in priority) == Filter(messages, IsNotPriority)
  {
    FilterAgrees(messages, m => m !in priority, IsNotPriority);
  }

  /** Splits the span before the cut into what is summarised and what moves to the kept part. */
  method SelectSpan(dropped: seq<Message>) returns (toSummarize: seq<Message>, priority: seq<Message>)
    ensures toSummarize == ToSummarize(dropped)
    ensures priority == PriorityMessages(dropped)
  {
    toSummarize := OtherMessages(dropped);
    priority := Filter(toSummarize, IsPriority);
    ghost var all := toSummarize;
    forall m ensures m in priority <==> m in all && IsPriority(m) { FilterMember(all, IsPriority, m); }
    if priority != [] {
      RemovalByValue(all, priority);
      toSummarize := Filter(toSummarize, m => m !in priority);
    } else {
      FilterAll(all, IsNotPriority);
    }
  }

  /** The anchored step proper: extend the delta, merge it, rebuild the history. */
  method FoldSpan(context: seq<Message>, cut: nat, toSummarize: seq<Message>, priority: seq<Message>,
                  anchor: CompactionAnchor, delta: Delta, iteration: nat, scanner: Scanner)
    returns (compacted: seq<Message>)
    requires cut <= |context|
    requires toSummarize == ToSummarize(context[..cut]) && priority == PriorityMessages(context[..cut])
    modifies anchor
    ensures anchor.Value() == Merged(old(anchor.Value()), CompleteDelta(delta, toSummarize, scanner), iteration)
    ensures compacted == AnchoredKept(context, cut, anchor.Value())
    ensures HasRole(compacted, User)
  {
    hide CompleteDelta, Merged, ToSummarize, PriorityMessages, WithUser, ContextMessage;
    var complete := SummarizeSpan(toSummarize, delta, scanner);
    anchor.Merge(complete, iteration);
    var keptSystem := Filter(SystemMessages(context[..cut]), IsNotSummary);
    compacted := keptSystem + [ContextMessage(anchor.Value())] + (priority + context[cut..]);
    compacted := EnsureUser(compacted, |keptSystem| + 1, toSummarize);
  }

  method Compact(context: seq<Message>, anchor: CompactionAnchor, config: Config, model: Summarizer, force: bool,
                 iteration: nat, isDelegate: bool, repair: Repair, scanner: Scanner)
    returns (r: seq<Message>, ghost cut: nat)
    modifies anchor
    ensures IsCut(context, config, force, isDelegate, cut) && cut <= |context|
    ensures anchor.Value() == AnchorAfter(context, cut, old(anchor.Value()), model, iteration, scanner)
    ensures r == ContextAfter(context, cut, old(anchor.Value()), config, model, force, iteration, repair, scanner)
  {
    hide Sanitized, ToSummarize, PriorityMessages, AnchoredKept, CompleteDelta, Merged, SimpleCompacted, IsBudgetCut,
        Align;
    var c := FindCutPoint(context, KeepTokens(config, force, isDelegate));
    cut := c;
    if c <= 1 {
      r := SimpleCompact(context, config, force, repair);
      return;
    }
    var toSummarize, priority := SelectSpan(context[..c]);
    if toSummarize == [] || model.NoClient? || model.Unavailable? {
      r := SimpleCompact(context, config, force, repair);
      return;
    }
    r := FoldSpan(context, c, toSummarize, priority, anchor, model.delta, iteration, scanner);
    if !model.completes {
      r := SimpleCompact(context, config, force, repair);
      return;
    }
    r := Sanitized(r, repair);
  }
}
