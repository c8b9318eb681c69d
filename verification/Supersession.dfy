/** Collapsing stale tool results in place: nls/agentic/context_supersession.py. */
module Supersession {
  import opened Sequences
  import opened Text
  import opened Messages
  import opened Anchor

  datatype Policy = Disabled | DelegateAggressive | OrchestratorConservative | CompletionReviewFrozen

  /** One tool call paired with its result. */
  datatype Record = Record(msgIndex: nat, callId: string, toolName: string, intentKey: string, isError: bool,
      content: string)

  /**
   * What a pass depends on besides the history: recorded error bits by message index, deliverable paths, the intent
   * key of a call (tool name and raw arguments), the cache key of a read path ("" when there is none), lower-casing.
   */
  datatype Inputs = Inputs(
    policy: Policy,
    startIndex: nat,
    errorBits: map<nat, bool>,
    deliverables: set<string>,
    intentKey: (string, string) -> string,
    cacheKey: string -> string,
    lower: string -> string)

  const SUPERSEDED := "[superseded"

  // ----- Pairing calls with results -----

  predicate LooksLikeError(content: string) {
    var head := Prefix(content, 200);
    StartsWith(head, "Error") || Contains(head, "[FAIL") || Contains(head, "Traceback")
    || Contains(head, "STALE FILE") || Contains(head, "MUST READ FIRST")
  }

  predicate IsErrorAt(i: nat, content: string, inputs: Inputs) {
    if i in inputs.errorBits then inputs.errorBits[i] else LooksLikeError(content)
  }

  /** The index of the last result for each call id, among the first `n` messages. */
  function ResultIndex(context: seq<Message>, start: nat, n: nat): (r: map<string, nat>)
    requires n <= |context|
    ensures forall id :: id in r ==>
              r[id] < n && context[r[id]].role == Tool && context[r[id]].toolCallId == id && id != ""
  {
    if n == 0 then map[]
    else
      var r := ResultIndex(context, start, n - 1);
      var m := context[n - 1];
      if n - 1 >= start && m.role == Tool && m.toolCallId != "" then r[m.toolCallId := n - 1] else r
  }

  function RecordOf(context: seq<Message>, call: ToolCall, i: nat, inputs: Inputs): Record
    requires i < |context|
  {
    Record(i, call.id, call.name, inputs.intentKey(call.name, call.arguments), IsErrorAt(i, context[i].content, inputs),
           context[i].content)
  }

  function RecordsOfCalls(context: seq<Message>, calls: seq<ToolCall>, index: map<string, nat>,
                          inputs: Inputs): seq<Record>
    requires forall id :: id in index ==> index[id] < |context|
  {
    if calls == [] then []
    else
      var call := calls[|calls| - 1];
      RecordsOfCalls(context, calls[..|calls| - 1], index, inputs)
      + (if call.id in index then [RecordOf(context, call, index[call.id], inputs)] else [])
  }

  /** Records of the assistant turns among the first `n` messages, in order. */
  function RecordsUpTo(context: seq<Message>, n: nat, index: map<string, nat>, inputs: Inputs): seq<Record>
    requires n <= |context|
    requires forall id :: id in index ==> index[id] < |context|
  {
    if n == 0 then []
    else
      RecordsUpTo(context, n - 1, index, inputs)
      + (if n - 1 >= inputs.startIndex && context[n - 1].role == Assistant then
           RecordsOfCalls(context, context[n - 1].toolCalls, index, inputs)
         else [])
  }

  function Records(context: seq<Message>, inputs: Inputs): seq<Record> {
    RecordsUpTo(context, |context|, ResultIndex(context, inputs.startIndex, |context|), inputs)
  }

  method IndexResults(context: array<Message>, start: nat) returns (index: map<string, nat>)
    ensures index == ResultIndex(context[..], start, context.Length)
  {
    index := map[];
    for i := 0 to context.Length
      invariant index == ResultIndex(context[..], start, i)
    {
      var m := context[i];
      if i >= start && m.role == Tool && m.toolCallId != "" {
        index := index[m.toolCallId := i];
      }
    }
  }

  method PairCalls(context: array<Message>, calls: seq<ToolCall>, index: map<string, nat>, inputs: Inputs)
      returns (records: seq<Record>)
    requires forall id :: id in index ==> index[id] < context.Length
    ensures records == RecordsOfCalls(context[..], calls, index, inputs)
  {
    hide IsErrorAt;
    records := [];
    for j := 0 to |calls|
      invariant records == RecordsOfCalls(context[..], calls[..j], index, inputs)
    {
      assert calls[..j + 1][..j] == calls[..j];
      if calls[j].id in index {
        var at := index[calls[j].id];
        records := records + [Record(at, calls[j].id, calls[j].name,
            inputs.intentKey(calls[j].name, calls[j].arguments),
                                     IsErrorAt(at, context[at].content, inputs), context[at].content)];
      }
    }
    assert calls[..|calls|] == calls;
  }

  method PairToolTurns(context: array<Message>, inputs: Inputs) returns (records: seq<Record>)
    ensures records == Records(context[..], inputs)
  {
    hide ResultIndex, RecordsOfCalls;
    var index := IndexResults(context, inputs.startIndex);
    records := [];
    for i := 0 to context.Length
      invariant records == RecordsUpTo(context[..], i, index, inputs)
    {
      if i >= inputs.startIndex && context[i].role == Assistant {
        var paired := PairCalls(context, context[i].toolCalls, index, inputs);
        records := records + paired;
      }
    }
  }

  // ----- Which records are stale -----

  function BeforeFirst(s: string, separator: string): string {
    if |s| < |separator| then s
    else if separator <= s then ""
    else if s == [] then [] else [s[0]] + BeforeFirst(s[1..], separator)
  }

  function PathFromReadIntent(key: string): string {
    if StartsWith(key, "read:") then BeforeFirst(BeforeFirst(key[5..], ":o"), ":max") else ""
  }

  predicate IsProtectedRead(r: Record) {
    r.toolName == "read" && Contains(r.intentKey, "max_chars=")
  }

  function FirstIn(patterns: seq<string>, head: string): Option<string> {
    if patterns == [] then None
    else if Contains(head, patterns[0]) then Some(patterns[0])
    else FirstIn(patterns[1..], head)
  }

  const ERROR_PATTERNS := ["modulenotfounderror", "no module named", "no such file", "cannot find path",
                           "command not found", "syntaxerror", "permission denied"]

  function ErrorClass(content: string, inputs: Inputs): string {
    if content == "" then "empty"
    else
      var head := inputs.lower(Prefix(content, 120));
      match FirstIn(ERROR_PATTERNS, head)
      case Some(pattern) => pattern
      case None => Prefix(head, 40)
  }

  /** A whole intent group is left alone for the sake of its newest record. */
  predicate IsFrozen(latest: Record, inputs: Inputs) {
    latest.toolName == "read" &&
    (IsProtectedRead(latest)
     || (inputs.policy == OrchestratorConservative && PathFromReadIntent(latest.intentKey) in inputs.deliverables))
  }

  /** What the conservative policy leaves alone; `idx` counts within the `n` older records of the group. */
  predicate IsSpared(rec: Record, latest: Record, idx: nat, n: nat, inputs: Inputs) {
    inputs.policy == OrchestratorConservative &&
    (rec.toolName !in {"list_dir", "read", "bash"}
     || (rec.toolName == "read" && PathFromReadIntent(rec.intentKey) in inputs.deliverables)
     || (rec.toolName == "read" && idx != n - 1 && latest.toolName != "read")
     || (rec.toolName == "bash" && !rec.isError))
  }

  datatype Cause = Resolved | SameClass | NewerRead | BashAttempt | BashRun | ListDir | Current

  /** Why the record at `idx` of the `n` older records of a group is stale, if it is. */
  function CauseOf(rec: Record, latest: Record, idx: nat, n: nat, inputs: Inputs): Cause {
    if IsSpared(rec, latest, idx, n, inputs) || IsProtectedRead(rec) then Current
    else if !latest.isError && rec.isError then Resolved
    else if latest.isError && rec.isError then
      (if ErrorClass(latest.content, inputs) != ErrorClass(rec.content, inputs) || (n >= 2 && idx == n - 2) then Current
       else SameClass)
    else if rec.toolName == "read" && latest.toolName == "read" then NewerRead
    else if rec.toolName == "bash" && latest.toolName == "bash" then (if rec.isError then BashAttempt else BashRun)
    else if rec.toolName == "list_dir" && latest.toolName == "list_dir" then ListDir
    else Current
  }

  // ----- Stub texts -----

  function LastFailure(older: seq<Record>): string {
    if older == [] then ""
    else if older[|older| - 1].isError then older[|older| - 1].content
    else LastFailure(older[..|older| - 1])
  }

  function CacheKeyOf(key: string, inputs: Inputs): string {
    var path := PathFromReadIntent(key);
    if path != "" then inputs.cacheKey(path) else ""
  }

  const RECOVERY :=
    "Assistant tool_call preserved above. "
    + "Re-run the tool or use read(offset=…) / read(force=true) if you need full output."

  function StubTitle(rec: Record, reason: string, count: nat): string {
    "[superseded ×" + Digits(count) + "] " + rec.toolName + " — " + reason
  }

  function MakeStub(rec: Record, reason: string, count: nat, representative: string, cacheKey: string): string {
    var details := (if cacheKey != "" then ["cache_key=" + cacheKey] else [])
      + (if representative != "" then ["Last error: " + Prefix(representative, 200)] else []);
    Prefix(Join("\n", [StubTitle(rec, reason, count)] + details + [RECOVERY]), Max(320, |representative| + 120))
  }

  function Reason(cause: Cause): string {
    match cause
    case Resolved => "resolved by later success"
    case SameClass => "same error class"
    case NewerRead => "superseded by newer read"
    case BashAttempt => "superseded bash attempt"
    case BashRun => "superseded bash run"
    case _ => "superseded list_dir"
  }

  /** A planned rewrite of one tool body; `note` is what the anchor remembers of it. */
  datatype Edit = Edit(msgIndex: nat, stub: string, countsCacheRef: bool, note: string)

  function NoteFor(rec: Record): string {
    rec.toolName + " " + Prefix(rec.intentKey, 60) + " → superseded"
  }

  /** The cache key quoted in the stub of `rec`, looked up for the newest read first. */
  function CacheFor(rec: Record, latest: Record, inputs: Inputs): string {
    var groupCache := if latest.toolName == "read" then CacheKeyOf(latest.intentKey, inputs) else "";
    if groupCache == "" && rec.toolName == "read" then CacheKeyOf(rec.intentKey, inputs) else groupCache
  }

  function EditFor(older: seq<Record>, latest: Record, idx: nat, cause: Cause, inputs: Inputs): Edit
    requires idx < |older|
  {
    var rec, n := older[idx], |older|;
    var cache := CacheFor(rec, latest, inputs);
    var quotesFailure := (cause.Resolved? && idx == n - 1) || (cause.BashAttempt? && idx == n - 2);
    var quotesCache := !cause.BashRun? && !cause.ListDir?;
    var stub := MakeStub(rec, Reason(cause), n,
        if quotesFailure then LastFailure(older) else "", if quotesCache then cache else "");
    Edit(rec.msgIndex, stub, cause.NewerRead? && cache != "", NoteFor(rec))
  }

  // ----- The plan of a pass -----

  function PlanFrom(older: seq<Record>, latest: Record, idx: nat, inputs: Inputs): seq<Edit>
    requires idx <= |older|
    decreases |older| - idx
  {
    if idx == |older| then []
    else
      var cause := CauseOf(older[idx], latest, idx, |older|, inputs);
      if cause.Current? then PlanFrom(older, latest, idx + 1, inputs)
      else [EditFor(older, latest, idx, cause, inputs)] + PlanFrom(older, latest, idx + 1, inputs)
  }

  function PlanGroup(group: seq<Record>, inputs: Inputs): seq<Edit> {
    if |group| < 2 || IsFrozen(group[|group| - 1], inputs) then []
    else PlanFrom(group[..|group| - 1], group[|group| - 1], 0, inputs)
  }

  function Group(records: seq<Record>, key: string): seq<Record> {
    if records == [] then []
    else
      var last := records[|records| - 1];
      Group(records[..|records| - 1], key) + (if last.intentKey == key then [last] else [])
  }

  /** Intent keys in order of first appearance. */
  function Keys(records: seq<Record>): seq<string> {
    if records == [] then []
    else
      var keys, key := Keys(records[..|records| - 1]), records[|records| - 1].intentKey;
      if key in keys then keys else keys + [key]
  }

  function PlanKeys(records: seq<Record>, keys: seq<string>, inputs: Inputs): seq<Edit> {
    if keys == [] then [] else PlanGroup(Group(records, keys[0]), inputs) + PlanKeys(records, keys[1..], inputs)
  }

  function Plan(context: seq<Message>, inputs: Inputs): seq<Edit> {
    if inputs.policy.Disabled? || inputs.policy.CompletionReviewFrozen? then []
    else PlanKeys(Records(context, inputs), Keys(Records(context, inputs)), inputs)
  }

  // ----- Carrying the plan out -----

  datatype Outcome = Outcome(context: seq<Message>, stubs: nat, saved: nat, cacheRefs: nat, notes: seq<string>)

  predicate IsStubbed(m: Message) {
    StartsWith(m.content, SUPERSEDED)
  }

  /** An edit is skipped, except for its cache reference, when the body is a stub already. */
  function Applied(o: Outcome, e: Edit): Outcome
    requires e.msgIndex < |o.context|
  {
    var refs := o.cacheRefs + if e.countsCacheRef then 1 else 0;
    var m := o.context[e.msgIndex];
    if IsStubbed(m) then o.(cacheRefs := refs)
    else
      Outcome(o.context[e.msgIndex := m.(content := e.stub)], o.stubs + 1,
              o.saved + if |m.content| > |e.stub| then |m.content| - |e.stub| else 0,
              refs, if e.note in o.notes then o.notes else o.notes + [e.note])
  }

  predicate InRange(edits: seq<Edit>, n: nat) {
    forall e :: e in edits ==> e.msgIndex < n
  }

  function AppliedAll(o: Outcome, edits: seq<Edit>): (r: Outcome)
    requires InRange(edits, |o.context|)
    ensures |r.context| == |o.context|
    decreases |edits|
  {
    if edits == [] then o else AppliedAll(Applied(o, edits[0]), edits[1..])
  }

  lemma {:induction false} AppliedConcat(o: Outcome, left: seq<Edit>, right: seq<Edit>)
    requires InRange(left, |o.context|) && InRange(right, |o.context|)
    ensures AppliedAll(o, left + right) == AppliedAll(AppliedAll(o, left), right)
    decreases |left|
  {
    if left == [] {
      assert left + right == right;
    } else {
      AppliedConcat(Applied(o, left[0]), left[1..], right);
      assert (left + right)[1..] == left[1..] + right;
    }
  }

  // ----- Where edits may point -----

  /** Every record points at the tool result that answers its call. */
  predicate PointsAtResults(records: seq<Record>, context: seq<Message>) {
    forall r :: r in records ==>
      r.msgIndex < |context| && context[r.msgIndex].role == Tool && context[r.msgIndex].toolCallId == r.callId
  }

  lemma {:induction false} RecordsOfCallsPoint(context: seq<Message>, calls: seq<ToolCall>, index: map<string, nat>,
                                               inputs: Inputs)
    requires forall id :: id in index ==>
               index[id] < |context| && context[index[id]].role == Tool && context[index[id]].toolCallId == id
    ensures PointsAtResults(RecordsOfCalls(context, calls, index, inputs), context)
  {
    if calls != [] {
      RecordsOfCallsPoint(context, calls[..|calls| - 1], index, inputs);
    }
  }

  lemma {:induction false} RecordsPoint(context: seq<Message>, n: nat, index: map<string, nat>, inputs: Inputs)
    requires n <= |context|
    requires forall id :: id in index ==>
               index[id] < |context| && context[index[id]].role == Tool && context[index[id]].toolCallId == id
    ensures PointsAtResults(RecordsUpTo(context, n, index, inputs), context)
  {
    if n > 0 {
      RecordsPoint(context, n - 1, index, inputs);
      RecordsOfCallsPoint(context, context[n - 1].toolCalls, index, inputs);
    }
  }

  lemma {:induction false} GroupMember(records: seq<Record>, key: string, r: Record)
    ensures r in Group(records, key) <==> r in records && r.intentKey == key
  {
    if records != [] {
      var last, earlier := records[|records| - 1], records[..|records| - 1];
      assert records == earlier + [last];
      GroupMember(earlier, key, r);
    }
  }

  lemma {:induction false} PlanFromEdits(older: seq<Record>, latest: Record, idx: nat, inputs: Inputs)
    requires idx <= |older|
    ensures forall e :: e in PlanFrom(older, latest, idx, inputs) <==>
              exists i :: idx <= i < |older| && !CauseOf(older[i], latest, i, |older|, inputs).Current?
                          && e == EditFor(older, latest, i, CauseOf(older[i], latest, i, |older|, inputs), inputs)
    decreases |older| - idx
  {
    hide CauseOf, EditFor;
    if idx < |older| {
      PlanFromEdits(older, latest, idx + 1, inputs);
    }
  }

  /** The record at position `i` of a group is stale: it is not the newest and has a cause. */
  predicate IsStaleAt(group: seq<Record>, i: nat, inputs: Inputs) {
    && i + 1 < |group|
    && !IsFrozen(group[|group| - 1], inputs)
    && !CauseOf(group[i], group[|group| - 1], i, |group| - 1, inputs).Current?
  }

  function EditAt(group: seq<Record>, i: nat, inputs: Inputs): Edit
    requires i + 1 < |group|
  {
    EditFor(group[..|group| - 1], group[|group| - 1], i, CauseOf(group[i], group[|group| - 1], i, |group| - 1, inputs),
        inputs)
  }

  lemma PlanGroupEdits(group: seq<Record>, inputs: Inputs, e: Edit)
    ensures e in PlanGroup(group, inputs) <==>
              exists i :: 0 <= i < |group| && IsStaleAt(group, i, inputs) && e == EditAt(group, i, inputs)
  {
    hide CauseOf, EditFor, IsFrozen;
    if |group| >= 2 && !IsFrozen(group[|group| - 1], inputs) {
      var older, latest := group[..|group| - 1], group[|group| - 1];
      PlanFromEdits(older, latest, 0, inputs);
      if e in PlanGroup(group, inputs) {
        var i :| 0 <= i < |older| && !CauseOf(older[i], latest, i, |older|, inputs).Current?
                 && e == EditFor(older, latest, i, CauseOf(older[i], latest, i, |older|, inputs), inputs);
        assert IsStaleAt(group, i, inputs) && e == EditAt(group, i, inputs);
      }
      if i :| 0 <= i < |group| && IsStaleAt(group, i, inputs) && e == EditAt(group, i, inputs) {
        assert older[i] == group[i];
      }
    }
  }

  lemma {:induction false} PlanKeysEdits(records: seq<Record>, keys: seq<string>, inputs: Inputs, e: Edit)
    ensures e in PlanKeys(records, keys, inputs) <==>
              exists key :: key in keys && e in PlanGroup(Group(records, key), inputs)
  {
    hide PlanGroup, Group;
    if keys != [] {
      var first, rest := keys[0], keys[1..];
      assert keys == [first] + rest;
      PlanKeysEdits(records, rest, inputs, e);
      if e in PlanKeys(records, keys, inputs) && e !in PlanGroup(Group(records, first), inputs) {
        var key :| key in rest && e in PlanGroup(Group(records, key), inputs);
        assert key in keys;
      }
      if key :| key in keys && e in PlanGroup(Group(records, key), inputs) {
        assert key == first || key in rest;
      }
    }
  }

  lemma {:induction false} KeysMember(records: seq<Record>, key: string)
    ensures key in Keys(records) <==> exists r :: r in records && r.intentKey == key
  {
    if records != [] {
      var last, earlier := records[|records| - 1], records[..|records| - 1];
      assert records == earlier + [last];
      KeysMember(earlier, key);
    }
  }

  predicate IsActive(inputs: Inputs) {
    !inputs.policy.Disabled? && !inputs.policy.CompletionReviewFrozen?
  }

  /** The plan has exactly one edit for each stale record of each intent group. */
  lemma PlanEdits(context: seq<Message>, inputs: Inputs, e: Edit)
    ensures e in Plan(context, inputs) <==>
            IsActive(inputs) && exists key, i: nat ::
              IsStaleAt(Group(Records(context, inputs), key), i, inputs)
                  && e == EditAt(Group(Records(context, inputs), key), i, inputs)
  {
    hide CauseOf, IsFrozen, EditAt, Group, Records, PlanGroup, Keys;
    var records := Records(context, inputs);
    PlanKeysEdits(records, Keys(records), inputs, e);
    if e in Plan(context, inputs) {
      var key :| key in Keys(records) && e in PlanGroup(Group(records, key), inputs);
      PlanGroupEdits(Group(records, key), inputs, e);
    }
    if IsActive(inputs) {
      if key, i: nat :| IsStaleAt(Group(records, key), i, inputs) && e == EditAt(Group(records, key), i, inputs) {
        StaleKeyListed(records, key, i, inputs);
        PlanGroupEdits(Group(records, key), inputs, e);
      }
    }
  }

  lemma StaleKeyListed(records: seq<Record>, key: string, i: nat, inputs: Inputs)
    requires IsStaleAt(Group(records, key), i, inputs)
    ensures key in Keys(records) && i < |Group(records, key)|
  {
    hide CauseOf, IsFrozen, Group;
    GroupMember(records, key, Group(records, key)[i]);
    KeysMember(records, key);
  }

  lemma GroupsPoint(context: seq<Message>, inputs: Inputs, key: string)
    ensures PointsAtResults(Group(Records(context, inputs), key), context)
  {
    hide IsErrorAt;
    var records := Records(context, inputs);
    RecordsPoint(context, |context|, ResultIndex(context, inputs.startIndex, |context|), inputs);
    forall r | r in Group(records, key) ensures r in records { GroupMember(records, key, r); }
  }

  /** Edits only ever point at tool results. */
  predicate TargetsResults(edits: seq<Edit>, context: seq<Message>) {
    forall e :: e in edits ==> e.msgIndex < |context| && context[e.msgIndex].role == Tool
  }

  lemma PlanTargets(context: seq<Message>, inputs: Inputs)
    ensures TargetsResults(Plan(context, inputs), context)
  {
    hide CauseOf, IsFrozen, Group, Records, Plan;
    forall e | e in Plan(context, inputs) ensures e.msgIndex < |context| && context[e.msgIndex].role == Tool {
      PlanEdits(context, inputs, e);
      var key, i: nat :| IsStaleAt(Group(Records(context, inputs), key), i, inputs)
          && e == EditAt(Group(Records(context, inputs), key), i, inputs);
      GroupsPoint(context, inputs, key);
      assert Group(Records(context, inputs), key)[i] in Group(Records(context, inputs), key);
    }
  }

  /** One whole pass over a history, with the superseded attempts the anchor lists already. */
  function Superseded(context: seq<Message>, inputs: Inputs, notes: seq<string>): Outcome {
    PlanTargets(context, inputs);
    AppliedAll(Outcome(context, 0, 0, 0, notes), Plan(context, inputs))
  }

  lemma GroupStep(earlier: seq<Record>, last: Record, key: string)
    ensures Group(earlier + [last], key) == if last.intentKey == key then Group(earlier, key) + [last]
              else Group(earlier, key)
    ensures Keys(earlier + [last]) == if last.intentKey in Keys(earlier) then Keys(earlier)
              else Keys(earlier) + [last.intentKey]
  {
    assert (earlier + [last])[..|earlier|] == earlier;
  }

  /** `groups` holds the group of every key met so far. */
  ghost predicate Indexed(records: seq<Record>, keys: seq<string>, groups: map<string, seq<Record>>) {
    && keys == Keys(records)
    && (forall key :: key in groups <==> key in keys)
    && (forall key :: Group(records, key) == if key in groups then groups[key] else [])
  }

  lemma NothingIndexed()
    ensures Indexed([], [], map[])
  {
  }

  lemma IndexedStep(earlier: seq<Record>, r: Record, keys: seq<string>, groups: map<string, seq<Record>>)
    requires Indexed(earlier, keys, groups)
    ensures var known := r.intentKey in groups;
            Indexed(earlier + [r], if known then keys else keys + [r.intentKey],
                    groups[r.intentKey := if known then groups[r.intentKey] + [r] else [r]])
  {
    hide Group, Keys;
    forall key
      ensures Group(earlier + [r], key) == if r.intentKey == key then Group(earlier, key) + [r] else Group(earlier, key)
    {
      GroupStep(earlier, r, key);
    }
    GroupStep(earlier, r, r.intentKey);
  }

  method GroupByIntent(records: seq<Record>) returns (keys: seq<string>, groups: map<string, seq<Record>>)
    ensures keys == Keys(records)
    ensures forall key :: key in groups <==> key in keys
    ensures forall key :: key in keys ==> groups[key] == Group(records, key)
  {
    hide Group, Keys;
    keys, groups := [], map[];
    NothingIndexed();
    TakeAll(records);
    for i := 0 to |records|
      invariant Indexed(records[..i], keys, groups)
    {
      hide *;
      var r := records[i];
      IndexedStep(records[..i], r, keys, groups);
      TakeNext(records, i);
      if r.intentKey in groups {
        groups := groups[r.intentKey := groups[r.intentKey] + [r]];
      } else {
        keys := keys + [r.intentKey];
        groups := groups[r.intentKey := [r]];
      }
    }
  }

  datatype Stats = Stats(stubs: nat, saved: nat, cacheRefs: nat)

  /** Carries out one edit on the live history. */
  method Rewrite(context: array<Message>, e: Edit, anchor: CompactionAnchor, stats: Stats) returns (r: Stats)
    requires e.msgIndex < context.Length
    modifies context, anchor`supersededAttempts
    ensures Outcome(context[..], r.stubs, r.saved, r.cacheRefs, anchor.supersededAttempts)
            == Applied(Outcome(old(context[..]), stats.stubs, stats.saved, stats.cacheRefs,
                old(anchor.supersededAttempts)), e)
  {
    r := stats;
    if e.countsCacheRef {
      r := r.(cacheRefs := r.cacheRefs + 1);
    }
    var m := context[e.msgIndex];
    if IsStubbed(m) {
      return;
    }
    context[e.msgIndex] := m.(content := e.stub);
    r := Stats(r.stubs + 1, r.saved + (if |m.content| > |e.stub| then |m.content| - |e.stub| else 0), r.cacheRefs);
    if e.note !in anchor.supersededAttempts {
      anchor.supersededAttempts := anchor.supersededAttempts + [e.note];
    }
  }

  lemma NothingApplied(o: Outcome)
    ensures InRange([], |o.context|) && AppliedAll(o, []) == o
  {
  }

  lemma AppliedStep(o: Outcome, e: Edit, rest: seq<Edit>)
    requires InRange([e] + rest, |o.context|)
    ensures e.msgIndex < |o.context| && InRange(rest, |o.context|)
    ensures AppliedAll(o, [e] + rest) == AppliedAll(Applied(o, e), rest)
  {
    assert ([e] + rest)[0] == e && ([e] + rest)[1..] == rest;
    assert forall x :: x in rest ==> x in [e] + rest;
  }

  method RewriteGroup(context: array<Message>, group: seq<Record>, inputs: Inputs, anchor: CompactionAnchor,
                      stats: Stats)
    returns (r: Stats)
    requires InRange(PlanGroup(group, inputs), context.Length)
    modifies context, anchor`supersededAttempts
    ensures Outcome(context[..], r.stubs, r.saved, r.cacheRefs, anchor.supersededAttempts)
            == AppliedAll(Outcome(old(context[..]), stats.stubs, stats.saved, stats.cacheRefs,
                old(anchor.supersededAttempts)),
                          PlanGroup(group, inputs))
  {
    hide CauseOf, EditFor, IsFrozen, Applied, AppliedAll, InRange;
    r := stats;
    if |group| < 2 {
      NothingApplied(Outcome(context[..], r.stubs, r.saved, r.cacheRefs, anchor.supersededAttempts));
      return;
    }
    var latest, older := group[|group| - 1], group[..|group| - 1];
    if IsFrozen(latest, inputs) {
      NothingApplied(Outcome(context[..], r.stubs, r.saved, r.cacheRefs, anchor.supersededAttempts));
      return;
    }
    ghost var final := AppliedAll(Outcome(context[..], r.stubs, r.saved, r.cacheRefs, anchor.supersededAttempts),
        PlanGroup(group, inputs));
    for idx := 0 to |older|
      invariant InRange(PlanFrom(older, latest, idx, inputs), context.Length)
      invariant final == AppliedAll(Outcome(context[..], r.stubs, r.saved, r.cacheRefs, anchor.supersededAttempts),
                                    PlanFrom(older, latest, idx, inputs))
    {
      var cause := CauseOf(older[idx], latest, idx, |older|, inputs);
      if !cause.Current? {
        var e := EditFor(older, latest, idx, cause, inputs);
        AppliedStep(Outcome(context[..], r.stubs, r.saved, r.cacheRefs, anchor.supersededAttempts), e,
                    PlanFrom(older, latest, idx + 1, inputs));
        r := Rewrite(context, e, anchor, r);
      }
    }
    NothingApplied(Outcome(context[..], r.stubs, r.saved, r.cacheRefs, anchor.supersededAttempts));
  }

  method ApplySupersession(context: array<Message>, inputs: Inputs, anchor: CompactionAnchor) returns (r: Stats)
    modifies context, anchor`supersededAttempts
    ensures Outcome(context[..], r.stubs, r.saved, r.cacheRefs, anchor.supersededAttempts)
            == Superseded(old(context[..]), inputs, old(anchor.supersededAttempts))
  {
    hide PlanGroup, Keys, Group, Records, Applied;
    r := Stats(0, 0, 0);
    if inputs.policy.Disabled? || inputs.policy.CompletionReviewFrozen? {
      return;
    }
    var records := PairToolTurns(context, inputs);
    var keys, groups := GroupByIntent(records);
    ghost var before := context[..];
    PlanTargets(before, inputs);
    ghost var final := Superseded(before, inputs, anchor.supersededAttempts);
    assert keys[0..] == keys;
    for k := 0 to |keys|
      invariant InRange(PlanKeys(records, keys[k..], inputs), context.Length)
      invariant final == AppliedAll(Outcome(context[..], r.stubs, r.saved, r.cacheRefs, anchor.supersededAttempts),
                                    PlanKeys(records, keys[k..], inputs))
    {
      ghost var rest := PlanKeys(records, keys[k + 1..], inputs);
      ghost var mine := PlanGroup(groups[keys[k]], inputs);
      assert keys[k..][1..] == keys[k + 1..];
      assert PlanKeys(records, keys[k..], inputs) == mine + rest;
      assert InRange(mine, context.Length) by { assert forall e :: e in mine ==> e in mine + rest; }
      assert InRange(rest, context.Length) by { assert forall e :: e in rest ==> e in mine + rest; }
      AppliedConcat(Outcome(context[..], r.stubs, r.saved, r.cacheRefs, anchor.supersededAttempts), mine, rest);
      r := RewriteGroup(context, groups[keys[k]], inputs, anchor, r);
    }
  }

  /** The running totals of the agent loop. */
  class LoopState {
    var supersessionStubsApplied: nat
    var supersessionTokensSaved: nat

    constructor ()
      ensures supersessionStubsApplied == 0 && supersessionTokensSaved == 0
    {
      supersessionStubsApplied, supersessionTokensSaved := 0, 0;
    }
  }

  /** A pass as callers ask for it: the anchor and the totals may be absent, and then nothing is noted or added up. */
  method SupersessionPass(context: array<Message>, inputs: Inputs, anchor: CompactionAnchor?, state: LoopState?)
      returns (r: Stats)
    modifies context, anchor, state
    ensures var o := Superseded(old(context[..]), inputs,
              if anchor == null then [] else old(anchor.supersededAttempts));
            && context[..] == o.context && r == Stats(o.stubs, o.saved, o.cacheRefs)
            && (anchor != null ==> anchor.Value() == old(anchor.Value()).(supersededAttempts := o.notes))
    ensures state != null ==> state.supersessionStubsApplied == old(state.supersessionStubsApplied) + r.stubs
    ensures state != null ==> state.supersessionTokensSaved == old(state.supersessionTokensSaved) + r.saved / 4
  {
    hide Superseded;
    var noted := anchor;
    if noted == null {
      noted := new CompactionAnchor();
    }
    r := ApplySupersession(context, inputs, noted);
    if state != null {
      state.supersessionStubsApplied := state.supersessionStubsApplied + r.stubs;
      state.supersessionTokensSaved := state.supersessionTokensSaved + r.saved / 4;
    }
  }
}
