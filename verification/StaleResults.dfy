/** Which tool results a supersession pass collapses, as a table: nls/agentic/context_supersession.py. */
module StaleResults {
  import opened Sequences
  import opened Text
  import opened Messages
  import opened Supersession
  import opened SupersessionProperties

  // ----- Failures -----

  /** The failures that are told apart by name, in the order in which they are looked for. */
  predicate IsKnownFailure(k: int, name: string) {
    (k == 0 && name == "modulenotfounderror") || (k == 1 && name == "no module named")
    || (k == 2 && name == "no such file") || (k == 3 && name == "cannot find path")
    || (k == 4 && name == "command not found") || (k == 5 && name == "syntaxerror")
    || (k == 6 && name == "permission denied")
  }

  /** The first named failure in this text. */
  ghost predicate IsFirstFailure(head: string, k: int, name: string) {
    IsKnownFailure(k, name) && Contains(head, name)
    && forall j, other :: j < k && IsKnownFailure(j, other) ==> !Contains(head, other)
  }

  /** What a failure counts as: a named one in the first 120 characters, lower-cased, or else their first 40. */
  ghost predicate FailsAs(content: string, inputs: Inputs, kind: string) {
    var head := inputs.lower(Prefix(content, 120));
    if content == "" then kind == "empty"
    else IsNamed(head, kind) || ((forall name :: !IsNamed(head, name)) && kind == Prefix(head, 40))
  }

  ghost predicate IsNamed(head: string, kind: string) {
    exists k :: IsFirstFailure(head, k, kind)
  }

  lemma {:induction false} FirstInExactly(patterns: seq<string>, head: string)
    ensures FirstIn(patterns, head).None? <==> forall k :: 0 <= k < |patterns| ==> !Contains(head, patterns[k])
    ensures FirstIn(patterns, head).Some? ==> exists k ::
              0 <= k < |patterns| && patterns[k] == FirstIn(patterns, head).value && Contains(head, patterns[k])
                && forall j :: 0 <= j < k ==> !Contains(head, patterns[j])
  {
    hide Contains;
    if patterns != [] && !Contains(head, patterns[0]) {
      var rest := patterns[1..];
      FirstInExactly(rest, head);
      assert forall k :: 0 <= k < |rest| ==> rest[k] == patterns[k + 1];
      if FirstIn(rest, head).Some? {
        var k :| 0 <= k < |rest| && rest[k] == FirstIn(rest, head).value && Contains(head, rest[k])
                 && forall j :: 0 <= j < k ==> !Contains(head, rest[j]);
        assert patterns[k + 1] == rest[k];
        forall j | 0 <= j < k + 1 ensures !Contains(head, patterns[j]) {
          assert j > 0 ==> rest[j - 1] == patterns[j];
        }
      }
    }
  }

  lemma KnownFailuresAre(k: int, name: string)
    ensures IsKnownFailure(k, name) <==> 0 <= k < |ERROR_PATTERNS| && ERROR_PATTERNS[k] == name
  {
  }

  lemma NamedExactly(head: string, kind: string)
    ensures IsNamed(head, kind) <==> FirstIn(ERROR_PATTERNS, head) == Some(kind)
  {
    FirstInExactly(ERROR_PATTERNS, head);
    forall k, name
      ensures IsKnownFailure(k, name) <==> 0 <= k < |ERROR_PATTERNS| && ERROR_PATTERNS[k] == name
    {
      KnownFailuresAre(k, name);
    }
    hide ERROR_PATTERNS, IsKnownFailure, FirstIn, Contains;
    if k :| IsFirstFailure(head, k, kind) {
      assert Contains(head, ERROR_PATTERNS[k]);
      var m :| 0 <= m < |ERROR_PATTERNS| && ERROR_PATTERNS[m] == FirstIn(ERROR_PATTERNS, head).value
               && Contains(head, ERROR_PATTERNS[m]) && forall j :: 0 <= j < m ==> !Contains(head, ERROR_PATTERNS[j]);
      assert IsKnownFailure(m, ERROR_PATTERNS[m]) && IsKnownFailure(k, ERROR_PATTERNS[k]);
      assert m == k;
    }
    if FirstIn(ERROR_PATTERNS, head) == Some(kind) {
      var m :| 0 <= m < |ERROR_PATTERNS| && ERROR_PATTERNS[m] == kind
               && Contains(head, ERROR_PATTERNS[m]) && forall j :: 0 <= j < m ==> !Contains(head, ERROR_PATTERNS[j]);
      assert IsKnownFailure(m, kind);
      assert IsFirstFailure(head, m, kind);
    }
  }

  lemma ErrorClassExactly(content: string, inputs: Inputs, kind: string)
    ensures ErrorClass(content, inputs) == kind <==> FailsAs(content, inputs, kind)
  {
    hide FirstIn, IsNamed, ERROR_PATTERNS;
    var head := inputs.lower(Prefix(content, 120));
    forall name ensures IsNamed(head, name) <==> FirstIn(ERROR_PATTERNS, head) == Some(name) {
      NamedExactly(head, name);
    }
  }

  ghost predicate FailAlike(p: Record, q: Record, inputs: Inputs) {
    exists kind :: FailsAs(p.content, inputs, kind) && FailsAs(q.content, inputs, kind)
  }

  lemma AlikeExactly(p: Record, q: Record, inputs: Inputs)
    ensures FailAlike(p, q, inputs) <==> ErrorClass(p.content, inputs) == ErrorClass(q.content, inputs)
  {
    hide ErrorClass, FailsAs;
    var failure := ErrorClass(p.content, inputs);
    ErrorClassExactly(p.content, inputs, failure);
    ErrorClassExactly(q.content, inputs, failure);
    if kind :| FailsAs(p.content, inputs, kind) && FailsAs(q.content, inputs, kind) {
      ErrorClassExactly(p.content, inputs, kind);
      ErrorClassExactly(q.content, inputs, kind);
    }
  }

  // ----- The table -----

  /** A read that asked for no more than so many characters. */
  predicate IsLimited(r: Record) {
    r.toolName == "read" && Contains(r.intentKey, "max_chars=")
  }

  predicate ReadsDeliverable(r: Record, inputs: Inputs) {
    r.toolName == "read" && PathFromReadIntent(r.intentKey) in inputs.deliverables
  }

  /** What an orchestrator may collapse at all. */
  predicate MayTouch(group: seq<Record>, j: nat, inputs: Inputs)
    requires j < |group|
  {
    var rec, latest := group[j], group[|group| - 1];
    && (rec.toolName == "read" || rec.toolName == "bash" || rec.toolName == "list_dir")
    && !ReadsDeliverable(rec, inputs) && !ReadsDeliverable(latest, inputs)
    && (rec.toolName == "bash" ==> rec.isError)
    && (rec.toolName == "read" ==> latest.toolName == "read" || j == |group| - 2)
  }

  /** An older result of the group is outdated by the newest: by success, by failing alike, or by the same tool. */
  ghost predicate IsOutdated(group: seq<Record>, j: nat, inputs: Inputs)
    requires j < |group|
  {
    var rec, latest := group[j], group[|group| - 1];
    if rec.isError then !latest.isError || (FailAlike(rec, latest, inputs) && j != |group| - 3)
    else rec.toolName == latest.toolName
         && (rec.toolName == "read" || rec.toolName == "bash" || rec.toolName == "list_dir")
  }

  ghost predicate IsSuperseded(group: seq<Record>, j: nat, inputs: Inputs)
    requires j < |group|
  {
    && j != |group| - 1
    && !IsLimited(group[j]) && !IsLimited(group[|group| - 1])
    && IsOutdated(group, j, inputs)
    && (inputs.policy == OrchestratorConservative ==> MayTouch(group, j, inputs))
  }

  lemma TableExactly(group: seq<Record>, j: nat, inputs: Inputs)
    requires j < |group| && (inputs.policy == DelegateAggressive || inputs.policy == OrchestratorConservative)
    ensures IsStaleAt(group, j, inputs) <==> IsSuperseded(group, j, inputs)
  {
    AlikeExactly(group[j], group[|group| - 1], inputs);
    hide ErrorClass, PathFromReadIntent, FailAlike, Contains;
  }

  /**
   * After a pass with an active policy and unique call ids, the body of the `j`-th result of an intent is a stub
   * exactly if it was one before or the table says so.
   */
  lemma StubbedByTable(context: seq<Message>, inputs: Inputs, notes: seq<string>, key: string, j: nat)
    requires UniqueCallIds(context)
    requires inputs.policy == DelegateAggressive || inputs.policy == OrchestratorConservative
    requires j < |Group(Records(context, inputs), key)|
    ensures var group := Group(Records(context, inputs), key);
            var i := group[j].msgIndex;
            && i < |context|
            && (StartsWith(Superseded(context, inputs, notes).context[i].content, "[superseded") <==>
                  StartsWith(context[i].content, "[superseded") || IsSuperseded(group, j, inputs))
  {
    hide UniqueCallIds, Group, Records, Superseded, CauseOf, IsFrozen, IsSuperseded;
    var group := Group(Records(context, inputs), key);
    var i := group[j].msgIndex;
    assert group[j] in group;
    GroupsPoint(context, inputs, key);
    StubbedExactly(context, inputs, notes, i);
    var records := Records(context, inputs);
    if key', j': nat :| IsStaleAt(Group(records, key'), j', inputs) && Group(records, key')[j'].msgIndex == i {
      SamePosition(context, inputs, key, j, key', j');
    }
    TableExactly(group, j, inputs);
  }

  lemma SamePosition(context: seq<Message>, inputs: Inputs, key: string, j: nat, key': string, j': nat)
    requires UniqueCallIds(context)
    requires j < |Group(Records(context, inputs), key)| && j' < |Group(Records(context, inputs), key')|
    requires Group(Records(context, inputs), key)[j].msgIndex == Group(Records(context, inputs), key')[j'].msgIndex
    ensures key == key' && j == j'
  {
    hide UniqueCallIds, Group, Records;
    var records := Records(context, inputs);
    var r, q := Group(records, key)[j], Group(records, key')[j'];
    GroupMember(records, key, r);
    GroupMember(records, key', q);
    SameTargetSameRecord(context, inputs, r, q);
    GroupOfRecordsDistinct(context, inputs, key);
  }

  /** No older run of bash is ever collapsed as an attempt: a failed one is handled before that case is reached. */
  lemma NoBashAttempts(rec: Record, latest: Record, idx: nat, n: nat, inputs: Inputs)
    ensures CauseOf(rec, latest, idx, n, inputs) != BashAttempt
  {
    hide IsSpared, IsProtectedRead, ErrorClass;
  }

  // ----- The records -----

  /** The last result for this id from the start index on. */
  predicate IsResultFrom(context: seq<Message>, start: nat, n: nat, id: string, k: nat)
    requires n <= |context|
  {
    id != "" && start <= k < n && context[k].role == Tool && context[k].toolCallId == id
    && forall j :: k < j < n ==> context[j].role != Tool || context[j].toolCallId != id
  }

  lemma {:induction false} IndexExactly(context: seq<Message>, start: nat, n: nat, id: string, k: nat)
    requires n <= |context|
    ensures id in ResultIndex(context, start, n) && ResultIndex(context, start, n)[id] == k <==>
              IsResultFrom(context, start, n, id, k)
  {
    if n > 0 {
      IndexExactly(context, start, n - 1, id, k);
      var m := context[n - 1];
      if n - 1 >= start && m.role == Tool && m.toolCallId == id != "" {
        LastIsResult(context, start, n);
        if IsResultFrom(context, start, n, id, k) {
          OneResult(context, start, n, id, k, n - 1);
        }
      }
    }
  }

  lemma LastIsResult(context: seq<Message>, start: nat, n: nat)
    requires start < n <= |context| && context[n - 1].role == Tool && context[n - 1].toolCallId != ""
    ensures IsResultFrom(context, start, n, context[n - 1].toolCallId, n - 1)
  {
  }

  lemma OneResult(context: seq<Message>, start: nat, n: nat, id: string, k: nat, l: nat)
    requires n <= |context| && IsResultFrom(context, start, n, id, k) && IsResultFrom(context, start, n, id, l)
    ensures k == l
  {
  }

  /** A marker of failure stands within the first 200 characters. */
  ghost predicate MarksFailure(content: string, marker: string) {
    exists i :: OccursAt(content, marker, i) && i + |marker| <= 200
  }

  ghost predicate ReadsAsError(content: string) {
    StartsWith(content, "Error") || MarksFailure(content, "[FAIL") || MarksFailure(content, "Traceback")
    || MarksFailure(content, "STALE FILE") || MarksFailure(content, "MUST READ FIRST")
  }

  lemma MarkedInHead(content: string, marker: string)
    ensures Contains(Prefix(content, 200), marker) <==> MarksFailure(content, marker)
  {
    var n := Min(200, |content|);
    var head := content[..n];
    TakeAll(content);
    assert head == Prefix(content, 200);
    hide Prefix;
    if i :| 0 <= i <= |head| && OccursAt(head, marker, i) {
      SliceOfFront(content, n, i, i + |marker|);
      assert OccursAt(content, marker, i);
    }
    if i :| OccursAt(content, marker, i) && i + |marker| <= 200 {
      SliceOfFront(content, n, i, i + |marker|);
      ContainsAt(head, i, marker);
    }
  }

  lemma ErrorTextExactly(content: string)
    ensures LooksLikeError(content) <==> ReadsAsError(content)
  {
    hide Contains, MarksFailure;
    MarkedInHead(content, "[FAIL");
    MarkedInHead(content, "Traceback");
    MarkedInHead(content, "STALE FILE");
    MarkedInHead(content, "MUST READ FIRST");
    assert StartsWith(Prefix(content, 200), "Error") <==> StartsWith(content, "Error");
  }

  /** The record of a call whose result is the message at `k`. */
  ghost predicate IsRecordOf(r: Record, context: seq<Message>, call: ToolCall, k: nat, inputs: Inputs)
    requires k < |context|
  {
    && r.msgIndex == k && r.callId == call.id && r.toolName == call.name && r.content == context[k].content
    && r.intentKey == inputs.intentKey(call.name, call.arguments)
    && (r.isError <==> if k in inputs.errorBits then inputs.errorBits[k] else ReadsAsError(context[k].content))
  }

  lemma RecordOfExactly(r: Record, context: seq<Message>, call: ToolCall, k: nat, inputs: Inputs)
    requires k < |context|
    ensures r == RecordOf(context, call, k, inputs) <==> IsRecordOf(r, context, call, k, inputs)
  {
    ErrorTextExactly(context[k].content);
    hide LooksLikeError, ReadsAsError;
  }

  /** A call of a turn among the first `n` messages, from the start index on. */
  predicate IssuedFrom(context: seq<Message>, start: nat, n: nat, call: ToolCall)
    requires n <= |context|
  {
    exists i :: start <= i < n && context[i].role == Assistant && call in context[i].toolCalls
  }

  lemma {:induction false} CallRecords(context: seq<Message>, calls: seq<ToolCall>, index: map<string, nat>,
                                       inputs: Inputs, r: Record)
    requires forall id :: id in index ==> index[id] < |context|
    ensures r in RecordsOfCalls(context, calls, index, inputs) <==>
              exists call :: call in calls && call.id in index && r == RecordOf(context, call, index[call.id], inputs)
  {
    hide RecordOf;
    if calls != [] {
      var last, earlier := calls[|calls| - 1], calls[..|calls| - 1];
      assert calls == earlier + [last];
      CallRecords(context, earlier, index, inputs, r);
    }
  }

  lemma IssuedNext(context: seq<Message>, start: nat, n: nat, call: ToolCall)
    requires 0 < n <= |context|
    ensures IssuedFrom(context, start, n, call) <==>
              IssuedFrom(context, start, n - 1, call)
              || (n - 1 >= start && context[n - 1].role == Assistant && call in context[n - 1].toolCalls)
  {
  }

  lemma {:induction false} TurnRecords(context: seq<Message>, n: nat, index: map<string, nat>, inputs: Inputs,
                                       r: Record)
    requires n <= |context| && forall id :: id in index ==> index[id] < |context|
    ensures r in RecordsUpTo(context, n, index, inputs) <==>
              exists call :: IssuedFrom(context, inputs.startIndex, n, call) && call.id in index
                             && r == RecordOf(context, call, index[call.id], inputs)
  {
    hide RecordOf, RecordsOfCalls;
    if n > 0 {
      TurnRecords(context, n - 1, index, inputs, r);
      CallRecords(context, context[n - 1].toolCalls, index, inputs, r);
      forall call
        ensures IssuedFrom(context, inputs.startIndex, n, call) <==>
                  IssuedFrom(context, inputs.startIndex, n - 1, call)
                  || (n - 1 >= inputs.startIndex && context[n - 1].role == Assistant
                      && call in context[n - 1].toolCalls)
      {
        IssuedNext(context, inputs.startIndex, n, call);
      }
      hide IssuedFrom;
    }
  }

  /** The records of a pass are exactly the calls, from the start index on, paired with the last result for their id. */
  lemma RecordsExactly(context: seq<Message>, inputs: Inputs, r: Record)
    ensures r in Records(context, inputs) <==>
              exists call, k: nat ::
                IssuedFrom(context, inputs.startIndex, |context|, call)
                && IsResultFrom(context, inputs.startIndex, |context|, call.id, k)
                && IsRecordOf(r, context, call, k, inputs)
  {
    hide RecordOf, RecordsUpTo, ResultIndex, IsRecordOf, IssuedFrom, IsResultFrom;
    var n, start := |context|, inputs.startIndex;
    var index := ResultIndex(context, start, n);
    TurnRecords(context, n, index, inputs, r);
    forall call: ToolCall, k: nat
      ensures call.id in index && index[call.id] == k <==> IsResultFrom(context, start, n, call.id, k)
    {
      IndexExactly(context, start, n, call.id, k);
    }
    forall call: ToolCall, k: nat | k < n
      ensures r == RecordOf(context, call, k, inputs) <==> IsRecordOf(r, context, call, k, inputs)
    {
      RecordOfExactly(r, context, call, k, inputs);
    }
    RangeOfResults(context, start);
    if r in Records(context, inputs) {
      var call :| IssuedFrom(context, start, n, call) && call.id in index
                  && r == RecordOf(context, call, index[call.id], inputs);
      assert IsResultFrom(context, start, n, call.id, index[call.id]);
    }
  }

  lemma RangeOfResults(context: seq<Message>, start: nat)
    ensures forall id, k: nat :: IsResultFrom(context, start, |context|, id, k) ==> k < |context|
  {
  }

  // ----- Paths of reads -----

  lemma {:induction false} BeforeFirstExactly(s: string, separator: string, n: nat)
    requires separator != ""
    requires n <= |s| && (n == |s| || OccursAt(s, separator, n))
               && forall i :: 0 <= i < n ==> !OccursAt(s, separator, i)
    ensures BeforeFirst(s, separator) == s[..n]
  {
    if |s| >= |separator| {
      assert separator <= s <==> OccursAt(s, separator, 0);
      if !(separator <= s) && n > 0 {
        var rest := s[1..];
        forall i | 0 <= i < |s| ensures OccursAt(rest, separator, i) <==> OccursAt(s, separator, i + 1) {
          if i + |separator| < |s| {
            assert rest[i..i + |separator|] == s[i + 1..i + 1 + |separator|];
          }
        }
        BeforeFirstExactly(rest, separator, n - 1);
        assert s[..n] == [s[0]] + rest[..n - 1];
      }
    } else {
      assert n == |s|;
    }
  }

  /** A separator with its only colon in front does not begin before one and end behind it. */
  lemma InsideSeparator(path: string, separator: string, rest: string, i: nat)
    requires separator != "" && separator[0] == ':' && forall k :: 1 <= k < |separator| ==> separator[k] != ':'
    requires i < |path| < i + |separator| <= |path + separator + rest|
    ensures (path + separator + rest)[i..i + |separator|] != separator
  {
    var s := path + separator + rest;
    assert s[i..i + |separator|][|path| - i] == s[|path|] == ':';
  }

  lemma FirstAfter(path: string, separator: string, rest: string)
    requires separator != "" && separator[0] == ':' && forall k :: 1 <= k < |separator| ==> separator[k] != ':'
    requires !Contains(path, separator)
    ensures BeforeFirst(path + separator + rest, separator) == path
  {
    var s, n := path + separator + rest, |path|;
    forall i | 0 <= i < n ensures !OccursAt(s, separator, i) {
      if i + |separator| <= n {
        assert s[i..i + |separator|] == path[i..i + |separator|];
        NotAt(path, separator, i);
      } else if i + |separator| <= |s| {
        InsideSeparator(path, separator, rest, i);
      }
    }
    assert s[n..n + |separator|] == separator;
    BeforeFirstExactly(s, separator, n);
    assert s[..n] == path;
  }

  lemma NotAt(s: string, t: string, i: nat)
    requires !Contains(s, t) && i + |t| <= |s|
    ensures s[i..i + |t|] != t
  {
    assert !OccursAt(s, t, i);
  }

  lemma NoneBefore(s: string, separator: string)
    requires separator != "" && !Contains(s, separator)
    ensures BeforeFirst(s, separator) == s
  {
    assert forall i :: 0 <= i < |s| ==> !OccursAt(s, separator, i);
    BeforeFirstExactly(s, separator, |s|);
    assert s[..|s|] == s;
  }

  /** The path of a read is what stands between "read:" and its range or its limit. */
  lemma PathOfRead(path: string, rest: string)
    requires !Contains(path, ":o") && !Contains(path, ":max")
    ensures PathFromReadIntent("read:" + path + ":o" + rest) == path
    ensures !Contains(path + ":max" + rest, ":o") ==> PathFromReadIntent("read:" + path + ":max" + rest) == path
  {
    hide Contains, BeforeFirst;
    FirstAfter(path, ":o", rest);
    NoneBefore(path, ":max");
    FirstAfter(path, ":max", rest);
    assert ("read:" + path + ":o" + rest)[5..] == path + ":o" + rest;
    assert ("read:" + path + ":max" + rest)[5..] == path + ":max" + rest;
    if !Contains(path + ":max" + rest, ":o") {
      NoneBefore(path + ":max" + rest, ":o");
    }
  }

  // ----- What the stubs say, and what they save -----

  /** Why the result was collapsed, in the words of its stub. */
  function ReasonFor(rec: Record, latest: Record): string {
    if rec.isError then (if latest.isError then "same error class" else "resolved by later success")
    else if rec.toolName == "read" then "superseded by newer read"
    else if rec.toolName == "bash" then "superseded bash run"
    else "superseded list_dir"
  }

  function TitleFor(group: seq<Record>, j: nat): string
    requires j < |group|
  {
    "[superseded ×" + Digits(|group| - 1) + "] " + group[j].toolName + " — " + ReasonFor(group[j], group[|group| - 1])
  }

  lemma CauseSays(group: seq<Record>, j: nat, inputs: Inputs)
    requires IsStaleAt(group, j, inputs)
    ensures var cause := CauseOf(group[j], group[|group| - 1], j, |group| - 1, inputs);
            Reason(cause) == ReasonFor(group[j], group[|group| - 1])
  {
    hide ErrorClass, IsSpared, IsProtectedRead, IsFrozen;
  }

  lemma {:induction false} OneEditWrites(o: Outcome, edits: seq<Edit>, e: Edit)
    requires InRange(edits, |o.context|) && AllMarked(edits) && e in edits && !IsStubbed(o.context[e.msgIndex])
    requires forall d :: d in edits && d.msgIndex == e.msgIndex ==> d == e
    ensures AppliedAll(o, edits).context[e.msgIndex] == o.context[e.msgIndex].(content := e.stub)
    decreases |edits|
  {
    hide IsStubbed, StartsWith;
    var first, rest := edits[0], edits[1..];
    assert edits == [first] + rest;
    var i := e.msgIndex;
    StubbedByContent(o.context[i].(content := e.stub));
    if first.msgIndex == i {
      assert first == e;
      AppliedEvolves(Applied(o, first), rest, i);
    } else {
      OneEditWrites(Applied(o, first), rest, e);
    }
  }

  function Shrinkage(before: Message, after: Message): nat {
    Max(0, |before.content| - |after.content|)
  }

  /** By how much bodies have become shorter, altogether. */
  function Shrunk(before: seq<Message>, after: seq<Message>): nat
    requires |before| == |after|
  {
    if before == [] then 0 else Shrinkage(before[0], after[0]) + Shrunk(before[1..], after[1..])
  }

  lemma {:induction false} NothingShrunk(before: seq<Message>)
    ensures Shrunk(before, before) == 0
  {
    if before != [] {
      NothingShrunk(before[1..]);
    }
  }

  lemma {:induction false} ShrunkAt(before: seq<Message>, i: nat, m: Message, after: seq<Message>)
    requires i < |before| == |after| && after[i] == m
    ensures Shrunk(before, after) == Shrinkage(before[i], m) + Shrunk(before[i := m], after)
            - Shrinkage(m, m)
  {
    hide Shrinkage;
    if i > 0 {
      assert before[i := m][1..] == before[1..][i - 1 := m];
      ShrunkAt(before[1..], i - 1, m, after[1..]);
    } else {
      assert before[i := m][1..] == before[1..];
    }
  }

  lemma {:induction false} AppliedSaves(o: Outcome, edits: seq<Edit>)
    requires InRange(edits, |o.context|) && AllMarked(edits)
    ensures AppliedAll(o, edits).saved == o.saved + Shrunk(o.context, AppliedAll(o, edits).context)
    decreases |edits|
  {
    if edits == [] {
      NothingShrunk(o.context);
    } else {
      hide IsStubbed, StartsWith, Shrunk;
      var e, next := edits[0], Applied(o, edits[0]);
      AppliedSaves(next, edits[1..]);
      if !IsStubbed(o.context[e.msgIndex]) {
        StubbedByContent(next.context[e.msgIndex]);
        AppliedEvolves(next, edits[1..], e.msgIndex);
        ShrunkAt(o.context, e.msgIndex, next.context[e.msgIndex], AppliedAll(o, edits).context);
      }
    }
  }

  /** The characters a pass reports as saved are those by which bodies have become shorter. */
  lemma SavedExactly(context: seq<Message>, inputs: Inputs, notes: seq<string>)
    ensures |Superseded(context, inputs, notes).context| == |context|
    ensures Superseded(context, inputs, notes).saved == Shrunk(context, Superseded(context, inputs, notes).context)
  {
    hide Plan, Shrunk;
    PlanTargets(context, inputs);
    PlanIsMarked(context, inputs);
    AppliedSaves(Outcome(context, 0, 0, 0, notes), Plan(context, inputs));
  }

  // ----- Whole stubs, and what the anchor is told -----

  /** The cache key of the path that all reads of a group share. */
  function GroupCache(group: seq<Record>, j: nat, inputs: Inputs): string
    requires j < |group|
  {
    var path := PathFromReadIntent(group[j].intentKey);
    if (group[j].toolName == "read" || group[|group| - 1].toolName == "read") && path != "" then inputs.cacheKey(path)
    else ""
  }

  /** The lines of a stub: its title, where the file is cached, how the last attempt failed, and how to get it back. */
  function StubLines(group: seq<Record>, j: nat, inputs: Inputs): seq<string>
    requires j < |group|
  {
    var rec, latest := group[j], group[|group| - 1];
    var cache := if rec.isError || rec.toolName == "read" then GroupCache(group, j, inputs) else "";
    var failure := if rec.isError && !latest.isError && j == |group| - 2 then rec.content else "";
    [TitleFor(group, j)] + (if cache != "" then ["cache_key=" + cache] else [])
    + (if failure != "" then ["Last error: " + Prefix(failure, 200)] else []) + [RECOVERY]
  }

  /** Room for a quoted failure. */
  function StubRoom(group: seq<Record>, j: nat): nat
    requires j < |group|
  {
    var quotes := group[j].isError && !group[|group| - 1].isError && j == |group| - 2;
    if quotes && |group[j].content| > 200 then |group[j].content| + 120 else 320
  }

  predicate SameIntent(group: seq<Record>) {
    forall i :: 0 <= i < |group| ==> group[i].intentKey == group[0].intentKey
  }

  lemma CacheExactly(group: seq<Record>, j: nat, inputs: Inputs)
    requires SameIntent(group) && j + 1 < |group|
    ensures CacheFor(group[j], group[|group| - 1], inputs) == GroupCache(group, j, inputs)
  {
    hide PathFromReadIntent;
    assert group[j].intentKey == group[|group| - 1].intentKey;
  }

  lemma OwnFailure(older: seq<Record>)
    requires older != [] && older[|older| - 1].isError
    ensures LastFailure(older) == older[|older| - 1].content
  {
  }

  lemma StubExactly(group: seq<Record>, j: nat, inputs: Inputs)
    requires IsStaleAt(group, j, inputs) && SameIntent(group)
    ensures EditAt(group, j, inputs).stub == Prefix(Join("\n", StubLines(group, j, inputs)), StubRoom(group, j))
  {
    CauseSays(group, j, inputs);
    CauseCases(group, j, inputs);
    CacheExactly(group, j, inputs);
    hide CauseOf, Reason, CacheFor, NoteFor, Prefix, IsFrozen, Join, RECOVERY, LastFailure, GroupCache, StubTitle;
    var older, latest := group[..|group| - 1], group[|group| - 1];
    var rec := group[j];
    if rec.isError && !latest.isError && j == |group| - 2 {
      OwnFailure(older);
    }
    TitleExactly(group, j);
    var cache := if rec.isError || rec.toolName == "read" then GroupCache(group, j, inputs) else "";
    var failure := if rec.isError && !latest.isError && j == |group| - 2 then rec.content else "";
    AppendAssoc([TitleFor(group, j)], if cache != "" then ["cache_key=" + cache] else [],
        if failure != "" then ["Last error: " + Prefix(failure, 200)] else []);
  }

  /** A collapsed result reads as its lines say, as far as there is room. */
  lemma StubSays(context: seq<Message>, inputs: Inputs, notes: seq<string>, key: string, j: nat)
    requires UniqueCallIds(context)
    requires inputs.policy == DelegateAggressive || inputs.policy == OrchestratorConservative
    requires j < |Group(Records(context, inputs), key)| && IsSuperseded(Group(Records(context, inputs), key), j, inputs)
    requires Group(Records(context, inputs), key)[j].msgIndex < |context|
    requires !IsStubbed(context[Group(Records(context, inputs), key)[j].msgIndex])
    ensures var group := Group(Records(context, inputs), key);
            Superseded(context, inputs, notes).context[group[j].msgIndex].content
            == Prefix(Join("\n", StubLines(group, j, inputs)), StubRoom(group, j))
  {
    hide UniqueCallIds, Group, Records, CauseOf, IsFrozen, IsSuperseded, Plan, EditFor, IsStubbed, StubLines, StubRoom,
        Prefix,
        Join;
    var group := Group(Records(context, inputs), key);
    TableExactly(group, j, inputs);
    var e := EditAt(group, j, inputs);
    StaleIsPlanned(context, inputs, key, j);
    EditIsMarked(group, j, inputs);
    GroupsShareIntent(Records(context, inputs), key);
    StubExactly(group, j, inputs);
    PlanTargets(context, inputs);
    PlanIsMarked(context, inputs);
    forall d | d in Plan(context, inputs) && d.msgIndex == e.msgIndex ensures d == e {
      EditsApart(context, inputs, d, e);
    }
    OneEditWrites(Outcome(context, 0, 0, 0, notes), Plan(context, inputs), e);
  }

  lemma GroupsShareIntent(records: seq<Record>, key: string)
    ensures SameIntent(Group(records, key))
  {
    hide Group;
    var group := Group(records, key);
    forall i | 0 <= i < |group| ensures group[i].intentKey == key {
      GroupMember(records, key, group[i]);
    }
  }

  /** The anchor learns of a collapsed result once: its tool and its intent, cut after 60 characters. */
  ghost predicate IsTold(group: seq<Record>, j: nat, context: seq<Message>, inputs: Inputs, note: string)
    requires j < |group|
  {
    IsSuperseded(group, j, inputs) && group[j].msgIndex < |context| && !IsStubbed(context[group[j].msgIndex])
    && note == group[j].toolName + " " + Prefix(group[j].intentKey, 60) + " → superseded"
  }

  /** Every edit of a body that is no stub yet leaves its note. */
  ghost predicate NotedBy(o: Outcome, edits: seq<Edit>, note: string)
    requires InRange(edits, |o.context|)
  {
    exists e :: e in edits && !IsStubbed(o.context[e.msgIndex]) && e.note == note
  }

  lemma {:induction false} AppliedNotes(o: Outcome, edits: seq<Edit>, note: string)
    requires InRange(edits, |o.context|) && AllMarked(edits)
    requires forall d, e :: d in edits && e in edits && d.msgIndex == e.msgIndex ==> d == e
    ensures note in AppliedAll(o, edits).notes <==> note in o.notes || NotedBy(o, edits, note)
    decreases |edits|
  {
    hide IsStubbed, StartsWith;
    if edits != [] {
      var first, rest, next := edits[0], edits[1..], Applied(o, edits[0]);
      assert edits == [first] + rest;
      AppliedNotes(next, rest, note);
      StubbedByContent(o.context[first.msgIndex].(content := first.stub));
      forall e | e in rest && e != first
        ensures next.context[e.msgIndex] == o.context[e.msgIndex]
      {
      }
      assert first in rest ==> IsStubbed(next.context[first.msgIndex]);
    }
  }

  /** After a pass the anchor's notes are those it had and one for every result that was collapsed. */
  lemma NotesExactly(context: seq<Message>, inputs: Inputs, notes: seq<string>, note: string)
    requires UniqueCallIds(context)
    requires inputs.policy == DelegateAggressive || inputs.policy == OrchestratorConservative
    ensures note in Superseded(context, inputs, notes).notes <==>
              note in notes || exists key, j: nat :: j < |Group(Records(context, inputs), key)|
                                && IsTold(Group(Records(context, inputs), key), j, context, inputs, note)
  {
    hide UniqueCallIds, Group, Records, CauseOf, IsFrozen, IsSuperseded, Plan, EditFor, IsStubbed, NoteFor;
    var records, o := Records(context, inputs), Outcome(context, 0, 0, 0, notes);
    PlanTargets(context, inputs);
    PlanIsMarked(context, inputs);
    forall d, e | d in Plan(context, inputs) && e in Plan(context, inputs) && d.msgIndex == e.msgIndex ensures d == e {
      EditsApart(context, inputs, d, e);
    }
    AppliedNotes(o, Plan(context, inputs), note);
    if NotedBy(o, Plan(context, inputs), note) {
      var e :| e in Plan(context, inputs) && !IsStubbed(o.context[e.msgIndex]) && e.note == note;
      PlanEdits(context, inputs, e);
      var key, j: nat :| IsStaleAt(Group(records, key), j, inputs) && e == EditAt(Group(records, key), j, inputs);
      NoteExactly(Group(records, key), j, inputs);
      TableExactly(Group(records, key), j, inputs);
      assert IsTold(Group(records, key), j, context, inputs, note);
    }
    if key, j: nat :| j < |Group(records, key)| && IsTold(Group(records, key), j, context, inputs, note) {
      TableExactly(Group(records, key), j, inputs);
      NoteExactly(Group(records, key), j, inputs);
      StaleIsPlanned(context, inputs, key, j);
    }
  }

  lemma NoteExactly(group: seq<Record>, j: nat, inputs: Inputs)
    requires j + 1 < |group|
    ensures EditAt(group, j, inputs).msgIndex == group[j].msgIndex
    ensures EditAt(group, j, inputs).note
         == group[j].toolName + " " + Prefix(group[j].intentKey, 60) + " → superseded"
  {
    hide CauseOf, MakeStub, Reason, CacheFor, LastFailure, Prefix;
  }

  /** An edit refers to the cache if a newer read replaces a read of a cached file. */
  lemma RefersExactly(group: seq<Record>, j: nat, inputs: Inputs)
    requires IsStaleAt(group, j, inputs) && SameIntent(group)
    ensures EditAt(group, j, inputs).countsCacheRef <==>
              !group[j].isError && group[j].toolName == "read" && GroupCache(group, j, inputs) != ""
  {
    CacheExactly(group, j, inputs);
    ReadsReplaced(group, j, inputs);
    hide CauseOf, MakeStub, Reason, CacheFor, LastFailure, NoteFor, GroupCache, IsFrozen;
  }

  lemma ReadsReplaced(group: seq<Record>, j: nat, inputs: Inputs)
    requires IsStaleAt(group, j, inputs)
    ensures CauseOf(group[j], group[|group| - 1], j, |group| - 1, inputs).NewerRead? <==>
              !group[j].isError && group[j].toolName == "read"
  {
    hide ErrorClass, IsSpared, IsProtectedRead, IsFrozen;
  }

  function References(edits: seq<Edit>): nat {
    if edits == [] then 0 else (if edits[0].countsCacheRef then 1 else 0) + References(edits[1..])
  }

  /** Cache references are counted for every planned edit, whether or not the body was a stub already. */
  lemma {:induction false} AppliedRefers(o: Outcome, edits: seq<Edit>)
    requires InRange(edits, |o.context|)
    ensures AppliedAll(o, edits).cacheRefs == o.cacheRefs + References(edits)
    decreases |edits|
  {
    if edits != [] {
      AppliedRefers(Applied(o, edits[0]), edits[1..]);
    }
  }

  lemma EditsApart(context: seq<Message>, inputs: Inputs, d: Edit, e: Edit)
    requires UniqueCallIds(context)
    requires d in Plan(context, inputs) && e in Plan(context, inputs) && d.msgIndex == e.msgIndex
    ensures d == e
  {
    hide UniqueCallIds, Group, Records, CauseOf, IsFrozen, Plan, EditFor;
    var records := Records(context, inputs);
    PlanEdits(context, inputs, d);
    PlanEdits(context, inputs, e);
    var key, j: nat :| IsStaleAt(Group(records, key), j, inputs) && d == EditAt(Group(records, key), j, inputs);
    var key', j': nat :| IsStaleAt(Group(records, key'), j', inputs) && e == EditAt(Group(records, key'), j', inputs);
    EditIsMarked(Group(records, key), j, inputs);
    EditIsMarked(Group(records, key'), j', inputs);
    SamePosition(context, inputs, key, j, key', j');
  }

  lemma TitleExactly(group: seq<Record>, j: nat)
    requires j + 1 < |group|
    ensures StubTitle(group[j], ReasonFor(group[j], group[|group| - 1]), |group| - 1) == TitleFor(group, j)
  {
    hide Digits;
  }

  /** Which case applies, as far as quotations go. */
  lemma CauseCases(group: seq<Record>, j: nat, inputs: Inputs)
    requires IsStaleAt(group, j, inputs)
    ensures var rec, latest := group[j], group[|group| - 1];
            var cause := CauseOf(rec, latest, j, |group| - 1, inputs);
            && (cause.Resolved? <==> rec.isError && !latest.isError) && !cause.BashAttempt?
            && (cause.BashRun? || cause.ListDir? <==> !rec.isError && rec.toolName != "read")
  {
    hide ErrorClass, IsSpared, IsProtectedRead, IsFrozen;
  }
}
