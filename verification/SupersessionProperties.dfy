/** What a supersession pass keeps, and that it is idempotent. */
module SupersessionProperties {
  import opened Sequences
  import opened Text
  import opened Messages
  import opened Anchor
  import opened Supersession
  import CompactionProperties
  import Compaction
  import Sanitizer

  // ----- Carrying out edits -----

  predicate AllMarked(edits: seq<Edit>) {
    forall e :: e in edits ==> StartsWith(e.stub, SUPERSEDED)
  }

  lemma JoinStarts(separator: string, first: string, rest: seq<string>)
    ensures first <= Join(separator, [first] + rest)
  {
    if rest != [] {
      JoinConcat(separator, [first], rest);
      JoinOne(separator, first);
    } else {
      assert [first] + rest == [first];
    }
  }

  lemma TitleIsMarked(rec: Record, reason: string, count: nat)
    ensures SUPERSEDED <= StubTitle(rec, reason, count) && |SUPERSEDED| == 11
  {
  }

  lemma StubIsMarked(rec: Record, reason: string, count: nat, representative: string, cacheKey: string)
    ensures StartsWith(MakeStub(rec, reason, count, representative, cacheKey), SUPERSEDED)
  {
    hide StubTitle, RECOVERY, Join, SUPERSEDED;
    TitleIsMarked(rec, reason, count);
    var details := (if cacheKey != "" then ["cache_key=" + cacheKey] else [])
      + (if representative != "" then ["Last error: " + Prefix(representative, 200)] else []);
    var title := StubTitle(rec, reason, count);
    JoinStarts("\n", title, details + [RECOVERY]);
    assert [title] + details + [RECOVERY] == [title] + (details + [RECOVERY]);
  }

  lemma PlanIsMarked(context: seq<Message>, inputs: Inputs)
    ensures AllMarked(Plan(context, inputs))
  {
    hide CauseOf, IsFrozen, Group, Records, Plan, MakeStub, Reason, CacheFor, LastFailure, NoteFor, StartsWith;
    forall e | e in Plan(context, inputs) ensures StartsWith(e.stub, SUPERSEDED) {
      PlanEdits(context, inputs, e);
      var key, i: nat :| IsStaleAt(Group(Records(context, inputs), key), i, inputs)
          && e == EditAt(Group(Records(context, inputs), key), i, inputs);
      EditIsMarked(Group(Records(context, inputs), key), i, inputs);
    }
  }

  lemma EditIsMarked(group: seq<Record>, i: nat, inputs: Inputs)
    requires i + 1 < |group|
    ensures StartsWith(EditAt(group, i, inputs).stub, SUPERSEDED)
    ensures EditAt(group, i, inputs).msgIndex == group[i].msgIndex
  {
    hide CauseOf, MakeStub, Reason, CacheFor, LastFailure, NoteFor, StartsWith;
    var older, latest := group[..|group| - 1], group[|group| - 1];
    var cause := CauseOf(group[i], latest, i, |group| - 1, inputs);
    var n := |older|;
    var cache := CacheFor(older[i], latest, inputs);
    var quotesFailure := (cause.Resolved? && i == n - 1) || (cause.BashAttempt? && i == n - 2);
    var quotesCache := !cause.BashRun? && !cause.ListDir?;
    StubIsMarked(older[i], Reason(cause), n, if quotesFailure then LastFailure(older) else "",
                 if quotesCache then cache else "");
  }

  /** A message is as before, or a body that was no stub became one. */
  predicate Evolved(before: Message, after: Message) {
    after == before || (IsStubbed(after) && !IsStubbed(before) && after == before.(content := after.content))
  }

  lemma {:induction false} AppliedEvolves(o: Outcome, edits: seq<Edit>, i: nat)
    requires InRange(edits, |o.context|) && AllMarked(edits) && i < |o.context|
    ensures Evolved(o.context[i], AppliedAll(o, edits).context[i])
    ensures (forall e :: e in edits ==> e.msgIndex != i) ==> AppliedAll(o, edits).context[i] == o.context[i]
    ensures (exists e :: e in edits && e.msgIndex == i) ==> IsStubbed(AppliedAll(o, edits).context[i])
    decreases |edits|
  {
    hide IsStubbed, StartsWith;
    if edits != [] {
      assert edits == [edits[0]] + edits[1..];
      AppliedEvolves(Applied(o, edits[0]), edits[1..], i);
      StubbedByContent(o.context[edits[0].msgIndex].(content := edits[0].stub));
    }
  }

  lemma StubbedByContent(m: Message)
    ensures IsStubbed(m) <==> StartsWith(m.content, SUPERSEDED)
  {
  }

  function CountStubbed(context: seq<Message>): nat {
    if context == [] then 0 else CountStubbed(context[1..]) + if IsStubbed(context[0]) then 1 else 0
  }

  lemma {:induction false} CountAfterStub(context: seq<Message>, i: nat, m: Message)
    requires i < |context| && !IsStubbed(context[i]) && IsStubbed(m)
    ensures CountStubbed(context[i := m]) == CountStubbed(context) + 1
  {
    hide IsStubbed;
    if i == 0 {
      assert context[i := m][1..] == context[1..];
    } else {
      assert context[i := m][1..] == context[1..][i - 1 := m];
      CountAfterStub(context[1..], i - 1, m);
    }
  }

  lemma {:induction false} AppliedCounts(o: Outcome, edits: seq<Edit>)
    requires InRange(edits, |o.context|) && AllMarked(edits)
    ensures CountStubbed(AppliedAll(o, edits).context) + o.stubs == CountStubbed(o.context) + AppliedAll(o, edits).stubs
    decreases |edits|
  {
    hide IsStubbed, StartsWith, CountStubbed;
    if edits != [] {
      var e := edits[0];
      AppliedCounts(Applied(o, e), edits[1..]);
      var m := o.context[e.msgIndex].(content := e.stub);
      StubbedByContent(m);
      if !IsStubbed(o.context[e.msgIndex]) {
        CountAfterStub(o.context, e.msgIndex, m);
      }
    }
  }

  lemma {:induction false} AppliedToStubs(o: Outcome, edits: seq<Edit>)
    requires InRange(edits, |o.context|)
    requires forall e :: e in edits ==> IsStubbed(o.context[e.msgIndex])
    ensures var r := AppliedAll(o, edits);
            r.context == o.context && r.stubs == o.stubs && r.saved == o.saved && r.notes == o.notes
    decreases |edits|
  {
    hide IsStubbed;
    if edits != [] {
      AppliedToStubs(Applied(o, edits[0]), edits[1..]);
    }
  }

  // ----- Framing -----

  /** A pass changes nothing but bodies of tool results; order, roles and ids stay. */
  lemma OnlyToolBodiesChange(context: seq<Message>, inputs: Inputs, notes: seq<string>)
    ensures OnlyToolBodiesDiffer(context, Superseded(context, inputs, notes).context)
  {
    hide Plan, IsStubbed;
    PlanTargets(context, inputs);
    PlanIsMarked(context, inputs);
    var after := Superseded(context, inputs, notes).context;
    forall i | 0 <= i < |context|
      ensures context[i] == after[i] || (context[i].role == Tool
                && after[i] == context[i].(content := after[i].content))
    {
      AppliedEvolves(Outcome(context, 0, 0, 0, notes), Plan(context, inputs), i);
    }
  }

  /** The number of stubs a pass reports is the number of bodies it turned into stubs. */
  lemma StubsAreCounted(context: seq<Message>, inputs: Inputs, notes: seq<string>)
    ensures CountStubbed(Superseded(context, inputs, notes).context)
            == CountStubbed(context) + Superseded(context, inputs, notes).stubs
  {
    hide Plan, CountStubbed;
    PlanTargets(context, inputs);
    PlanIsMarked(context, inputs);
    AppliedCounts(Outcome(context, 0, 0, 0, notes), Plan(context, inputs));
  }

  // ----- Unique call ids -----

  function IdsOf(calls: seq<ToolCall>): seq<string> {
    if calls == [] then [] else IdsOf(calls[..|calls| - 1]) + [calls[|calls| - 1].id]
  }

  /** Ids of the calls of the assistant turns among the first `n` messages. */
  function CallIdsUpTo(context: seq<Message>, n: nat): seq<string>
    requires n <= |context|
  {
    if n == 0 then []
    else CallIdsUpTo(context, n - 1) + (if context[n - 1].role == Assistant then IdsOf(context[n - 1].toolCalls)
        else [])
  }

  predicate UniqueCallIds(context: seq<Message>) {
    NoDuplicates(CallIdsUpTo(context, |context|))
  }

  predicate AnswerDifferentCalls(records: seq<Record>) {
    forall a, b :: 0 <= a < b < |records| ==> records[a].callId != records[b].callId
  }

  predicate CallsWithin(records: seq<Record>, ids: seq<string>) {
    forall r :: r in records ==> r.callId in ids
  }

  lemma NoDuplicatesParts(left: seq<string>, right: seq<string>)
    requires NoDuplicates(left + right)
    ensures NoDuplicates(left) && NoDuplicates(right) && forall x :: x in left ==> x !in right
  {
    var all := left + right;
    forall i, j | 0 <= i < j < |right| ensures right[i] != right[j] {
      assert all[|left| + i] == right[i] && all[|left| + j] == right[j];
    }
    forall x | x in left ensures x !in right {
      var i :| 0 <= i < |left| && left[i] == x;
      assert all[i] == x;
      assert forall j :: 0 <= j < |right| ==> all[|left| + j] == right[j];
    }
    assert forall i :: 0 <= i < |left| ==> all[i] == left[i];
  }

  lemma DistinctConcat(left: seq<Record>, right: seq<Record>, ids: seq<string>, more: seq<string>)
    requires AnswerDifferentCalls(left) && AnswerDifferentCalls(right)
    requires CallsWithin(left, ids) && CallsWithin(right, more)
    requires NoDuplicates(ids + more)
    ensures AnswerDifferentCalls(left + right) && CallsWithin(left + right, ids + more)
  {
    NoDuplicatesParts(ids, more);
    var all := left + right;
    forall a, b | 0 <= a < b < |all| ensures all[a].callId != all[b].callId {
      if a < |left| <= b {
        assert left[a] in left && right[b - |left|] in right;
      }
    }
  }

  lemma {:induction false} RecordsOfCallsDistinct(context: seq<Message>, calls: seq<ToolCall>, index: map<string, nat>,
                                                  inputs: Inputs)
    requires forall id :: id in index ==> index[id] < |context|
    requires NoDuplicates(IdsOf(calls))
    ensures AnswerDifferentCalls(RecordsOfCalls(context, calls, index, inputs))
    ensures CallsWithin(RecordsOfCalls(context, calls, index, inputs), IdsOf(calls))
  {
    hide AnswerDifferentCalls, NoDuplicates, IsErrorAt;
    if calls != [] {
      var call, earlier := calls[|calls| - 1], calls[..|calls| - 1];
      NoDuplicatesParts(IdsOf(earlier), [call.id]);
      RecordsOfCallsDistinct(context, earlier, index, inputs);
      var last := if call.id in index then [RecordOf(context, call, index[call.id], inputs)] else [];
      AtMostOneIsDistinct(last);
      DistinctConcat(RecordsOfCalls(context, earlier, index, inputs), last, IdsOf(earlier), [call.id]);
    } else {
      AtMostOneIsDistinct([]);
    }
  }

  lemma AtMostOneIsDistinct(records: seq<Record>)
    requires |records| <= 1
    ensures AnswerDifferentCalls(records)
  {
  }

  lemma {:induction false} RecordsDistinct(context: seq<Message>, n: nat, index: map<string, nat>, inputs: Inputs)
    requires n <= |context|
    requires forall id :: id in index ==> index[id] < |context|
    requires NoDuplicates(CallIdsUpTo(context, n))
    ensures AnswerDifferentCalls(RecordsUpTo(context, n, index, inputs))
    ensures CallsWithin(RecordsUpTo(context, n, index, inputs), CallIdsUpTo(context, n))
  {
    hide AnswerDifferentCalls, NoDuplicates, RecordsOfCalls, IdsOf;
    if n == 0 {
      AtMostOneIsDistinct([]);
    } else {
      var m := context[n - 1];
      var ids := if m.role == Assistant then IdsOf(m.toolCalls) else [];
      var counts := n - 1 >= inputs.startIndex && m.role == Assistant;
      var more := if counts then RecordsOfCalls(context, m.toolCalls, index, inputs) else [];
      NoDuplicatesParts(CallIdsUpTo(context, n - 1), ids);
      RecordsDistinct(context, n - 1, index, inputs);
      if more == [] {
        AtMostOneIsDistinct(more);
      } else {
        RecordsOfCallsDistinct(context, m.toolCalls, index, inputs);
      }
      DistinctConcat(RecordsUpTo(context, n - 1, index, inputs), more, CallIdsUpTo(context, n - 1), ids);
    }
  }

  lemma {:induction false} GroupDistinct(records: seq<Record>, key: string)
    requires AnswerDifferentCalls(records)
    ensures AnswerDifferentCalls(Group(records, key))
  {
    if records != [] {
      var last, earlier := records[|records| - 1], records[..|records| - 1];
      assert forall r :: r in earlier ==> r.callId != last.callId;
      GroupDistinct(earlier, key);
      forall r | r in Group(earlier, key) ensures r.callId != last.callId { GroupMember(earlier, key, r); }
    }
  }

  /** With unique call ids, records that point at the same result are the same record. */
  lemma SameTargetSameRecord(context: seq<Message>, inputs: Inputs, r: Record, q: Record)
    requires UniqueCallIds(context)
    requires r in Records(context, inputs) && q in Records(context, inputs) && r.msgIndex == q.msgIndex
    ensures r == q
  {
    hide IsErrorAt, RecordsUpTo, CallIdsUpTo, NoDuplicates, CallsWithin;
    var index := ResultIndex(context, inputs.startIndex, |context|);
    RecordsPoint(context, |context|, index, inputs);
    RecordsDistinct(context, |context|, index, inputs);
    var records := Records(context, inputs);
    var a :| 0 <= a < |records| && records[a] == r;
    var b :| 0 <= b < |records| && records[b] == q;
    assert r.callId == q.callId;
  }

  lemma NewestNotTargeted(context: seq<Message>, inputs: Inputs, key: string, e: Edit)
    requires UniqueCallIds(context)
    requires Group(Records(context, inputs), key) != [] && e in Plan(context, inputs)
    ensures var group := Group(Records(context, inputs), key); e.msgIndex != group[|group| - 1].msgIndex
  {
    hide UniqueCallIds, CauseOf, IsFrozen, Group, Records, Plan, EditFor;
    var records := Records(context, inputs);
    var group := Group(records, key);
    var latest := group[|group| - 1];
    PlanEdits(context, inputs, e);
    var key', j: nat :| IsStaleAt(Group(records, key'), j, inputs) && e == EditAt(Group(records, key'), j, inputs);
    var group' := Group(records, key');
    EditIsMarked(group', j, inputs);
    if e.msgIndex == latest.msgIndex {
      GroupMember(records, key, latest);
      GroupMember(records, key', group'[j]);
      SameTargetSameRecord(context, inputs, latest, group'[j]);
      GroupOfRecordsDistinct(context, inputs, key);
      assert false;
    }
  }

  lemma GroupOfRecordsDistinct(context: seq<Message>, inputs: Inputs, key: string)
    requires UniqueCallIds(context)
    ensures AnswerDifferentCalls(Group(Records(context, inputs), key))
  {
    hide IsErrorAt, AnswerDifferentCalls;
    RecordsDistinct(context, |context|, ResultIndex(context, inputs.startIndex, |context|), inputs);
    GroupDistinct(Records(context, inputs), key);
  }

  /** With unique call ids, the newest result of every intent keeps its body. */
  lemma NewestKept(context: seq<Message>, inputs: Inputs, notes: seq<string>, key: string)
    requires UniqueCallIds(context) && Group(Records(context, inputs), key) != []
    ensures var group := Group(Records(context, inputs), key);
            var i := group[|group| - 1].msgIndex;
            i < |context| && Superseded(context, inputs, notes).context[i] == context[i]
  {
    hide UniqueCallIds, Plan, Group, Records, IsStubbed;
    var group := Group(Records(context, inputs), key);
    var latest := group[|group| - 1];
    GroupsPoint(context, inputs, key);
    assert latest in group;
    forall e | e in Plan(context, inputs) ensures e.msgIndex != latest.msgIndex {
      NewestNotTargeted(context, inputs, key, e);
    }
    PlanTargets(context, inputs);
    PlanIsMarked(context, inputs);
    AppliedEvolves(Outcome(context, 0, 0, 0, notes), Plan(context, inputs), latest.msgIndex);
  }

  /** A body is a stub afterwards exactly if it was one before or some call it answers is stale in its intent group. */
  lemma StubbedExactly(context: seq<Message>, inputs: Inputs, notes: seq<string>, i: nat)
    requires i < |context|
    ensures IsStubbed(Superseded(context, inputs, notes).context[i]) <==>
              IsStubbed(context[i])
              || (IsActive(inputs) && exists key, j: nat ::
                    IsStaleAt(Group(Records(context, inputs), key), j, inputs)
                        && Group(Records(context, inputs), key)[j].msgIndex == i)
  {
    hide CauseOf, IsFrozen, Group, Records, Plan, EditFor, IsStubbed;
    PlanTargets(context, inputs);
    PlanIsMarked(context, inputs);
    AppliedEvolves(Outcome(context, 0, 0, 0, notes), Plan(context, inputs), i);
    var records := Records(context, inputs);
    if e :| e in Plan(context, inputs) && e.msgIndex == i {
      PlanEdits(context, inputs, e);
      var key, j: nat :| IsStaleAt(Group(records, key), j, inputs) && e == EditAt(Group(records, key), j, inputs);
      EditIsMarked(Group(records, key), j, inputs);
    }
    if IsActive(inputs) {
      if key, j: nat :| IsStaleAt(Group(records, key), j, inputs) && Group(records, key)[j].msgIndex == i {
        StaleIsPlanned(context, inputs, key, j);
        EditIsMarked(Group(records, key), j, inputs);
        PassStubs(context, inputs, notes, EditAt(Group(records, key), j, inputs));
      }
    }
  }

  /** A read limited by max_chars, or, for an orchestrator, one of a deliverable. */
  predicate IsSafeRead(r: Record, inputs: Inputs) {
    IsProtectedRead(r)
    || (inputs.policy == OrchestratorConservative && r.toolName == "read"
        && PathFromReadIntent(r.intentKey) in inputs.deliverables)
  }

  lemma SafeReadIsCurrent(group: seq<Record>, j: nat, inputs: Inputs)
    requires j < |group| && IsSafeRead(group[j], inputs)
    ensures !IsStaleAt(group, j, inputs)
  {
    hide IsFrozen, ErrorClass, PathFromReadIntent, IsProtectedRead;
  }

  /** With unique call ids, such a read keeps its body although newer ones follow. */
  lemma SafeReadsKept(context: seq<Message>, inputs: Inputs, notes: seq<string>, r: Record)
    requires UniqueCallIds(context) && r in Records(context, inputs) && IsSafeRead(r, inputs)
    ensures r.msgIndex < |context| && Superseded(context, inputs, notes).context[r.msgIndex] == context[r.msgIndex]
  {
    hide UniqueCallIds, CauseOf, IsFrozen, Group, Records, Plan, EditFor, IsStubbed, IsSafeRead;
    var records := Records(context, inputs);
    GroupMember(records, r.intentKey, r);
    GroupsPoint(context, inputs, r.intentKey);
    forall e | e in Plan(context, inputs) ensures e.msgIndex != r.msgIndex {
      PlanEdits(context, inputs, e);
      var key, j: nat :| IsStaleAt(Group(records, key), j, inputs) && e == EditAt(Group(records, key), j, inputs);
      var group := Group(records, key);
      EditIsMarked(group, j, inputs);
      GroupMember(records, key, group[j]);
      if e.msgIndex == r.msgIndex {
        SameTargetSameRecord(context, inputs, r, group[j]);
        SafeReadIsCurrent(group, j, inputs);
        assert false;
      }
    }
    PlanTargets(context, inputs);
    PlanIsMarked(context, inputs);
    AppliedEvolves(Outcome(context, 0, 0, 0, notes), Plan(context, inputs), r.msgIndex);
  }

  // ----- A second pass -----

  /** Records of the same call before and after a pass; equal when the result was not rewritten. */
  predicate Counterpart(r: Record, q: Record, before: seq<Message>, after: seq<Message>)
    requires |before| == |after|
  {
    && q == r.(isError := q.isError, content := q.content)
    && (r.msgIndex < |before| && before[r.msgIndex] == after[r.msgIndex] ==> q == r)
  }

  predicate Counterparts(rs: seq<Record>, qs: seq<Record>, before: seq<Message>, after: seq<Message>)
    requires |before| == |after|
  {
    |rs| == |qs| && forall i :: 0 <= i < |rs| ==> Counterpart(rs[i], qs[i], before, after)
  }

  lemma {:induction false} SameIndex(before: seq<Message>, after: seq<Message>, start: nat, n: nat)
    requires OnlyToolBodiesDiffer(before, after) && n <= |before|
    ensures ResultIndex(before, start, n) == ResultIndex(after, start, n)
  {
    if n > 0 {
      assert before[n - 1].role == after[n - 1].role && before[n - 1].toolCallId == after[n - 1].toolCallId;
      hide OnlyToolBodiesDiffer;
      SameIndex(before, after, start, n - 1);
    }
  }

  lemma {:induction false} CallsCorrespond(before: seq<Message>, after: seq<Message>, calls: seq<ToolCall>,
                                           index: map<string, nat>, inputs: Inputs)
    requires OnlyToolBodiesDiffer(before, after) && forall id :: id in index ==> index[id] < |before|
    ensures Counterparts(RecordsOfCalls(before, calls, index, inputs), RecordsOfCalls(after, calls, index, inputs),
              before, after)
  {
    hide IsErrorAt;
    if calls != [] {
      CallsCorrespond(before, after, calls[..|calls| - 1], index, inputs);
    }
  }

  lemma {:induction false} RecordsCorrespond(before: seq<Message>, after: seq<Message>, n: nat,
                                             index: map<string, nat>, inputs: Inputs)
    requires OnlyToolBodiesDiffer(before, after) && n <= |before| && forall id :: id in index ==> index[id] < |before|
    ensures Counterparts(RecordsUpTo(before, n, index, inputs), RecordsUpTo(after, n, index, inputs), before, after)
  {
    hide RecordsOfCalls, Counterpart;
    if n > 0 {
      RecordsCorrespond(before, after, n - 1, index, inputs);
      CallsCorrespond(before, after, before[n - 1].toolCalls, index, inputs);
    }
  }

  lemma {:induction false} GroupsCorrespond(rs: seq<Record>, qs: seq<Record>, before: seq<Message>,
                                            after: seq<Message>, key: string)
    requires |before| == |after| && Counterparts(rs, qs, before, after)
    ensures Counterparts(Group(rs, key), Group(qs, key), before, after)
  {
    if rs != [] {
      GroupsCorrespond(rs[..|rs| - 1], qs[..|qs| - 1], before, after, key);
    }
  }

  /** Staleness depends on a record and on the newest of its group only. */
  lemma StaleCorresponds(group: seq<Record>, group': seq<Record>, i: nat, inputs: Inputs)
    requires |group| == |group'| && IsStaleAt(group', i, inputs)
    requires group[i] == group'[i] && group[|group| - 1] == group'[|group| - 1]
    ensures IsStaleAt(group, i, inputs)
  {
  }

  lemma SecondPassFindsStubs(context: seq<Message>, inputs: Inputs, notes: seq<string>, e: Edit)
    requires UniqueCallIds(context)
    requires e in Plan(Superseded(context, inputs, notes).context, inputs)
    ensures var after := Superseded(context, inputs, notes).context;
            e.msgIndex < |after| && IsStubbed(after[e.msgIndex])
  {
    hide UniqueCallIds, CauseOf, IsFrozen, Group, Plan, EditFor, IsStubbed, Superseded, RecordsUpTo, ResultIndex;
    var after := Superseded(context, inputs, notes).context;
    OnlyToolBodiesChange(context, inputs, notes);
    PlanEdits(after, inputs, e);
    var key, i: nat :| IsStaleAt(Group(Records(after, inputs), key), i, inputs)
        && e == EditAt(Group(Records(after, inputs), key), i, inputs);
    var group, group' := Group(Records(context, inputs), key), Group(Records(after, inputs), key);
    SameIndex(context, after, inputs.startIndex, |context|);
    RecordsCorrespond(context, after, |context|, ResultIndex(context, inputs.startIndex, |context|), inputs);
    GroupsCorrespond(Records(context, inputs), Records(after, inputs), context, after, key);
    EditIsMarked(group', i, inputs);
    GroupsPoint(context, inputs, key);
    assert group[i] in group;
    if !IsStubbed(after[e.msgIndex]) {
      PassEvolves(context, inputs, notes, e.msgIndex);
      NewestKept(context, inputs, notes, key);
      assert group[|group| - 1] in group;
      StaleCorresponds(group, group', i, inputs);
      StaleIsPlanned(context, inputs, key, i);
      EditIsMarked(group, i, inputs);
      PassStubs(context, inputs, notes, EditAt(group, i, inputs));
    }
  }

  lemma PassEvolves(context: seq<Message>, inputs: Inputs, notes: seq<string>, i: nat)
    requires i < |context|
    ensures Evolved(context[i], Superseded(context, inputs, notes).context[i])
  {
    hide Plan, IsStubbed;
    PlanTargets(context, inputs);
    PlanIsMarked(context, inputs);
    AppliedEvolves(Outcome(context, 0, 0, 0, notes), Plan(context, inputs), i);
  }

  lemma PassStubs(context: seq<Message>, inputs: Inputs, notes: seq<string>, e: Edit)
    requires e in Plan(context, inputs)
    ensures e.msgIndex < |context| && IsStubbed(Superseded(context, inputs, notes).context[e.msgIndex])
  {
    hide Plan, IsStubbed;
    PlanTargets(context, inputs);
    PlanIsMarked(context, inputs);
    AppliedEvolves(Outcome(context, 0, 0, 0, notes), Plan(context, inputs), e.msgIndex);
  }

  /** With unique call ids a second pass rewrites nothing, saves nothing and adds nothing to the anchor. */
  lemma Idempotent(context: seq<Message>, inputs: Inputs, notes: seq<string>)
    requires UniqueCallIds(context)
    ensures var first := Superseded(context, inputs, notes);
            var second := Superseded(first.context, inputs, first.notes);
            second.context == first.context && second.stubs == 0 && second.saved == 0 && second.notes == first.notes
  {
    hide UniqueCallIds, Plan, IsStubbed;
    var first := Superseded(context, inputs, notes);
    PlanTargets(first.context, inputs);
    forall e | e in Plan(first.context, inputs) ensures IsStubbed(first.context[e.msgIndex]) {
      SecondPassFindsStubs(context, inputs, notes, e);
    }
    AppliedToStubs(Outcome(first.context, 0, 0, 0, first.notes), Plan(first.context, inputs));
  }

  // ----- Policies -----

  lemma {:induction false} RecordsOfCallsIgnorePolicy(context: seq<Message>, calls: seq<ToolCall>,
                                                      index: map<string, nat>, inputs: Inputs, policy: Policy)
    requires forall id :: id in index ==> index[id] < |context|
    ensures RecordsOfCalls(context, calls, index, inputs)
              == RecordsOfCalls(context, calls, index, inputs.(policy := policy))
  {
    hide LooksLikeError;
    if calls != [] {
      RecordsOfCallsIgnorePolicy(context, calls[..|calls| - 1], index, inputs, policy);
    }
  }

  lemma {:induction false} RecordsIgnorePolicy(context: seq<Message>, n: nat, index: map<string, nat>, inputs: Inputs,
                                               policy: Policy)
    requires n <= |context|
    requires forall id :: id in index ==> index[id] < |context|
    ensures RecordsUpTo(context, n, index, inputs) == RecordsUpTo(context, n, index, inputs.(policy := policy))
  {
    hide RecordsOfCalls;
    if n > 0 {
      RecordsIgnorePolicy(context, n - 1, index, inputs, policy);
      RecordsOfCallsIgnorePolicy(context, context[n - 1].toolCalls, index, inputs, policy);
    }
  }

  lemma StaleIsPlanned(context: seq<Message>, inputs: Inputs, key: string, i: nat)
    requires IsActive(inputs) && IsStaleAt(Group(Records(context, inputs), key), i, inputs)
    ensures EditAt(Group(Records(context, inputs), key), i, inputs) in Plan(context, inputs)
  {
    hide CauseOf, IsFrozen, Group, Plan, EditFor, Records;
    PlanEdits(context, inputs, EditAt(Group(Records(context, inputs), key), i, inputs));
  }

  /** What is stale for an orchestrator is stale for a delegate. */
  lemma StaleForDelegates(group: seq<Record>, i: nat, inputs: Inputs)
    requires inputs.policy == OrchestratorConservative && IsStaleAt(group, i, inputs)
    ensures IsStaleAt(group, i, inputs.(policy := DelegateAggressive))
  {
    hide Contains, PathFromReadIntent;
  }

  /** The conservative policy stubs only what the aggressive one stubs too, and no more of it. */
  lemma PolicyRefinement(context: seq<Message>, inputs: Inputs, notes: seq<string>)
    requires inputs.policy == OrchestratorConservative
    ensures var conservative := Superseded(context, inputs, notes);
            var aggressive := Superseded(context, inputs.(policy := DelegateAggressive), notes);
            && (forall i :: 0 <= i < |context| && IsStubbed(conservative.context[i]) ==>
                IsStubbed(aggressive.context[i]))
            && conservative.stubs <= aggressive.stubs
  {
    hide CauseOf, IsFrozen, Group, Plan, EditFor, IsStubbed, Superseded, RecordsUpTo, ResultIndex, CountStubbed;
    var delegate := inputs.(policy := DelegateAggressive);
    var a, b := Superseded(context, inputs, notes).context, Superseded(context, delegate, notes).context;
    OnlyToolBodiesChange(context, inputs, notes);
    OnlyToolBodiesChange(context, delegate, notes);
    forall i | 0 <= i < |context| && IsStubbed(a[i]) ensures IsStubbed(b[i]) {
      if IsStubbed(context[i]) {
        PassEvolves(context, delegate, notes, i);
      } else {
        StubbedForDelegates(context, inputs, notes, i);
      }
    }
    MoreStubs(a, b);
    StubsAreCounted(context, inputs, notes);
    StubsAreCounted(context, delegate, notes);
  }

  lemma StubbedForDelegates(context: seq<Message>, inputs: Inputs, notes: seq<string>, i: nat)
    requires inputs.policy == OrchestratorConservative && i < |context|
    requires !IsStubbed(context[i]) && IsStubbed(Superseded(context, inputs, notes).context[i])
    ensures IsStubbed(Superseded(context, inputs.(policy := DelegateAggressive), notes).context[i])
  {
    hide CauseOf, IsFrozen, Group, Plan, EditFor, IsStubbed, RecordsUpTo, ResultIndex;
    var delegate := inputs.(policy := DelegateAggressive);
    PlanTargets(context, inputs);
    PlanIsMarked(context, inputs);
    AppliedEvolves(Outcome(context, 0, 0, 0, notes), Plan(context, inputs), i);
    var e :| e in Plan(context, inputs) && e.msgIndex == i;
    PlanEdits(context, inputs, e);
    var key, j: nat :| IsStaleAt(Group(Records(context, inputs), key), j, inputs)
        && e == EditAt(Group(Records(context, inputs), key), j, inputs);
    RecordsIgnorePolicy(context, |context|, ResultIndex(context, inputs.startIndex, |context|), inputs,
        DelegateAggressive);
    var group := Group(Records(context, delegate), key);
    assert Records(context, delegate) == Records(context, inputs);
    StaleForDelegates(group, j, inputs);
    StaleIsPlanned(context, delegate, key, j);
    EditIsMarked(group, j, inputs);
    EditIsMarked(group, j, delegate);
    PassStubs(context, delegate, notes, EditAt(group, j, delegate));
  }

  lemma {:induction false} MoreStubs(a: seq<Message>, b: seq<Message>)
    requires |a| == |b| && forall i :: 0 <= i < |a| && IsStubbed(a[i]) ==> IsStubbed(b[i])
    ensures CountStubbed(a) <= CountStubbed(b)
  {
    hide IsStubbed;
    if a != [] {
      MoreStubs(a[1..], b[1..]);
    }
  }

  /** A disabled or frozen pass changes nothing at all. */
  lemma FrozenPoliciesStubNothing(context: seq<Message>, inputs: Inputs, notes: seq<string>)
    ensures !IsActive(inputs) ==> Superseded(context, inputs, notes) == Outcome(context, 0, 0, 0, notes)
  {
  }

  /**
   * Without unique call ids the newest result of an intent may lose its body: two equal reads, of whatever file, that
   * carry one id and are answered by one message. Neither is limited by max_chars, and the answer is no error.
   */
  lemma NewestLostWithSharedId(inputs: Inputs, id: string, arguments: string, body: string)
    requires inputs.policy == DelegateAggressive && inputs.startIndex == 0 && id != ""
    requires !Contains(inputs.intentKey("read", arguments), "max_chars=") && !IsErrorAt(1, body, inputs)
    ensures var calls := [ToolCall(id, "read", arguments), ToolCall(id, "read", arguments)];
            var context := [Message(Assistant, "", calls, ""), Message(Tool, body, [], id)];
            !UniqueCallIds(context) && IsStubbed(Superseded(context, inputs, []).context[1])
  {
    var call := ToolCall(id, "read", arguments);
    var context := [Message(Assistant, "", [call, call], ""), Message(Tool, body, [], id)];
    var r := RecordOf(context, call, 1, inputs);
    SharedIdRecords(context, call, inputs);
    SharedIdCalls(context, call);
    PairIsStale(r, inputs);
    hide *;
    StaleIsPlanned(context, inputs, r.intentKey, 0);
    EditIsMarked([r, r], 0, inputs);
    PassStubs(context, inputs, [], EditAt([r, r], 0, inputs));
  }

  lemma PairIsStale(r: Record, inputs: Inputs)
    requires inputs.policy == DelegateAggressive && r.toolName == "read" && !r.isError
    requires !Contains(r.intentKey, "max_chars=")
    ensures Group([r, r], r.intentKey) == [r, r] && IsStaleAt([r, r], 0, inputs)
  {
    hide ErrorClass, PathFromReadIntent;
    assert [r, r][..1] == [r] && [r][..0] == [];
    assert Group([], r.intentKey) == [];
    assert Group([r], r.intentKey) == [] + [r];
  }

  lemma SharedIdCalls(context: seq<Message>, call: ToolCall)
    requires |context| == 2 && context[0].role == Assistant && context[0].toolCalls == [call, call]
               && context[1].role == Tool
    ensures !UniqueCallIds(context)
  {
    assert [call, call][..1] == [call] && [call][..0] == [];
    assert IdsOf([]) == [];
    assert IdsOf([call]) == [] + [call.id];
    assert IdsOf([call, call]) == [call.id] + [call.id];
    assert CallIdsUpTo(context, 1) == [] + IdsOf([call, call]);
    var ids := CallIdsUpTo(context, 2);
    assert ids == CallIdsUpTo(context, 1) + [];
    assert ids[0] == ids[1];
  }

  lemma SharedIdRecords(context: seq<Message>, call: ToolCall, inputs: Inputs)
    requires inputs.startIndex == 0 && call.id != ""
    requires |context| == 2 && context[0].role == Assistant && context[0].toolCalls == [call, call]
    requires context[1].role == Tool && context[1].toolCallId == call.id
    ensures Records(context, inputs) == [RecordOf(context, call, 1, inputs), RecordOf(context, call, 1, inputs)]
  {
    hide RecordOf;
    var index := ResultIndex(context, 0, 2);
    assert call.id in index && index[call.id] == 1;
    var r := RecordOf(context, call, 1, inputs);
    assert [call, call][..1] == [call] && [call][..0] == [];
    assert RecordsOfCalls(context, [], index, inputs) == [];
    assert RecordsOfCalls(context, [call], index, inputs) == [] + [r];
    assert RecordsOfCalls(context, [call, call], index, inputs) == [r] + [r];
    assert RecordsUpTo(context, 0, index, inputs) == [];
    assert RecordsUpTo(context, 1, index, inputs) == [] + [r, r];
    assert RecordsUpTo(context, 2, index, inputs) == [r, r] + [];
  }

  // ----- Inside a run of compactions -----

  /**
   * A pass between two compactions is two steps a run allows, a rewriting of tool bodies and an anchor update, so no
   * communication is forgotten over runs that mix both.
   */
  lemma PassIsStepOfRun(s: CompactionProperties.State, inputs: Inputs, repair: Sanitizer.Repair,
                        scanner: Compaction.Scanner)
    ensures var o := Superseded(s.context, inputs, s.anchor.supersededAttempts);
            var rewritten := s.(context := o.context);
            var updated := s.anchor.(supersededAttempts := o.notes);
            && CompactionProperties.Step(s, CompactionProperties.RewritingToolBodies(o.context), rewritten, repair,
                scanner)
            && CompactionProperties.Step(rewritten, CompactionProperties.UpdatingAnchor(updated),
                rewritten.(anchor := updated),
                                         repair, scanner)
  {
    hide Superseded;
    OnlyToolBodiesChange(s.context, inputs, s.anchor.supersededAttempts);
  }
}
