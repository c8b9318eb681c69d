/** The clean-up every compacted history passes through: sanitize_context of nls/agentic/generator.py. */
module Sanitizer {
  import opened Sequences
  import opened Text
  import opened Messages

  /** Removal of hidden reasoning from a turn, and recognition of well-formed call arguments. */
  datatype Repair = Repair(scrub: string -> string, validJson: string -> bool)

  // ----- System messages -----

  function FirstSystem(context: seq<Message>): (n: nat)
    ensures n <= |context|
    ensures n < |context| ==> context[n].role == System
    ensures forall i :: 0 <= i < n ==> context[i].role != System
  {
    if context == [] || context[0].role == System then 0 else 1 + FirstSystem(context[1..])
  }

  /** The trimmed, non-empty bodies of the system messages. */
  function SystemParts(context: seq<Message>): seq<string> {
    if context == [] then []
    else if context[0].role == System && Strip(context[0].content) != "" then
      [Strip(context[0].content)] + SystemParts(context[1..])
    else SystemParts(context[1..])
  }

  function WithParts(m: Message, extra: seq<string>): Message {
    if extra == [] then m else m.(content := RightStrip(m.content) + "\n\n" + Join("\n\n", extra))
  }

  /** All later system bodies move into the first system message; a leading one also absorbs the messages. */
  function Consolidated(context: seq<Message>): seq<Message> {
    var first := FirstSystem(context);
    if first == |context| then context
    else
      var head := WithParts(context[first], SystemParts(context[first + 1..]));
      if first == 0 then [head] + OtherMessages(context[1..]) else context[first := head]
  }

  // ----- Repairs and placeholders -----

  function RepairCalls(calls: seq<ToolCall>, repair: Repair): seq<ToolCall> {
    if calls == [] then []
    else
      var call := calls[0];
      [if call.arguments != "" && !repair.validJson(call.arguments) then call.(arguments := "{}") else call]
      + RepairCalls(calls[1..], repair)
  }

  function RepairMessage(m: Message, repair: Repair): Message {
    match m.role
    case Assistant =>
      var existing := Strip(m.content);
      var shown := if Contains(existing, "<think>") then Strip(repair.scrub(existing)) else existing;
      m.(content := if shown != existing then shown else m.content, toolCalls := RepairCalls(m.toolCalls, repair))
    case Tool => if m.toolCallId == "" then m.(toolCallId := "unknown") else m
    case _ => m
  }

  function RepairAll(context: seq<Message>, repair: Repair): (r: seq<Message>)
    ensures |r| == |context|
  {
    if context == [] then [] else [RepairMessage(context[0], repair)] + RepairAll(context[1..], repair)
  }

  function CallIds(calls: seq<ToolCall>): seq<string> {
    if calls == [] then [] else (if calls[0].id != "" then [calls[0].id] else []) + CallIds(calls[1..])
  }

  function ExpectedIds(context: seq<Message>): seq<string> {
    if context == [] then []
    else (if context[0].role == Assistant then CallIds(context[0].toolCalls) else []) + ExpectedIds(context[1..])
  }

  /** Ids of calls that no tool message answers, each once, in order of first appearance. */
  function OrphanIds(ids: seq<string>, context: seq<Message>): seq<string>
    decreases |ids|
  {
    if ids == [] then []
    else
      var id := ids[0];
      (if forall i :: 0 <= i < |context| ==> !(context[i].role == Tool && context[i].toolCallId == id) then [id]
          else [])
      + OrphanIds(Filter(ids[1..], other => other != id), context)
  }

  /** Just after the last assistant turn with an orphan, and after the results that follow it. */
  function PlaceholderIndex(context: seq<Message>, orphans: seq<string>, i: nat): (n: nat)
    requires i <= |context|
    ensures n <= |context|
  {
    if i == 0 then |context|
    else if context[i - 1].role == Assistant && exists call ::
        call in context[i - 1].toolCalls && call.id in orphans then
      AfterResults(context, i)
    else PlaceholderIndex(context, orphans, i - 1)
  }

  function AfterResults(context: seq<Message>, i: nat): (n: nat)
    requires i <= |context|
    ensures i <= n <= |context|
    decreases |context| - i
  {
    if i < |context| && context[i].role == Tool then AfterResults(context, i + 1) else i
  }

  function Placeholders(orphans: seq<string>): seq<Message> {
    if orphans == [] then [] else [Message(Tool, "[No result captured]", [], orphans[0])] + Placeholders(orphans[1..])
  }

  function WithPlaceholders(context: seq<Message>): seq<Message> {
    var orphans := OrphanIds(ExpectedIds(context), context);
    if orphans == [] then context
    else
      var at := PlaceholderIndex(context, orphans, |context|);
      context[..at] + Placeholders(orphans) + context[at..]
  }

  function Sanitized(context: seq<Message>, repair: Repair): seq<Message> {
    WithPlaceholders(RepairAll(Consolidated(context), repair))
  }

  // ----- What clean-up establishes -----

  predicate HasResult(context: seq<Message>, id: string) {
    exists k :: 0 <= k < |context| && context[k].role == Tool && context[k].toolCallId == id
  }

  lemma {:induction false} ExpectedMember(context: seq<Message>, i: nat, call: ToolCall)
    requires i < |context| && context[i].role == Assistant && call in context[i].toolCalls && call.id != ""
    ensures call.id in ExpectedIds(context)
  {
    if i == 0 {
      CallIdMember(context[0].toolCalls, call);
    } else {
      ExpectedMember(context[1..], i - 1, call);
    }
  }

  lemma {:induction false} CallIdMember(calls: seq<ToolCall>, call: ToolCall)
    requires call in calls && call.id != ""
    ensures call.id in CallIds(calls)
  {
    if call != calls[0] {
      CallIdMember(calls[1..], call);
    }
  }

  lemma {:induction false} OrphanMember(ids: seq<string>, context: seq<Message>, id: string)
    ensures id in OrphanIds(ids, context) <==> id in ids && !HasResult(context, id)
    decreases |ids|
  {
    if ids != [] {
      var rest := Filter(ids[1..], other => other != ids[0]);
      OrphanMember(rest, context, id);
      FilterMember(ids[1..], other => other != ids[0], id);
      assert ids == [ids[0]] + ids[1..];
      assert HasResult(context, ids[0]) <==>
        !(forall i :: 0 <= i < |context| ==> !(context[i].role == Tool && context[i].toolCallId == ids[0]));
    }
  }

  lemma {:induction false} PlaceholderMember(orphans: seq<string>, id: string)
    requires id in orphans
    ensures HasResult(Placeholders(orphans), id)
  {
    if orphans[0] == id {
      assert Placeholders(orphans)[0].toolCallId == id;
    } else {
      PlaceholderMember(orphans[1..], id);
      var k :| 0 <= k < |Placeholders(orphans[1..])| && Placeholders(orphans[1..])[k].role == Tool
               && Placeholders(orphans[1..])[k].toolCallId == id;
      assert Placeholders(orphans)[k + 1] == Placeholders(orphans[1..])[k];
    }
  }

  lemma HasResultConcat(left: seq<Message>, right: seq<Message>, id: string)
    ensures HasResult(left + right, id) <==> HasResult(left, id) || HasResult(right, id)
  {
    var all := left + right;
    assert forall k :: 0 <= k < |left| ==> all[k] == left[k];
    assert forall k :: 0 <= k < |right| ==> all[|left| + k] == right[k];
  }

  lemma {:induction false} PlaceholdersIssueNothing(orphans: seq<string>)
    ensures forall m :: m in Placeholders(orphans) ==> m.role == Tool
  {
    if orphans != [] {
      PlaceholdersIssueNothing(orphans[1..]);
    }
  }

  /** In a cleaned history every call with an id has a tool message that answers it. */
  lemma EveryCallAnswered(context: seq<Message>, repair: Repair, i: nat, call: ToolCall)
    requires i < |Sanitized(context, repair)| && Sanitized(context, repair)[i].role == Assistant
    requires call in Sanitized(context, repair)[i].toolCalls && call.id != ""
    ensures HasResult(Sanitized(context, repair), call.id)
  {
    var c := RepairAll(Consolidated(context), repair);
    hide RepairAll, Consolidated;
    var orphans := OrphanIds(ExpectedIds(c), c);
    hide ExpectedIds, OrphanIds, PlaceholderIndex, Placeholders, HasResult;
    if orphans == [] {
      ExpectedMember(c, i, call);
    } else {
      var at := PlaceholderIndex(c, orphans, |c|);
      var m := Sanitized(context, repair)[i];
      assert m in c[..at] + Placeholders(orphans) + c[at..];
      PlaceholdersIssueNothing(orphans);
      assert m in c;
      var j :| 0 <= j < |c| && c[j] == m;
      ExpectedMember(c, j, call);
      HasResultConcat(c[..at] + Placeholders(orphans), c[at..], call.id);
      HasResultConcat(c[..at], Placeholders(orphans), call.id);
      HasResultConcat(c[..at], c[at..], call.id);
      assert c[..at] + c[at..] == c;
    }
    OrphanMember(ExpectedIds(c), c, call.id);
    if call.id in orphans {
      PlaceholderMember(orphans, call.id);
    }
  }

  // ----- What survives -----

  /** Some system message carries the text `t`. */
  predicate CarriesSystemText(context: seq<Message>, t: string) {
    exists i :: 0 <= i < |context| && context[i].role == System && Contains(context[i].content, t)
  }

  lemma {:induction false} SystemPartsKeep(context: seq<Message>, t: string)
    requires IsTrimmed(t) && CarriesSystemText(context, t)
    ensures SystemParts(context) != [] && Contains(Join("\n\n", SystemParts(context)), t)
  {
    var i :| 0 <= i < |context| && context[i].role == System && Contains(context[i].content, t);
    if i == 0 {
      StripKeeps(context[0].content, t);
      JoinContains("\n\n", SystemParts(context), 0, t);
    } else {
      assert context[1..][i - 1] == context[i];
      SystemPartsKeep(context[1..], t);
      if SystemParts(context) != SystemParts(context[1..]) {
        var parts := SystemParts(context);
        assert parts[1..] == SystemParts(context[1..]);
        ContainsWrapped(parts[0] + "\n\n", Join("\n\n", parts[1..]), "", t);
        assert parts[0] + "\n\n" + Join("\n\n", parts[1..]) + "" == Join("\n\n", parts);
      }
    }
  }

  lemma WithPartsKeeps(m: Message, extra: seq<string>, t: string)
    requires IsTrimmed(t)
    requires Contains(m.content, t) || (extra != [] && Contains(Join("\n\n", extra), t))
    ensures Contains(WithParts(m, extra).content, t)
  {
    if extra != [] {
      var base, tail := RightStrip(m.content), Join("\n\n", extra);
      if Contains(m.content, t) {
        RightStripKeeps(m.content, t);
        ContainsWrapped("", base, "\n\n" + tail, t);
        assert "" + base + ("\n\n" + tail) == base + "\n\n" + tail;
      } else {
        ContainsWrapped(base + "\n\n", tail, "", t);
        assert base + "\n\n" + tail + "" == base + "\n\n" + tail;
      }
    }
  }

  lemma ConsolidatedKeepsSystemText(context: seq<Message>, t: string)
    requires IsTrimmed(t) && CarriesSystemText(context, t)
    ensures CarriesSystemText(Consolidated(context), t)
  {
    hide Contains, IsTrimmed, FirstSystem, SystemParts, WithParts, Consolidated;
    var first := FirstSystem(context);
    var i :| 0 <= i < |context| && context[i].role == System && Contains(context[i].content, t);
    var rest := context[first + 1..];
    if i != first {
      assert rest[i - first - 1] == context[i];
      SystemPartsKeep(rest, t);
    }
    WithPartsKeeps(context[first], SystemParts(rest), t);
    ConsolidatedHead(context);
  }

  lemma ConsolidatedHead(context: seq<Message>)
    requires FirstSystem(context) < |context|
    ensures var first := FirstSystem(context);
            && first < |Consolidated(context)|
            && Consolidated(context)[first] == WithParts(context[first], SystemParts(context[first + 1..]))
            && Consolidated(context)[first].role == System
  {
    hide FirstSystem, SystemParts;
  }

  lemma {:induction false} RepairAllAt(context: seq<Message>, repair: Repair, i: nat)
    requires i < |context|
    ensures RepairAll(context, repair)[i] == RepairMessage(context[i], repair)
  {
    if i > 0 {
      RepairAllAt(context[1..], repair, i - 1);
    }
  }

  lemma PlaceholdersKeep(context: seq<Message>, m: Message)
    requires m in context
    ensures m in WithPlaceholders(context)
  {
    var orphans := OrphanIds(ExpectedIds(context), context);
    if orphans != [] {
      var at := PlaceholderIndex(context, orphans, |context|);
      assert context == context[..at] + context[at..];
    }
  }

  /** System messages may be merged, but no system text is lost. */
  lemma SanitizedKeepsSystemText(context: seq<Message>, repair: Repair, t: string)
    requires IsTrimmed(t) && CarriesSystemText(context, t)
    ensures CarriesSystemText(Sanitized(context, repair), t)
  {
    ConsolidatedKeepsSystemText(context, t);
    var c := Consolidated(context);
    var i :| 0 <= i < |c| && c[i].role == System && Contains(c[i].content, t);
    RepairAllAt(c, repair, i);
    PlaceholdersKeep(RepairAll(c, repair), c[i]);
  }

  lemma SanitizedKeepsUsers(context: seq<Message>, repair: Repair, m: Message)
    requires m in context && m.role == User
    ensures m in Sanitized(context, repair)
  {
    var c := Consolidated(context);
    var first := FirstSystem(context);
    if first == 0 && context != [] {
      assert context == [context[0]] + context[1..];
      FilterMember(context[1..], IsNotSystem, m);
    } else if first < |context| {
      var j :| 0 <= j < |context| && context[j] == m;
      assert c[j] == m;
    }
    var i :| 0 <= i < |c| && c[i] == m;
    RepairAllAt(c, repair, i);
    PlaceholdersKeep(RepairAll(c, repair), m);
  }

  lemma {:induction false} RepairsKeepSystem(context: seq<Message>, repair: Repair)
    ensures SystemMessages(RepairAll(context, repair)) == SystemMessages(context)
  {
    if context != [] {
      RepairsKeepSystem(context[1..], repair);
      assert RepairAll(context, repair)[1..] == RepairAll(context[1..], repair);
    }
  }

  lemma {:induction false} PlaceholdersAreResults(orphans: seq<string>)
    ensures SystemMessages(Placeholders(orphans)) == []
  {
    if orphans != [] {
      PlaceholdersAreResults(orphans[1..]);
      assert Placeholders(orphans)[1..] == Placeholders(orphans[1..]);
    }
  }

  /** After consolidation, clean-up leaves the system messages alone. */
  lemma SanitizedSystem(context: seq<Message>, repair: Repair)
    ensures SystemMessages(Sanitized(context, repair)) == SystemMessages(Consolidated(context))
  {
    var c := RepairAll(Consolidated(context), repair);
    RepairsKeepSystem(Consolidated(context), repair);
    var orphans := OrphanIds(ExpectedIds(c), c);
    if orphans != [] {
      var at := PlaceholderIndex(c, orphans, |c|);
      assert c == c[..at] + c[at..];
      FilterConcat(c[..at], c[at..], IsSystem);
      FilterConcat(c[..at], Placeholders(orphans), IsSystem);
      FilterConcat(c[..at] + Placeholders(orphans), c[at..], IsSystem);
      PlaceholdersAreResults(orphans);
    }
  }

  /** A leading system message is the only one left, and holds the text of all the others. */
  lemma LeadingSystemAbsorbs(head: Message, rest: seq<Message>, repair: Repair)
    requires head.role == System
    ensures SystemMessages(Sanitized([head] + rest, repair)) == [WithParts(head, SystemParts(rest))]
  {
    var context := [head] + rest;
    SanitizedSystem(context, repair);
    assert context[1..] == rest;
    var merged := WithParts(head, SystemParts(rest));
    FilterConcat([merged], OtherMessages(rest), IsSystem);
    forall m | m in OtherMessages(rest) ensures !IsSystem(m) { FilterMember(rest, IsNotSystem, m); }
    NoneLeft(OtherMessages(rest), IsSystem);
    assert [merged][1..] == [];
  }

  lemma {:induction false} NoSystemParts(context: seq<Message>)
    requires forall m :: m in context ==> m.role != System
    ensures SystemParts(context) == []
  {
    if context != [] {
      NoSystemParts(context[1..]);
    }
  }

  // ----- What is repaired -----

  lemma {:induction false} CallRepaired(calls: seq<ToolCall>, repair: Repair, j: nat)
    requires j < |calls|
    ensures |RepairCalls(calls, repair)| == |calls|
    ensures var arguments := calls[j].arguments;
            RepairCalls(calls, repair)[j] ==
            ToolCall(calls[j].id, calls[j].name,
                if arguments == "" || repair.validJson(arguments) then arguments else "{}")
  {
    if j > 0 {
      CallRepaired(calls[1..], repair, j - 1);
    } else if |calls| > 1 {
      CallRepaired(calls[1..], repair, 0);
    } else {
      assert RepairCalls(calls[1..], repair) == [];
    }
  }

  /** The text of a turn without its hidden reasoning, if it shows any. */
  function Shown(content: string, repair: Repair): string {
    if Contains(Strip(content), "<think>") && Strip(repair.scrub(Strip(content))) != Strip(content)
    then Strip(repair.scrub(Strip(content))) else content
  }

  /**
   * Repair changes arguments that are no JSON to "{}", hidden reasoning, and the missing id of a result to "unknown";
   * every other part of every message is left as it is.
   */
  lemma RepairExactly(m: Message, repair: Repair)
    ensures var r := RepairMessage(m, repair);
            && r.role == m.role
            && (m.role == Tool ==> r == m.(toolCallId := if m.toolCallId == "" then "unknown" else m.toolCallId))
            && (m.role == System || m.role == User ==> r == m)
            && (m.role == Assistant ==>
                  && r == m.(content := Shown(m.content, repair), toolCalls := r.toolCalls)
                  && |r.toolCalls| == |m.toolCalls|
                  && forall j :: 0 <= j < |m.toolCalls| ==>
                       var call := m.toolCalls[j];
                       r.toolCalls[j] == ToolCall(call.id, call.name,
                           if call.arguments == "" || repair.validJson(call.arguments) then call.arguments else "{}"))
  {
    if m.role == Assistant {
      forall j | 0 <= j < |m.toolCalls|
        ensures |RepairCalls(m.toolCalls, repair)| == |m.toolCalls|
        ensures var call := m.toolCalls[j];
                RepairCalls(m.toolCalls, repair)[j] == ToolCall(call.id, call.name,
                    if call.arguments == "" || repair.validJson(call.arguments) then call.arguments else "{}")
      {
        CallRepaired(m.toolCalls, repair, j);
      }
      assert m.toolCalls == [] ==> RepairCalls(m.toolCalls, repair) == [];
    }
    hide Strip, Contains, RepairCalls;
  }

  lemma {:induction false} PlaceholderText(orphans: seq<string>, m: Message)
    requires m in Placeholders(orphans)
    ensures m.role == Tool && m.toolCalls == [] && m.content == "[No result captured]" && m.toolCallId in orphans
  {
    if m != Placeholders(orphans)[0] {
      PlaceholderText(orphans[1..], m);
    }
  }

  lemma {:induction false} ExpectedIsNamed(context: seq<Message>, id: string)
    requires id in ExpectedIds(context)
    ensures id != ""
  {
    var ids := if context[0].role == Assistant then CallIds(context[0].toolCalls) else [];
    if id in ids {
      CallIdIsNamed(context[0].toolCalls, id);
    } else {
      ExpectedIsNamed(context[1..], id);
    }
  }

  lemma {:induction false} CallIdIsNamed(calls: seq<ToolCall>, id: string)
    requires id in CallIds(calls)
    ensures id != ""
  {
    if calls[0].id == "" || calls[0].id != id {
      CallIdIsNamed(calls[1..], id);
    }
  }

  /** A cleaned history has no result without an id, and no arguments that are neither empty nor JSON nor "{}". */
  lemma CleanedIsProper(context: seq<Message>, repair: Repair, m: Message)
    requires m in Sanitized(context, repair)
    ensures m.role == Tool ==> m.toolCallId != ""
    ensures m.role == Assistant ==>
              forall call :: call in m.toolCalls ==>
                call.arguments == "" || repair.validJson(call.arguments) || call.arguments == "{}"
  {
    hide Consolidated, RepairMessage, ExpectedIds, OrphanIds, PlaceholderIndex, Placeholders, Strip;
    var merged := Consolidated(context);
    var c := RepairAll(merged, repair);
    var orphans := OrphanIds(ExpectedIds(c), c);
    if m in Placeholders(orphans) {
      PlaceholderText(orphans, m);
      OrphanMember(ExpectedIds(c), c, m.toolCallId);
      ExpectedIsNamed(c, m.toolCallId);
    } else {
      assert m in c;
      var i :| 0 <= i < |c| && c[i] == m;
      RepairAllAt(merged, repair, i);
      RepairExactly(merged[i], repair);
    }
  }
}
