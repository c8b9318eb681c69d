/** Exactly when a communication is listed, over whole runs: compactions and the prompt hook of nls/agentic/loop.py. */
module Listing {
  import opened Sequences
  import opened Text
  import opened Messages
  import opened Anchor
  import opened Sanitizer
  import opened Compaction
  import opened CompactionProperties

  // ----- Merging system messages invents no text -----

  /** Text within one paragraph: no empty line, and no line break at either end. */
  predicate IsParagraph(t: string) {
    t != "" && t[0] != '\n' && t[|t| - 1] != '\n' && !Contains(t, "\n\n")
  }

  lemma ParagraphInOnePart(a: string, b: string, t: string)
    requires IsParagraph(t) && Contains(a + "\n\n" + b, t)
    ensures Contains(a, t) || Contains(b, t)
  {
    var s, n := a + "\n\n" + b, |a|;
    var i :| 0 <= i <= |s| && OccursAt(s, t, i);
    assert forall k :: 0 <= k < |t| ==> t[k] == s[i + k];
    if i + |t| <= n {
      assert a[i..i + |t|] == t;
      ContainsAt(a, i, t);
    } else if i >= n + 2 {
      assert b[i - n - 2..i - n - 2 + |t|] == t;
      ContainsAt(b, i - n - 2, t);
    } else if i < n && n + 2 <= i + |t| {
      assert t[n - i..n - i + 2] == "\n\n";
      ContainsAt(t, n - i, "\n\n");
    }
  }

  lemma {:induction false} ParagraphInJoin(parts: seq<string>, t: string) returns (k: nat)
    requires IsParagraph(t) && Contains(Join("\n\n", parts), t)
    ensures k < |parts| && Contains(parts[k], t)
  {
    hide Contains;
    if parts == [] {
      NothingInEmpty(t);
    } else if |parts| == 1 || Contains(parts[0], t) {
      k := 0;
    } else {
      ParagraphInOnePart(parts[0], Join("\n\n", parts[1..]), t);
      var j := ParagraphInJoin(parts[1..], t);
      k := j + 1;
    }
  }

  lemma NothingInEmpty(t: string)
    requires t != ""
    ensures !Contains("", t)
  {
  }

  lemma RightStripInvents(s: string, t: string)
    requires Contains(RightStrip(s), t)
    ensures Contains(s, t)
  {
    var n := RightStripIsPrefix(s);
    hide RightStrip, Contains;
    ContainsWrapped("", s[..n], s[n..], t);
    assert "" + s[..n] + s[n..] == s;
  }

  lemma {:induction false} SystemPartsInvent(context: seq<Message>, k: nat, t: string)
    requires k < |SystemParts(context)| && Contains(SystemParts(context)[k], t)
    ensures CarriesSystemText(context, t)
  {
    hide Contains, Strip;
    var m := context[0];
    if m.role == System && Strip(m.content) != "" && k == 0 {
      StripInvents(m.content, t);
    } else {
      SystemPartsInvent(context[1..], if m.role == System && Strip(m.content) != "" then k - 1 else k, t);
      var i :| 0 <= i < |context[1..]| && context[1..][i].role == System && Contains(context[1..][i].content, t);
      assert context[i + 1] == context[1..][i];
    }
  }

  lemma WithPartsInvents(m: Message, later: seq<Message>, t: string)
    requires IsParagraph(t) && Contains(WithParts(m, SystemParts(later)).content, t)
    ensures Contains(m.content, t) || CarriesSystemText(later, t)
  {
    hide Contains, SystemParts, RightStrip, Join, IsParagraph, CarriesSystemText;
    var parts := SystemParts(later);
    if parts != [] {
      ParagraphInOnePart(RightStrip(m.content), Join("\n\n", parts), t);
      if Contains(RightStrip(m.content), t) {
        RightStripInvents(m.content, t);
      } else {
        var k := ParagraphInJoin(parts, t);
        SystemPartsInvent(later, k, t);
      }
    }
  }

  lemma ConsolidatedInvents(context: seq<Message>, t: string)
    requires IsParagraph(t) && CarriesSystemText(Consolidated(context), t)
    ensures CarriesSystemText(context, t)
  {
    hide Contains, SystemParts, WithParts, IsParagraph, FirstSystem, Filter;
    var first, merged := FirstSystem(context), Consolidated(context);
    if first < |context| {
      var i :| 0 <= i < |merged| && merged[i].role == System && Contains(merged[i].content, t);
      var rest := context[first + 1..];
      if i == first {
        WithPartsInvents(context[first], rest, t);
        if CarriesSystemText(rest, t) {
          TextSurvives(rest, context, t);
        }
      } else if first == 0 {
        FilterMember(context[1..], IsNotSystem, merged[i]);
      }
    }
  }

  lemma SanitizedInvents(context: seq<Message>, repair: Repair, t: string)
    requires IsParagraph(t) && CarriesSystemText(Sanitized(context, repair), t)
    ensures CarriesSystemText(context, t)
  {
    hide Contains, Consolidated, IsParagraph, RepairAll, RepairMessage, WithPlaceholders;
    var merged := Consolidated(context);
    var repaired, cleaned := RepairAll(merged, repair), Sanitized(context, repair);
    var i :| 0 <= i < |cleaned| && cleaned[i].role == System && Contains(cleaned[i].content, t);
    PlaceholdersAddNoSystem(repaired, cleaned[i]);
    var j :| 0 <= j < |repaired| && repaired[j] == cleaned[i];
    RepairAllAt(merged, repair, j);
    RepairSparesSystem(merged[j], repair);
    ConsolidatedInvents(context, t);
  }

  lemma PlaceholdersAddNoSystem(context: seq<Message>, m: Message)
    requires m in WithPlaceholders(context) && m.role == System
    ensures m in context
  {
    hide PlaceholderIndex, Placeholders, OrphanIds, ExpectedIds;
    PlaceholdersIssueNothing(OrphanIds(ExpectedIds(context), context));
  }

  lemma RepairSparesSystem(m: Message, repair: Repair)
    requires RepairMessage(m, repair).role == System
    ensures RepairMessage(m, repair) == m
  {
  }

  /** A line that clean-up neither tears nor puts together: trimmed, and within one paragraph. */
  predicate IsLine(t: string) {
    IsTrimmed(t) && IsParagraph(t)
  }

  lemma SanitizedCarries(context: seq<Message>, repair: Repair, t: string)
    requires IsLine(t)
    ensures CarriesSystemText(Sanitized(context, repair), t) <==> CarriesSystemText(context, t)
  {
    hide Sanitized, CarriesSystemText, IsTrimmed, IsParagraph;
    if CarriesSystemText(context, t) {
      SanitizedKeepsSystemText(context, repair, t);
    }
    if CarriesSystemText(Sanitized(context, repair), t) {
      SanitizedInvents(context, repair, t);
    }
  }

  /** Trimming by recency neither loses nor invents such a line. */
  lemma FallbackCarries(context: seq<Message>, config: Config, force: bool, repair: Repair, t: string)
    requires IsLine(t)
    ensures CarriesSystemText(SimpleCompacted(context, config, force, repair), t) <==> CarriesSystemText(context, t)
  {
    FallbackKeepsSystem(context, force);
    hide SimpleKept, Sanitized, CarriesSystemText, IsLine, Filter;
    SanitizedCarries(SimpleKept(context, force), repair, t);
    SameSystemSameText(SimpleKept(context, force), context, t);
  }

  // ----- One step -----

  /** The text under which a communication is listed. */
  function Listing(item: string): string {
    "- " + item
  }

  /** A system message that joins the history with this event has the text. */
  predicate Mentions(e: Event, t: string) {
    match e
    case Appending(messages) => CarriesSystemText(messages, t)
    case ReplacingSystem(_, m) => Contains(m.content, t)
    case Inserting(_, m) => m.role == System && Contains(m.content, t)
    case _ => false
  }

  /** After this event the text is there, whatever was before. */
  predicate Brings(s: State, e: Event, t: string) {
    Restores(s, e) || Mentions(e, t)
  }

  /** The event replaces a system message, and no other one has the text. */
  predicate Erases(s: State, e: Event, t: string) {
    e.ReplacingSystem? && e.i < |s.context| && !CarriesElsewhere(s.context, e.i, e.m, t)
  }

  lemma RewritingCarries(context: seq<Message>, next: seq<Message>, t: string)
    requires OnlyToolBodiesDiffer(context, next)
    ensures CarriesSystemText(context, t) <==> CarriesSystemText(next, t)
  {
    hide Contains;
  }

  lemma RestoringLists(s: State, e: Event, t: State, repair: Repair, scanner: Scanner, item: string)
    requires Step(s, e, t, repair, scanner) && Restores(s, e) && item in t.anchor.communicationsSent
    ensures CarriesSystemText(t.context, Listing(item))
  {
    RebuildingRemembers(s, e, t, repair, scanner);
    hide *;
    ListedWhenRemembered(t, item);
    LineHasListing(item);
    WholeCarriesPart(t.context, CommunicationLine(item), Listing(item));
  }

  lemma LineHasListing(item: string)
    ensures Contains(CommunicationLine(item), Listing(item))
  {
    LineText(item);
    ContainsInside("\n", Listing(item), "\n");
  }

  lemma WholeCarriesPart(context: seq<Message>, whole: string, part: string)
    requires CarriesSystemText(context, whole) && Contains(whole, part)
    ensures CarriesSystemText(context, part)
  {
    hide Contains;
    var i :| 0 <= i < |context| && context[i].role == System && Contains(context[i].content, whole);
    ContainsTransitive(context[i].content, whole, part);
  }

  lemma OtherStepCarries(s: State, e: Event, t: State, repair: Repair, scanner: Scanner, text: string)
    requires Step(s, e, t, repair, scanner) && IsLine(text) && !Restores(s, e)
    ensures CarriesSystemText(t.context, text) <==>
              Mentions(e, text) || (CarriesSystemText(s.context, text) && !Erases(s, e, text))
  {
    hide Contains, CarriesSystemText, IsLine, SimpleCompacted, AnchorAfter, IsCut, Rebuilds, CarriesElsewhere,
        OnlyToolBodiesDiffer, Sanitized;
    match e
    case Compacting(config, _, force, _, _, _) => FallbackCarries(s.context, config, force, repair, text);
    case Appending(messages) => CarriedConcat(s.context, messages, text);
    case RewritingToolBodies(context) => RewritingCarries(s.context, context, text);
    case UpdatingAnchor(_) =>
    case ReplacingSystem(i, m) => ReplacementCarries(s.context, i, m, text);
    case Inserting(i, m) => InsertedCarries(s.context, i, m, text);
  }

  lemma ReplacementCarries(context: seq<Message>, i: nat, m: Message, t: string)
    requires i < |context| && context[i].role == System && m.role == System
    ensures CarriesSystemText(context[i := m], t) <==> CarriesElsewhere(context, i, m, t)
    ensures CarriesElsewhere(context, i, m, t) ==> Contains(m.content, t) || CarriesSystemText(context, t)
    ensures Contains(m.content, t) ==> CarriesElsewhere(context, i, m, t)
  {
    hide Contains;
    ReplacedText(context, i, m, t);
  }

  /** What one event does to the listing of a communication that the anchor knows. */
  lemma StepLists(s: State, e: Event, t: State, repair: Repair, scanner: Scanner, item: string)
    requires Step(s, e, t, repair, scanner) && IsLine(Listing(item)) && item in t.anchor.communicationsSent
    ensures CarriesSystemText(t.context, Listing(item)) <==>
              Brings(s, e, Listing(item))
              || (CarriesSystemText(s.context, Listing(item)) && !Erases(s, e, Listing(item)))
  {
    hide Step, Restores, Mentions, Erases, CarriesSystemText, Listing, IsLine;
    if Restores(s, e) {
      RestoringLists(s, e, t, repair, scanner, item);
    } else {
      OtherStepCarries(s, e, t, repair, scanner, Listing(item));
    }
  }

  // ----- Whole runs -----

  /** The text was brought at some moment from `h` on, and not erased between then and `j`. */
  ghost predicate BroughtSince(states: seq<State>, events: seq<Event>, t: string, h: int, j: int)
    requires |states| == |events| + 1
  {
    exists r :: h <= r < j && BringsAt(states, events, t, r) && StaysFrom(states, events, t, r + 1, j)
  }

  predicate BringsAt(states: seq<State>, events: seq<Event>, t: string, n: int)
    requires |states| == |events| + 1
  {
    0 <= n < |events| && Brings(states[n], events[n], t)
  }

  predicate ErasesAt(states: seq<State>, events: seq<Event>, t: string, n: int)
    requires |states| == |events| + 1
  {
    0 <= n < |events| && Erases(states[n], events[n], t)
  }

  predicate StaysFrom(states: seq<State>, events: seq<Event>, t: string, from: int, j: int)
    requires |states| == |events| + 1
  {
    forall n :: from <= n < j ==> !ErasesAt(states, events, t, n)
  }

  /**
   * Over any run, from any moment at which the anchor knows a communication: it is listed exactly if the history was
   * rebuilt since, or a new system message mentions it, or it was listed to begin with, and no replaced system message
   * took the text along after that.
   */
  lemma {:induction false} ListedExactly(states: seq<State>, events: seq<Event>, repair: Repair, scanner: Scanner,
                                         h: nat, j: nat, item: string)
    requires IsRun(states, events, repair, scanner) && h <= j < |states|
    requires item in states[h].anchor.communicationsSent && IsLine(Listing(item))
    ensures CarriesSystemText(states[j].context, Listing(item)) <==>
              BroughtSince(states, events, Listing(item), h, j)
              || (CarriesSystemText(states[h].context, Listing(item))
                  && StaysFrom(states, events, Listing(item), h, j))
    decreases j
  {
    hide Step, Brings, Erases, CarriesSystemText, Listing, IsLine;
    if h < j {
      ListedExactly(states, events, repair, scanner, h, j - 1, item);
      RunGrowsList(states, events, repair, scanner, h, j);
      StepLists(states[j - 1], events[j - 1], states[j], repair, scanner, item);
      LastBrought(states, events, Listing(item), h, j);
      StaysOneMore(states, events, Listing(item), h, j);
      hide BroughtSince, StaysFrom;
    }
  }

  lemma LastBrought(states: seq<State>, events: seq<Event>, t: string, h: nat, j: nat)
    requires |states| == |events| + 1 && h < j < |states|
    ensures BroughtSince(states, events, t, h, j) <==>
              BringsAt(states, events, t, j - 1)
              || (BroughtSince(states, events, t, h, j - 1) && !ErasesAt(states, events, t, j - 1))
  {
    hide BringsAt, ErasesAt;
    if r :| h <= r < j && BringsAt(states, events, t, r) && StaysFrom(states, events, t, r + 1, j) {
      assert r < j - 1 ==> StaysFrom(states, events, t, r + 1, j - 1);
    }
    if BringsAt(states, events, t, j - 1) {
      assert StaysFrom(states, events, t, j, j);
    }
    if BroughtSince(states, events, t, h, j - 1) && !ErasesAt(states, events, t, j - 1) {
      var r :| h <= r < j - 1 && BringsAt(states, events, t, r) && StaysFrom(states, events, t, r + 1, j - 1);
      assert StaysFrom(states, events, t, r + 1, j);
    }
  }

  lemma StaysOneMore(states: seq<State>, events: seq<Event>, t: string, h: nat, j: nat)
    requires |states| == |events| + 1 && h < j < |states|
    ensures StaysFrom(states, events, t, h, j) <==>
              StaysFrom(states, events, t, h, j - 1) && !ErasesAt(states, events, t, j - 1)
  {
    hide ErasesAt;
  }

  /** No new system message of these events has the text. */
  ghost predicate NeverMentions(events: seq<Event>, t: string, h: int, j: int) {
    forall n :: 0 <= n < |events| && h <= n < j ==> !Mentions(events[n], t)
  }

  /** The history was rebuilt around the anchor from `h` on, and the text not erased between then and `j`. */
  ghost predicate RebuiltSince(states: seq<State>, events: seq<Event>, t: string, h: int, j: int)
    requires |states| == |events| + 1
  {
    exists r :: h <= r < j && RestoresAt(states, events, r) && StaysFrom(states, events, t, r + 1, j)
  }

  /**
   * What the prompt hook has made the history forget stays forgotten until an anchored step rebuilds it: after a hook
   * that replaced the only system message, over any run whose new system texts do not mention the communication, it is
   * listed again if and only if the history was rebuilt since, and no later hook took that text.
   */
  lemma ForgottenUntilRebuilt(states: seq<State>, events: seq<Event>, repair: Repair, scanner: Scanner, h: nat, j: nat,
                              item: string, before: seq<Message>, prompt: Message, second: Option<Message>)
    requires IsRun(states, events, repair, scanner) && h <= j < |states|
    requires item in states[h].anchor.communicationsSent && IsLine(Listing(item))
    requires |SystemMessages(before)| == 1 && prompt.role == System && (second.Some? ==> second.value.role == System)
    requires states[h].context == Composed(before, prompt, second)
    requires !Contains(prompt.content, Listing(item))
    requires second.Some? ==> !Contains(second.value.content, Listing(item))
    requires NeverMentions(events, Listing(item), h, j)
    ensures CarriesSystemText(states[j].context, Listing(item)) <==>
              RebuiltSince(states, events, Listing(item), h, j)
  {
    HookForgets(before, prompt, second, Listing(item));
    hide Step, Mentions, Restores, Erases, CarriesSystemText, Listing, IsLine, Composed, Contains, StaysFrom, Filter;
    ListedExactly(states, events, repair, scanner, h, j, item);
    forall r | h <= r < j
      ensures BringsAt(states, events, Listing(item), r) <==> RestoresAt(states, events, r)
    {
    }
  }
}
