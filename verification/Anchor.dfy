/** The persistent compaction summary and its incremental merge: nls/agentic/compactor.py. */
module Anchor {
  import opened Sequences
  import opened Text
  import opened Messages

  /** Changes found in one newly dropped span. */
  datatype Delta = Delta(
    goal: string,
    progressDone: seq<string>,
    progressPending: seq<string>,
    decisions: seq<string>,
    filesRead: seq<string>,
    filesModified: seq<string>,
    communicationsSent: seq<string>,
    nextSteps: seq<string>,
    supersededAttempts: seq<string>,
    openBlockers: seq<string>)

  /** The contents of an anchor at one moment. */
  datatype Summary = Summary(
    goal: string,
    progressDone: seq<string>,
    progressPending: seq<string>,
    decisions: seq<string>,
    filesRead: seq<string>,
    filesModified: seq<string>,
    communicationsSent: seq<string>,
    nextSteps: seq<string>,
    availableTools: seq<string>,
    supersededAttempts: seq<string>,
    openBlockers: seq<string>,
    iterationAt: nat)

  const EMPTY := Summary("", [], [], [], [], [], [], [], [], [], [], 0)

  // ----- Merging -----

  /** Appends the items that are neither listed yet nor banned, in order. */
  function AppendNew(list: seq<string>, items: seq<string>, banned: seq<string>): seq<string>
    decreases |items|
  {
    if items == [] then list
    else if items[0] in list || items[0] in banned then AppendNew(list, items[1..], banned)
    else AppendNew(list + [items[0]], items[1..], banned)
  }

  function Without(list: seq<string>, removed: seq<string>): seq<string> {
    Filter(list, item => item !in removed)
  }

  function Merged(a: Summary, d: Delta, iteration: nat): Summary {
    var done := AppendNew(a.progressDone, d.progressDone, []);
    Summary(
      if d.goal != "" && a.goal == "" then d.goal else a.goal,
      done,
      AppendNew(Without(a.progressPending, d.progressDone), d.progressPending, done),
      AppendNew(a.decisions, d.decisions, []),
      AppendNew(a.filesRead, d.filesRead, []),
      AppendNew(a.filesModified, d.filesModified, []),
      AppendNew(a.communicationsSent, d.communicationsSent, []),
      if d.nextSteps != [] then d.nextSteps else a.nextSteps,
      a.availableTools,
      AppendNew(a.supersededAttempts, d.supersededAttempts, []),
      AppendNew(a.openBlockers, d.openBlockers, []),
      iteration)
  }

  /** Two spans summarised together: lists one after the other, the first goal, the last next steps. */
  function Joined(d: Delta, e: Delta): Delta {
    Delta(
      if d.goal != "" then d.goal else e.goal,
      d.progressDone + e.progressDone,
      d.progressPending + e.progressPending,
      d.decisions + e.decisions,
      d.filesRead + e.filesRead,
      d.filesModified + e.filesModified,
      d.communicationsSent + e.communicationsSent,
      if e.nextSteps != [] then e.nextSteps else d.nextSteps,
      d.supersededAttempts + e.supersededAttempts,
      d.openBlockers + e.openBlockers)
  }

  lemma {:induction false} AppendNewMember(list: seq<string>, items: seq<string>, banned: seq<string>, x: string)
    ensures x in AppendNew(list, items, banned) <==> x in list || (x in items && x !in banned)
    decreases |items|
  {
    if items != [] {
      assert items == [items[0]] + items[1..];
      AppendNewMember(list, items[1..], banned, x);
      AppendNewMember(list + [items[0]], items[1..], banned, x);
    }
  }

  lemma {:induction false} AppendNewExtends(list: seq<string>, items: seq<string>, banned: seq<string>)
    ensures list <= AppendNew(list, items, banned)
    decreases |items|
  {
    if items != [] {
      AppendNewExtends(list, items[1..], banned);
      AppendNewExtends(list + [items[0]], items[1..], banned);
    }
  }

  lemma {:induction false} AppendNewNoDuplicates(list: seq<string>, items: seq<string>, banned: seq<string>)
    requires NoDuplicates(list)
    ensures NoDuplicates(AppendNew(list, items, banned))
    decreases |items|
  {
    if items != [] {
      AppendNewNoDuplicates(list, items[1..], banned);
      if items[0] !in list {
        AppendNewNoDuplicates(list + [items[0]], items[1..], banned);
      }
    }
  }

  lemma {:induction false} AppendNewTwice(list: seq<string>, s: seq<string>, t: seq<string>, banned: seq<string>)
    ensures AppendNew(AppendNew(list, s, banned), t, banned) == AppendNew(list, s + t, banned)
    decreases |s|
  {
    if s == [] {
      assert s + t == t;
    } else {
      assert (s + t)[1..] == s[1..] + t;
      AppendNewTwice(list, s[1..], t, banned);
      AppendNewTwice(list + [s[0]], s[1..], t, banned);
    }
  }

  lemma {:induction false} AppendNewNothing(list: seq<string>, items: seq<string>, banned: seq<string>)
    requires forall x :: x in items ==> x in list || x in banned
    ensures AppendNew(list, items, banned) == list
  {
    if items != [] {
      AppendNewNothing(list, items[1..], banned);
    }
  }

  lemma {:induction false} AppendNewBanned(list: seq<string>, items: seq<string>, banned: seq<string>,
                                           banned': seq<string>)
    requires forall x :: x in banned <==> x in banned'
    ensures AppendNew(list, items, banned) == AppendNew(list, items, banned')
    decreases |items|
  {
    if items != [] {
      AppendNewBanned(list, items[1..], banned, banned');
      AppendNewBanned(list + [items[0]], items[1..], banned, banned');
    }
  }

  lemma WithoutConcat(list: seq<string>, x: string, removed: seq<string>)
    ensures Without(list + [x], removed) == if x in removed then Without(list, removed)
              else Without(list, removed) + [x]
  {
    FilterConcat(list, [x], item => item !in removed);
    assert [x][1..] == [];
  }

  lemma WithoutMember(list: seq<string>, removed: seq<string>, x: string)
    ensures x in Without(list, removed) <==> x in list && x !in removed
  {
    FilterMember(list, item => item !in removed, x);
  }

  /** Removing promoted items after appending equals refusing them while appending. */
  lemma {:induction false} WithoutAfterAppend(list: seq<string>, items: seq<string>, banned: seq<string>,
                                              removed: seq<string>)
    ensures Without(AppendNew(list, items, banned), removed)
              == AppendNew(Without(list, removed), items, banned + removed)
    decreases |items|
  {
    if items != [] {
      var x, rest := items[0], items[1..];
      WithoutMember(list, removed, x);
      if x in list || x in banned {
        WithoutAfterAppend(list, rest, banned, removed);
      } else {
        WithoutAfterAppend(list + [x], rest, banned, removed);
        WithoutConcat(list, x, removed);
      }
    }
  }

  lemma {:induction false} WithoutTwice(list: seq<string>, r: seq<string>, s: seq<string>)
    ensures Without(Without(list, r), s) == Without(list, r + s)
  {
    if list != [] {
      WithoutTwice(list[1..], r, s);
      if list[0] !in r {
        assert ([list[0]] + Without(list[1..], r))[1..] == Without(list[1..], r);
      }
    }
  }

  lemma PendingJoined(pending: seq<string>, done: seq<string>, d: Delta, e: Delta)
    ensures var done1 := AppendNew(done, d.progressDone, []);
            var done2 := AppendNew(done1, e.progressDone, []);
            AppendNew(Without(AppendNew(Without(pending, d.progressDone), d.progressPending, done1), e.progressDone),
                      e.progressPending, done2)
            == AppendNew(Without(pending, d.progressDone + e.progressDone), d.progressPending + e.progressPending,
                done2)
  {
    var done1 := AppendNew(done, d.progressDone, []);
    var done2 := AppendNew(done1, e.progressDone, []);
    var kept := Without(pending, d.progressDone);
    WithoutAfterAppend(kept, d.progressPending, done1, e.progressDone);
    WithoutTwice(pending, d.progressDone, e.progressDone);
    forall x ensures x in done2 <==> x in done1 + e.progressDone {
      AppendNewMember(done1, e.progressDone, [], x);
    }
    AppendNewBanned(Without(kept, e.progressDone), d.progressPending, done1 + e.progressDone, done2);
    AppendNewTwice(Without(kept, e.progressDone), d.progressPending, e.progressPending, done2);
  }

  /** Summarising two spans one after the other gives the anchor of summarising them at once. */
  lemma IncrementalEqualsOneShot(a: Summary, d: Delta, e: Delta, i: nat, j: nat)
    ensures Merged(Merged(a, d, i), e, j) == Merged(a, Joined(d, e), j)
  {
    AppendNewTwice(a.progressDone, d.progressDone, e.progressDone, []);
    PendingJoined(a.progressPending, a.progressDone, d, e);
    AppendNewTwice(a.decisions, d.decisions, e.decisions, []);
    AppendNewTwice(a.filesRead, d.filesRead, e.filesRead, []);
    AppendNewTwice(a.filesModified, d.filesModified, e.filesModified, []);
    AppendNewTwice(a.communicationsSent, d.communicationsSent, e.communicationsSent, []);
    AppendNewTwice(a.supersededAttempts, d.supersededAttempts, e.supersededAttempts, []);
    AppendNewTwice(a.openBlockers, d.openBlockers, e.openBlockers, []);
  }

  lemma AppendNewAgain(list: seq<string>, items: seq<string>)
    ensures AppendNew(AppendNew(list, items, []), items, []) == AppendNew(list, items, [])
  {
    forall x | x in items ensures x in AppendNew(list, items, []) { AppendNewMember(list, items, [], x); }
    AppendNewNothing(AppendNew(list, items, []), items, []);
  }

  /** Merging the same span again changes nothing. */
  lemma MergeIdempotent(a: Summary, d: Delta, i: nat)
    ensures Merged(Merged(a, d, i), d, i) == Merged(a, d, i)
  {
    AppendNewAgain(a.progressDone, d.progressDone);
    AppendNewAgain(a.decisions, d.decisions);
    AppendNewAgain(a.filesRead, d.filesRead);
    AppendNewAgain(a.filesModified, d.filesModified);
    AppendNewAgain(a.communicationsSent, d.communicationsSent);
    AppendNewAgain(a.supersededAttempts, d.supersededAttempts);
    AppendNewAgain(a.openBlockers, d.openBlockers);
    var done := AppendNew(a.progressDone, d.progressDone, []);
    var kept := Without(a.progressPending, d.progressDone);
    var pending := AppendNew(kept, d.progressPending, done);
    forall x | x in pending ensures x !in d.progressDone {
      AppendNewMember(kept, d.progressPending, done, x);
      WithoutMember(a.progressPending, d.progressDone, x);
      AppendNewMember(a.progressDone, d.progressDone, [], x);
    }
    FilterAll(pending, item => item !in d.progressDone);
    forall x | x in d.progressPending ensures x in pending || x in done {
      AppendNewMember(kept, d.progressPending, done, x);
    }
    AppendNewNothing(pending, d.progressPending, done);
  }

  /** Progress is never both done and pending, and no list that merging grows repeats an entry. */
  ghost predicate Consistent(a: Summary) {
    && NoDuplicates(a.progressDone) && NoDuplicates(a.progressPending)
    && (forall x :: x in a.progressDone ==> x !in a.progressPending)
    && NoDuplicates(a.decisions) && NoDuplicates(a.filesRead) && NoDuplicates(a.filesModified)
    && NoDuplicates(a.communicationsSent) && NoDuplicates(a.supersededAttempts) && NoDuplicates(a.openBlockers)
  }

  /** Every list that merging only appends to keeps what it held, in place. */
  predicate Extends(a: Summary, b: Summary) {
    && a.progressDone <= b.progressDone
    && a.decisions <= b.decisions
    && a.filesRead <= b.filesRead
    && a.filesModified <= b.filesModified
    && a.communicationsSent <= b.communicationsSent
    && a.supersededAttempts <= b.supersededAttempts
    && a.openBlockers <= b.openBlockers
  }

  lemma {:induction false} WithoutNoDuplicates(list: seq<string>, removed: seq<string>)
    requires NoDuplicates(list)
    ensures NoDuplicates(Without(list, removed))
  {
    if list != [] {
      WithoutNoDuplicates(list[1..], removed);
      WithoutMember(list[1..], removed, list[0]);
    }
  }

  lemma MergeKeepsConsistent(a: Summary, d: Delta, i: nat)
    requires Consistent(a)
    ensures Consistent(Merged(a, d, i)) && Extends(a, Merged(a, d, i))
  {
    var done := AppendNew(a.progressDone, d.progressDone, []);
    var kept := Without(a.progressPending, d.progressDone);
    WithoutNoDuplicates(a.progressPending, d.progressDone);
    AppendNewNoDuplicates(kept, d.progressPending, done);
    forall x | x in done ensures x !in Merged(a, d, i).progressPending {
      AppendNewMember(kept, d.progressPending, done, x);
      WithoutMember(a.progressPending, d.progressDone, x);
      AppendNewMember(a.progressDone, d.progressDone, [], x);
    }
    ListGrows(a.progressDone, d.progressDone);
    ListGrows(a.decisions, d.decisions);
    ListGrows(a.filesRead, d.filesRead);
    ListGrows(a.filesModified, d.filesModified);
    ListGrows(a.communicationsSent, d.communicationsSent);
    ListGrows(a.supersededAttempts, d.supersededAttempts);
    ListGrows(a.openBlockers, d.openBlockers);
  }

  lemma ListGrows(list: seq<string>, items: seq<string>)
    requires NoDuplicates(list)
    ensures NoDuplicates(AppendNew(list, items, [])) && list <= AppendNew(list, items, [])
  {
    AppendNewNoDuplicates(list, items, []);
    AppendNewExtends(list, items, []);
  }

  function MergedAll(a: Summary, deltas: seq<(Delta, nat)>): Summary
    decreases |deltas|
  {
    if deltas == [] then a else MergedAll(Merged(a, deltas[0].0, deltas[0].1), deltas[1..])
  }

  /** Over any run of merges that starts empty, the anchor stays consistent. */
  lemma {:induction false} RunKeepsConsistent(a: Summary, deltas: seq<(Delta, nat)>)
    requires Consistent(a)
    ensures Consistent(MergedAll(a, deltas)) && Extends(a, MergedAll(a, deltas))
    decreases |deltas|
  {
    if deltas != [] {
      MergeKeepsConsistent(a, deltas[0].0, deltas[0].1);
      RunKeepsConsistent(Merged(a, deltas[0].0, deltas[0].1), deltas[1..]);
    }
  }

  // ----- Rendering -----

  const SUMMARY_MARK := "[CONTEXT SUMMARY"

  /** The last `n` entries of a list. */
  function LastOf(list: seq<string>, n: nat): seq<string> {
    if |list| <= n then list else list[|list| - n..]
  }

  function Bullets(bullet: string, items: seq<string>): seq<string> {
    if items == [] then [] else [bullet + items[0]] + Bullets(bullet, items[1..])
  }

  function Section(heading: string, lines: seq<string>): seq<string> {
    if lines == [] then [] else [heading] + lines
  }

  function SummaryParts(a: Summary): seq<string> {
    ([TitleLine(a)] + OpeningParts(a)) + CommunicationParts(a) + (RemainingParts(a) + [LAST_LINE])
  }

  const LAST_LINE := "\n[END CONTEXT SUMMARY]"

  function TitleLine(a: Summary): string {
    "[CONTEXT SUMMARY — updated at iteration " + Digits(a.iterationAt) + "]"
  }

  function OpeningParts(a: Summary): seq<string> {
    (if a.goal != "" then ["\n## Goal\n" + a.goal] else [])
    + (if a.availableTools != [] then
         ["\n## Available Tools (use these, NOT bash equivalents)\n" + Join(", ", a.availableTools)]
       else [])
  }

  function CommunicationParts(a: Summary): seq<string> {
    Section("\n## Communications Already Sent (DO NOT re-send)", Bullets("- ", a.communicationsSent))
  }

  function RemainingParts(a: Summary): seq<string> {
    Section("\n## Progress",
            Section("### Done", Bullets("- [x] ", LastOf(a.progressDone, 20)))
            + Section("### Pending", Bullets("- [ ] ", LastOf(a.progressPending, 10))))
    + Section("\n## Key Decisions", Bullets("- ", LastOf(a.decisions, 10)))
    + Section("\n## Files Touched",
              (if a.filesRead != [] then ["Read: " + Join(", ", LastOf(a.filesRead, 15))] else [])
              + (if a.filesModified != [] then ["Modified: " + Join(", ", LastOf(a.filesModified, 15))] else []))
    + Section("\n## Next Steps", Bullets("- ", LastOf(a.nextSteps, 5)))
    + Section("\n## Superseded Attempts", Bullets("- ", LastOf(a.supersededAttempts, 10)))
    + Section("\n## Open Blockers", Bullets("- ", LastOf(a.openBlockers, 5)))
  }

  function Render(a: Summary): string {
    Join("\n", SummaryParts(a))
  }

  function ContextMessage(a: Summary): Message {
    SystemMessage(Render(a))
  }

  predicate IsSummaryMessage(m: Message) {
    m.role == System && StartsWith(m.content, SUMMARY_MARK)
  }

  lemma {:induction false} JoinConcat(separator: string, left: seq<string>, right: seq<string>)
    requires left != [] && right != []
    ensures Join(separator, left + right) == Join(separator, left) + separator + Join(separator, right)
  {
    if |left| == 1 {
      assert (left + right)[1..] == right;
    } else {
      JoinConcat(separator, left[1..], right);
      assert (left + right)[1..] == left[1..] + right;
    }
  }

  /** A listed communication: a line of its own. */
  function CommunicationLine(item: string): string {
    "\n- " + item + "\n"
  }

  lemma {:induction false} BulletAt(bullet: string, items: seq<string>, i: nat)
    requires i < |items|
    ensures |Bullets(bullet, items)| == |items| && Bullets(bullet, items)[i] == bullet + items[i]
    decreases items
  {
    if |items| > 1 {
      BulletAt(bullet, items[1..], if i > 0 then i - 1 else 0);
    }
  }

  lemma CommunicationPartAt(a: Summary, item: string) returns (i: nat)
    requires item in a.communicationsSent
    ensures i < |CommunicationParts(a)| && CommunicationParts(a)[i] == "- " + item
  {
    var k :| 0 <= k < |a.communicationsSent| && a.communicationsSent[k] == item;
    BulletAt("- ", a.communicationsSent, k);
    i := k + 1;
  }

  /** Unlike the other sections, the communications section is never shortened: every entry has its line. */
  lemma RenderListsEveryCommunication(a: Summary, item: string)
    requires item in a.communicationsSent
    ensures Contains(Render(a), CommunicationLine(item))
  {
    var i := CommunicationPartAt(a, item);
    MiddleLine([TitleLine(a)] + OpeningParts(a), CommunicationParts(a), RemainingParts(a) + [LAST_LINE], i);
    LineText(item);
    hide TitleLine, OpeningParts, CommunicationParts, RemainingParts, Join, Contains, LAST_LINE;
  }

  lemma LineText(item: string)
    ensures "\n" + ("- " + item) + "\n" == CommunicationLine(item)
  {
  }

  lemma MiddleLine(head: seq<string>, section: seq<string>, tail: seq<string>, i: nat)
    requires head != [] && tail != [] && i < |section|
    ensures Contains(Join("\n", head + section + tail), "\n" + section[i] + "\n")
  {
    hide *;
    var before, line, after := head + section[..i], section[i], section[i + 1..] + tail;
    assert head + section + tail == before + ([line] + after);
    JoinConcat("\n", before, [line] + after);
    JoinConcat("\n", [line], after);
    JoinOne("\n", line);
    var left, right := Join("\n", before), Join("\n", after);
    ContainsInside(left, "\n" + line + "\n", right);
    assert left + "\n" + (line + "\n" + right) == left + ("\n" + line + "\n") + right;
  }

  lemma JoinOne(separator: string, line: string)
    ensures Join(separator, [line]) == line
  {
  }

  lemma TitleAndLastLine(a: Summary)
    ensures TitleLine(a) != [] && SUMMARY_MARK <= TitleLine(a) && TitleLine(a)[0] == '['
    ensures |LAST_LINE| > 0 && LAST_LINE[|LAST_LINE| - 1] == ']'
  {
  }

  lemma SummaryPartsEnds(a: Summary)
    ensures |SummaryParts(a)| >= 2
    ensures SummaryParts(a)[0] == TitleLine(a) && SummaryParts(a)[|SummaryParts(a)| - 1] == LAST_LINE
  {
    hide TitleLine, OpeningParts, CommunicationParts, RemainingParts, LAST_LINE;
  }

  lemma MarkedText(title: string, last: string, text: string)
    requires SUMMARY_MARK <= title <= text && title[0] == '['
    requires text != [] && last != [] && text[|text| - 1] == last[|last| - 1] == ']'
    ensures StartsWith(text, SUMMARY_MARK) && IsTrimmed(text)
  {
  }

  lemma RenderIsMarked(a: Summary)
    ensures StartsWith(Render(a), SUMMARY_MARK) && IsTrimmed(Render(a))
  {
    TitleAndLastLine(a);
    SummaryPartsEnds(a);
    hide SummaryParts, Join, TitleLine, LAST_LINE, SUMMARY_MARK, StartsWith, IsTrimmed;
    FirstAndLastLine(SummaryParts(a));
    MarkedText(TitleLine(a), LAST_LINE, Render(a));
  }

  lemma FirstAndLastLine(parts: seq<string>)
    requires |parts| >= 2 && parts[0] != [] && parts[|parts| - 1] != []
    ensures parts[0] <= Join("\n", parts)
    ensures var text, last := Join("\n", parts), parts[|parts| - 1]; text != [] && text[|text| - 1] == last[|last| - 1]
  {
    hide *;
    var n := |parts| - 1;
    JoinOne("\n", parts[0]);
    JoinOne("\n", parts[n]);
    assert parts == [parts[0]] + parts[1..] && parts == parts[..n] + [parts[n]];
    JoinConcat("\n", [parts[0]], parts[1..]);
    JoinConcat("\n", parts[..n], [parts[n]]);
  }

  // ----- The mutable anchor -----

  method ExtendWithNew(list: seq<string>, items: seq<string>, banned: seq<string>) returns (r: seq<string>)
    ensures r == AppendNew(list, items, banned)
  {
    r := list;
    for i := 0 to |items|
      invariant AppendNew(r, items[i..], banned) == AppendNew(list, items, banned)
    {
      if items[i] !in r && items[i] !in banned {
        r := r + [items[i]];
      }
      assert items[i..][1..] == items[i + 1..];
    }
  }

  class CompactionAnchor {
    var goal: string
    var progressDone: seq<string>
    var progressPending: seq<string>
    var decisions: seq<string>
    var filesRead: seq<string>
    var filesModified: seq<string>
    var communicationsSent: seq<string>
    var nextSteps: seq<string>
    var availableTools: seq<string>
    var supersededAttempts: seq<string>
    var openBlockers: seq<string>
    var iterationAt: nat

    constructor ()
      ensures Value() == EMPTY
    {
      goal := "";
      progressDone, progressPending, decisions := [], [], [];
      filesRead, filesModified, communicationsSent := [], [], [];
      nextSteps, availableTools, supersededAttempts, openBlockers := [], [], [], [];
      iterationAt := 0;
    }

    function Value(): Summary
      reads this
    {
      Summary(goal, progressDone, progressPending, decisions, filesRead, filesModified, communicationsSent,
              nextSteps, availableTools, supersededAttempts, openBlockers, iterationAt)
    }

    method Merge(delta: Delta, iteration: nat)
      modifies this
      ensures Value() == Merged(old(Value()), delta, iteration)
    {
      hide AppendNew, Without;
      if delta.goal != "" && goal == "" {
        goal := delta.goal;
      }
      MergeProgress(delta);
      MergeRecords(delta);
      if delta.nextSteps != [] {
        nextSteps := delta.nextSteps;
      }
      iterationAt := iteration;
    }

    method MergeProgress(delta: Delta)
      modifies this`progressDone, this`progressPending
      ensures progressDone == AppendNew(old(progressDone), delta.progressDone, [])
      ensures progressPending == AppendNew(Without(old(progressPending), delta.progressDone), delta.progressPending,
                progressDone)
    {
      progressDone := ExtendWithNew(progressDone, delta.progressDone, []);
      progressPending := Without(progressPending, delta.progressDone);
      progressPending := ExtendWithNew(progressPending, delta.progressPending, progressDone);
    }

    method MergeRecords(delta: Delta)
      modifies this`decisions, this`filesRead, this`filesModified, this`communicationsSent,
               this`supersededAttempts, this`openBlockers
      ensures decisions == AppendNew(old(decisions), delta.decisions, [])
      ensures filesRead == AppendNew(old(filesRead), delta.filesRead, [])
      ensures filesModified == AppendNew(old(filesModified), delta.filesModified, [])
      ensures communicationsSent == AppendNew(old(communicationsSent), delta.communicationsSent, [])
      ensures supersededAttempts == AppendNew(old(supersededAttempts), delta.supersededAttempts, [])
      ensures openBlockers == AppendNew(old(openBlockers), delta.openBlockers, [])
    {
      decisions := ExtendWithNew(decisions, delta.decisions, []);
      filesRead := ExtendWithNew(filesRead, delta.filesRead, []);
      filesModified := ExtendWithNew(filesModified, delta.filesModified, []);
      communicationsSent := ExtendWithNew(communicationsSent, delta.communicationsSent, []);
      supersededAttempts := ExtendWithNew(supersededAttempts, delta.supersededAttempts, []);
      openBlockers := ExtendWithNew(openBlockers, delta.openBlockers, []);
    }
  }
}
