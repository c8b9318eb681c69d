/** What the rendered summary shows of an anchor: nls/agentic/compactor.py. */
module SummaryText {
  import opened Text
  import opened Anchor

  /** The item is among the last `n` of the list. */
  predicate IsLate(list: seq<string>, n: int, x: string) {
    exists i :: 0 <= i < |list| && |list| - n <= i && list[i] == x
  }

  lemma {:induction false} BulletShown(bullet: string, items: seq<string>, x: string)
    requires x in items
    ensures bullet + x in Bullets(bullet, items)
  {
    if items[0] != x {
      BulletShown(bullet, items[1..], x);
    }
  }

  lemma LateShown(bullet: string, list: seq<string>, n: nat, x: string)
    requires IsLate(list, n, x)
    ensures bullet + x in Bullets(bullet, LastOf(list, n)) && Bullets(bullet, LastOf(list, n)) != []
  {
    var i :| 0 <= i < |list| && |list| - n <= i && list[i] == x;
    if |list| > n {
      assert LastOf(list, n)[i - (|list| - n)] == x;
    }
    BulletShown(bullet, LastOf(list, n), x);
  }

  /** A part between the title and the closing line stands on lines of its own. */
  lemma PartShown(a: Summary, part: string)
    requires part in OpeningParts(a) || part in RemainingParts(a)
    ensures Contains(Render(a), "\n" + part + "\n")
  {
    hide OpeningParts, RemainingParts, CommunicationParts, TitleLine, Contains, Join, LAST_LINE;
    var title, opening, sent, remaining := [TitleLine(a)], OpeningParts(a), CommunicationParts(a), RemainingParts(a);
    if part in opening {
      var i :| 0 <= i < |opening| && opening[i] == part;
      MiddleLine(title, opening, sent + (remaining + [LAST_LINE]), i);
      assert title + opening + (sent + (remaining + [LAST_LINE])) == SummaryParts(a);
    } else {
      var i :| 0 <= i < |remaining| && remaining[i] == part;
      MiddleLine(title + opening + sent, remaining, [LAST_LINE], i);
      assert (title + opening + sent) + remaining + [LAST_LINE] == SummaryParts(a);
    }
  }

  predicate IsLateInSome(a: Summary, x: string) {
    IsLate(a.decisions, 10, x) || IsLate(a.nextSteps, 5, x) || IsLate(a.supersededAttempts, 10, x)
    || IsLate(a.openBlockers, 5, x)
  }

  /** The summary shows the goal, and the last entries of each list, on lines of their own. */
  lemma RenderShows(a: Summary, x: string)
    ensures a.goal != "" ==> Contains(Render(a), "\n" + ("\n## Goal\n" + a.goal) + "\n")
    ensures IsLate(a.progressDone, 20, x) ==> Contains(Render(a), "\n" + ("- [x] " + x) + "\n")
    ensures IsLate(a.progressPending, 10, x) ==> Contains(Render(a), "\n" + ("- [ ] " + x) + "\n")
    ensures IsLateInSome(a, x) ==> Contains(Render(a), "\n" + ("- " + x) + "\n")
  {
    hide Contains, Render, Bullets, LastOf, IsLate, Join;
    if a.goal != "" {
      PartShown(a, "\n## Goal\n" + a.goal);
    }
    if IsLate(a.progressDone, 20, x) {
      LateShown("- [x] ", a.progressDone, 20, x);
      ProgressParts(a, "- [x] " + x);
      PartShown(a, "- [x] " + x);
    }
    if IsLate(a.progressPending, 10, x) {
      LateShown("- [ ] ", a.progressPending, 10, x);
      ProgressParts(a, "- [ ] " + x);
      PartShown(a, "- [ ] " + x);
    }
    if IsLate(a.decisions, 10, x) { LateShown("- ", a.decisions, 10, x); }
    if IsLate(a.nextSteps, 5, x) { LateShown("- ", a.nextSteps, 5, x); }
    if IsLate(a.supersededAttempts, 10, x) { LateShown("- ", a.supersededAttempts, 10, x); }
    if IsLate(a.openBlockers, 5, x) { LateShown("- ", a.openBlockers, 5, x); }
    if IsLateInSome(a, x) {
      ListedParts(a, "- " + x);
      PartShown(a, "- " + x);
    }
  }

  lemma ProgressParts(a: Summary, part: string)
    requires part in Bullets("- [x] ", LastOf(a.progressDone, 20))
               || part in Bullets("- [ ] ", LastOf(a.progressPending, 10))
    ensures part in RemainingParts(a)
  {
    hide Bullets, LastOf, Join;
  }

  lemma ListedParts(a: Summary, part: string)
    requires part in Bullets("- ", LastOf(a.decisions, 10)) || part in Bullets("- ", LastOf(a.nextSteps, 5))
             || part in Bullets("- ", LastOf(a.supersededAttempts, 10))
                 || part in Bullets("- ", LastOf(a.openBlockers, 5))
    ensures part in RemainingParts(a)
  {
    hide Bullets, LastOf, Join;
  }

  /** Lines of a section with `n` entries: none, or a heading and the entries. */
  function Lines(n: nat): nat {
    if n == 0 then 0 else n + 1
  }

  lemma {:induction false} AsManyBullets(bullet: string, items: seq<string>)
    ensures |Bullets(bullet, items)| == |items|
  {
    if items != [] {
      AsManyBullets(bullet, items[1..]);
    }
  }

  lemma ShownCount(bullet: string, list: seq<string>, n: nat)
    ensures |Bullets(bullet, LastOf(list, n))| == Min(|list|, n)
  {
    AsManyBullets(bullet, LastOf(list, n));
  }

  lemma SectionLines(heading: string, lines: seq<string>)
    ensures |Section(heading, lines)| == Lines(|lines|)
  {
  }

  function ProgressLines(a: Summary): nat {
    Lines(Lines(Min(|a.progressDone|, 20)) + Lines(Min(|a.progressPending|, 10)))
  }

  function FileLines(a: Summary): nat {
    Lines((if a.filesRead == [] then 0 else 1) + (if a.filesModified == [] then 0 else 1))
  }

  lemma RemainingIsShort(a: Summary)
    ensures |RemainingParts(a)| == ProgressLines(a) + Lines(Min(|a.decisions|, 10)) + FileLines(a)
            + Lines(Min(|a.nextSteps|, 5)) + Lines(Min(|a.supersededAttempts|, 10)) + Lines(Min(|a.openBlockers|, 5))
  {
    ProgressIsShort(a);
    FilesAreShort(a);
    ListIsShort("\n## Key Decisions", a.decisions, 10);
    ListIsShort("\n## Next Steps", a.nextSteps, 5);
    ListIsShort("\n## Superseded Attempts", a.supersededAttempts, 10);
    ListIsShort("\n## Open Blockers", a.openBlockers, 5);
    hide Bullets, LastOf, Join, Section, Lines, ProgressLines, FileLines;
  }

  lemma ListIsShort(heading: string, list: seq<string>, n: nat)
    ensures |Section(heading, Bullets("- ", LastOf(list, n)))| == Lines(Min(|list|, n))
  {
    ShownCount("- ", list, n);
    hide Bullets, LastOf;
  }

  lemma ProgressIsShort(a: Summary)
    ensures |Section("\n## Progress", Section("### Done", Bullets("- [x] ", LastOf(a.progressDone, 20)))
                                        + Section("### Pending", Bullets("- [ ] ", LastOf(a.progressPending, 10))))|
         == ProgressLines(a)
  {
    ShownCount("- [x] ", a.progressDone, 20);
    ShownCount("- [ ] ", a.progressPending, 10);
    hide Bullets, LastOf;
    var done, pending := Bullets("- [x] ", LastOf(a.progressDone, 20)),
        Bullets("- [ ] ", LastOf(a.progressPending, 10));
    SectionLines("### Done", done);
    SectionLines("### Pending", pending);
    SectionLines("\n## Progress", Section("### Done", done) + Section("### Pending", pending));
  }

  lemma FilesAreShort(a: Summary)
    ensures |Section("\n## Files Touched",
              (if a.filesRead != [] then ["Read: " + Join(", ", LastOf(a.filesRead, 15))] else [])
              + (if a.filesModified != [] then ["Modified: " + Join(", ", LastOf(a.filesModified, 15))] else []))|
         == FileLines(a)
  {
    hide LastOf, Join;
  }

  /** And no more of them: only the sent communications are shown in full. */
  lemma RenderIsShort(a: Summary)
    ensures |SummaryParts(a)| == 2 + (if a.goal == "" then 0 else 1) + (if a.availableTools == [] then 0 else 1)
            + Lines(|a.communicationsSent|) + |RemainingParts(a)|
  {
    AsManyBullets("- ", a.communicationsSent);
    hide Bullets, Join, TitleLine, RemainingParts, LAST_LINE;
  }

  const TOOLS_HEADING := "\n## Available Tools (use these, NOT bash equivalents)\n"

  /** The tools in full, and the last fifteen files read and modified, each list on one line. */
  lemma RenderShowsFiles(a: Summary, from: nat, since: nat)
    requires from == Max(0, |a.filesRead| - 15) && since == Max(0, |a.filesModified| - 15)
    ensures a.filesRead != [] ==> Contains(Render(a), "\n" + ("Read: " + Join(", ", a.filesRead[from..])) + "\n")
    ensures a.filesModified != [] ==>
              Contains(Render(a), "\n" + ("Modified: " + Join(", ", a.filesModified[since..])) + "\n")
    ensures a.availableTools != [] ==> Contains(Render(a), "\n" + (TOOLS_HEADING + Join(", ", a.availableTools)) + "\n")
  {
    LateFrom(a.filesRead, from);
    LateFrom(a.filesModified, since);
    FileParts(a);
    ToolPart(a);
    hide Contains, Render, LastOf, Join, OpeningParts, RemainingParts, TOOLS_HEADING;
    var read, modified := "Read: " + Join(", ", LastOf(a.filesRead, 15)),
        "Modified: " + Join(", ", LastOf(a.filesModified, 15));
    if a.filesRead != [] { PartShown(a, read); }
    if a.filesModified != [] { PartShown(a, modified); }
    if a.availableTools != [] {
      PartShown(a, TOOLS_HEADING + Join(", ", a.availableTools));
    }
  }

  lemma LateFrom(list: seq<string>, from: nat)
    requires from == Max(0, |list| - 15)
    ensures from <= |list| && list[from..] == LastOf(list, 15)
  {
  }

  lemma FileParts(a: Summary)
    ensures a.filesRead != [] ==> "Read: " + Join(", ", LastOf(a.filesRead, 15)) in RemainingParts(a)
    ensures a.filesModified != [] ==> "Modified: " + Join(", ", LastOf(a.filesModified, 15)) in RemainingParts(a)
  {
    hide Bullets, LastOf, Join;
  }

  lemma ToolPart(a: Summary)
    ensures a.availableTools != [] ==>
              TOOLS_HEADING + Join(", ", a.availableTools) in OpeningParts(a)
  {
    hide Join;
  }
}
