/** Trimming a chat history when a new task starts after a plan: nls/agentic/phase_boundary.py. */
module PhaseBoundary {
  import opened Sequences
  import opened Text
  import opened Messages

  const REVIEW := "COMPLETION REVIEW"
  const REVIEW_MARKERS: seq<string> :=
    [REVIEW, "EM TURN — " + REVIEW, REVIEW + " REQUIRED", "[" + REVIEW]
  const PHASE_OPENING := "[NEW TASK PHASE — prior build plan "
  const PHASE_FOCUS := "; deliverables are on disk]" + "\nFocus only on the current request: "
  const PHASE_CLOSING := "\nIgnore old completion-review" + " / delegate wrap-up turns above."

  /** What the caller knows about the new task. */
  datatype NewTask = NewTask(userInput: string, goals: seq<string>, planId: string)

  // ----- Completion reviews -----

  predicate IsReviewText(text: string) {
    exists k :: 0 <= k < |REVIEW_MARKERS| && Contains(text, REVIEW_MARKERS[k])
  }

  predicate IsReview(m: Message) {
    m.role != Tool && IsReviewText(m.content)
  }

  predicate IsNotReview(m: Message) {
    !IsReview(m)
  }

  lemma MarkerContainsReview(k: nat)
    requires k < |REVIEW_MARKERS|
    ensures Contains(REVIEW_MARKERS[k], REVIEW)
  {
    hide Contains;
    ContainsInside("", REVIEW, "");
    assert "" + REVIEW + "" == REVIEW;
    ContainsInside("EM TURN — ", REVIEW, "");
    assert "EM TURN — " + REVIEW + "" == "EM TURN — " + REVIEW;
    ContainsInside("", REVIEW, " REQUIRED");
    assert "" + REVIEW + " REQUIRED" == REVIEW + " REQUIRED";
    ContainsInside("[", REVIEW, "");
    assert "[" + REVIEW + "" == "[" + REVIEW;
  }

  /** Three of the four markers never decide anything: each contains the first. */
  lemma OneMarkerDecides(text: string)
    ensures IsReviewText(text) <==> Contains(text, REVIEW)
  {
    if IsReviewText(text) {
      var k :| 0 <= k < |REVIEW_MARKERS| && Contains(text, REVIEW_MARKERS[k]);
      MarkerContainsReview(k);
      ContainsTransitive(text, REVIEW_MARKERS[k], REVIEW);
    }
    if Contains(text, REVIEW) {
      assert REVIEW_MARKERS[0] == REVIEW;
    }
  }

  // ----- The injected user query -----

  function LeadingSystems(context: seq<Message>): (n: nat)
    ensures n <= |context|
  {
    if context != [] && context[0].role == System then 1 + LeadingSystems(context[1..]) else 0
  }

  function QueryText(userInput: string): string {
    if Strip(userInput) != "" then Strip(userInput) else CONTINUE_TEXT
  }

  function WithUserQuery(context: seq<Message>, userInput: string): seq<Message> {
    if HasRole(context, User) then context
    else
      var at := LeadingSystems(context);
      context[..at] + [UserMessage(QueryText(userInput))] + context[at..]
  }

  // ----- The boundary -----

  predicate IsNonEmpty(goal: string) {
    goal != ""
  }

  function GoalLine(task: NewTask): string {
    var joined := Prefix(Join("; ", Filter(task.goals, IsNonEmpty)), 400);
    if joined != "" then joined else Prefix(Strip(task.userInput), 400)
  }

  function Boundary(task: NewTask): Message {
    SystemMessage(PHASE_OPENING + (if task.planId != "" then task.planId else "ledger complete")
                  + PHASE_FOCUS + GoalLine(task) + PHASE_CLOSING)
  }

  function Reviews(context: seq<Message>): seq<Message> {
    Filter(OtherMessages(context), IsReview)
  }

  /** The turns that are neither system messages nor completion reviews. */
  function Turns(context: seq<Message>): seq<Message> {
    Filter(OtherMessages(context), IsNotReview)
  }

  predicate IsLeftAlone(context: seq<Message>) {
    context == [] || (Reviews(context) == [] && |OtherMessages(context)| <= 14)
  }

  function Last(messages: seq<Message>, n: nat): (r: seq<Message>)
    ensures |r| == if n < |messages| then n else |messages|
  {
    if n < |messages| then messages[|messages| - n..] else messages
  }

  function KeptTurns(context: seq<Message>): seq<Message> {
    Last(Turns(context), if Reviews(context) != [] then 8 else 10)
  }

  function Head(context: seq<Message>, task: NewTask): seq<Message> {
    (if SystemMessages(context) == [] then [] else [SystemMessages(context)[0]]) + [Boundary(task)]
  }

  function Trimmed(context: seq<Message>, task: NewTask): seq<Message> {
    if IsLeftAlone(context) then context
    else WithUserQuery(Head(context, task) + KeptTurns(context), task.userInput)
  }

  /** The agent's message list, which callers share. */
  class History {
    var messages: seq<Message>

    constructor (messages: seq<Message>)
      ensures this.messages == messages
    {
      this.messages := messages;
    }

    method EnsureUserQuery(userInput: string) returns (injected: bool)
      modifies this
      ensures injected == !HasRole(old(messages), User)
      ensures messages == WithUserQuery(old(messages), userInput)
      ensures HasRole(messages, User)
    {
      if HasRole(messages, User) {
        return false;
      }
      var content := Strip(userInput);
      if content == "" {
        content := CONTINUE_TEXT;
      }
      var insertAt := 0;
      while insertAt < |messages| && messages[insertAt].role == System
        invariant insertAt <= |messages|
        invariant LeadingSystems(messages) == insertAt + LeadingSystems(messages[insertAt..])
      {
        assert messages[insertAt..][1..] == messages[insertAt + 1..];
        insertAt := insertAt + 1;
      }
      messages := messages[..insertAt] + [UserMessage(content)] + messages[insertAt..];
      assert messages[insertAt].role == User;
      return true;
    }

    /** Returns this very list when there is nothing to trim, and a new one otherwise. */
    method TrimForPhaseBoundary(task: NewTask) returns (trimmed: History)
      ensures trimmed.messages == Trimmed(messages, task)
      ensures if IsLeftAlone(messages) then trimmed == this else fresh(trimmed)
    {
      hide Filter, WithUserQuery, Boundary, IsReviewText;
      if messages == [] {
        return this;
      }
      var systemMessages := SystemMessages(messages);
      var other := OtherMessages(messages);
      var reviews := Filter(other, IsReview);
      var kept := Filter(other, IsNotReview);
      if reviews == [] && |other| <= 14 {
        return this;
      }
      var tail := if reviews != [] then 8 else 10;
      if |kept| > tail {
        kept := kept[|kept| - tail..];
      }
      trimmed := new History((if systemMessages == [] then [] else [systemMessages[0]]) + [Boundary(task)] + kept);
      var injected := trimmed.EnsureUserQuery(task.userInput);
    }
  }

  // ----- What trimming guarantees -----

  lemma ForAllFilter(s: seq<Message>, keep: Message -> bool)
    ensures forall m :: m in Filter(s, keep) ==> m in s && keep(m)
  {
    forall m ensures m in Filter(s, keep) <==> m in s && keep(m) { FilterMember(s, keep, m); }
  }

  lemma {:induction false} LeadingSystemsStop(head: seq<Message>, turns: seq<Message>)
    requires forall m :: m in head ==> m.role == System
    requires forall m :: m in turns ==> m.role != System
    ensures LeadingSystems(head + turns) == |head|
  {
    if head == [] {
      assert head + turns == turns;
    } else {
      assert (head + turns)[1..] == head[1..] + turns;
      LeadingSystemsStop(head[1..], turns);
    }
  }

  /** The turns of a trimmed history: the kept ones, after a user query when none of them is one. */
  function TurnsAfter(context: seq<Message>, task: NewTask): seq<Message> {
    if HasRole(KeptTurns(context), User) then KeptTurns(context)
    else [UserMessage(QueryText(task.userInput))] + KeptTurns(context)
  }

  lemma HeadIsSystem(context: seq<Message>, task: NewTask)
    ensures forall m :: m in Head(context, task) ==> m.role == System
  {
    hide Filter, GoalLine;
    ForAllFilter(context, IsSystem);
    if SystemMessages(context) != [] {
      assert SystemMessages(context)[0] in SystemMessages(context);
    }
  }

  lemma KeptAreTurns(context: seq<Message>)
    ensures forall m :: m in KeptTurns(context) ==> m.role != System && !IsReview(m)
  {
    hide Filter, IsReview;
    ForAllFilter(context, IsNotSystem);
    ForAllFilter(OtherMessages(context), IsNotReview);
    assert forall m :: m in KeptTurns(context) ==> m in Turns(context);
  }

  lemma TrimmedShape(context: seq<Message>, task: NewTask)
    requires !IsLeftAlone(context)
    ensures Trimmed(context, task) == Head(context, task) + TurnsAfter(context, task)
    ensures forall m :: m in TurnsAfter(context, task) ==> m.role != System
  {
    hide Filter, IsReview, IsReviewText, QueryText, Head, KeptTurns, IsLeftAlone, LeadingSystems;
    var head, kept := Head(context, task), KeptTurns(context);
    HeadIsSystem(context, task);
    KeptAreTurns(context);
    if HasRole(kept, User) {
      var i :| 0 <= i < |kept| && kept[i].role == User;
      assert (head + kept)[|head| + i].role == User;
    } else {
      LeadingSystemsStop(head, kept);
    }
  }

  /** What a second trim sees of a trimmed history. */
  lemma TrimmedParts(context: seq<Message>, task: NewTask)
    requires !IsLeftAlone(context)
    ensures SystemMessages(Trimmed(context, task)) == Head(context, task)
    ensures OtherMessages(Trimmed(context, task)) == TurnsAfter(context, task)
  {
    hide Filter, Head, TurnsAfter, Trimmed, IsLeftAlone;
    var head, turns := Head(context, task), TurnsAfter(context, task);
    HeadIsSystem(context, task);
    TrimmedShape(context, task);
    FilterConcat(head, turns, IsSystem);
    FilterConcat(head, turns, IsNotSystem);
    FilterAll(head, IsSystem);
    NoneLeft(head, IsNotSystem);
    FilterAll(turns, IsNotSystem);
    NoneLeft(turns, IsSystem);
  }

  lemma MissingCharacter(s: string, t: string, i: nat)
    requires i < |t| && t[i] !in s
    ensures !Contains(s, t)
  {
    forall at | 0 <= at <= |s| ensures !OccursAt(s, t, at) {
      if at + |t| <= |s| {
        assert s[at + i] == s[at..at + |t|][i];
      }
    }
  }

  lemma PlaceholderIsNoReview()
    ensures !Contains(CONTINUE_TEXT, REVIEW)
  {
    hide Contains;
    assert REVIEW[1] == 'O';
    assert 'O' !in CONTINUE_TEXT;
    MissingCharacter(CONTINUE_TEXT, REVIEW, 1);
  }

  /** The injected query is a review exactly when the request it repeats carries a marker. */
  lemma QueryIsReview(userInput: string)
    ensures IsReview(UserMessage(QueryText(userInput))) <==> Contains(userInput, REVIEW)
  {
    hide Contains, Strip, IsReviewText;
    OneMarkerDecides(QueryText(userInput));
    PlaceholderIsNoReview();
    if Contains(userInput, REVIEW) {
      StripKeeps(userInput, REVIEW);
      EmptyIsNoReview();
    }
    if Contains(Strip(userInput), REVIEW) {
      StripInvents(userInput, REVIEW);
    }
  }

  lemma EmptyIsNoReview()
    ensures !Contains("", REVIEW)
  {
  }

  /** The request comes back as a turn that the next trim takes for a completion review. */
  predicate InjectsReview(context: seq<Message>, task: NewTask) {
    !HasRole(KeptTurns(context), User) && Contains(task.userInput, REVIEW)
  }

  lemma ReviewsAfter(context: seq<Message>, task: NewTask)
    requires !IsLeftAlone(context)
    ensures Reviews(Trimmed(context, task)) ==
              if InjectsReview(context, task) then [UserMessage(QueryText(task.userInput))] else []
    ensures Turns(Trimmed(context, task)) == if InjectsReview(context, task) then KeptTurns(context)
              else TurnsAfter(context, task)
  {
    hide Filter, KeptTurns, Trimmed, IsReview, IsLeftAlone, QueryText, HasRole;
    var query, kept := UserMessage(QueryText(task.userInput)), KeptTurns(context);
    TrimmedParts(context, task);
    KeptAreTurns(context);
    QueryIsReview(task.userInput);
    NoneLeft(kept, IsReview);
    FilterAll(kept, IsNotReview);
    FilterStep(query, kept, IsReview);
    FilterStep(query, kept, IsNotReview);
  }

  /**
   * A trimmed history is short, addressed by a user, and keeps the latest of the turns that are no reviews, in order.
   */
  lemma TrimIsProjection(context: seq<Message>, task: NewTask)
    requires !IsLeftAlone(context)
    ensures |Trimmed(context, task)| <= 13
    ensures HasRole(Trimmed(context, task), User)
    ensures exists k :: 0 <= k <= |Turns(context)| && KeptTurns(context) == Turns(context)[k..]
    ensures OtherMessages(Trimmed(context, task)) == TurnsAfter(context, task)
    ensures Reviews(Trimmed(context, task)) == [] <==> !InjectsReview(context, task)
  {
    hide Filter, IsReview, IsLeftAlone, QueryText, Boundary;
    var head, kept, turns := Head(context, task), KeptTurns(context), Turns(context);
    TrimmedShape(context, task);
    TrimmedParts(context, task);
    ReviewsAfter(context, task);
    assert kept == turns[|turns| - |kept|..];
    assert HasRole(TurnsAfter(context, task), User) by {
      assert !HasRole(kept, User) ==> TurnsAfter(context, task)[0].role == User;
    }
    var i :| 0 <= i < |TurnsAfter(context, task)| && TurnsAfter(context, task)[i].role == User;
    assert (head + TurnsAfter(context, task))[|head| + i].role == User;
  }

  lemma NoReviewsMeansAllTurns(context: seq<Message>)
    requires Reviews(context) == []
    ensures Turns(context) == OtherMessages(context)
  {
    hide Filter, IsReview;
    var other := OtherMessages(context);
    forall m | m in other ensures IsNotReview(m) {
      FilterMember(other, IsReview, m);
    }
    FilterAll(other, IsNotReview);
  }

  /** The second trim of a history whose injected request reads as a review. */
  lemma SecondTrim(context: seq<Message>, task: NewTask)
    requires !IsLeftAlone(context) && InjectsReview(context, task)
    ensures !IsLeftAlone(Trimmed(context, task))
    ensures Trimmed(Trimmed(context, task), task)
         == [Head(context, task)[0], Boundary(task), UserMessage(QueryText(task.userInput))]
             + Last(KeptTurns(context), 8)
  {
    hide Filter, IsReview, QueryText, Boundary, Trimmed, OtherMessages, SystemMessages, Reviews, Turns;
    var trimmed := Trimmed(context, task);
    TrimmedParts(context, task);
    ReviewsAfter(context, task);
    assert trimmed != [] by {
      TrimmedShape(context, task);
    }
    assert KeptTurns(trimmed) == Last(KeptTurns(context), 8);
    assert !HasRole(KeptTurns(trimmed), User) by {
      assert forall i :: 0 <= i < |KeptTurns(trimmed)| ==> KeptTurns(trimmed)[i] in KeptTurns(context);
    }
    TrimmedShape(trimmed, task);
  }

  /** Trimming again changes nothing, except when the request itself reads as a review and
      either there were no reviews to drop or no system message to keep. */
  lemma TrimTwice(context: seq<Message>, task: NewTask)
    ensures Trimmed(Trimmed(context, task), task) == Trimmed(context, task)
       <==> IsLeftAlone(context) || !InjectsReview(context, task)
            || (Reviews(context) != [] && SystemMessages(context) != [])
  {
    hide Filter, IsReview, QueryText, Boundary, Trimmed, OtherMessages, SystemMessages;
    if IsLeftAlone(context) {
      LeftAloneStays(context, task);
    } else {
      TrimmedShape(context, task);
      if InjectsReview(context, task) {
        SecondTrim(context, task);
        if Reviews(context) == [] {
          NoReviewsMeansAllTurns(context);
        }
      } else {
        TrimmedParts(context, task);
        ReviewsAfter(context, task);
        LeftAloneStays(Trimmed(context, task), task);
      }
    }
  }

  lemma LeftAloneStays(context: seq<Message>, task: NewTask)
    requires IsLeftAlone(context)
    ensures Trimmed(context, task) == context
  {
  }

  /** It differs for a history of many agent turns whose request asks for a review. */
  lemma SecondTrimDiffers(n: nat, task: NewTask)
    requires n > 14 && Contains(task.userInput, REVIEW)
    ensures var context := seq(n, i => Message(Assistant, "", [], ""));
            Trimmed(Trimmed(context, task), task) != Trimmed(context, task)
  {
    var context := seq(n, i => Message(Assistant, "", [], ""));
    OneMarkerDecides("");
    EmptyIsNoReview();
    hide Filter, IsReviewText, Contains;
    FilterAll(context, IsNotSystem);
    NoneLeft(context, IsSystem);
    NoneLeft(context, IsReview);
    FilterAll(context, IsNotReview);
    assert forall m :: m in KeptTurns(context) ==> m.role == Assistant;
    hide KeptTurns, Trimmed;
    TrimTwice(context, task);
  }

  // ----- What the new phase is told -----

  /** The goals that are not empty, or else the request, up to 400 characters. */
  function Focus(task: NewTask): string {
    var goals := Join("; ", Filter(task.goals, IsNonEmpty));
    var text := if goals != "" then goals else Strip(task.userInput);
    if |text| <= 400 then text else text[..400]
  }

  lemma FocusExactly(task: NewTask)
    ensures GoalLine(task) == Focus(task)
  {
    hide Filter, Strip;
  }

  /** The boundary names the plan, or the ledger, and the focus, each on the line made for it. */
  lemma BoundarySays(task: NewTask)
    ensures Boundary(task).role == System
    ensures Contains(Boundary(task).content,
        "\nFocus only on the current request: " + Focus(task) + "\nIgnore old completion-review")
    ensures "[NEW TASK PHASE — prior build plan " + (if task.planId == "" then "ledger complete" else task.planId) + ";"
         <= Boundary(task).content
  {
    FocusExactly(task);
    BoundaryTexts();
    hide GoalLine, Focus, Contains, PHASE_FOCUS, PHASE_CLOSING, PHASE_OPENING;
    var plan, goal := if task.planId != "" then task.planId else "ledger complete", Focus(task);
    var before := PHASE_OPENING + plan + "; deliverables are on disk]";
    Regrouped(PHASE_OPENING + plan, "; deliverables are on disk]", "\nFocus only on the current request: ", goal,
        "\nIgnore old completion-review", " / delegate wrap-up turns above.");
    ContainsInside(before, "\nFocus only on the current request: " + goal + "\nIgnore old completion-review",
        " / delegate wrap-up turns above.");
    PlanFirst(PHASE_OPENING + plan, "; deliverables are on disk]", Boundary(task).content);
  }

  lemma BoundaryTexts()
    ensures PHASE_OPENING == "[NEW TASK PHASE — prior build plan "
    ensures PHASE_FOCUS == "; deliverables are on disk]" + "\nFocus only on the current request: "
    ensures PHASE_CLOSING == "\nIgnore old completion-review" + " / delegate wrap-up turns above."
  {
  }

  lemma Regrouped(a: string, b: string, c: string, d: string, e: string, f: string)
    ensures a + (b + c) + d + (e + f) == (a + b) + (c + d + e) + f
  {
  }

  lemma PlanFirst(start: string, next: string, text: string)
    requires start + next <= text && next != "" && next[0] == ';'
    ensures start + ";" <= text
  {
    assert start + ";" <= start + next;
  }

  /**
   * A history is left alone exactly if it is empty, or has no completion review and at most 14 turns; otherwise the
   * last 10 turns that are no reviews stay, 8 if reviews were dropped.
   */
  lemma TrimExactly(context: seq<Message>, task: NewTask)
    ensures IsLeftAlone(context) <==>
              context == [] || ((forall m :: m in context && m.role != System ==> !IsReview(m))
                                && |OtherMessages(context)| < 15)
    ensures !IsLeftAlone(context) ==>
              var dropsReviews := exists m :: m in context && m.role != System && IsReview(m);
              |KeptTurns(context)| == Min(|Turns(context)|, if dropsReviews then 8 else 10)
  {
    hide IsReview, Filter;
    ForAllFilter(OtherMessages(context), IsReview);
    ForAllFilter(context, IsNotSystem);
    if m :| m in context && m.role != System && IsReview(m) {
      FilterMember(context, IsNotSystem, m);
      FilterMember(OtherMessages(context), IsReview, m);
    }
    if Reviews(context) != [] {
      var m := Reviews(context)[0];
      assert m in Reviews(context);
    }
  }

  // ----- The injected query, spelled out -----

  /** The messages before `n`, and no more, are leading system messages. */
  predicate LeadsUpTo(context: seq<Message>, n: nat) {
    n <= |context| && (forall i :: 0 <= i < n ==> context[i].role == System)
    && (n < |context| ==> context[n].role != System)
  }

  lemma {:induction false} LeadingExactly(context: seq<Message>)
    ensures LeadsUpTo(context, LeadingSystems(context))
  {
    if context != [] && context[0].role == System {
      LeadingExactly(context[1..]);
      var n := LeadingSystems(context[1..]);
      assert forall i :: 1 <= i < n + 1 ==> context[i] == context[1..][i - 1];
    }
  }

  /** A history without a user gets the request, stripped, or a stand-in, right behind its leading system messages. */
  lemma QueryExactly(context: seq<Message>, userInput: string, n: nat)
    requires LeadsUpTo(context, n)
    ensures WithUserQuery(context, userInput) ==
            if exists i :: 0 <= i < |context| && context[i].role == User then context
            else context[..n] + [UserMessage(if Strip(userInput) == "" then CONTINUE_TEXT else Strip(userInput))]
                 + context[n..]
  {
    hide Strip, LeadingSystems;
    LeadingExactly(context);
    var k := LeadingSystems(context);
    assert k == n;
  }

  // ----- What counts as a review, and what is kept in front -----

  /** Any message but a tool result is a review if it says so anywhere. */
  lemma ReviewExactly(m: Message)
    ensures IsReview(m) <==> m.role != Tool && Contains(m.content, "COMPLETION REVIEW")
  {
    OneMarkerDecides(m.content);
    hide IsReviewText, Contains;
  }

  predicate IsFirstSystem(context: seq<Message>, k: int) {
    0 <= k < |context| && context[k].role == System && forall i :: 0 <= i < k ==> context[i].role != System
  }

  /** Of the system messages, a trimmed history keeps the first, before the boundary. */
  lemma HeadExactly(context: seq<Message>, task: NewTask, k: int)
    requires !IsLeftAlone(context) && IsFirstSystem(context, k)
    ensures SystemMessages(Trimmed(context, task)) == [context[k], Boundary(task)]
  {
    TrimmedParts(context, task);
    hide Filter, IsLeftAlone, Boundary, Trimmed;
    var left, right := context[..k], context[k + 1..];
    assert context == left + ([context[k]] + right);
    NoneLeft(left, IsSystem);
    FilterConcat(left, [context[k]] + right, IsSystem);
    FilterStep(context[k], right, IsSystem);
  }
}
