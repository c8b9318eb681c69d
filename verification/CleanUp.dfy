/** Which histories clean-up turns into whole tool exchanges: sanitize_context of nls/agentic/generator.py. */
module CleanUp {
  import opened Sequences
  import opened Messages
  import opened CutPoint
  import opened Exchanges
  import opened Sanitizer

  // ----- Where results stand -----

  /** The last position before `k` that holds no tool result, or -1. */
  function TurnIndex(c: seq<Message>, k: nat): (q: int)
    requires k <= |c|
    ensures -1 <= q < k && (q >= 0 ==> c[q].role != Tool)
    ensures forall i :: q < i < k ==> c[i].role == Tool
  {
    if k == 0 then -1 else if c[k - 1].role != Tool then k - 1 else TurnIndex(c, k - 1)
  }

  lemma TurnIndexIs(c: seq<Message>, k: nat, q: int)
    requires k <= |c| && -1 <= q < k && (q >= 0 ==> c[q].role != Tool) && forall i :: q < i < k ==> c[i].role == Tool
    ensures TurnIndex(c, k) == q
  {
    var r := TurnIndex(c, k);
    assert r >= 0 ==> c[r].role != Tool;
  }

  predicate IsAttached(c: seq<Message>, k: nat)
    requires k < |c|
  {
    TurnIndex(c, k) >= 0 && AnsweredBy(c[TurnIndex(c, k)], c[k])
  }

  /** Every result stands behind the turn it answers, with only other results in between. */
  predicate Attached(c: seq<Message>) {
    forall k :: 0 <= k < |c| && c[k].role == Tool ==> IsAttached(c, k)
  }

  predicate Issues(m: Message, id: string) {
    IssuesCalls(m) && exists call :: call in m.toolCalls && call.id == id
  }

  /** The turn at `i` has a call that no tool message answers. */
  ghost predicate Lacks(c: seq<Message>, i: int) {
    0 <= i < |c| && exists id :: Issues(c[i], id) && !HasResult(c, id)
  }

  ghost predicate AtMostOneLacks(c: seq<Message>) {
    forall i, j :: Lacks(c, i) && Lacks(c, j) ==> i == j
  }

  /** Call ids are not empty and nowhere issued twice, and no two results carry the same id. */
  ghost predicate IsProper(c: seq<Message>) {
    && (forall i :: 0 <= i < |c| && IssuesCalls(c[i]) ==> DistinctCalls(c[i].toolCalls))
    && (forall i, j, id :: 0 <= i < j < |c| && Issues(c[i], id) ==> !Issues(c[j], id))
    && (forall k :: 0 <= k < |c| && c[k].role == Tool ==> c[k].toolCallId != "")
    && UniqueResultIds(c)
  }

  predicate DistinctCalls(calls: seq<ToolCall>) {
    && (forall x :: 0 <= x < |calls| ==> calls[x].id != "")
    && (forall x, y :: 0 <= x < y < |calls| ==> calls[x].id != calls[y].id)
  }

  // ----- Whole exchanges, position by position -----

  /** In a history of whole exchanges every result is attached. */
  lemma {:induction false} WholeIsAttached(c: seq<Message>, k: nat)
    requires WellFormed(c) && k < |c| && c[k].role == Tool
    ensures IsAttached(c, k)
    decreases |c|
  {
    hide WellFormed;
    FirstExchange(c);
    var n := 1 + CallCount(c[0]);
    var first, rest := c[..n], c[n..];
    if k < n {
      assert first[k] == c[k] && first[0] == c[0];
      assert forall i :: 1 <= i < n ==> c[i] == first[i];
      ResultsAnswer(first, k);
      TurnIndexIs(c, k, 0);
    } else {
      hide IsExchange, AnsweredBy;
      FirstIsNoResult(rest);
      WholeIsAttached(rest, k - n);
      ShiftedTurn(c, n, k - n);
    }
  }

  lemma ShiftedTurn(c: seq<Message>, n: nat, k: nat)
    requires n + k < |c| && TurnIndex(c[n..], k) >= 0
    ensures TurnIndex(c, n + k) == n + TurnIndex(c[n..], k)
    ensures c[n..][k] == c[n + k] && c[n..][TurnIndex(c[n..], k)] == c[TurnIndex(c, n + k)]
  {
    var q := TurnIndex(c[n..], k);
    assert forall i :: q < i < k ==> c[n..][i] == c[n + i];
    assert forall i :: n + q < i < n + k ==> c[i] == c[n..][i - n];
    TurnIndexIs(c, n + k, n + q);
  }

  /** And every call is answered behind its own turn. */
  lemma {:induction false} AnswerBehindTurn(c: seq<Message>, i: nat, id: string) returns (k: nat)
    requires WellFormed(c) && i < |c| && Issues(c[i], id)
    ensures i < k < |c| && c[k].role == Tool && c[k].toolCallId == id && TurnIndex(c, k) == i
    decreases |c|
  {
    hide WellFormed;
    FirstExchange(c);
    var n := 1 + CallCount(c[0]);
    var first, rest := c[..n], c[n..];
    assert forall j :: 0 <= j < n ==> c[j] == first[j];
    if i < n {
      var call :| call in c[i].toolCalls && call.id == id;
      k := AnswerInExchange(first, i, call);
      TurnIndexIs(c, k, 0);
    } else {
      hide IsExchange;
      assert rest[i - n] == c[i];
      var j := AnswerBehindTurn(rest, i - n, id);
      k := n + j;
      ShiftedTurn(c, n, j);
    }
  }

  // ----- Attached results and complete turns make whole exchanges -----

  lemma {:induction false} CountOnce(s: seq<string>, x: string)
    requires NoDuplicates(s)
    ensures multiset(s)[x] == if x in s then 1 else 0
  {
    if s != [] {
      assert s == [s[0]] + s[1..];
      assert x in s[1..] ==> exists i :: 1 <= i < |s| && s[i] == x;
      CountOnce(s[1..], x);
    }
  }

  lemma SameOnce(s: seq<string>, t: seq<string>)
    requires NoDuplicates(s) && NoDuplicates(t) && forall x :: x in s <==> x in t
    ensures multiset(s) == multiset(t) && |s| == |t|
  {
    forall x ensures multiset(s)[x] == multiset(t)[x] {
      CountOnce(s, x);
      CountOnce(t, x);
    }
    assert multiset(s) == multiset(t);
    assert |multiset(s)| == |s|;
  }

  function CalledIds(calls: seq<ToolCall>): (ids: seq<string>)
    ensures |ids| == |calls| && forall i :: 0 <= i < |calls| ==> ids[i] == calls[i].id
  {
    seq(|calls|, i requires 0 <= i < |calls| => calls[i].id)
  }

  function AnsweredIdsOf(results: seq<Message>): (ids: seq<string>)
    ensures |ids| == |results| && forall i :: 0 <= i < |results| ==> ids[i] == results[i].toolCallId
  {
    seq(|results|, i requires 0 <= i < |results| => results[i].toolCallId)
  }

  lemma CalledId(turn: Message, id: string)
    requires IssuesCalls(turn)
    ensures id in CalledIds(turn.toolCalls) <==> Issues(turn, id)
  {
    var calls := turn.toolCalls;
    if id in CalledIds(calls) {
      var i :| 0 <= i < |calls| && calls[i].id == id;
      assert calls[i] in calls;
    }
    if Issues(turn, id) {
      var call :| call in calls && call.id == id;
      var i :| 0 <= i < |calls| && calls[i] == call;
      assert CalledIds(calls)[i] == id;
    }
  }

  lemma AnsweredId(results: seq<Message>, id: string)
    ensures id in AnsweredIdsOf(results) <==> exists k :: 0 <= k < |results| && results[k].toolCallId == id
  {
    if k :| 0 <= k < |results| && results[k].toolCallId == id {
      assert AnsweredIdsOf(results)[k] == id;
    }
  }

  lemma AnswersAll(turn: Message, results: seq<Message>)
    requires IssuesCalls(turn) ==> DistinctCalls(turn.toolCalls)
    requires forall k :: 0 <= k < |results| ==> results[k].role == Tool && Issues(turn, results[k].toolCallId)
    requires forall j, k :: 0 <= j < k < |results| ==> results[j].toolCallId != results[k].toolCallId
    requires forall id :: Issues(turn, id) ==> exists k :: 0 <= k < |results| && results[k].toolCallId == id
    requires turn.role != Tool
    ensures IsExchange([turn] + results)
  {
    assert ([turn] + results)[1..] == results;
    if IssuesCalls(turn) {
      var called, answered := CalledIds(turn.toolCalls), AnsweredIdsOf(results);
      forall id ensures id in called <==> id in answered {
        CalledId(turn, id);
        AnsweredId(results, id);
      }
      SameOnce(called, answered);
    } else {
      assert results == [] by {
        assert |results| > 0 ==> Issues(turn, results[0].toolCallId);
      }
    }
  }

  /** The results right behind the first message. */
  lemma FirstRun(c: seq<Message>) returns (n: nat)
    requires c != []
    ensures n == AfterResults(c, 1) && 1 <= n <= |c|
    ensures forall i :: 1 <= i < n ==> c[i].role == Tool
    ensures n < |c| ==> c[n].role != Tool
  {
    n := AfterResults(c, 1);
    RunOfResults(c, 1);
  }

  lemma {:induction false} RunOfResults(c: seq<Message>, i: nat)
    requires i <= |c|
    ensures forall j :: i <= j < AfterResults(c, i) ==> c[j].role == Tool
    ensures AfterResults(c, i) < |c| ==> c[AfterResults(c, i)].role != Tool
    decreases |c| - i
  {
    if i < |c| && c[i].role == Tool {
      RunOfResults(c, i + 1);
    }
  }

  ghost predicate IsSettled(c: seq<Message>) {
    IsProper(c) && Attached(c) && forall i :: !Lacks(c, i)
  }

  lemma {:induction false} SettledIsWhole(c: seq<Message>)
    requires IsSettled(c)
    ensures WellFormed(c)
    decreases |c|
  {
    if c == [] {
      assert MadeOf([], []);
    } else {
      var n := FirstRun(c);
      var turn, results, rest := c[0], c[1..n], c[n..];
      FirstIsExchange(c, n);
      RestIsSettled(c, n);
      hide *;
      SettledIsWhole(rest);
      SplitAfterFirst(c, n);
      ExchangeInFront([turn] + results, rest);
    }
  }

  /** In a settled history a result with the id of a turn stands behind that turn. */
  lemma ResultOfTurn(c: seq<Message>, i: nat, id: string) returns (k: nat)
    requires IsSettled(c) && i < |c| && Issues(c[i], id)
    ensures i < k < |c| && c[k].role == Tool && c[k].toolCallId == id && TurnIndex(c, k) == i
  {
    assert HasResult(c, id) by {
      assert !Lacks(c, i);
    }
    k :| 0 <= k < |c| && c[k].role == Tool && c[k].toolCallId == id;
    assert IsAttached(c, k);
    assert Issues(c[TurnIndex(c, k)], id);
  }

  lemma StartsWithTurn(c: seq<Message>)
    requires Attached(c) && c != []
    ensures c[0].role != Tool
  {
    assert TurnIndex(c, 0) == -1;
  }

  predicate IsFirstRun(c: seq<Message>, n: nat) {
    1 <= n <= |c| && (forall i :: 1 <= i < n ==> c[i].role == Tool) && (n < |c| ==> c[n].role != Tool)
  }

  lemma FirstRunAnswers(c: seq<Message>, n: nat, k: nat)
    requires Attached(c) && IsFirstRun(c, n) && 1 <= k < n && c[0].role != Tool
    ensures Issues(c[0], c[k].toolCallId)
  {
    TurnIndexIs(c, k, 0);
    assert IsAttached(c, k);
  }

  lemma AnsweredInFirstRun(c: seq<Message>, n: nat, id: string) returns (k: nat)
    requires IsSettled(c) && IsFirstRun(c, n) && Issues(c[0], id)
    ensures 1 <= k < n && c[k].toolCallId == id
  {
    k := ResultOfTurn(c, 0, id);
    hide IsSettled, Issues;
    assert n < |c| ==> c[n].role != Tool;
  }

  lemma FirstTurn(c: seq<Message>)
    requires IsSettled(c) && c != []
    ensures c[0].role != Tool && (IssuesCalls(c[0]) ==> DistinctCalls(c[0].toolCalls))
  {
    SettledParts(c);
    hide IsSettled, DistinctCalls;
    StartsWithTurn(c);
  }

  lemma FirstResultsAnswer(c: seq<Message>, n: nat)
    requires Attached(c) && IsFirstRun(c, n) && c[0].role != Tool
    ensures forall k :: 0 <= k < |c[1..n]| ==> c[1..n][k].role == Tool && Issues(c[0], c[1..n][k].toolCallId)
  {
    hide Issues, Attached;
    var results := c[1..n];
    forall k | 0 <= k < |results| ensures results[k].role == Tool && Issues(c[0], results[k].toolCallId) {
      FirstRunAnswers(c, n, k + 1);
      assert results[k] == c[k + 1];
    }
  }

  lemma FirstResultsDiffer(c: seq<Message>, n: nat)
    requires UniqueResultIds(c) && IsFirstRun(c, n)
    ensures forall j, k :: 0 <= j < k < |c[1..n]| ==> c[1..n][j].toolCallId != c[1..n][k].toolCallId
  {
    var results := c[1..n];
    forall j, k | 0 <= j < k < |results| ensures results[j].toolCallId != results[k].toolCallId {
      assert c[j + 1] == results[j] && c[k + 1] == results[k];
    }
  }

  lemma FirstCallsAnswered(c: seq<Message>, n: nat)
    requires IsSettled(c) && IsFirstRun(c, n)
    ensures forall id :: Issues(c[0], id) ==> exists k :: 0 <= k < |c[1..n]| && c[1..n][k].toolCallId == id
  {
    hide Issues, IsSettled;
    var results := c[1..n];
    forall id | Issues(c[0], id) ensures exists k :: 0 <= k < |results| && results[k].toolCallId == id {
      var k := AnsweredInFirstRun(c, n, id);
      assert results[k - 1] == c[k];
    }
  }

  lemma FirstIsExchange(c: seq<Message>, n: nat)
    requires IsSettled(c) && IsFirstRun(c, n)
    ensures IsExchange([c[0]] + c[1..n])
  {
    SettledParts(c);
    UniqueIn(c);
    hide *;
    FirstTurn(c);
    FirstResultsAnswer(c, n);
    FirstResultsDiffer(c, n);
    FirstCallsAnswered(c, n);
    AnswersAll(c[0], c[1..n]);
  }

  lemma UniqueIn(c: seq<Message>)
    requires IsProper(c)
    ensures UniqueResultIds(c)
  {
  }

  lemma RestIsSettled(c: seq<Message>, n: nat)
    requires IsSettled(c) && 1 <= n <= |c| && (n < |c| ==> c[n].role != Tool)
    ensures IsSettled(c[n..])
  {
    hide IsSettled;
    SettledParts(c);
    var rest := c[n..];
    assert forall i :: 0 <= i < |rest| ==> rest[i] == c[n + i];
    RestIsProper(c, n);
    forall k | 0 <= k < |rest| && rest[k].role == Tool ensures IsAttached(rest, k) {
      assert IsAttached(c, n + k);
      assert rest[0].role != Tool;
      ShiftedTurn(c, n, k);
    }
    forall i ensures !Lacks(rest, i) {
      if 0 <= i < |rest| {
        forall id | Issues(rest[i], id) ensures HasResult(rest, id) {
          var k := ResultOfTurn(c, n + i, id);
          assert rest[k - n] == c[k];
        }
      }
    }
    assert IsSettled(rest) by { SettledFrom(rest); }
  }

  lemma SettledParts(c: seq<Message>)
    requires IsSettled(c)
    ensures IsProper(c) && Attached(c) && forall i :: !Lacks(c, i)
  {
  }

  lemma SettledFrom(c: seq<Message>)
    requires IsProper(c) && Attached(c) && forall i :: !Lacks(c, i)
    ensures IsSettled(c)
  {
  }

  lemma RestIsProper(c: seq<Message>, n: nat)
    requires IsProper(c) && n <= |c|
    ensures IsProper(c[n..])
  {
    hide Issues, DistinctCalls;
    var rest := c[n..];
    assert forall i :: 0 <= i < |rest| ==> rest[i] == c[n + i];
    forall i, j, id | 0 <= i < j < |rest| && Issues(rest[i], id) ensures !Issues(rest[j], id) {
      assert Issues(c[n + i], id);
    }
  }

  // ----- Placeholders -----

  /** The history with placeholders for `orphans` put in at one position. */
  function Filled(c: seq<Message>, orphans: seq<string>, at: nat): seq<Message>
    requires at <= |c|
  {
    c[..at] + Placeholders(orphans) + c[at..]
  }

  lemma {:induction false} PlaceholderAt(orphans: seq<string>, x: nat)
    requires x < |orphans|
    ensures |Placeholders(orphans)| == |orphans|
    ensures Placeholders(orphans)[x] == Message(Tool, "[No result captured]", [], orphans[x])
  {
    if x > 0 {
      PlaceholderAt(orphans[1..], x - 1);
    } else if |orphans| > 1 {
      PlaceholderAt(orphans[1..], 0);
    } else {
      assert Placeholders(orphans[1..]) == [];
    }
  }

  /** Where each message of the filled history comes from. */
  lemma FilledAt(c: seq<Message>, orphans: seq<string>, at: nat)
    requires at <= |c|
    ensures var w, n := Filled(c, orphans, at), |orphans|;
            && |w| == |c| + n
            && (forall k :: 0 <= k < at ==> w[k] == c[k])
            && (forall j :: at <= j < at + n ==> w[j] == Message(Tool, "[No result captured]", [], orphans[j - at]))
            && (forall j :: at + n <= j < |w| ==> w[j] == c[j - n])
  {
    forall x | 0 <= x < |orphans|
      ensures |Placeholders(orphans)| == |orphans|
      ensures Placeholders(orphans)[x] == Message(Tool, "[No result captured]", [], orphans[x])
    {
      PlaceholderAt(orphans, x);
    }
    if orphans == [] {
      assert Placeholders(orphans) == [];
    }
  }

  /** Taking the placeholders out again leaves every result where it was: behind the same turn. */
  lemma FilledTurns(c: seq<Message>, orphans: seq<string>, at: nat, k: nat)
    requires at <= |c| && k < |c|
    ensures var w, n := Filled(c, orphans, at), |orphans|;
            && (k < at ==> k < |w| && TurnIndex(w, k) == TurnIndex(c, k))
            && (at <= k ==> k + n < |w| && TurnIndex(w, k + n)
                            == if TurnIndex(c, k) >= at then TurnIndex(c, k) + n else TurnIndex(c, k))
  {
    FilledAt(c, orphans, at);
    var w, n := Filled(c, orphans, at), |orphans|;
    hide Filled;
    var q := TurnIndex(c, k);
    if k < at {
      TurnIndexIs(w, k, q);
    } else {
      assert forall j :: at <= j < at + n ==> w[j].role == Tool;
      TurnIndexIs(w, k + n, if q >= at then q + n else q);
    }
  }

  /** The ids that clean-up finds unanswered. */
  function Orphans(c: seq<Message>): seq<string> {
    OrphanIds(ExpectedIds(c), c)
  }

  lemma {:induction false} ExpectedIssued(c: seq<Message>, id: string)
    requires id in ExpectedIds(c)
    ensures id != "" && exists i :: 0 <= i < |c| && Issues(c[i], id)
  {
    var ids := if c[0].role == Assistant then CallIds(c[0].toolCalls) else [];
    if id in ids {
      CallIdIssued(c[0].toolCalls, id);
      assert Issues(c[0], id);
    } else {
      ExpectedIssued(c[1..], id);
      var i :| 0 <= i < |c[1..]| && Issues(c[1..][i], id);
      assert Issues(c[i + 1], id);
    }
  }

  lemma {:induction false} CallIdIssued(calls: seq<ToolCall>, id: string)
    requires id in CallIds(calls)
    ensures id != "" && exists call :: call in calls && call.id == id
  {
    if calls[0].id == id && id != "" {
      assert calls[0] in calls;
    } else {
      CallIdIssued(calls[1..], id);
    }
  }

  lemma {:induction false} OrphansOnce(ids: seq<string>, c: seq<Message>)
    ensures NoDuplicates(OrphanIds(ids, c))
    decreases |ids|
  {
    if ids != [] {
      var rest := Filter(ids[1..], other => other != ids[0]);
      OrphansOnce(rest, c);
      OrphanMember(rest, c, ids[0]);
      FilterMember(ids[1..], other => other != ids[0], ids[0]);
    }
  }

  /** Exactly the ids that some turn issues and no result carries, each once. */
  lemma OrphansAre(c: seq<Message>)
    requires IsProper(c)
    ensures NoDuplicates(Orphans(c))
    ensures forall id :: id in Orphans(c) <==>
              id != "" && (exists i :: 0 <= i < |c| && Issues(c[i], id)) && !HasResult(c, id)
  {
    OrphansOnce(ExpectedIds(c), c);
    forall id
      ensures id in Orphans(c) <==> id != "" && (exists i :: 0 <= i < |c| && Issues(c[i], id)) && !HasResult(c, id)
    {
      OrphanMember(ExpectedIds(c), c, id);
      if id in ExpectedIds(c) {
        ExpectedIssued(c, id);
      }
      if i :| id != "" && 0 <= i < |c| && Issues(c[i], id) {
        var call :| call in c[i].toolCalls && call.id == id;
        ExpectedMember(c, i, call);
      }
    }
  }

  /** Placeholders go behind the results of the last turn with an orphan. */
  lemma {:induction false} PlaceIsBehind(c: seq<Message>, orphans: seq<string>, i: nat, q: nat, id: string)
      returns (p: nat)
    requires q < i <= |c| && id in orphans && Issues(c[q], id)
    requires forall j, x :: i <= j < |c| && x in orphans ==> !Issues(c[j], x)
    ensures q <= p < i && (exists x :: x in orphans && Issues(c[p], x))
    ensures forall j, x :: p < j < |c| && x in orphans ==> !Issues(c[j], x)
    ensures PlaceholderIndex(c, orphans, i) == AfterResults(c, p + 1)
  {
    var m := c[i - 1];
    if m.role == Assistant && exists call :: call in m.toolCalls && call.id in orphans {
      p := i - 1;
      var call :| call in m.toolCalls && call.id in orphans;
      assert Issues(c[p], call.id);
    } else {
      assert forall x :: x in orphans ==> !Issues(m, x);
      p := PlaceIsBehind(c, orphans, i - 1, q, id);
    }
  }

  // ----- One turn without all its results is completed -----

  lemma FilledIsProper(c: seq<Message>, orphans: seq<string>, at: nat)
    requires IsProper(c) && at <= |c| && NoDuplicates(orphans) && "" !in orphans
    requires forall id :: id in orphans ==> !HasResult(c, id)
    ensures IsProper(Filled(c, orphans, at))
  {
    FilledAt(c, orphans, at);
    var w, n := Filled(c, orphans, at), |orphans|;
    hide Filled, HasResult, DistinctCalls;
    forall i, j, id | 0 <= i < j < |w| && Issues(w[i], id) ensures !Issues(w[j], id) {
      var i', j' := if i < at then i else i - n, if j < at then j else j - n;
      assert !(at <= i < at + n) && Issues(c[i'], id);
    }
    forall i, j | 0 <= i < j < |w| && w[i].role == Tool && w[j].role == Tool
      ensures w[i].toolCallId != w[j].toolCallId
    {
      FilledResultsDiffer(c, orphans, at, w, i, j);
    }
  }

  lemma FilledResultsDiffer(c: seq<Message>, orphans: seq<string>, at: nat, w: seq<Message>, i: nat, j: nat)
    requires UniqueResultIds(c) && at <= |c| && NoDuplicates(orphans)
    requires forall id :: id in orphans ==> !HasResult(c, id)
    requires |w| == |c| + |orphans| && (forall k :: 0 <= k < at ==> w[k] == c[k])
    requires forall j :: at <= j < at + |orphans| ==> w[j] == Message(Tool, "[No result captured]", [], orphans[j - at])
    requires forall j :: at + |orphans| <= j < |w| ==> w[j] == c[j - |orphans|]
    requires i < j < |w| && w[i].role == Tool && w[j].role == Tool
    ensures w[i].toolCallId != w[j].toolCallId
  {
    var n := |orphans|;
    var inI, inJ := at <= i < at + n, at <= j < at + n;
    if inI && !inJ {
      assert orphans[i - at] in orphans && !HasResult(c, orphans[i - at]);
    } else if inJ && !inI {
      assert orphans[j - at] in orphans && !HasResult(c, orphans[j - at]);
    }
  }

  lemma FilledIsSettled(c: seq<Message>, p: nat, at: nat)
    requires IsProper(c) && Attached(c) && AtMostOneLacks(c)
    requires Orphans(c) != [] && p < |c| && at == AfterResults(c, p + 1)
               && exists x :: x in Orphans(c) && Issues(c[p], x)
    ensures IsSettled(Filled(c, Orphans(c), at))
  {
    var orphans := Orphans(c);
    OrphansAre(c);
    RunOfResults(c, p + 1);
    hide Orphans, IsProper, Attached, AtMostOneLacks;
    FilledIsProper(c, orphans, at) by { assert "" !in orphans; }
    var w := Filled(c, orphans, at);
    FilledIsAttached(c, orphans, p, at);
    FilledLacksNothing(c, orphans, at);
    SettledFrom(w);
  }

  lemma FilledIsAttached(c: seq<Message>, orphans: seq<string>, p: nat, at: nat)
    requires Attached(c) && AtMostOneLacks(c) && p < at <= |c| && (exists x :: x in orphans && Issues(c[p], x))
    requires forall id :: id in orphans ==> (exists i :: 0 <= i < |c| && Issues(c[i], id)) && !HasResult(c, id)
    requires (forall j :: p < j < at ==> c[j].role == Tool) && (at < |c| ==> c[at].role != Tool)
    ensures Attached(Filled(c, orphans, at))
  {
    FilledAt(c, orphans, at);
    var w, n := Filled(c, orphans, at), |orphans|;
    hide Filled, HasResult;
    forall k | 0 <= k < |w| && w[k].role == Tool ensures IsAttached(w, k) {
      if at <= k < at + n {
        OrphanOfTurn(c, orphans, p, orphans[k - at]);
        TurnIndexIs(w, k, p);
      } else {
        hide AnsweredBy, TurnIndex, AtMostOneLacks;
        StaysAttached(c, orphans, at, w, k);
      }
    }
  }

  /** A result that is no placeholder is attached in the filled history exactly if it was before. */
  lemma StaysAttached(c: seq<Message>, orphans: seq<string>, at: nat, w: seq<Message>, k: nat)
    requires at <= |c| && w == Filled(c, orphans, at) && k < |w| && !(at <= k < at + |orphans|)
    ensures var k' := if k < at then k else k - |orphans|;
            k' < |c| && w[k] == c[k'] && (IsAttached(w, k) <==> IsAttached(c, k'))
  {
    FilledAt(c, orphans, at);
    var k' := if k < at then k else k - |orphans|;
    FilledTurns(c, orphans, at, k');
    hide Filled, AnsweredBy, TurnIndex;
  }

  /** With one turn lacking results, all orphans are its own. */
  lemma OrphanOfTurn(c: seq<Message>, orphans: seq<string>, p: nat, id: string)
    requires AtMostOneLacks(c) && p < |c| && (exists x :: x in orphans && Issues(c[p], x)) && id in orphans
    requires forall x :: x in orphans ==> (exists i :: 0 <= i < |c| && Issues(c[i], x)) && !HasResult(c, x)
    ensures Issues(c[p], id)
  {
    var x :| x in orphans && Issues(c[p], x);
    assert Lacks(c, p);
    var i :| 0 <= i < |c| && Issues(c[i], id);
    assert Lacks(c, i);
  }

  lemma FilledLacksNothing(c: seq<Message>, orphans: seq<string>, at: nat)
    requires at <= |c|
    requires forall i, id :: 0 <= i < |c| && Issues(c[i], id) && !HasResult(c, id) ==> id in orphans
    ensures forall i :: !Lacks(Filled(c, orphans, at), i)
  {
    FilledAt(c, orphans, at);
    var w, n := Filled(c, orphans, at), |orphans|;
    hide Filled;
    forall i, id | 0 <= i < |w| && Issues(w[i], id) ensures HasResult(w, id) {
      var i' := if i < at then i else i - n;
      assert Issues(c[i'], id);
      if HasResult(c, id) {
        var k :| 0 <= k < |c| && c[k].role == Tool && c[k].toolCallId == id;
        assert w[if k < at then k else k + n] == c[k];
      } else {
        var x :| 0 <= x < n && orphans[x] == id;
        assert w[at + x].toolCallId == id;
      }
    }
  }

  // ----- And nothing else is completed -----

  lemma FilledWholeWasAttached(c: seq<Message>, orphans: seq<string>, at: nat)
    requires at <= |c| && WellFormed(Filled(c, orphans, at))
    ensures Attached(c)
  {
    FilledAt(c, orphans, at);
    var w, n := Filled(c, orphans, at), |orphans|;
    hide Filled, IsAttached, WellFormed;
    forall k' | 0 <= k' < |c| && c[k'].role == Tool ensures IsAttached(c, k') {
      var k := if k' < at then k' else k' + n;
      assert w[k] == c[k'];
      WholeIsAttached(w, k);
      StaysAttached(c, orphans, at, w, k) by { assert w == Filled(c, orphans, at); }
    }
  }

  /** A turn in front of another whose results are missing too does not get its placeholder. */
  lemma EarlierTurnStaysIncomplete(c: seq<Message>, orphans: seq<string>, at: nat, i: nat, j: nat, id: string)
    requires at <= |c| && i < j < at && c[j].role != Tool && Issues(c[i], id) && !HasResult(c, id)
    ensures !WellFormed(Filled(c, orphans, at))
  {
    FilledAt(c, orphans, at);
    var w := Filled(c, orphans, at);
    hide Filled, WellFormed;
    assert w[j] == c[j] && w[i] == c[i];
    if WellFormed(w) {
      var k := AnswerBehindTurn(w, i, id);
    }
  }

  lemma FilledWholeHadOneGap(c: seq<Message>, at: nat, p: nat)
    requires IsProper(c) && p < at <= |c| && WellFormed(Filled(c, Orphans(c), at))
    requires forall j, x :: p < j < |c| && x in Orphans(c) ==> !Issues(c[j], x)
    ensures AtMostOneLacks(c)
  {
    var orphans := Orphans(c);
    OrphansAre(c);
    hide Filled, WellFormed, Orphans;
    forall i, j | Lacks(c, i) && Lacks(c, j) && i < j ensures false {
      var x :| Issues(c[i], x) && !HasResult(c, x);
      var y :| Issues(c[j], y) && !HasResult(c, y);
      LacksMeansOrphan(c, j, y);
      assert j <= p;
      EarlierTurnStaysIncomplete(c, orphans, at, i, j, x);
    }
  }

  lemma LacksMeansOrphan(c: seq<Message>, i: nat, id: string)
    requires IsProper(c) && i < |c| && Issues(c[i], id) && !HasResult(c, id)
    ensures id in Orphans(c)
  {
    OrphansAre(c);
    hide Orphans;
    var call :| call in c[i].toolCalls && call.id == id;
    assert id != "";
  }

  lemma CompleteHasNoOrphans(c: seq<Message>)
    requires IsProper(c)
    ensures Orphans(c) == [] <==> forall i :: !Lacks(c, i)
  {
    OrphansAre(c);
    hide Orphans;
    if Orphans(c) != [] {
      var id := Orphans(c)[0];
      assert id in Orphans(c);
      var i :| 0 <= i < |c| && Issues(c[i], id);
      assert Lacks(c, i);
    }
    if i :| Lacks(c, i) {
      var id :| Issues(c[i], id) && !HasResult(c, id);
      LacksMeansOrphan(c, i, id);
    }
  }

  /** Placeholders make a history whole exactly if its results are attached and at most one turn lacks some. */
  lemma PlaceholdersComplete(c: seq<Message>)
    requires IsProper(c)
    ensures WellFormed(WithPlaceholders(c)) <==> Attached(c) && AtMostOneLacks(c)
  {
    var orphans := Orphans(c);
    CompleteHasNoOrphans(c);
    hide IsProper, WellFormed, Attached, Lacks;
    if orphans == [] {
      assert WithPlaceholders(c) == c;
      if WellFormed(c) {
        AllAttached(c);
      }
      if Attached(c) {
        SettledFrom(c);
        SettledIsWhole(c);
      }
    } else {
      OrphansAre(c);
      assert orphans[0] in orphans;
      var q :| 0 <= q < |c| && Issues(c[q], orphans[0]);
      var p := PlaceIsBehind(c, orphans, |c|, q, orphans[0]);
      RunOfResults(c, p + 1);
      var at := AfterResults(c, p + 1);
      assert WithPlaceholders(c) == Filled(c, orphans, at);
      hide WithPlaceholders, Filled, Orphans, AtMostOneLacks;
      if WellFormed(Filled(c, orphans, at)) {
        FilledWholeWasAttached(c, orphans, at);
        FilledWholeHadOneGap(c, at, p);
      }
      if Attached(c) && AtMostOneLacks(c) {
        FilledIsSettled(c, p, at);
        SettledIsWhole(Filled(c, orphans, at));
      }
    }
  }

  lemma AllAttached(c: seq<Message>)
    requires WellFormed(c)
    ensures Attached(c)
  {
    hide WellFormed, IsAttached;
    forall k | 0 <= k < |c| && c[k].role == Tool ensures IsAttached(c, k) {
      WholeIsAttached(c, k);
    }
  }

  // ----- The whole of clean-up -----

  /** Clean-up rewrites bodies and arguments; roles and ids stay. */
  predicate SameShape(m: Message, n: Message) {
    && m.role == n.role && m.toolCallId == n.toolCallId && |m.toolCalls| == |n.toolCalls|
    && forall x :: 0 <= x < |m.toolCalls| ==> m.toolCalls[x].id == n.toolCalls[x].id
  }

  predicate SameShapes(c: seq<Message>, d: seq<Message>) {
    |c| == |d| && forall i :: 0 <= i < |c| ==> SameShape(c[i], d[i])
  }

  lemma ShapeIssues(m: Message, n: Message, id: string)
    requires SameShape(m, n)
    ensures Issues(m, id) <==> Issues(n, id)
    ensures IssuesCalls(m) <==> IssuesCalls(n)
    ensures DistinctCalls(m.toolCalls) <==> DistinctCalls(n.toolCalls)
  {
    assert (exists call :: call in m.toolCalls && call.id == id) <==>
        exists x :: 0 <= x < |m.toolCalls| && m.toolCalls[x].id == id;
    assert (exists call :: call in n.toolCalls && call.id == id) <==>
        exists x :: 0 <= x < |n.toolCalls| && n.toolCalls[x].id == id;
  }

  lemma {:induction false} RepairCallsShape(calls: seq<ToolCall>, repair: Repair)
    ensures |RepairCalls(calls, repair)| == |calls|
    ensures forall x :: 0 <= x < |calls| ==> RepairCalls(calls, repair)[x].id == calls[x].id
  {
    if calls != [] {
      RepairCallsShape(calls[1..], repair);
    }
  }

  lemma RepairKeepsShapes(c: seq<Message>, repair: Repair)
    requires forall k :: 0 <= k < |c| && c[k].role == Tool ==> c[k].toolCallId != ""
    ensures SameShapes(c, RepairAll(c, repair))
  {
    forall i | 0 <= i < |c| ensures SameShape(c[i], RepairAll(c, repair)[i]) {
      RepairAllAt(c, repair, i);
      RepairCallsShape(c[i].toolCalls, repair);
    }
  }

  lemma ShapesKeepIds(c: seq<Message>, d: seq<Message>)
    requires SameShapes(c, d)
    ensures IsProper(c) ==> IsProper(d)
    ensures forall id :: HasResult(c, id) <==> HasResult(d, id)
    ensures forall i, id :: 0 <= i < |c| ==> (Issues(c[i], id) <==> Issues(d[i], id))
    ensures AtMostOneLacks(c) <==> AtMostOneLacks(d)
  {
    forall i, id | 0 <= i < |c|
      ensures Issues(c[i], id) <==> Issues(d[i], id)
      ensures IssuesCalls(c[i]) <==> IssuesCalls(d[i])
      ensures DistinctCalls(c[i].toolCalls) <==> DistinctCalls(d[i].toolCalls)
    {
      ShapeIssues(c[i], d[i], id);
    }
    hide Issues, DistinctCalls;
    forall id ensures HasResult(c, id) <==> HasResult(d, id) {
    }
    forall i ensures Lacks(c, i) <==> Lacks(d, i) {
    }
  }

  lemma ShapesKeepAttached(c: seq<Message>, d: seq<Message>)
    requires SameShapes(c, d)
    ensures Attached(c) <==> Attached(d)
  {
    forall k | 0 <= k < |c| ensures IsAttached(c, k) <==> IsAttached(d, k) {
      TurnIndexIs(d, k, TurnIndex(c, k));
      if TurnIndex(c, k) >= 0 {
        ShapeIssues(c[TurnIndex(c, k)], d[TurnIndex(c, k)], c[k].toolCallId);
      }
      hide TurnIndex;
      assert SameShape(c[k], d[k]);
    }
    hide IsAttached;
    assert forall k :: 0 <= k < |c| ==> c[k].role == d[k].role;
  }

  lemma {:induction false} FilterPositions(s: seq<Message>, keep: Message -> bool, i: nat, j: nat)
      returns (p: nat, q: nat)
    requires i < j < |Filter(s, keep)|
    ensures p < q < |s| && s[p] == Filter(s, keep)[i] && s[q] == Filter(s, keep)[j]
  {
    if !keep(s[0]) {
      var a, b := FilterPositions(s[1..], keep, i, j);
      p, q := a + 1, b + 1;
    } else if i > 0 {
      var a, b := FilterPositions(s[1..], keep, i - 1, j - 1);
      p, q := a + 1, b + 1;
    } else {
      p := 0;
      var m := Filter(s, keep)[j];
      assert m == Filter(s[1..], keep)[j - 1];
      FilterMember(s[1..], keep, m);
      var b :| 0 <= b < |s[1..]| && s[1..][b] == m;
      q := b + 1;
    }
  }

  lemma FilterIsProper(s: seq<Message>, keep: Message -> bool)
    requires IsProper(s)
    ensures IsProper(Filter(s, keep))
  {
    hide Issues, DistinctCalls, Filter;
    var f := Filter(s, keep);
    forall k | 0 <= k < |f| ensures f[k] in s { FilterMember(s, keep, f[k]); }
    forall i, j, id | 0 <= i < j < |f| && Issues(f[i], id) ensures !Issues(f[j], id) {
      var p, q := FilterPositions(s, keep, i, j);
    }
    forall i, j | 0 <= i < j < |f| && f[i].role == Tool && f[j].role == Tool
      ensures f[i].toolCallId != f[j].toolCallId
    {
      var p, q := FilterPositions(s, keep, i, j);
    }
  }

  lemma WithoutFirstIsProper(head: Message, c: seq<Message>)
    requires IsProper([head] + c)
    ensures IsProper(c)
  {
    hide IsProper;
    RestIsProper([head] + c, 1);
    assert ([head] + c)[1..] == c;
  }

  lemma PlainInFront(head: Message, c: seq<Message>)
    requires IsPlain(head) && IsProper(c)
    ensures IsProper([head] + c)
  {
    hide DistinctCalls;
    var all := [head] + c;
    assert forall i :: 1 <= i < |all| ==> all[i] == c[i - 1];
    assert forall id :: !Issues(head, id);
    hide Issues;
    forall i, j, id | 0 <= i < j < |all| && Issues(all[i], id) ensures !Issues(all[j], id) {
      assert Issues(c[i - 1], id);
    }
  }

  lemma AbsorbingIsProper(head: Message, first: Message, rest: seq<Message>)
    requires IsProper([first] + rest) && IsPlain(head)
    ensures IsProper([head] + OtherMessages(rest))
  {
    hide IsProper, Filter;
    WithoutFirstIsProper(first, rest);
    FilterIsProper(rest, IsNotSystem);
    PlainInFront(head, OtherMessages(rest));
  }

  lemma ReplacedKeepsShapes(c: seq<Message>, i: nat, m: Message)
    requires i < |c| && SameShape(c[i], m)
    ensures SameShapes(c, c[i := m])
  {
  }

  lemma WithPartsShape(m: Message, extra: seq<string>)
    requires m.role == System
    ensures SameShape(m, WithParts(m, extra)) && IsPlain(WithParts(m, extra))
  {
  }

  lemma ConsolidatedIsProper(context: seq<Message>)
    requires IsProper(context)
    ensures IsProper(Consolidated(context))
  {
    hide IsProper, OtherMessages, SystemParts, FirstSystem, WithParts, SameShape, SameShapes, IsPlain;
    var first := FirstSystem(context);
    if first < |context| {
      var extra := SystemParts(context[first + 1..]);
      WithPartsShape(context[first], extra);
      if first == 0 {
        assert context == [context[0]] + context[1..];
        AbsorbingIsProper(WithParts(context[0], extra), context[0], context[1..]);
      } else {
        var merged := context[first := WithParts(context[first], extra)];
        ReplacedKeepsShapes(context, first, WithParts(context[first], extra));
        ShapesKeepIds(context, merged);
      }
    }
  }

  /**
   * Clean-up leaves whole exchanges exactly if, system messages merged, every result stands behind the turn it answers
   * and at most one turn lacks results: the placeholders for several all go behind the last of them.
   */
  lemma CleanedIsWhole(context: seq<Message>, repair: Repair)
    requires IsProper(context)
    ensures WellFormed(Sanitized(context, repair)) <==>
              Attached(Consolidated(context)) && AtMostOneLacks(Consolidated(context))
  {
    ConsolidatedIsProper(context);
    var c := Consolidated(context);
    ProperResults(c);
    RepairKeepsShapes(c, repair);
    hide IsProper, WellFormed, Attached, Consolidated, RepairAll, AtMostOneLacks, WithPlaceholders, SameShapes;
    ShapesKeepIds(c, RepairAll(c, repair));
    ShapesKeepAttached(c, RepairAll(c, repair));
    PlaceholdersComplete(RepairAll(c, repair));
  }

  lemma ProperResults(c: seq<Message>)
    requires IsProper(c)
    ensures forall k :: 0 <= k < |c| && c[k].role == Tool ==> c[k].toolCallId != ""
  {
  }

  /**
   * It happens: of two turns without results only the last gets placeholders behind it, those of the first among them.
   */
  lemma TwoGapsStay(repair: Repair)
    ensures var a, b := ToolCall("a", "read", ""), ToolCall("b", "read", "");
            !WellFormed(Sanitized([Message(Assistant, "", [a], ""), Message(Assistant, "", [b], "")], repair))
  {
    var a, b := ToolCall("a", "read", ""), ToolCall("b", "read", "");
    var context := [Message(Assistant, "", [a], ""), Message(Assistant, "", [b], "")];
    assert a in context[0].toolCalls && Issues(context[0], "a");
    assert b in context[1].toolCalls && Issues(context[1], "b");
    assert Lacks(context, 0) && Lacks(context, 1);
    NoSystemFirst(context);
    hide Lacks, WellFormed, Sanitized;
    CleanedIsWhole(context, repair);
  }

  lemma NoSystemFirst(context: seq<Message>)
    requires forall i :: 0 <= i < |context| ==> context[i].role != System
    ensures Consolidated(context) == context
  {
  }
}
