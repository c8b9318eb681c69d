/** Which parts of a history clean-up turns into whole exchanges again: nls/agentic/generator.py on kept messages. */
module KeptExchanges {
  import opened Sequences
  import opened Messages
  import opened CutPoint
  import opened Exchanges
  import opened Sanitizer
  import opened CleanUp

  // ----- Positions of kept messages -----

  /** How many messages before the one at `k` are kept. */
  function Rank(flags: seq<bool>, k: nat): (r: nat)
    requires k <= |flags|
  {
    if k == 0 then 0 else (if flags[0] then 1 else 0) + Rank(flags[1..], k - 1)
  }

  lemma {:induction false} RankGrows(flags: seq<bool>, j: nat, k: nat)
    requires j <= k <= |flags|
    ensures Rank(flags, j) <= Rank(flags, k)
    ensures j < k && flags[j] ==> Rank(flags, j) < Rank(flags, k)
  {
    if j > 0 {
      RankGrows(flags[1..], j - 1, k - 1);
    }
  }

  lemma {:induction false} KeptAt(messages: seq<Message>, flags: seq<bool>, k: nat)
    requires |flags| == |messages| && k < |messages| && flags[k]
    ensures Rank(flags, k) < |Selected(messages, flags)| && Selected(messages, flags)[Rank(flags, k)] == messages[k]
  {
    if k > 0 {
      KeptAt(messages[1..], flags[1..], k - 1);
    }
  }

  lemma {:induction false} KeptFrom(messages: seq<Message>, flags: seq<bool>, i: nat) returns (k: nat)
    requires |flags| == |messages| && i < |Selected(messages, flags)|
    ensures k < |messages| && flags[k] && Rank(flags, k) == i && Selected(messages, flags)[i] == messages[k]
  {
    if flags[0] && i == 0 {
      k := 0;
    } else {
      var j := KeptFrom(messages[1..], flags[1..], if flags[0] then i - 1 else i);
      k := j + 1;
    }
  }

  lemma KeptInOrder(messages: seq<Message>, flags: seq<bool>, i: nat, j: nat) returns (p: nat, q: nat)
    requires |flags| == |messages| && i < j < |Selected(messages, flags)|
    ensures p < q < |messages| && Selected(messages, flags)[i] == messages[p]
              && Selected(messages, flags)[j] == messages[q]
  {
    p := KeptFrom(messages, flags, i);
    q := KeptFrom(messages, flags, j);
    if q <= p {
      RankGrows(flags, q, p);
    }
  }

  lemma SelectedIsProper(messages: seq<Message>, flags: seq<bool>)
    requires IsProper(messages) && |flags| == |messages|
    ensures IsProper(Selected(messages, flags))
  {
    hide Selected, Issues, DistinctCalls;
    var kept := Selected(messages, flags);
    forall i | 0 <= i < |kept| ensures kept[i] in messages {
      var k := KeptFrom(messages, flags, i);
    }
    forall i, j, id | 0 <= i < j < |kept| && Issues(kept[i], id) ensures !Issues(kept[j], id) {
      var p, q := KeptInOrder(messages, flags, i, j);
    }
    forall i, j | 0 <= i < j < |kept| && kept[i].role == Tool && kept[j].role == Tool
      ensures kept[i].toolCallId != kept[j].toolCallId
    {
      var p, q := KeptInOrder(messages, flags, i, j);
    }
  }

  lemma {:induction false} PlainFrontIsProper(front: seq<Message>, s: seq<Message>)
    requires AllPlain(front) && IsProper(s)
    ensures IsProper(front + s)
  {
    if front == [] {
      assert front + s == s;
    } else {
      hide IsProper, IsPlain;
      PlainFrontIsProper(front[1..], s);
      PlainInFront(front[0], front[1..] + s);
      assert front + s == [front[0]] + (front[1..] + s);
    }
  }

  // ----- Attached results -----

  /** The turn of every kept result is kept. */
  predicate TurnsFollow(messages: seq<Message>, flags: seq<bool>)
    requires |flags| == |messages|
  {
    forall i, k :: 0 <= i < |messages| && 0 <= k < |messages| && AnsweredBy(messages[i], messages[k]) && flags[k] ==>
      flags[i]
  }

  lemma PlainFrontAttached(front: seq<Message>, s: seq<Message>)
    requires AllPlain(front)
    ensures Attached(front + s) <==> Attached(s)
  {
    hide IsAttached;
    var all, n := front + s, |front|;
    assert forall j :: 0 <= j < n ==> all[j] == front[j];
    if Attached(s) {
      forall j | 0 <= j < |all| && all[j].role == Tool ensures IsAttached(all, j) {
        assert all[j] == s[j - n];
        BehindPlain(front, s, j - n);
      }
    }
    if Attached(all) {
      forall k | 0 <= k < |s| && s[k].role == Tool ensures IsAttached(s, k) {
        assert all[n + k] == s[k];
        BehindPlain(front, s, k);
      }
    }
  }

  lemma BehindPlain(front: seq<Message>, s: seq<Message>, k: nat)
    requires AllPlain(front) && k < |s| && s[k].role == Tool
    ensures IsAttached(front + s, |front| + k) <==> IsAttached(s, k)
  {
    var all, n, q := front + s, |front|, TurnIndex(s, k);
    assert forall j :: n <= j < |all| ==> all[j] == s[j - n];
    assert n > 0 ==> all[n - 1] == front[n - 1] && IsPlain(front[n - 1]);
    TurnIndexIs(all, n + k, if q >= 0 then n + q else n - 1);
  }

  /** Part of an exchange in front of messages with other result ids. */
  lemma PieceAttached(block: seq<Message>, flags: seq<bool>, rest: seq<Message>)
    requires IsExchange(block) && |flags| == |block| && DisjointResults(block, rest)
    ensures Attached(Selected(block, flags) + rest) <==> TurnsFollow(block, flags) && Attached(rest)
  {
    hide Answers, Attached, TurnsFollow, DisjointResults;
    SelectedWhole(block, flags);
    if flags[0] {
      TurnInFront(block, flags, rest);
      FollowsFirst(block, flags);
    } else if Selected(block, flags) == [] {
      assert [] + rest == rest;
      FollowsFirst(block, flags);
    } else {
      LonePiece(block, flags, rest);
    }
  }

  /** Within an exchange the turn is the first message. */
  lemma FollowsFirst(block: seq<Message>, flags: seq<bool>)
    requires IsExchange(block) && |flags| == |block|
    requires flags[0] || forall k :: 0 <= k < |flags| ==> !flags[k]
    ensures TurnsFollow(block, flags)
  {
    hide Answers;
  }

  lemma LonePiece(block: seq<Message>, flags: seq<bool>, rest: seq<Message>)
    requires IsExchange(block) && |flags| == |block| && !flags[0] && Selected(block, flags) != []
    ensures !TurnsFollow(block, flags) && !Attached(Selected(block, flags) + rest)
  {
    hide Answers, Selected, AnsweredBy;
    var all := Selected(block, flags) + rest;
    var k := KeptFrom(block, flags, 0);
    assert all[0] == block[k] && block[k].role == Tool;
    assert !IsAttached(all, 0);
    ResultsAnswer(block, k);
  }

  lemma TurnInFront(block: seq<Message>, flags: seq<bool>, rest: seq<Message>)
    requires IsExchange(block) && |flags| == |block| && flags[0] && DisjointResults(block, rest)
    ensures Attached(Selected(block, flags) + rest) <==> Attached(rest)
  {
    hide Answers, Selected, DisjointResults, IsAttached, AnsweredBy;
    var piece := Selected(block, flags);
    var all, n := piece + rest, |piece|;
    KeepsFirst(block, flags);
    forall j | 1 <= j < n ensures piece[j].role == Tool && IsAttached(all, j) {
      AttachedInPiece(block, flags, rest, j);
      assert all[j] == piece[j];
    }
    assert forall j :: n <= j < |all| ==> all[j] == rest[j - n];
    assert all[0] == block[0];
    forall k | 0 <= k < |rest| && rest[k].role == Tool ensures IsAttached(all, n + k) <==> IsAttached(rest, k) {
      AttachedBehindPiece(block, piece, rest, k);
    }
    if Attached(all) {
      forall k | 0 <= k < |rest| && rest[k].role == Tool ensures IsAttached(rest, k) {
        assert all[n + k] == rest[k];
      }
    }
  }

  lemma AttachedInPiece(block: seq<Message>, flags: seq<bool>, rest: seq<Message>, j: nat)
    requires IsExchange(block) && |flags| == |block| && flags[0] && 1 <= j < |Selected(block, flags)|
    ensures var all := Selected(block, flags) + rest; all[j].role == Tool && IsAttached(all, j)
  {
    hide Answers, Selected, AnsweredBy;
    var piece := Selected(block, flags);
    var all := piece + rest;
    KeepsFirst(block, flags);
    forall i | 1 <= i < |piece| ensures all[i].role == Tool {
      var p, q := KeptInOrder(block, flags, 0, i);
      assert all[i] == block[q];
    }
    var p, q := KeptInOrder(block, flags, 0, j);
    ResultsAnswer(block, q);
    TurnIndexIs(all, j, 0);
  }

  lemma AttachedBehindPiece(block: seq<Message>, piece: seq<Message>, rest: seq<Message>, k: nat)
    requires IsExchange(block) && DisjointResults(block, rest) && k < |rest| && rest[k].role == Tool
    requires piece != [] && piece[0] == block[0] && forall j :: 1 <= j < |piece| ==> piece[j].role == Tool
    ensures IsAttached(piece + rest, |piece| + k) <==> IsAttached(rest, k)
  {
    hide DisjointResults, AnsweredBy, Answers;
    var all, n, q := piece + rest, |piece|, TurnIndex(rest, k);
    assert forall j :: n <= j < |all| ==> all[j] == rest[j - n];
    assert forall j :: 0 <= j < n ==> all[j] == piece[j];
    TurnIndexIs(all, n + k, if q >= 0 then n + q else 0);
    if AnsweredBy(block[0], rest[k]) {
      var r := AnsweredWithin(block, rest[k]);
      ResultsDiffer(block, rest, r, k);
    }
  }

  lemma FollowConcat(left: seq<Message>, right: seq<Message>, f: seq<bool>, g: seq<bool>)
    requires |f| == |left| && |g| == |right| && AnsweredApart(left, right)
    ensures TurnsFollow(left + right, f + g) <==> TurnsFollow(left, f) && TurnsFollow(right, g)
  {
    hide AnsweredBy, AnsweredApart;
    var all, flags, n := left + right, f + g, |left|;
    if TurnsFollow(all, flags) {
      forall i, k | 0 <= i < n && 0 <= k < n && AnsweredBy(left[i], left[k]) && f[k] ensures f[i] {
        assert all[i] == left[i] && all[k] == left[k] && flags[i] == f[i] && flags[k] == f[k];
      }
      forall i, k | 0 <= i < |right| && 0 <= k < |right| && AnsweredBy(right[i], right[k]) && g[k] ensures g[i] {
        assert all[n + i] == right[i] && all[n + k] == right[k] && flags[n + i] == g[i] && flags[n + k] == g[k];
      }
    }
    if TurnsFollow(left, f) && TurnsFollow(right, g) {
      forall i, k | 0 <= i < |all| && 0 <= k < |all| && AnsweredBy(all[i], all[k]) && flags[k] ensures flags[i] {
        SameSide(left, right, i, k);
        if i < n {
          assert all[i] == left[i] && all[k] == left[k];
        } else {
          assert all[i] == right[i - n] && all[k] == right[k - n];
        }
      }
    }
  }

  lemma {:induction false} BlocksAttached(blocks: seq<seq<Message>>, flags: seq<bool>)
    requires forall i :: 0 <= i < |blocks| ==> IsExchange(blocks[i])
    requires |flags| == |Concat(blocks)| && UniqueResultIds(Concat(blocks))
    ensures Attached(Selected(Concat(blocks), flags)) <==> TurnsFollow(Concat(blocks), flags)
  {
    if blocks != [] {
      hide *;
      var block, rest := blocks[0], blocks[1..];
      assert blocks == [block] + rest;
      ConcatStep(block, rest);
      var tail := Concat(rest);
      var f, g := flags[..|block|], flags[|block|..];
      SplitAt(flags, |block|);
      UniqueParts(block, tail);
      BlocksAttached(rest, g);
      SelectedConcat(block, tail, f, g);
      SelectedStaysDisjoint(block, tail, g);
      PieceAttached(block, f, Selected(tail, g));
      ExchangesApart(block, rest);
      FollowConcat(block, tail, f, g);
    }
  }

  // ----- Turns that lack results -----

  /** The turn at `i` is kept without one of its results. */
  predicate IsGap(messages: seq<Message>, flags: seq<bool>, i: int)
    requires |flags| == |messages|
  {
    0 <= i < |messages| && flags[i]
    && exists k :: 0 <= k < |messages| && AnsweredBy(messages[i], messages[k]) && !flags[k]
  }

  ghost predicate AtMostOneGap(messages: seq<Message>, flags: seq<bool>)
    requires |flags| == |messages|
  {
    forall i, j :: IsGap(messages, flags, i) && IsGap(messages, flags, j) ==> i == j
  }

  lemma GapLacks(front: seq<Message>, messages: seq<Message>, flags: seq<bool>, i: nat)
    requires AllPlain(front) && |flags| == |messages| && UniqueResultIds(messages) && IsGap(messages, flags, i)
    ensures Lacks(front + Selected(messages, flags), |front| + Rank(flags, i))
  {
    hide Selected, Rank;
    var kept := Selected(messages, flags);
    var all := front + kept;
    KeptAt(messages, flags, i);
    var k :| 0 <= k < |messages| && AnsweredBy(messages[i], messages[k]) && !flags[k];
    var id := messages[k].toolCallId;
    assert Issues(all[|front| + Rank(flags, i)], id);
    if HasResult(all, id) {
      var r := ResultIsKept(front, messages, flags, id);
    }
  }

  lemma ResultIsKept(front: seq<Message>, messages: seq<Message>, flags: seq<bool>, id: string) returns (k: nat)
    requires AllPlain(front) && |flags| == |messages| && HasResult(front + Selected(messages, flags), id)
    ensures k < |messages| && flags[k] && messages[k].role == Tool && messages[k].toolCallId == id
  {
    hide Selected;
    var all := front + Selected(messages, flags);
    assert forall j :: 0 <= j < |front| ==> all[j] == front[j];
    var r :| 0 <= r < |all| && all[r].role == Tool && all[r].toolCallId == id;
    k := KeptFrom(messages, flags, r - |front|);
  }

  lemma KeptHasResult(front: seq<Message>, messages: seq<Message>, flags: seq<bool>, k: nat)
    requires |flags| == |messages| && k < |messages| && flags[k] && messages[k].role == Tool
    ensures HasResult(front + Selected(messages, flags), messages[k].toolCallId)
  {
    hide Selected, Rank;
    KeptAt(messages, flags, k);
    assert (front + Selected(messages, flags))[|front| + Rank(flags, k)] == messages[k];
  }

  lemma LackIsGap(front: seq<Message>, messages: seq<Message>, flags: seq<bool>, n: nat) returns (i: nat)
    requires AllPlain(front) && |flags| == |messages| && WellFormed(messages)
    requires Lacks(front + Selected(messages, flags), n)
    ensures IsGap(messages, flags, i) && n == |front| + Rank(flags, i)
  {
    hide Selected, Rank, WellFormed;
    var kept := Selected(messages, flags);
    var all := front + kept;
    var id :| Issues(all[n], id) && !HasResult(all, id);
    assert forall j :: 0 <= j < |front| ==> all[j] == front[j];
    i := KeptFrom(messages, flags, n - |front|);
    var k := AnswerBehindTurn(messages, i, id);
    if flags[k] {
      KeptHasResult(front, messages, flags, k);
    }
    assert AnsweredBy(messages[i], messages[k]);
  }

  lemma GapsAreLacks(front: seq<Message>, messages: seq<Message>, flags: seq<bool>)
    requires AllPlain(front) && |flags| == |messages| && WellFormed(messages) && UniqueResultIds(messages)
    ensures AtMostOneLacks(front + Selected(messages, flags)) <==> AtMostOneGap(messages, flags)
  {
    hide Selected, Rank, WellFormed, UniqueResultIds, Lacks, IsGap, IsPlain;
    var all := front + Selected(messages, flags);
    if AtMostOneLacks(all) {
      forall i, j | IsGap(messages, flags, i) && IsGap(messages, flags, j) ensures i == j {
        GapInRange(messages, flags, i);
        GapInRange(messages, flags, j);
        GapLacks(front, messages, flags, i);
        GapLacks(front, messages, flags, j);
        RankGrows(flags, if i < j then i else j, if i < j then j else i);
      }
    }
    if AtMostOneGap(messages, flags) {
      forall m, n | Lacks(all, m) && Lacks(all, n) ensures m == n {
        LackInRange(all, m);
        LackInRange(all, n);
        var i := LackIsGap(front, messages, flags, m);
        var j := LackIsGap(front, messages, flags, n);
      }
    }
  }

  lemma GapInRange(messages: seq<Message>, flags: seq<bool>, i: int)
    requires |flags| == |messages| && IsGap(messages, flags, i)
    ensures 0 <= i < |messages| && flags[i]
  {
  }

  lemma LackInRange(c: seq<Message>, i: int)
    requires Lacks(c, i)
    ensures 0 <= i < |c|
  {
  }

  /**
   * Behind plain messages, what is kept of a history of whole exchanges is made whole by placeholders exactly if the
   * turn of every kept result is kept, and at most one kept turn has a dropped result.
   */
  lemma KeptIsMendable(front: seq<Message>, messages: seq<Message>, flags: seq<bool>)
    requires AllPlain(front) && |flags| == |messages| && WellFormed(messages) && UniqueResultIds(messages)
    ensures var all := front + Selected(messages, flags);
            Attached(all) && AtMostOneLacks(all) <==> TurnsFollow(messages, flags) && AtMostOneGap(messages, flags)
  {
    var blocks :| MadeOf(messages, blocks);
    hide Selected, Attached, AtMostOneLacks, TurnsFollow, AtMostOneGap, UniqueResultIds, IsExchange, Concat, IsPlain;
    PlainFrontAttached(front, Selected(messages, flags));
    BlocksAttached(blocks, flags);
    GapsAreLacks(front, messages, flags);
  }
}
