/** Which messages and budgets compaction goes by, spelled out: nls/agentic/compactor.py. */
module CompactionLaws {
  import opened Sequences
  import opened Text
  import opened Messages
  import opened CutPoint
  import opened Anchor
  import opened Sanitizer
  import opened Compaction

  // ----- Which messages are summarised -----

  /** The body quotes a user message somewhere, or begins like a digest. */
  ghost predicate IsMarked(m: Message) {
    (exists i :: OccursAt(m.content, "[USER MESSAGE", i)) || "[Digest of " <= m.content
  }

  lemma MarkedExactly(m: Message)
    ensures IsPriority(m) <==> IsMarked(m)
  {
    hide OccursAt;
    if i :| OccursAt(m.content, "[USER MESSAGE", i) {
      InRange(m.content, "[USER MESSAGE", i);
    }
  }

  lemma InRange(s: string, t: string, i: int)
    requires OccursAt(s, t, i)
    ensures 0 <= i <= |s|
  {
  }

  /** Of the dropped span, exactly the marked messages are moved and the others summarised, system messages aside. */
  lemma SpanExactly(dropped: seq<Message>, m: Message)
    ensures m in ToSummarize(dropped) <==> m in dropped && m.role != System && !IsMarked(m)
    ensures m in PriorityMessages(dropped) <==> m in dropped && m.role != System && IsMarked(m)
  {
    MarkedExactly(m);
    hide IsMarked, IsPriority;
    FilterMember(OtherMessages(dropped), IsNotPriority, m);
    FilterMember(OtherMessages(dropped), IsPriority, m);
    FilterMember(dropped, IsNotSystem, m);
  }

  /** And exactly those system messages stay that are no summary. */
  lemma SystemExactly(dropped: seq<Message>, m: Message)
    ensures m in KeptSystem(dropped) <==> m in dropped && m.role == System && !("[CONTEXT SUMMARY" <= m.content)
  {
    FilterMember(SystemMessages(dropped), IsNotSummary, m);
    FilterMember(dropped, IsSystem, m);
  }

  /** The anchor takes a span up exactly if the model answered and there is something to summarise before the cut. */
  lemma SummarizesExactly(context: seq<Message>, cut: nat, model: Summarizer)
    requires cut <= |context|
    ensures Summarizes(context, cut, model) <==>
              cut >= 2 && model.Reply? && exists i :: 0 <= i < cut && context[i].role != System && !IsMarked(context[i])
  {
    hide IsMarked, ToSummarize;
    var dropped := context[..cut];
    if ToSummarize(dropped) != [] {
      var m := ToSummarize(dropped)[0];
      SpanExactly(dropped, m);
      var i :| 0 <= i < |dropped| && dropped[i] == m;
      assert context[i] == m;
    }
    if i :| 0 <= i < cut && context[i].role != System && !IsMarked(context[i]) {
      assert dropped[i] == context[i];
      SpanExactly(dropped, context[i]);
    }
  }

  /** Every other compaction leaves the anchor alone, and one that does is told by the iteration it leaves. */
  lemma AnchorExactly(context: seq<Message>, cut: nat, a: Summary, model: Summarizer, iteration: nat, scanner: Scanner)
    requires cut <= |context|
    ensures !Summarizes(context, cut, model) ==> AnchorAfter(context, cut, a, model, iteration, scanner) == a
    ensures Summarizes(context, cut, model) ==>
              AnchorAfter(context, cut, a, model, iteration, scanner).iterationAt == iteration
  {
    hide ToSummarize, CompleteDelta, AppendNew, Without;
  }

  // ----- Budgets -----

  /** A delegate may have a budget of its own, and a forced compaction keeps half of it, rounded down. */
  lemma BudgetExactly(config: Config, isDelegate: bool)
    ensures KeepTokens(config, false, isDelegate)
         == (if isDelegate && config.delegateKeepRecentTokens >= 1 then config.delegateKeepRecentTokens
             else config.keepRecentTokens)
    ensures 0 <= KeepTokens(config, false, isDelegate) - 2 * KeepTokens(config, true, isDelegate) <= 1
  {
  }

  /** So a forced compaction never cuts earlier than an unforced one. */
  lemma ForcedCutsMore(context: seq<Message>, config: Config, isDelegate: bool, c: nat, d: nat)
    requires IsBudgetCut(context, KeepTokens(config, false, isDelegate), c)
    requires IsBudgetCut(context, KeepTokens(config, true, isDelegate), d)
    ensures c <= d
  {
    hide SumTokens;
    var keep := KeepTokens(config, false, isDelegate);
    if keep >= 0 {
      SmallerBudgetCutsMore(context, keep, KeepTokens(config, true, isDelegate), c, d);
    } else {
      NothingFits(context, keep, c);
      NothingFits(context, KeepTokens(config, true, isDelegate), d);
    }
  }

  lemma NothingFits(context: seq<Message>, keep: int, c: nat)
    requires keep < 0 && IsBudgetCut(context, keep, c)
    ensures c == if context == [] then 0 else |context| - 1
  {
    if context != [] {
      var suffix := context[c..];
    }
  }

  /** The fallback keeps at least the last six messages that are no system messages, four if forced, or a third. */
  lemma RecentExactly(n: nat, force: bool)
    ensures var kept := n - OldCount(n, force);
            && 0 <= kept <= n && 3 * kept >= n - 2
            && (kept < n ==> kept >= if force then 4 else 6)
            && (kept < n && 3 * kept > n ==> kept == if force then 4 else 6)
  {
  }

  /** It does nothing exactly if it is not forced and the history still fits; the estimate rounds down. */
  lemma FallbackExactly(context: seq<Message>, config: Config, force: bool, repair: Repair)
    ensures var room := config.contextWindowTokens - config.reserveTokens;
            SimpleCompacted(context, config, force, repair)
            == if !force && TotalChars(context) < 4 * room + 4 then context
               else Sanitized(SimpleKept(context, force), repair)
  {
    hide Sanitized, SimpleKept, TotalChars;
  }

  // ----- The stand-in user message -----

  /** The last user message of the pool, at this position. */
  predicate IsLastUser(pool: seq<Message>, k: int) {
    0 <= k < |pool| && pool[k].role == User && forall j :: k < j < |pool| ==> 0 <= j && pool[j].role != User
  }

  lemma {:induction false} LastUserExactly(pool: seq<Message>, k: int)
    requires IsLastUser(pool, k)
    ensures LastUser(pool) == Some(pool[k])
  {
    if k < |pool| - 1 {
      assert pool[|pool| - 1].role != User;
      LastUserExactly(pool[..|pool| - 1], k);
    }
  }

  /** A history without a user gets the latest user message that was dropped, or a stand-in, at the given position. */
  lemma StandInExactly(messages: seq<Message>, at: nat, pool: seq<Message>)
    requires at <= |messages| && forall i :: 0 <= i < |messages| ==> messages[i].role != User
    ensures forall k :: IsLastUser(pool, k) ==>
              WithUser(messages, at, pool) == messages[..at] + [pool[k]] + messages[at..]
    ensures (forall i :: 0 <= i < |pool| ==> pool[i].role != User) ==>
              WithUser(messages, at, pool) == messages[..at] + [UserMessage(CONTINUE_TEXT)] + messages[at..]
  {
    forall k | IsLastUser(pool, k) ensures LastUser(pool) == Some(pool[k]) {
      LastUserExactly(pool, k);
    }
    if LastUser(pool).Some? {
      var i :| 0 <= i < |pool| && pool[i] == LastUser(pool).value;
    }
  }
}
