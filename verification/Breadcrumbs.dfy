/** Rule table for hints shown after tool results: nls/agentic/breadcrumbs.py. */
module Breadcrumbs {
  import opened Sequences
  import opened Text

  /** What a rule callback returns, or that it raised. */
  datatype Outcome<T> = Returned(value: T) | Raised

  /** The runtime state a rule sees: `profile` is the normalised orchestration profile,
      `details` stands for the fields only callbacks read. */
  datatype Context<D> = Context(toolName: string, action: string, unlockedTools: set<string>, profile: string,
      details: D)

  type Trigger = (string, string)

  datatype Rule<!D> = Rule(
    trigger: Trigger,
    render: Context<D> -> Outcome<string>,
    requiresTools: set<string>,
    requiresAny: set<string>,
    condition: Option<Context<D> -> Outcome<bool>>,
    profiles: Option<set<string>>)

  // ----- One rule -----

  predicate MatchesProfile(profiles: Option<set<string>>, profile: string) {
    profiles.None? || profiles.value == {} || profile in profiles.value
  }

  predicate ConditionHolds<D>(rule: Rule<D>, ctx: Context<D>) {
    rule.condition.None? || rule.condition.value(ctx) == Returned(true)
  }

  /** Whether a rule has something to say, its trigger aside. */
  predicate Passes<D>(rule: Rule<D>, ctx: Context<D>) {
    && MatchesProfile(rule.profiles, ctx.profile)
    && rule.requiresTools <= ctx.unlockedTools
    && (rule.requiresAny == {} || rule.requiresAny * ctx.unlockedTools != {})
    && ConditionHolds(rule, ctx)
    && rule.render(ctx).Returned?
    && rule.render(ctx).value != ""
  }

  /**
   * A rule stays silent exactly if its profiles are others, a required tool is locked, none of the alternatives is
   * unlocked, its condition fails or does not hold, or its text cannot be made or is empty.
   */
  lemma SilentExactly<D>(rule: Rule<D>, ctx: Context<D>)
    ensures !Passes(rule, ctx) <==>
              || (rule.profiles.Some? && rule.profiles.value != {} && ctx.profile !in rule.profiles.value)
              || (exists tool :: tool in rule.requiresTools && tool !in ctx.unlockedTools)
              || (rule.requiresAny != {} && forall tool :: tool in rule.requiresAny ==> tool !in ctx.unlockedTools)
              || (rule.condition.Some? && (rule.condition.value(ctx) == Raised || !rule.condition.value(ctx).value))
              || rule.render(ctx) == Raised || rule.render(ctx) == Returned("")
  {
    if tool :| tool in rule.requiresAny && tool in ctx.unlockedTools {
      assert tool in rule.requiresAny * ctx.unlockedTools;
    } else {
      assert rule.requiresAny * ctx.unlockedTools == {};
    }
  }

  // ----- The whole rule list, scanned -----

  /** The hint of the first rule in the list that has this trigger and something to say. */
  function Scan<D>(rules: seq<Rule<D>>, trigger: Trigger, ctx: Context<D>): Option<string> {
    if rules == [] then None
    else if rules[0].trigger == trigger && Passes(rules[0], ctx) then Some(rules[0].render(ctx).value)
    else Scan(rules[1..], trigger, ctx)
  }

  function Exact<D>(ctx: Context<D>): Trigger {
    (ctx.toolName, ctx.action)
  }

  function Wildcard<D>(ctx: Context<D>): Trigger {
    (ctx.toolName, "*")
  }

  function Hint<D>(rules: seq<Rule<D>>, ctx: Context<D>): Option<string> {
    if Scan(rules, Exact(ctx), ctx).Some? then Scan(rules, Exact(ctx), ctx) else Scan(rules, Wildcard(ctx), ctx)
  }

  predicate Speaks<D>(rules: seq<Rule<D>>, k: int, trigger: Trigger, ctx: Context<D>) {
    0 <= k < |rules| && rules[k].trigger == trigger && Passes(rules[k], ctx)
  }

  /** Rule `k` is the first of its trigger with something to say. */
  predicate SpeaksFirst<D>(rules: seq<Rule<D>>, k: int, trigger: Trigger, ctx: Context<D>) {
    Speaks(rules, k, trigger, ctx) && forall j :: 0 <= j < k ==> !Speaks(rules, j, trigger, ctx)
  }

  lemma {:induction false} ScanFindsFirst<D>(rules: seq<Rule<D>>, trigger: Trigger, ctx: Context<D>)
    ensures Scan(rules, trigger, ctx).Some? ==>
      exists k :: SpeaksFirst(rules, k, trigger, ctx) && Scan(rules, trigger, ctx).value == rules[k].render(ctx).value
    ensures Scan(rules, trigger, ctx).None? ==> forall k :: !Speaks(rules, k, trigger, ctx)
  {
    if rules != [] {
      var rest := rules[1..];
      assert rules == [rules[0]] + rest;
      if Speaks(rules, 0, trigger, ctx) {
        assert SpeaksFirst(rules, 0, trigger, ctx);
      } else {
        ScanFindsFirst(rest, trigger, ctx);
        assert forall k :: 1 <= k ==> Speaks(rules, k, trigger, ctx) == Speaks(rest, k - 1, trigger, ctx);
        if Scan(rest, trigger, ctx).Some? {
          var k :| SpeaksFirst(rest, k, trigger, ctx) && Scan(rest, trigger, ctx).value == rest[k].render(ctx).value;
          assert SpeaksFirst(rules, k + 1, trigger, ctx);
        }
      }
    }
  }

  /** A hint comes from the first rule with the exact trigger, else from the first with the wildcard, in list order. */
  lemma HintIsFirstMatch<D>(rules: seq<Rule<D>>, ctx: Context<D>, k: int)
    requires SpeaksFirst(rules, k, (ctx.toolName, ctx.action), ctx)
          || (SpeaksFirst(rules, k, (ctx.toolName, "*"), ctx)
              && forall j :: !Speaks(rules, j, (ctx.toolName, ctx.action), ctx))
    ensures Hint(rules, ctx) == Some(rules[k].render(ctx).value)
  {
    hide Scan, Passes;
    ScanFindsFirst(rules, Exact(ctx), ctx);
    ScanFindsFirst(rules, Wildcard(ctx), ctx);
  }

  lemma NoHintMeansSilence<D>(rules: seq<Rule<D>>, ctx: Context<D>)
    ensures Hint(rules, ctx) == None <==>
      forall k :: !Speaks(rules, k, (ctx.toolName, ctx.action), ctx) && !Speaks(rules, k, (ctx.toolName, "*"), ctx)
  {
    hide Scan, Passes;
    ScanFindsFirst(rules, Exact(ctx), ctx);
    ScanFindsFirst(rules, Wildcard(ctx), ctx);
  }

  lemma {:induction false} ScanConcat<D>(rules: seq<Rule<D>>, more: seq<Rule<D>>, trigger: Trigger, ctx: Context<D>)
    ensures Scan(rules + more, trigger, ctx)
         == if Scan(rules, trigger, ctx).Some? then Scan(rules, trigger, ctx) else Scan(more, trigger, ctx)
  {
    if rules == [] {
      assert rules + more == more;
    } else {
      assert (rules + more)[1..] == rules[1..] + more;
      ScanConcat(rules[1..], more, trigger, ctx);
    }
  }

  /** A rule added later is heard only where no rule of its trigger, nor an exact one, already spoke. */
  lemma AddedRuleYields<D>(rules: seq<Rule<D>>, rule: Rule<D>, ctx: Context<D>)
    ensures Hint(rules + [rule], ctx) != Hint(rules, ctx) ==>
      Passes(rule, ctx) && Scan(rules, rule.trigger, ctx).None? && Scan(rules, Exact(ctx), ctx).None?
      && rule.trigger in {Exact(ctx), Wildcard(ctx)}
  {
    ScanConcat(rules, [rule], Exact(ctx), ctx);
    ScanConcat(rules, [rule], Wildcard(ctx), ctx);
  }

  // ----- The index -----

  function WithTrigger<D>(trigger: Trigger): Rule<D> -> bool {
    (rule: Rule<D>) => rule.trigger == trigger
  }

  lemma {:induction false} BucketScansAlike<D>(rules: seq<Rule<D>>, trigger: Trigger, ctx: Context<D>)
    ensures Scan(Filter(rules, WithTrigger(trigger)), trigger, ctx) == Scan(rules, trigger, ctx)
  {
    if rules != [] {
      hide Passes;
      var rule, rest := rules[0], rules[1..];
      assert rules == [rule] + rest;
      FilterStep(rule, rest, WithTrigger(trigger));
      BucketScansAlike(rest, trigger, ctx);
      var bucket := Filter(rest, WithTrigger(trigger));
      assert ([rule] + bucket)[1..] == bucket;
    }
  }

  function FirstHint<D>(candidates: seq<Rule<D>>, ctx: Context<D>): Option<string> {
    if candidates == [] then None
    else if Passes(candidates[0], ctx) then Some(candidates[0].render(ctx).value)
    else FirstHint(candidates[1..], ctx)
  }

  lemma {:induction false} FirstHintOfBuckets<D>(bucket: seq<Rule<D>>, trigger: Trigger, more: seq<Rule<D>>,
                                                 ctx: Context<D>)
    requires forall rule :: rule in bucket ==> rule.trigger == trigger
    ensures FirstHint(bucket + more, ctx)
         == if Scan(bucket, trigger, ctx).Some? then Scan(bucket, trigger, ctx) else FirstHint(more, ctx)
  {
    if bucket == [] {
      assert bucket + more == more;
    } else {
      hide Passes;
      assert (bucket + more)[1..] == bucket[1..] + more;
      assert bucket[0] in bucket;
      FirstHintOfBuckets(bucket[1..], trigger, more, ctx);
    }
  }

  lemma BucketTriggers<D>(rules: seq<Rule<D>>, trigger: Trigger)
    ensures forall rule :: rule in Filter(rules, WithTrigger(trigger)) ==> rule.trigger == trigger
  {
    forall rule | rule in Filter(rules, WithTrigger(trigger)) ensures rule.trigger == trigger {
      FilterMember(rules, WithTrigger(trigger), rule);
    }
  }

  /** Looking at two buckets gives what scanning the whole list gives. */
  lemma BucketsGiveHint<D>(rules: seq<Rule<D>>, ctx: Context<D>)
    ensures FirstHint(Filter(rules, WithTrigger(Exact(ctx))) + Filter(rules, WithTrigger(Wildcard(ctx))), ctx)
              == Hint(rules, ctx)
  {
    hide Filter, Passes, Scan;
    var exact, wildcard := Filter(rules, WithTrigger(Exact(ctx))), Filter(rules, WithTrigger(Wildcard(ctx)));
    BucketTriggers(rules, Exact(ctx));
    BucketTriggers(rules, Wildcard(ctx));
    FirstHintOfBuckets(exact, Exact(ctx), wildcard, ctx);
    FirstHintOfBuckets(wildcard, Wildcard(ctx), [], ctx);
    assert wildcard + [] == wildcard;
    BucketScansAlike(rules, Exact(ctx), ctx);
    BucketScansAlike(rules, Wildcard(ctx), ctx);
  }

  class BreadcrumbEngine<!D> {
    var rules: seq<Rule<D>>
    var index: map<Trigger, seq<Rule<D>>>

    /** Every bucket holds the rules of its trigger, in list order. */
    ghost predicate Valid()
      reads this
    {
      IsIndexOf(index, rules)
    }

    constructor (rules: seq<Rule<D>>, defaults: seq<Rule<D>>)
      ensures Valid()
      ensures this.rules == if rules != [] then rules else defaults
    {
      hide IsIndexOf, Indexed;
      this.rules := if rules != [] then rules else defaults;
      this.index := map[];
      new;
      NothingIndexed<D>();
      var all := this.rules;
      TakeAll(all);
      for i := 0 to |all|
        invariant this.rules == all
        invariant IsIndexOf(index, all[..i])
      {
        IndexExtends(index, all[..i], all[i]);
        TakeNext(all, i);
        index := Indexed(index, all[i]);
      }
    }

    method AddRule(rule: Rule<D>)
      requires Valid()
      modifies this
      ensures Valid()
      ensures rules == old(rules) + [rule]
    {
      hide IsIndexOf, Indexed;
      IndexExtends(index, rules, rule);
      rules := rules + [rule];
      index := Indexed(index, rule);
    }

    method Evaluate(ctx: Context<D>) returns (hint: Option<string>)
      requires Valid()
      ensures hint == Hint(rules, ctx)
    {
      hide Filter, Passes, Hint;
      var exact := if Exact(ctx) in index then index[Exact(ctx)] else [];
      var wildcard := if Wildcard(ctx) in index then index[Wildcard(ctx)] else [];
      var candidates := exact + wildcard;
      BucketsGiveHint(rules, ctx);
      for i := 0 to |candidates|
        invariant FirstHint(candidates[i..], ctx) == Hint(rules, ctx)
      {
        var text := Try(candidates[i], ctx);
        assert candidates[i..][1..] == candidates[i + 1..];
        if text != "" {
          return Some(text);
        }
      }
      return None;
    }
  }

  function Indexed<D>(index: map<Trigger, seq<Rule<D>>>, rule: Rule<D>): map<Trigger, seq<Rule<D>>> {
    index[rule.trigger := (if rule.trigger in index then index[rule.trigger] else []) + [rule]]
  }

  ghost predicate IsIndexOf<D>(index: map<Trigger, seq<Rule<D>>>, rules: seq<Rule<D>>) {
    forall t: Trigger :: Filter(rules, WithTrigger(t)) == if t in index then index[t] else []
  }

  lemma NothingIndexed<D>()
    ensures IsIndexOf<D>(map[], [])
  {
  }

  lemma IndexExtends<D>(index: map<Trigger, seq<Rule<D>>>, rules: seq<Rule<D>>, rule: Rule<D>)
    requires IsIndexOf(index, rules)
    ensures IsIndexOf(Indexed(index, rule), rules + [rule])
  {
    forall t: Trigger
      ensures Filter(rules + [rule], WithTrigger(t))
                == if t in Indexed(index, rule) then Indexed(index, rule)[t] else []
    {
      hide Filter;
      var bucket := Filter(rules, WithTrigger(t));
      FilterConcat(rules, [rule], WithTrigger(t));
      FilterOne(rule, WithTrigger(t));
      assert bucket + [] == bucket;
    }
  }

  /** The text a rule offers, "" when it is skipped. */
  method Try<D>(rule: Rule<D>, ctx: Context<D>) returns (text: string)
    ensures text != "" <==> Passes(rule, ctx)
    ensures text != "" ==> text == rule.render(ctx).value
  {
    if !MatchesProfile(rule.profiles, ctx.profile) {
      return "";
    }
    if rule.requiresTools != {} && !(rule.requiresTools <= ctx.unlockedTools) {
      return "";
    }
    if rule.requiresAny != {} && rule.requiresAny * ctx.unlockedTools == {} {
      return "";
    }
    if rule.condition.Some? {
      var answer := rule.condition.value(ctx);
      if answer.Raised? || !answer.value {
        return "";
      }
    }
    var rendered := rule.render(ctx);
    if rendered.Raised? {
      return "";
    }
    return rendered.value;
  }
}
