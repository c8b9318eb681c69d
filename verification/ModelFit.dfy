/** Ranking curated models by how well they fit a GPU: desktop/electron/model-fit-catalog.ts. */
module ModelFit {
  import opened Sequences
  import opened Text

  datatype Runtime = Ollama | Vllm | Either

  datatype Entry = Entry(displayName: string, modelId: string, paramsB: real, minVramGb: real, runtime: Runtime)

  datatype FitLevel = Perfect | Good | Marginal | TooTight

  datatype Recommendation = Recommendation(
    displayName: string, modelId: string, fitLevel: FitLevel, estVramGb: real, paramsB: Option<real>, runtime: Runtime)

  datatype Target = Local | Lan

  datatype Options = Options(target: Target, limit: Option<int>, preferOllama: Option<bool>)

  function OllamaCatalog(): seq<Entry> {
    [ Entry("Phi-3 Mini", "phi3:mini", 3.8, 4.0, Ollama),
      Entry("Llama 3.2 3B", "llama3.2:3b", 3.0, 4.0, Ollama),
      Entry("Llama 3.2", "llama3.2", 3.0, 5.0, Ollama),
      Entry("Qwen 2.5 7B", "qwen2.5:7b", 7.0, 6.0, Ollama),
      Entry("Mistral 7B", "mistral:7b", 7.0, 6.0, Ollama),
      Entry("Qwen 3 8B", "qwen3:8b", 8.0, 6.0, Ollama),
      Entry("DeepSeek R1 8B", "deepseek-r1:8b", 8.0, 6.0, Ollama),
      Entry("Qwen 2.5 14B", "qwen2.5:14b", 14.0, 10.0, Ollama),
      Entry("Qwen 2.5 32B", "qwen2.5:32b", 32.0, 20.0, Ollama) ]
  }

  function VllmCatalog(): seq<Entry> {
    [ Entry("Qwen 3.6 35B MoE (FP8)", "Qwen/Qwen3.6-35B-A3B-FP8", 35.0, 22.0, Vllm),
      Entry("Qwen 3 32B", "Qwen/Qwen3-32B", 32.0, 20.0, Vllm),
      Entry("Llama 3.1 70B (quantized)", "meta-llama/Llama-3.1-70B-Instruct", 70.0, 40.0, Vllm) ]
  }

  /** The shipped models, in catalog order. */
  function Catalog(): seq<Entry> {
    OllamaCatalog() + VllmCatalog()
  }

  // ----- Scoring -----

  function FitLevelForVram(vramGb: real, minVramGb: real): FitLevel {
    if vramGb >= minVramGb * 1.15 then Perfect
    else if vramGb >= minVramGb then Good
    else if vramGb >= minVramGb * 0.72 then Marginal
    else TooTight
  }

  function Usable(vramGb: real): real {
    if vramGb < 0.0 then 0.0 else vramGb
  }

  function Score(entry: Entry, vram: real): Recommendation {
    Recommendation(entry.displayName, entry.modelId, FitLevelForVram(vram, entry.minVramGb), entry.minVramGb,
                   Some(entry.paramsB), entry.runtime)
  }

  function Scores(catalog: seq<Entry>, vram: real): (r: seq<Recommendation>)
    ensures |r| == |catalog| && forall i :: 0 <= i < |r| ==> r[i] == Score(catalog[i], vram)
  {
    seq(|catalog|, i requires 0 <= i < |catalog| => Score(catalog[i], vram))
  }

  function Fits(prefersOllama: bool): Recommendation -> bool {
    (r: Recommendation) => r.fitLevel != TooTight && (prefersOllama ==> r.runtime != Vllm)
  }

  // ----- Ranking -----

  function LevelOrder(level: FitLevel): int {
    match level
    case Perfect => 0
    case Good => 1
    case Marginal => 2
    case TooTight => 9
  }

  function OllamaOrder(runtime: Runtime): int {
    if runtime == Ollama then 0 else 1
  }

  function Params(r: Recommendation): real {
    if r.paramsB.Some? then r.paramsB.value else 0.0
  }

  /** The comparator does not ask for `b` to come before `a`. */
  predicate NotAfter(a: Recommendation, b: Recommendation) {
    if LevelOrder(a.fitLevel) != LevelOrder(b.fitLevel) then LevelOrder(a.fitLevel) < LevelOrder(b.fitLevel)
    else if OllamaOrder(a.runtime) != OllamaOrder(b.runtime) then OllamaOrder(a.runtime) < OllamaOrder(b.runtime)
    else Params(b) <= Params(a)
  }

  predicate Ties(a: Recommendation, b: Recommendation) {
    NotAfter(a, b) && NotAfter(b, a)
  }

  /** Puts `x` before the first element it need not follow. */
  function Insert(x: Recommendation, sorted: seq<Recommendation>): seq<Recommendation> {
    if sorted == [] || NotAfter(x, sorted[0]) then [x] + sorted else [sorted[0]] + Insert(x, sorted[1..])
  }

  /** The stable sort by the comparator. */
  function Sort(s: seq<Recommendation>): seq<Recommendation> {
    if s == [] then [] else Insert(s[0], Sort(s[1..]))
  }

  predicate IsSorted(s: seq<Recommendation>) {
    forall i, j :: 0 <= i < j < |s| ==> NotAfter(s[i], s[j])
  }

  function TiedWith(x: Recommendation): Recommendation -> bool {
    (r: Recommendation) => Ties(r, x)
  }

  /** `t` rearranges `s` without reordering elements the comparator ties. */
  ghost predicate KeepsTies(s: seq<Recommendation>, t: seq<Recommendation>) {
    forall x :: Filter(s, TiedWith(x)) == Filter(t, TiedWith(x))
  }

  lemma NotAfterIsOrder(a: Recommendation, b: Recommendation, c: Recommendation)
    ensures NotAfter(a, b) || NotAfter(b, a)
    ensures NotAfter(a, b) && NotAfter(b, c) ==> NotAfter(a, c)
  {
  }

  lemma {:induction false} InsertSorts(x: Recommendation, sorted: seq<Recommendation>)
    requires IsSorted(sorted)
    ensures IsSorted(Insert(x, sorted))
    ensures forall y :: y in Insert(x, sorted) <==> y == x || y in sorted
  {
    hide NotAfter;
    if sorted == [] {
    } else if NotAfter(x, sorted[0]) {
      forall j | 0 <= j < |sorted| ensures NotAfter(x, sorted[j]) {
        NotAfterIsOrder(x, sorted[0], sorted[j]);
      }
    } else {
      var y, rest := sorted[0], sorted[1..];
      assert sorted == [y] + rest;
      InsertSorts(x, rest);
      NotAfterIsOrder(x, y, y);
      forall r | r in Insert(x, rest) ensures NotAfter(y, r) {
        assert r in rest ==> exists j :: 1 <= j < |sorted| && sorted[j] == r;
      }
    }
  }

  lemma {:induction false} InsertKeepsElements(x: Recommendation, sorted: seq<Recommendation>)
    ensures multiset(Insert(x, sorted)) == multiset([x] + sorted)
  {
    hide NotAfter;
    if sorted != [] && !NotAfter(x, sorted[0]) {
      assert sorted == [sorted[0]] + sorted[1..];
      InsertKeepsElements(x, sorted[1..]);
    }
  }

  lemma {:induction false} InsertKeepsTies(x: Recommendation, sorted: seq<Recommendation>, y: Recommendation)
    ensures Filter(Insert(x, sorted), TiedWith(y)) == Filter([x] + sorted, TiedWith(y))
  {
    if sorted != [] && !NotAfter(x, sorted[0]) {
      var z, rest := sorted[0], sorted[1..];
      assert sorted == [z] + rest && [x] + sorted == [x] + ([z] + rest);
      InsertKeepsTies(x, rest, y);
      FilterStep(z, Insert(x, rest), TiedWith(y));
      FilterStep(x, rest, TiedWith(y));
      FilterStep(x, [z] + rest, TiedWith(y));
      FilterStep(z, rest, TiedWith(y));
    }
  }

  lemma {:induction false} SortSorts(s: seq<Recommendation>)
    ensures IsSorted(Sort(s)) && multiset(Sort(s)) == multiset(s)
    ensures KeepsTies(s, Sort(s))
  {
    if s != [] {
      hide Insert, NotAfter, Filter, Ties;
      var x, rest := s[0], s[1..];
      assert s == [x] + rest;
      SortSorts(rest);
      InsertSorts(x, Sort(rest));
      InsertKeepsElements(x, Sort(rest));
      forall y ensures Filter(s, TiedWith(y)) == Filter(Sort(s), TiedWith(y)) {
        InsertKeepsTies(x, Sort(rest), y);
        FilterStep(x, rest, TiedWith(y));
        FilterStep(x, Sort(rest), TiedWith(y));
      }
    }
  }

  /** A stable sort has one possible result. */
  lemma {:induction false} StableSortUnique(s: seq<Recommendation>, t: seq<Recommendation>)
    requires IsSorted(s) && IsSorted(t) && KeepsTies(s, t)
    ensures s == t
  {
    if s == [] {
      if t != [] {
        FilterMember(t, TiedWith(t[0]), t[0]);
      }
    } else {
      hide Filter, NotAfter;
      SameHead(s, t);
      var x, rest, rest' := s[0], s[1..], t[1..];
      assert s == [x] + rest && t == [x] + rest';
      forall y ensures Filter(rest, TiedWith(y)) == Filter(rest', TiedWith(y)) {
        FilterStep(x, rest, TiedWith(y));
        FilterStep(x, rest', TiedWith(y));
        var f, f' := Filter(rest, TiedWith(y)), Filter(rest', TiedWith(y));
        assert Filter(s, TiedWith(y)) == Filter(t, TiedWith(y));
        assert f == ([x] + f)[1..] && f' == ([x] + f')[1..];
      }
      StableSortUnique(rest, rest');
    }
  }

  lemma SameHead(s: seq<Recommendation>, t: seq<Recommendation>)
    requires IsSorted(s) && IsSorted(t) && KeepsTies(s, t) && s != []
    ensures t != [] && s[0] == t[0]
  {
    hide Filter, NotAfter;
    var x := s[0];
    assert s == [x] + s[1..];
    FilterStep(x, s[1..], TiedWith(x));
    assert Ties(x, x) by { TiesReflexive(x); }
    assert Filter(t, TiedWith(x)) != [] by { assert Filter(s, TiedWith(x)) == Filter(t, TiedWith(x)); }
    FilterMember(t, TiedWith(x), Filter(t, TiedWith(x))[0]);
    var y := t[0];
    assert t == [y] + t[1..];
    FilterStep(y, t[1..], TiedWith(y));
    assert Ties(y, y) by { TiesReflexive(y); }
    assert Filter(s, TiedWith(y)) == Filter(t, TiedWith(y));
    FilterMember(s, TiedWith(y), Filter(s, TiedWith(y))[0]);
    HeadsTie(s, t);
    FilterStep(y, t[1..], TiedWith(x));
  }

  lemma TiesReflexive(x: Recommendation)
    ensures Ties(x, x)
  {
  }

  lemma HeadsTie(s: seq<Recommendation>, t: seq<Recommendation>)
    requires IsSorted(s) && IsSorted(t) && s != [] && t != []
    requires exists r :: r in t && Ties(r, s[0])
    requires exists r :: r in s && Ties(r, t[0])
    ensures Ties(t[0], s[0])
  {
    var a :| a in t && Ties(a, s[0]);
    var b :| b in s && Ties(b, t[0]);
  }

  // ----- Recommendations -----

  /** The first `limit` elements, a negative limit counting from the end. */
  function Slice<T>(s: seq<T>, limit: int): (r: seq<T>)
    ensures r <= s
  {
    if limit >= |s| then s
    else if limit >= 0 then s[..limit]
    else if |s| + limit > 0 then s[..|s| + limit]
    else []
  }

  function Limit(options: Options): int {
    if options.limit.Some? then options.limit.value else 6
  }

  function PrefersOllama(options: Options): bool {
    if options.preferOllama.Some? then options.preferOllama.value else options.target == Local
  }

  function Ranked(catalog: seq<Entry>, vramGb: real, options: Options): seq<Recommendation> {
    Sort(Filter(Scores(catalog, Usable(vramGb)), Fits(PrefersOllama(options))))
  }

  function Recommend(catalog: seq<Entry>, vramGb: real, options: Options): seq<Recommendation> {
    Slice(Ranked(catalog, vramGb, options), Limit(options))
  }

  predicate Supports(r: Recommendation) {
    r.fitLevel in {Perfect, Good} && Params(r) >= 3.0
  }

  predicate IsLocalChatViable(recommendations: seq<Recommendation>) {
    exists i :: 0 <= i < |recommendations| && Supports(recommendations[i])
  }

  // ----- What ranking and truncation guarantee -----

  predicate Admits(entry: Entry, options: Options) {
    PrefersOllama(options) ==> entry.runtime != Vllm
  }

  /** The entry runs comfortably on this GPU. */
  predicate Hosts(entry: Entry, vramGb: real, options: Options) {
    Admits(entry, options) && entry.minVramGb <= Usable(vramGb)
  }

  /** The list is the best part of the admissible entries: nothing left out ranks above anything kept. */
  lemma TruncationKeepsBest(catalog: seq<Entry>, vramGb: real, options: Options)
    ensures var ranked := Ranked(catalog, vramGb, options);
            var kept := Recommend(catalog, vramGb, options);
      && kept <= ranked
      && (Limit(options) >= 0 ==> |kept| == Min(Limit(options), |ranked|))
      && IsSorted(kept)
      && (forall a, b :: a in kept && b in ranked[|kept|..] ==> NotAfter(a, b))
      && multiset(ranked) == multiset(Filter(Scores(catalog, Usable(vramGb)), Fits(PrefersOllama(options))))
  {
    hide Sort, Filter, NotAfter, Fits;
    SortSorts(Filter(Scores(catalog, Usable(vramGb)), Fits(PrefersOllama(options))));
  }

  lemma ComfortableMeansEnough(vram: real, minVramGb: real)
    requires vram >= 0.0
    ensures FitLevelForVram(vram, minVramGb) in {Perfect, Good} <==> minVramGb <= vram
  {
  }

  lemma RankedMember(catalog: seq<Entry>, vramGb: real, options: Options, r: Recommendation)
    ensures r in Ranked(catalog, vramGb, options) <==>
      r in Scores(catalog, Usable(vramGb)) && Fits(PrefersOllama(options))(r)
  {
    hide Sort, Filter, Fits, IsSorted, KeepsTies;
    var fitting := Filter(Scores(catalog, Usable(vramGb)), Fits(PrefersOllama(options)));
    SortSorts(fitting);
    FilterMember(Scores(catalog, Usable(vramGb)), Fits(PrefersOllama(options)), r);
    assert r in Sort(fitting) <==> r in multiset(Sort(fitting));
    assert r in fitting <==> r in multiset(fitting);
  }

  predicate AllSizable(catalog: seq<Entry>) {
    forall e :: e in catalog ==> e.paramsB >= 3.0
  }

  /** The head of the ranking fits at least as well as any admissible entry. */
  lemma FirstIsBest(catalog: seq<Entry>, vramGb: real, options: Options, r: Recommendation)
    requires r in Ranked(catalog, vramGb, options)
    ensures var ranked := Ranked(catalog, vramGb, options);
      ranked != [] && LevelOrder(ranked[0].fitLevel) <= LevelOrder(r.fitLevel)
  {
    hide Sort, Filter, Scores;
    var ranked := Ranked(catalog, vramGb, options);
    SortSorts(Filter(Scores(catalog, Usable(vramGb)), Fits(PrefersOllama(options))));
    var i :| 0 <= i < |ranked| && ranked[i] == r;
    assert i > 0 ==> NotAfter(ranked[0], ranked[i]);
  }

  lemma ViableMeansHosted(catalog: seq<Entry>, vramGb: real, options: Options)
    requires IsLocalChatViable(Recommend(catalog, vramGb, options))
    ensures exists e :: e in catalog && Hosts(e, vramGb, options)
  {
    hide Ranked, FitLevelForVram;
    var vram := Usable(vramGb);
    var scores, ranked, kept := Scores(catalog, vram), Ranked(catalog, vramGb, options),
        Recommend(catalog, vramGb, options);
    var i :| 0 <= i < |kept| && Supports(kept[i]);
    assert kept[i] == ranked[i];
    RankedMember(catalog, vramGb, options, ranked[i]);
    var j :| 0 <= j < |scores| && scores[j] == ranked[i];
    ComfortableMeansEnough(vram, catalog[j].minVramGb);
    assert catalog[j] in catalog && Hosts(catalog[j], vramGb, options);
  }

  lemma HostedMeansViable(catalog: seq<Entry>, vramGb: real, options: Options, e: Entry)
    requires AllSizable(catalog) && Limit(options) >= 1
    requires e in catalog && Hosts(e, vramGb, options)
    ensures IsLocalChatViable(Recommend(catalog, vramGb, options))
  {
    hide Ranked, FitLevelForVram, Limit;
    var vram := Usable(vramGb);
    var scores, ranked, kept := Scores(catalog, vram), Ranked(catalog, vramGb, options),
        Recommend(catalog, vramGb, options);
    var j :| 0 <= j < |catalog| && catalog[j] == e;
    ComfortableMeansEnough(vram, e.minVramGb);
    RankedMember(catalog, vramGb, options, scores[j]);
    FirstIsBest(catalog, vramGb, options, scores[j]);
    RankedMember(catalog, vramGb, options, ranked[0]);
    var k :| 0 <= k < |scores| && scores[k] == ranked[0];
    assert catalog[k] in catalog;
    assert kept[0] == ranked[0] && Supports(kept[0]);
  }

  /** Cutting the ranked list short never hides that local chat is possible. */
  lemma TruncationKeepsViability(catalog: seq<Entry>, vramGb: real, options: Options)
    requires AllSizable(catalog) && Limit(options) >= 1
    ensures IsLocalChatViable(Recommend(catalog, vramGb, options)) <==>
              exists e :: e in catalog && Hosts(e, vramGb, options)
  {
    hide *;
    if IsLocalChatViable(Recommend(catalog, vramGb, options)) {
      ViableMeansHosted(catalog, vramGb, options);
    }
    if e :| e in catalog && Hosts(e, vramGb, options) {
      HostedMeansViable(catalog, vramGb, options, e);
    }
  }

  /** More memory never makes local chat impossible. */
  lemma ViabilityMonotone(catalog: seq<Entry>, vramGb: real, moreGb: real, options: Options)
    requires AllSizable(catalog) && Limit(options) >= 1 && vramGb <= moreGb
    requires IsLocalChatViable(Recommend(catalog, vramGb, options))
    ensures IsLocalChatViable(Recommend(catalog, moreGb, options))
  {
    hide Recommend, IsLocalChatViable;
    TruncationKeepsViability(catalog, vramGb, options);
    TruncationKeepsViability(catalog, moreGb, options);
    var e :| e in catalog && Hosts(e, vramGb, options);
    assert Hosts(e, moreGb, options);
  }

  predicate NeedsFour(e: Entry) {
    e.paramsB >= 3.0 && e.minVramGb >= 4.0
  }

  lemma OllamaFloor()
    ensures forall e :: e in OllamaCatalog() ==> NeedsFour(e)
    ensures exists e :: e in OllamaCatalog() && e.minVramGb == 4.0 && e.runtime == Ollama
  {
    assert OllamaCatalog()[0] in OllamaCatalog();
  }

  lemma VllmFloor()
    ensures forall e :: e in VllmCatalog() ==> NeedsFour(e)
  {
  }

  lemma CatalogFloor()
    ensures forall e :: e in Catalog() ==> NeedsFour(e)
    ensures exists e :: e in Catalog() && e.minVramGb == 4.0 && e.runtime == Ollama
  {
    hide OllamaCatalog, VllmCatalog, NeedsFour;
    OllamaFloor();
    VllmFloor();
    var e :| e in OllamaCatalog() && e.minVramGb == 4.0 && e.runtime == Ollama;
    assert e in Catalog();
  }

  /** With the shipped catalog, 4 GB is the line, for either target and whatever the preference. */
  lemma ShippedThreshold(vramGb: real, options: Options)
    requires Limit(options) >= 1
    ensures IsLocalChatViable(Recommend(Catalog(), vramGb, options)) <==> vramGb >= 4.0
  {
    hide Recommend, IsLocalChatViable, Catalog, Limit;
    CatalogFloor();
    TruncationKeepsViability(Catalog(), vramGb, options);
    if vramGb >= 4.0 {
      var e :| e in Catalog() && e.minVramGb == 4.0 && e.runtime == Ollama;
      assert Hosts(e, vramGb, options);
    }
  }

  const TINY := Entry("Tiny", "tiny:1b", 1.0, 1.0, Ollama)
  const ROOMY := Entry("Roomy", "roomy:7b", 7.0, 6.0, Ollama)

  /** A catalog with smaller models can lose it: a tiny model that fits better takes the only place. */
  lemma SmallModelHidesViability()
    ensures var options := Options(Local, Some(1), None);
      Hosts(ROOMY, 6.0, options) && !IsLocalChatViable(Recommend([TINY, ROOMY], 6.0, options))
  {
    var options := Options(Local, Some(1), None);
    var tiny, roomy := Score(TINY, 6.0), Score(ROOMY, 6.0);
    assert Scores([TINY, ROOMY], 6.0) == [tiny] + ([roomy] + []);
    FilterStep(tiny, [roomy] + [], Fits(true));
    FilterStep(roomy, [], Fits(true));
    assert tiny.fitLevel == Perfect && roomy.fitLevel == Good;
    assert Sort([roomy]) == [roomy];
    assert [tiny, roomy][1..] == [roomy];
    assert Ranked([TINY, ROOMY], 6.0, options) == [tiny, roomy];
    assert Recommend([TINY, ROOMY], 6.0, options) == [tiny];
  }

  // ----- The ranking, spelled out -----

  /** With 15 percent headroom a fit is perfect; below 72 percent of the requirement it is too tight. */
  lemma LevelExactly(vram: real, minVramGb: real)
    requires minVramGb > 0.0
    ensures FitLevelForVram(vram, minVramGb) == Perfect <==> 100.0 * vram >= 115.0 * minVramGb
    ensures FitLevelForVram(vram, minVramGb) == TooTight <==> 100.0 * vram < 72.0 * minVramGb
  {
  }

  /** An entry is ranked exactly if it is not too tight, and needs no vLLM where Ollama is preferred. */
  lemma RankedExactly(catalog: seq<Entry>, vramGb: real, options: Options, r: Recommendation)
    ensures r in Ranked(catalog, vramGb, options) <==>
              (exists i :: 0 <= i < |catalog| && r == Score(catalog[i], if vramGb > 0.0 then vramGb else 0.0))
              && r.fitLevel != TooTight
              && (options.preferOllama == Some(true) || (options.preferOllama.None? && options.target == Local) ==>
                    r.runtime != Vllm)
  {
    RankedMember(catalog, vramGb, options, r);
    hide Ranked, Score;
    var scores := Scores(catalog, Usable(vramGb));
    assert forall i :: 0 <= i < |catalog| ==> scores[i] == Score(catalog[i], Usable(vramGb));
  }

  /**
   * In the list, better fits come first; among equal fits, Ollama models; and among those, larger models. Without a
   * limit it has at most six entries.
   */
  lemma ListExactly(catalog: seq<Entry>, vramGb: real, options: Options, i: nat, j: nat)
    requires i < j < |Recommend(catalog, vramGb, options)|
    ensures var list := Recommend(catalog, vramGb, options);
            && (list[j].fitLevel == Perfect ==> list[i].fitLevel == Perfect)
            && (list[i].fitLevel == Marginal ==> list[j].fitLevel == Marginal)
            && (list[i].fitLevel == list[j].fitLevel && list[j].runtime == Ollama ==> list[i].runtime == Ollama)
            && (list[i].fitLevel == list[j].fitLevel && (list[i].runtime == Ollama <==> list[j].runtime == Ollama) ==>
                  Params(list[i]) >= Params(list[j]))
            && list[i].fitLevel != TooTight && list[j].fitLevel != TooTight
            && (options.limit.None? ==> |list| <= 6)
  {
    TruncationKeepsBest(catalog, vramGb, options);
    var ranked, list := Ranked(catalog, vramGb, options), Recommend(catalog, vramGb, options);
    RankedExactly(catalog, vramGb, options, list[i]);
    RankedExactly(catalog, vramGb, options, list[j]);
    assert list[i] == ranked[i] && list[j] == ranked[j];
    assert NotAfter(list[i], list[j]);
    hide Ranked, Recommend, Score, IsSorted;
  }
}
