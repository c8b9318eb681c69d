/** When restoring a translated text puts every stashed token back: scripts/translate_locales.py. */
module PlaceholderProperties {
  import opened Sequences
  import opened Text
  import opened Placeholders

  // ----- Text with markers as symbols -----

  /** One character, or one whole marker. */
  datatype Symbol = Ch(c: char) | Mark(k: nat)

  function Show(x: Symbol): string {
    match x
    case Ch(c) => [c]
    case Mark(k) => Marker(k)
  }

  function Render(ps: seq<Symbol>): string {
    if ps == [] then "" else Show(ps[0]) + Render(ps[1..])
  }

  function Chars(s: string): (r: seq<Symbol>)
    ensures |r| == |s| && forall i :: 0 <= i < |s| ==> r[i] == Ch(s[i])
  {
    if s == [] then [] else [Ch(s[0])] + Chars(s[1..])
  }

  function FirstCh(ps: seq<Symbol>, c: char): (n: nat)
    ensures n <= |ps|
    ensures n < |ps| ==> ps[n] == Ch(c)
    ensures forall i :: 0 <= i < n ==> ps[i] != Ch(c)
  {
    if ps == [] || ps[0] == Ch(c) then 0 else 1 + FirstCh(ps[1..], c)
  }

  function SymbolMatch(pattern: Pattern, ps: seq<Symbol>): (n: nat)
    ensures n <= |ps|
  {
    match pattern
    case Tag =>
      if ps == [] || ps[0] != Ch('<') then 0
      else
        var inner := FirstCh(ps[1..], '>');
        if inner >= 1 && inner + 1 < |ps| then inner + 2 else 0
    case Brace =>
      if |ps| < 2 || ps[0] != Ch('{') || ps[1] != Ch('{') then 0
      else
        var inner := FirstCh(ps[2..], '}');
        if inner >= 1 && inner + 3 < |ps| && ps[inner + 3] == Ch('}') then inner + 4 else 0
  }

  /** Stashing on symbols: what remains, and the tokens; `k` numbers the first marker. */
  function Lift(pattern: Pattern, ps: seq<Symbol>, k: nat): (seq<Symbol>, seq<seq<Symbol>>)
    decreases |ps|
  {
    if ps == [] then ([], [])
    else
      var n := SymbolMatch(pattern, ps);
      if n > 0 then
        var (rest, tokens) := Lift(pattern, ps[n..], k + 1);
        ([Mark(k)] + rest, [ps[..n]] + tokens)
      else
        var (rest, tokens) := Lift(pattern, ps[1..], k);
        ([ps[0]] + rest, tokens)
  }

  function RenderAll(tokens: seq<seq<Symbol>>): (r: seq<string>)
    ensures |r| == |tokens| && forall i :: 0 <= i < |r| ==> r[i] == Render(tokens[i])
  {
    if tokens == [] then [] else [Render(tokens[0])] + RenderAll(tokens[1..])
  }

  predicate MarkerChar(c: char) {
    c == '_' || c == 'P' || c == 'H' || IsDigit(c)
  }

  lemma MarkerShape(k: nat)
    ensures |Marker(k)| >= 7
    ensures forall i :: 0 <= i < |Marker(k)| ==> MarkerChar(Marker(k)[i])
    ensures Marker(k)[0] == '_' && Marker(k)[1] == '_' && Marker(k)[2] == 'P' && Marker(k)[3] == 'H'
              && IsDigit(Marker(k)[4])
    ensures forall i :: 2 <= i < |Marker(k)| - 2 ==> Marker(k)[i] != '_'
    ensures forall i :: |Marker(k)| - 2 <= i < |Marker(k)| ==> Marker(k)[i] == '_'
  {
    DigitsAreDigits(k);
  }

  lemma RenderStep(x: Symbol, rest: seq<Symbol>)
    ensures Render([x] + rest) == Show(x) + Render(rest)
  {
    assert ([x] + rest)[1..] == rest;
  }

  lemma {:induction false} RenderConcat(a: seq<Symbol>, b: seq<Symbol>)
    ensures Render(a + b) == Render(a) + Render(b)
  {
    if a == [] {
      assert a + b == b;
    } else {
      hide Render, Show;
      var x, rest := a[0], a[1..];
      assert a == [x] + rest && a + b == [x] + (rest + b);
      RenderStep(x, rest);
      RenderStep(x, rest + b);
      RenderConcat(rest, b);
      AppendAssoc(Show(x), Render(rest), Render(b));
    }
  }

  lemma {:induction false} RenderChars(s: string)
    ensures Render(Chars(s)) == s
  {
    if s != [] {
      RenderChars(s[1..]);
      assert Chars(s)[1..] == Chars(s[1..]);
    }
  }

  lemma {:induction false} FirstIndexSkips(w: string, s: string, c: char)
    requires forall i :: 0 <= i < |w| ==> w[i] != c
    ensures FirstIndex(w + s, c) == |w| + FirstIndex(s, c)
  {
    if w == [] {
      assert w + s == s;
    } else {
      assert (w + s)[1..] == w[1..] + s;
      FirstIndexSkips(w[1..], s, c);
    }
  }

  lemma {:induction false} FirstIndexRender(ps: seq<Symbol>, c: char)
    requires !MarkerChar(c)
    ensures FirstIndex(Render(ps), c) == |Render(ps[..FirstCh(ps, c)])|
    ensures FirstCh(ps, c) <= |Render(ps[..FirstCh(ps, c)])|
  {
    if ps == [] {
    } else if ps[0] == Ch(c) {
      assert ps[..0] == [];
    } else {
      var x, rest := ps[0], ps[1..];
      var n := FirstCh(rest, c);
      assert FirstCh(ps, c) == 1 + n && ps == [x] + rest;
      hide Render, FirstIndex, FirstCh;
      assert ps[..1 + n] == [x] + rest[..n];
      FirstIndexRender(rest, c);
      RenderStep(x, rest);
      RenderStep(x, rest[..n]);
      ShownAvoids(x, c);
      hide Show;
      FirstIndexSkips(Show(x), Render(rest), c);
    }
  }

  lemma ShownAvoids(x: Symbol, c: char)
    requires !MarkerChar(c) && x != Ch(c)
    ensures |Show(x)| >= 1 && forall i :: 0 <= i < |Show(x)| ==> Show(x)[i] != c
  {
    if x.Mark? { MarkerShape(x.k); }
  }

  lemma RenderAt(ps: seq<Symbol>, n: nat)
    requires n <= |ps|
    ensures Render(ps) == Render(ps[..n]) + Render(ps[n..])
  {
    hide Render;
    RenderConcat(ps[..n], ps[n..]);
    assert ps == ps[..n] + ps[n..];
  }

  /** Rendering never merges symbols: matches on the text are matches on the symbols. */
  lemma MatchRender(pattern: Pattern, ps: seq<Symbol>)
    ensures MatchLength(pattern, Render(ps)) == |Render(ps[..SymbolMatch(pattern, ps)])|
    ensures SymbolMatch(pattern, ps) <= MatchLength(pattern, Render(ps))
  {
    match pattern
    case Tag => TagRender(ps);
    case Brace => BraceRender(ps);
  }

  lemma FirstShown(ps: seq<Symbol>, c: char)
    requires !MarkerChar(c)
    ensures (Render(ps) != [] && Render(ps)[0] == c) <==> (ps != [] && ps[0] == Ch(c))
    ensures ps != [] && ps[0] == Ch(c) ==> Render(ps)[1..] == Render(ps[1..])
    ensures ps == [] <==> Render(ps) == []
  {
    if ps != [] && ps[0].Mark? { MarkerShape(ps[0].k); }
  }

  lemma RenderSnoc(ps: seq<Symbol>, i: nat)
    requires i < |ps|
    ensures Render(ps[..i + 1]) == Render(ps[..i]) + Show(ps[i])
  {
    hide Show;
    assert ps[..i + 1] == ps[..i] + [ps[i]];
    RenderConcat(ps[..i], [ps[i]]);
    RenderStep(ps[i], []);
    assert [ps[i]] + [] == [ps[i]] && Render([]) == "";
  }

  lemma RenderFront(x: Symbol, ps: seq<Symbol>, i: nat)
    requires 1 <= i <= |ps| && ps[0] == x
    ensures Render(ps[..i]) == Show(x) + Render(ps[1..][..i - 1])
  {
    assert ps[..i] == [x] + ps[1..][..i - 1];
    RenderStep(x, ps[1..][..i - 1]);
  }

  /** Where the closing character is, in symbols and in text. */
  lemma CloserRender(rest: seq<Symbol>, c: char)
    requires !MarkerChar(c)
    ensures var n, k := FirstCh(rest, c), FirstIndex(Render(rest), c);
            && k == |Render(rest[..n])| && n <= k && (n == 0 <==> k == 0)
            && (n < |rest| <==> k < |Render(rest)|)
            && (n < |rest| ==> Render(rest)[k + 1..] == Render(rest[n + 1..]) && |Render(rest[..n + 1])| == k + 1)
  {
    hide FirstIndex, MarkerChar, Render;
    var n := FirstCh(rest, c);
    FirstIndexRender(rest, c);
    if n == 0 { NothingRendered(rest[..0]); }
    RenderAt(rest, n);
    FirstShown(rest[n..], c);
    if n < |rest| {
      hide FirstCh;
      RenderSnoc(rest, n);
      ShowOne(c);
      RenderAt(rest, n + 1);
    }
  }

  lemma TagRender(ps: seq<Symbol>)
    ensures MatchLength(Tag, Render(ps)) == |Render(ps[..SymbolMatch(Tag, ps)])|
    ensures SymbolMatch(Tag, ps) <= MatchLength(Tag, Render(ps))
  {
    FirstShown(ps, '<');
    assert ps[..0] == [];
    if ps != [] && ps[0] == Ch('<') {
      CloserRender(ps[1..], '>');
      hide FirstIndex, FirstCh, MarkerChar;
      var n := SymbolMatch(Tag, ps);
      if n > 0 { RenderFront(ps[0], ps, n); }
    }
  }

  lemma BraceRender(ps: seq<Symbol>)
    ensures MatchLength(Brace, Render(ps)) == |Render(ps[..SymbolMatch(Brace, ps)])|
    ensures SymbolMatch(Brace, ps) <= MatchLength(Brace, Render(ps))
  {
    FirstShown(ps, '{');
    assert ps[..0] == [];
    if ps != [] && ps[0] == Ch('{') {
      FirstShown(ps[1..], '{');
      if |ps| >= 2 && ps[1] == Ch('{') {
        assert ps[1..][1..] == ps[2..] && Render(ps)[1..][1..] == Render(ps)[2..];
        BraceInner(ps, ps[2..]);
      }
    }
  }

  lemma BraceInner(ps: seq<Symbol>, rest: seq<Symbol>)
    requires |ps| >= 2 && ps[0] == ps[1] == Ch('{') && rest == ps[2..]
    requires |Render(ps)| >= 2 && Render(ps)[0] == Render(ps)[1] == '{' && Render(ps)[2..] == Render(rest)
    ensures MatchLength(Brace, Render(ps)) == |Render(ps[..SymbolMatch(Brace, ps)])|
    ensures SymbolMatch(Brace, ps) <= MatchLength(Brace, Render(ps))
  {
    assert !MarkerChar('}');
    hide FirstIndex, FirstCh, MarkerChar, Render, Show;
    CloserRender(rest, '}');
    NothingRendered(ps[..0]);
    var inner := FirstCh(rest, '}');
    if inner < |rest| {
      FirstShown(rest[inner + 1..], '}');
      if inner + 1 < |rest| { BraceWhole(ps, rest, inner); }
    }
  }

  lemma BraceWhole(ps: seq<Symbol>, rest: seq<Symbol>, inner: nat)
    requires |ps| >= 2 && ps[0] == ps[1] == Ch('{') && rest == ps[2..] && inner + 1 < |rest|
    ensures rest[inner + 1] == Ch('}') ==> |Render(ps[..inner + 4])| == |Render(rest[..inner + 1])| + 3
  {
    hide Render, Show;
    RenderFront(ps[0], ps, inner + 4);
    RenderFront(ps[1], ps[1..], inner + 3);
    assert ps[1..][1..] == rest;
    RenderSnoc(rest, inner + 1);
    ShowOne('{');
    ShowOne('}');
  }

  lemma NothingRendered(ps: seq<Symbol>)
    requires |ps| == 0
    ensures Render(ps) == ""
  {
  }

  lemma ShowOne(c: char)
    ensures |Show(Ch(c))| == 1
  {
  }

  lemma SkipStep(pattern: Pattern, c: char, s: string, tokens: seq<string>)
    requires c != '<' && c != '{'
    ensures Stash(pattern, [c] + s, tokens) == After([c], Stash(pattern, s, tokens))
  {
    assert ([c] + s)[1..] == s;
  }

  lemma AfterAfter(a: string, b: string, rest: Stashed)
    ensures After(a, After(b, rest)) == After(a + b, rest)
  {
    AppendAssoc(a, b, rest.text);
  }

  lemma {:induction false} StashSkips(pattern: Pattern, w: string, s: string, tokens: seq<string>)
    requires forall i :: 0 <= i < |w| ==> w[i] != '<' && w[i] != '{'
    ensures Stash(pattern, w + s, tokens) == After(w, Stash(pattern, s, tokens))
  {
    hide *;
    var rest := Stash(pattern, s, tokens);
    if w == [] {
      assert w + s == s;
      AfterNothing(rest);
    } else {
      SkipStep(pattern, w[0], w[1..] + s, tokens);
      StashSkips(pattern, w[1..], s, tokens);
      assert w + s == [w[0]] + (w[1..] + s);
      AfterAfter([w[0]], w[1..], rest);
      assert [w[0]] + w[1..] == w;
    }
  }

  lemma StashMatch(pattern: Pattern, w: string, s: string, tokens: seq<string>)
    requires w != "" && MatchLength(pattern, w + s) == |w|
    ensures Stash(pattern, w + s, tokens) == After(Marker(|tokens|), Stash(pattern, s, tokens + [w]))
  {
    hide MatchLength, Marker;
    assert (w + s)[..|w|] == w && (w + s)[|w|..] == s;
  }

  /** A symbol at which no match starts is passed over. */
  lemma StashPasses(pattern: Pattern, x: Symbol, s: string, tokens: seq<string>)
    requires MatchLength(pattern, Show(x) + s) == 0
    ensures Stash(pattern, Show(x) + s, tokens) == After(Show(x), Stash(pattern, s, tokens))
  {
    hide MatchLength, Marker;
    if x.Mark? {
      hide Stash, After;
      MarkerShape(x.k);
      StashSkips(pattern, Marker(x.k), s, tokens);
    } else {
      assert (Show(x) + s)[1..] == s;
    }
  }

  lemma RenderAllStep(token: seq<Symbol>, found: seq<seq<Symbol>>)
    ensures RenderAll([token] + found) == [Render(token)] + RenderAll(found)
  {
    hide Render;
    assert ([token] + found)[1..] == found;
  }

  lemma LiftStep(pattern: Pattern, ps: seq<Symbol>, k: nat)
    requires ps != []
    ensures var n := SymbolMatch(pattern, ps);
            Lift(pattern, ps, k)
            == if n > 0 then ([Mark(k)] + Lift(pattern, ps[n..], k + 1).0, [ps[..n]] + Lift(pattern, ps[n..], k + 1).1)
               else ([ps[0]] + Lift(pattern, ps[1..], k).0, Lift(pattern, ps[1..], k).1)
  {
    hide SymbolMatch;
  }

  /** Stashing on text is stashing on symbols. */
  lemma {:induction false} StashRender(pattern: Pattern, ps: seq<Symbol>, tokens: seq<string>)
    ensures var (rest, found) := Lift(pattern, ps, |tokens|);
            Stash(pattern, Render(ps), tokens) == Stashed(Render(rest), tokens + RenderAll(found))
    decreases |ps|
  {
    if ps != [] {
      LiftStep(pattern, ps, |tokens|);
      MatchRender(pattern, ps);
      hide Lift, Stash, MatchLength, SymbolMatch, Render, RenderAll, Marker;
      var n := SymbolMatch(pattern, ps);
      if n > 0 {
        RenderAt(ps, n);
        var w := Render(ps[..n]);
        var (rest, found) := Lift(pattern, ps[n..], |tokens| + 1);
        StashMatch(pattern, w, Render(ps[n..]), tokens);
        StashRender(pattern, ps[n..], tokens + [w]);
        RenderStep(Mark(|tokens|), rest);
        RenderAllStep(ps[..n], found);
        AppendAssoc(tokens, [w], RenderAll(found));
      } else {
        var (rest, found) := Lift(pattern, ps[1..], |tokens|);
        assert ps == [ps[0]] + ps[1..];
        NothingRendered(ps[..0]);
        RenderStep(ps[0], ps[1..]);
        StashPasses(pattern, ps[0], Render(ps[1..]), tokens);
        StashRender(pattern, ps[1..], tokens);
        RenderStep(ps[0], rest);
      }
    }
  }

  // ----- Undoing the stashing on symbols -----

  /** The symbols with every marker below `n` replaced by its meaning. */
  function Expand(ps: seq<Symbol>, meaning: seq<seq<Symbol>>): seq<Symbol> {
    if ps == [] then []
    else
      (if ps[0].Mark? && ps[0].k < |meaning| then meaning[ps[0].k] else [ps[0]]) + Expand(ps[1..], meaning)
  }

  /** One marker replaced everywhere. */
  function Subst(ps: seq<Symbol>, k: nat, token: seq<Symbol>): seq<Symbol> {
    if ps == [] then [] else (if ps[0] == Mark(k) then token else [ps[0]]) + Subst(ps[1..], k, token)
  }

  /** What stands between the underscores of a marker. */
  function Number(k: nat): string {
    "PH" + Digits(k)
  }

  /** The characters of `w` stand at position `i`. */
  predicate IsSpelledAt(ps: seq<Symbol>, w: string, i: nat) {
    i + |w| <= |ps| && ps[i..i + |w|] == Chars(w)
  }

  /** Outside the markers, the number of the marker of `k` is not spelled anywhere. */
  ghost predicate IsFreeOf(ps: seq<Symbol>, k: nat) {
    forall i: nat :: !IsSpelledAt(ps, Number(k), i)
  }

  lemma FreeTail(ps: seq<Symbol>, k: nat)
    requires ps != [] && IsFreeOf(ps, k)
    ensures IsFreeOf(ps[1..], k)
  {
    hide Number;
    var w := Number(k);
    forall i: nat ensures !IsSpelledAt(ps[1..], w, i) {
      assert !IsSpelledAt(ps, w, i + 1);
      if i + 1 + |w| <= |ps| {
        assert ps[1..][i..i + |w|] == ps[i + 1..i + 1 + |w|];
      }
    }
  }

  lemma {:induction false} ExpandConcat(a: seq<Symbol>, b: seq<Symbol>, meaning: seq<seq<Symbol>>)
    ensures Expand(a + b, meaning) == Expand(a, meaning) + Expand(b, meaning)
  {
    if a == [] {
      assert a + b == b;
    } else {
      hide Expand;
      var x, rest := a[0], a[1..];
      assert a == [x] + rest && a + b == [x] + (rest + b);
      ExpandStep(x, rest, meaning);
      ExpandStep(x, rest + b, meaning);
      ExpandConcat(rest, b, meaning);
      AppendAssoc(Expand([x], meaning), Expand(rest, meaning), Expand(b, meaning));
    }
  }

  lemma ExpandStep(x: Symbol, rest: seq<Symbol>, meaning: seq<seq<Symbol>>)
    ensures Expand([x] + rest, meaning) == Expand([x], meaning) + Expand(rest, meaning)
    ensures Expand([x], meaning) == if x.Mark? && x.k < |meaning| then meaning[x.k] else [x]
  {
    assert ([x] + rest)[1..] == rest;
    assert [x][1..] == [];
    assert Expand([], meaning) == [];
  }

  /** A run of characters stays one when markers around it are replaced. */
  lemma RunKept(ps: seq<Symbol>, i: nat, w: string, meaning: seq<seq<Symbol>>) returns (at: nat)
    requires IsSpelledAt(ps, w, i)
    ensures IsSpelledAt(Expand(ps, meaning), w, at)
  {
    hide Expand, Chars;
    var before, after := ps[..i], ps[i + |w|..];
    assert ps == before + (Chars(w) + after);
    ExpandConcat(before, Chars(w) + after, meaning);
    ExpandConcat(Chars(w), after, meaning);
    CharsArePlain(w);
    ExpandPlain(Chars(w), meaning);
    at := |Expand(before, meaning)|;
  }

  /** A number spelled in the symbols is spelled in what they mean. */
  lemma FreeFromExpansion(ps: seq<Symbol>, meaning: seq<seq<Symbol>>, k: nat)
    requires IsFreeOf(Expand(ps, meaning), k)
    ensures IsFreeOf(ps, k)
  {
    hide Expand, Number, IsSpelledAt;
    forall i: nat ensures !IsSpelledAt(ps, Number(k), i) {
      if IsSpelledAt(ps, Number(k), i) {
        var at := RunKept(ps, i, Number(k), meaning);
      }
    }
  }

  // ----- Replacing one marker in the text -----

  lemma MarkerPrefix(j: nat, k: nat, a: string)
    requires Marker(k) <= Marker(j) + a
    ensures j == k
  {
    MarkerShape(j);
    MarkerShape(k);
    var m, n := Marker(j), Marker(k);
    var t := m + a;
    assert t[|n| - 2] == n[|n| - 2] && t[|m| - 2] == m[|m| - 2];
    assert |m| == |n| by {
      assert forall i :: 0 <= i < |n| ==> t[i] == n[i];
      assert forall i :: 0 <= i < |m| ==> t[i] == m[i];
    }
    assert m == n;
    assert Digits(j) == m[4..|m| - 2] && Digits(k) == n[4..|n| - 2];
    DigitsInjective(j, k);
  }

  lemma CharShown(ps: seq<Symbol>)
    requires Render(ps) != [] && Render(ps)[0] != '_'
    ensures ps != [] && ps[0] == Ch(Render(ps)[0]) && Render(ps)[1..] == Render(ps[1..])
  {
    if ps[0].Mark? { MarkerShape(ps[0].k); }
  }

  /** Text without underscores is shown by characters only. */
  lemma {:induction false} WordShown(ps: seq<Symbol>, w: string)
    requires w <= Render(ps) && '_' !in w
    ensures |w| <= |ps| && ps[..|w|] == Chars(w)
  {
    hide Render;
    if w == "" {
      assert ps[..0] == [];
    } else {
      CharShown(ps);
      assert Render(ps)[0] == w[0] && w[1..] <= Render(ps[1..]);
      WordShown(ps[1..], w[1..]);
      assert ps[..|w|] == [ps[0]] + ps[1..][..|w| - 1];
    }
  }

  lemma NumberShape(k: nat)
    ensures Marker(k) == "__" + Number(k) + "__" && |Number(k)| >= 3 && Number(k)[0] == 'P' && '_' !in Number(k)
  {
    DigitsAreDigits(k);
  }

  lemma NumberNotShown(ps: seq<Symbol>, k: nat)
    requires IsFreeOf(ps, k)
    ensures !(Number(k) <= Render(ps))
  {
    NumberShape(k);
    hide Render, Number;
    assert !IsSpelledAt(ps, Number(k), 0);
    if Number(k) <= Render(ps) {
      WordShown(ps, Number(k));
    }
  }

  /** What follows equally long beginnings. */
  lemma BehindPrefix(x: string, w: string, y: string, s: string)
    requires |x| == |y|
    ensures x + w <= y + s ==> w <= s
  {
    assert (x + w)[|x|..] == w && (y + s)[|y|..] == s;
  }

  lemma PrefixOfPrefix(a: string, b: string, s: string)
    ensures a + b <= s ==> a <= s
  {
  }

  lemma UnderscoreNumberNotShown(ps: seq<Symbol>, k: nat)
    requires IsFreeOf(ps, k)
    ensures !("_" + Number(k) <= Render(ps))
  {
    NumberShape(k);
    if ps != [] {
      FreeTail(ps, k);
      NumberNotShown(ps[1..], k);
      hide IsFreeOf, Number, Marker;
      if ps[0].Mark? {
        MarkerShape(ps[0].k);
        assert ("_" + Number(k))[1] == 'P';
      } else {
        BehindPrefix("_", Number(k), [ps[0].c], Render(ps[1..]));
      }
    }
  }

  /** A marker never starts at an ordinary character of a text that does not spell its number. */
  lemma MarkerNotAtChar(ps: seq<Symbol>, k: nat)
    requires ps != [] && ps[0].Ch? && IsFreeOf(ps, k)
    ensures !(Marker(k) <= Render(ps))
  {
    NumberShape(k);
    FreeTail(ps, k);
    UnderscoreNumberNotShown(ps[1..], k);
    var w := "_" + Number(k);
    assert Render(ps) == [ps[0].c] + Render(ps[1..]);
    hide Render, Marker, IsFreeOf, Number;
    assert Marker(k) == "_" + (w + "__");
    BehindPrefix("_", w + "__", [ps[0].c], Render(ps[1..]));
    PrefixOfPrefix(w, "__", Render(ps[1..]));
  }

  lemma PrefixIndex(m: string, s: string)
    requires m <= s
    ensures |m| <= |s| && forall i :: 0 <= i < |m| ==> s[i] == m[i]
  {
  }

  /** Nor does the marker of `k` start inside the marker of another number. */
  lemma MarkerNotInside(j: nat, p: nat, rest: seq<Symbol>, k: nat)
    requires j != k && p < |Marker(j)| && IsFreeOf(rest, k)
    ensures !(Marker(k) <= Marker(j)[p..] + Render(rest))
  {
    MarkerShape(j);
    MarkerShape(k);
    var m, n, r := Marker(j), Marker(k), Render(rest);
    var s := m[p..] + r;
    if n <= s {
      PrefixIndex(n, s);
      if p == 0 {
        assert m[0..] == m;
        MarkerPrefix(j, k, r);
      } else if p >= |m| - 2 {
        assert m[p..] == if p == |m| - 1 then "_" else "__";
      }
    }
    MarkerNotBehind(rest, k);
  }

  lemma MarkerNotBehind(rest: seq<Symbol>, k: nat)
    requires IsFreeOf(rest, k)
    ensures !(Marker(k) <= "_" + Render(rest)) && !(Marker(k) <= "__" + Render(rest))
  {
    NumberShape(k);
    NumberNotShown(rest, k);
    UnderscoreNumberNotShown(rest, k);
    hide IsFreeOf, Number, Marker, Render;
    var w, r := Number(k), Render(rest);
    assert Marker(k) == "_" + (("_" + w) + "__") == "__" + (w + "__");
    BehindPrefix("_", ("_" + w) + "__", "_", r);
    PrefixOfPrefix("_" + w, "__", r);
    BehindPrefix("__", w + "__", "__", r);
    PrefixOfPrefix(w, "__", r);
  }

  lemma ReplaceSkip(s: string, m: string, n: string)
    requires m != [] && s != [] && !(m <= s)
    ensures ReplaceAll(s, m, n) == [s[0]] + ReplaceAll(s[1..], m, n)
  {
    if |s| < |m| {
      assert ReplaceAll(s[1..], m, n) == s[1..];
    }
  }

  lemma {:induction false} ReplacePass(j: nat, p: nat, rest: seq<Symbol>, k: nat, n: string)
    requires j != k && p <= |Marker(j)| && IsFreeOf(rest, k)
    ensures ReplaceAll(Marker(j)[p..] + Render(rest), Marker(k), n)
              == Marker(j)[p..] + ReplaceAll(Render(rest), Marker(k), n)
    decreases |Marker(j)| - p
  {
    hide Marker, Render, IsFreeOf;
    var m, r := Marker(j), Render(rest);
    MarkerShape(k);
    if p == |m| {
      assert m[p..] + r == r;
    } else {
      MarkerNotInside(j, p, rest, k);
      DropNext(m, p);
      AppendAssoc([m[p]], m[p + 1..], r);
      ReplaceSkip(m[p..] + r, Marker(k), n);
      assert (m[p..] + r)[1..] == m[p + 1..] + r;
      ReplacePass(j, p + 1, rest, k, n);
      AppendAssoc([m[p]], m[p + 1..], ReplaceAll(r, Marker(k), n));
    }
  }

  /** In a text that does not spell its number, replace-all of a marker touches that marker only. */
  lemma {:induction false} ReplaceRender(ps: seq<Symbol>, k: nat, token: seq<Symbol>)
    requires IsFreeOf(ps, k)
    ensures Marker(k) != [] && ReplaceAll(Render(ps), Marker(k), Render(token)) == Render(Subst(ps, k, token))
  {
    MarkerShape(k);
    if ps != [] {
      var x, rest := ps[0], ps[1..];
      FreeTail(ps, k);
      ReplaceRender(rest, k, token);
      RenderConcat(if x == Mark(k) then token else [x], Subst(rest, k, token));
      ShowSingle(x);
      if x == Mark(k) {
        assert Render(ps)[|Marker(k)|..] == Render(rest);
      } else if x.Mark? {
        ReplacePass(x.k, 0, rest, k, Render(token));
        assert Marker(x.k)[0..] == Marker(x.k);
      } else {
        MarkerNotAtChar(ps, k);
        ReplaceSkip(Render(ps), Marker(k), Render(token));
        assert Render(ps)[1..] == Render(rest);
      }
    }
  }

  lemma ShowSingle(x: Symbol)
    ensures Render([x]) == Show(x)
  {
    assert Render([]) == "";
  }

  // ----- Restoring all markers -----

  function SubstFrom(ps: seq<Symbol>, tokens: seq<seq<Symbol>>, i: nat): seq<Symbol>
    requires i <= |tokens|
    decreases |tokens| - i
  {
    if i == |tokens| then ps else SubstFrom(Subst(ps, i, tokens[i]), tokens, i + 1)
  }

  /** `meaning` gives each token its full meaning. */
  predicate Explains(meaning: seq<seq<Symbol>>, tokens: seq<seq<Symbol>>) {
    |meaning| == |tokens| && forall i :: 0 <= i < |tokens| ==> meaning[i] == Expand(tokens[i], meaning)
  }

  lemma {:induction false} SubstKeepsMeaning(ps: seq<Symbol>, k: nat, tokens: seq<seq<Symbol>>,
                                             meaning: seq<seq<Symbol>>)
    requires k < |tokens| && Explains(meaning, tokens)
    ensures Expand(Subst(ps, k, tokens[k]), meaning) == Expand(ps, meaning)
  {
    if ps != [] {
      var x, rest := ps[0], ps[1..];
      SubstKeepsMeaning(rest, k, tokens, meaning);
      ExpandConcat(if x == Mark(k) then tokens[k] else [x], Subst(rest, k, tokens[k]), meaning);
      ExpandStep(x, rest, meaning);
      assert ps == [x] + rest;
    }
  }

  /** No number of a stashed token is spelled. */
  ghost predicate IsFreeFrom(ps: seq<Symbol>, i: nat, n: nat) {
    forall k :: i <= k < n ==> IsFreeOf(ps, k)
  }

  /** Restoring text is substituting symbols, whenever what the text means does not spell the numbers of its tokens. */
  lemma {:induction false} RestoreRender(ps: seq<Symbol>, tokens: seq<seq<Symbol>>, meaning: seq<seq<Symbol>>, i: nat)
    requires i <= |tokens| && Explains(meaning, tokens)
    requires IsFreeFrom(Expand(ps, meaning), i, |tokens|)
    ensures RestoredFrom(Render(ps), RenderAll(tokens), i) == Render(SubstFrom(ps, tokens, i))
    ensures Expand(SubstFrom(ps, tokens, i), meaning) == Expand(ps, meaning)
    decreases |tokens| - i
  {
    if i < |tokens| {
      FreeFromExpansion(ps, meaning, i);
      hide IsFreeOf, Expand, Render, ReplaceAll, Marker, Explains, Subst;
      ReplaceRender(ps, i, tokens[i]);
      SubstKeepsMeaning(ps, i, tokens, meaning);
      RestoreRender(Subst(ps, i, tokens[i]), tokens, meaning, i + 1);
    }
  }

  predicate HasMark(ps: seq<Symbol>, k: nat) {
    Mark(k) in ps
  }

  predicate IsPlain(ps: seq<Symbol>) {
    forall i :: 0 <= i < |ps| ==> ps[i].Ch?
  }

  lemma {:induction false} SubstMarks(ps: seq<Symbol>, k: nat, token: seq<Symbol>, j: nat)
    ensures HasMark(Subst(ps, k, token), j) <==> (j != k && HasMark(ps, j)) || (HasMark(ps, k) && HasMark(token, j))
  {
    if ps != [] {
      SubstMarks(ps[1..], k, token, j);
      assert ps == [ps[0]] + ps[1..];
    }
  }

  /** Which markers are left when all tokens from `i` on have been put back. */
  lemma {:induction false} MarksLeft(ps: seq<Symbol>, tokens: seq<seq<Symbol>>, i: nat, j: nat)
    requires i <= |tokens|
    requires forall t: nat, m: nat :: t < |tokens| && HasMark(tokens[t], m) ==> m < t
    ensures HasMark(SubstFrom(ps, tokens, i), j) <==>
              (HasMark(ps, j) && !(i <= j < |tokens|))
                  || (exists t :: i <= t < |tokens| && HasMark(ps, t) && HasMark(tokens[t], j))
    decreases |tokens| - i
  {
    hide HasMark, Subst;
    if i < |tokens| {
      var next := Subst(ps, i, tokens[i]);
      forall m ensures HasMark(next, m) <==> (m != i && HasMark(ps, m)) || (HasMark(ps, i) && HasMark(tokens[i], m)) {
        SubstMarks(ps, i, tokens[i], m);
      }
      MarksLeft(next, tokens, i + 1, j);
    }
  }

  // ----- What stashing leaves and takes -----

  lemma MarkIn(x: Symbol, rest: seq<Symbol>, j: nat)
    ensures HasMark([x] + rest, j) <==> x == Mark(j) || HasMark(rest, j)
  {
  }

  lemma MarkInParts(ps: seq<Symbol>, n: nat, j: nat)
    requires n <= |ps|
    ensures HasMark(ps, j) <==> HasMark(ps[..n], j) || HasMark(ps[n..], j)
  {
    assert ps == ps[..n] + ps[n..];
  }

  /** Each stashed match leaves its marker; nothing else is added, and tokens hold what was matched. */
  lemma {:induction false} LiftMarks(pattern: Pattern, ps: seq<Symbol>, k: nat)
    ensures forall j: nat :: k <= j < k + |Lift(pattern, ps, k).1| ==> HasMark(Lift(pattern, ps, k).0, j)
    ensures forall j: nat :: HasMark(Lift(pattern, ps, k).0, j) ==>
              k <= j < k + |Lift(pattern, ps, k).1| || HasMark(ps, j)
    decreases |ps|
  {
    hide HasMark, SymbolMatch;
    if ps == [] {
      forall j: nat ensures !HasMark([], j) { NoMark(j); }
    } else {
      var n := SymbolMatch(pattern, ps);
      var m, next, x := if n > 0 then n else 1, if n > 0 then k + 1 else k, if n > 0 then Mark(k) else ps[0];
      var (rest, found) := Lift(pattern, ps[m..], next);
      LiftMarks(pattern, ps[m..], next);
      forall j: nat
        ensures HasMark([x] + rest, j) <==> x == Mark(j) || HasMark(rest, j)
        ensures HasMark(ps, j) <==> HasMark(ps[..m], j) || HasMark(ps[m..], j)
        ensures HasMark(ps[..1], j) <==> ps[0] == Mark(j)
      {
        MarkIn(x, rest, j);
        MarkInParts(ps, m, j);
        FirstMark(ps, j);
      }
      var all := if n > 0 then [ps[..n]] + found else found;
      assert Lift(pattern, ps, k) == ([x] + rest, all);
    }
  }

  lemma {:induction false} TokenMarks(pattern: Pattern, ps: seq<Symbol>, k: nat, t: nat, j: nat)
    requires t < |Lift(pattern, ps, k).1| && HasMark(Lift(pattern, ps, k).1[t], j)
    ensures HasMark(ps, j)
    decreases |ps|
  {
    hide HasMark, SymbolMatch;
    var n := SymbolMatch(pattern, ps);
    if n > 0 {
      MarkInParts(ps, n, j);
      if t > 0 { TokenMarks(pattern, ps[n..], k + 1, t - 1, j); }
    } else {
      MarkInParts(ps, 1, j);
      TokenMarks(pattern, ps[1..], k, t, j);
    }
  }

  lemma FirstMark(ps: seq<Symbol>, j: nat)
    requires ps != []
    ensures HasMark(ps[..1], j) <==> ps[0] == Mark(j)
  {
    assert ps[..1] == [ps[0]];
  }

  lemma NoMark(j: nat)
    ensures !HasMark([], j)
  {
  }

  function MeaningsOf(tokens: seq<seq<Symbol>>, meaning: seq<seq<Symbol>>): (r: seq<seq<Symbol>>)
    ensures |r| == |tokens|
  {
    if tokens == [] then [] else [Expand(tokens[0], meaning)] + MeaningsOf(tokens[1..], meaning)
  }

  lemma {:induction false} MeaningAt(tokens: seq<seq<Symbol>>, meaning: seq<seq<Symbol>>, i: nat)
    requires i < |tokens|
    ensures MeaningsOf(tokens, meaning)[i] == Expand(tokens[i], meaning)
  {
    if i > 0 {
      MeaningAt(tokens[1..], meaning, i - 1);
    }
  }

  /** The entries of `meaning` from `k` on explain the tokens. */
  predicate ExplainsFrom(k: nat, tokens: seq<seq<Symbol>>, meaning: seq<seq<Symbol>>) {
    k + |tokens| <= |meaning| && meaning[k..k + |tokens|] == MeaningsOf(tokens, meaning)
  }

  lemma MeaningsStep(token: seq<Symbol>, rest: seq<seq<Symbol>>, meaning: seq<seq<Symbol>>)
    ensures MeaningsOf([token] + rest, meaning) == [Expand(token, meaning)] + MeaningsOf(rest, meaning)
  {
    assert ([token] + rest)[1..] == rest;
  }

  lemma ExplainsTail(k: nat, token: seq<Symbol>, rest: seq<seq<Symbol>>, meaning: seq<seq<Symbol>>)
    requires ExplainsFrom(k, [token] + rest, meaning)
    ensures ExplainsFrom(k + 1, rest, meaning) && meaning[k] == Expand(token, meaning)
  {
    var all := [token] + rest;
    MeaningsStep(token, rest, meaning);
    hide Expand, MeaningsOf;
    var part := meaning[k..k + |all|];
    assert part[0] == meaning[k] && part[1..] == meaning[k + 1..k + 1 + |rest|];
  }

  /** What stashing leaves still means the same. */
  lemma {:induction false} LiftKeepsMeaning(pattern: Pattern, ps: seq<Symbol>, k: nat, meaning: seq<seq<Symbol>>)
    requires ExplainsFrom(k, Lift(pattern, ps, k).1, meaning)
    ensures Expand(Lift(pattern, ps, k).0, meaning) == Expand(ps, meaning)
    decreases |ps|
  {
    hide Expand, SymbolMatch, ExplainsFrom;
    if ps != [] {
      var n := SymbolMatch(pattern, ps);
      if n > 0 {
        var (rest, found) := Lift(pattern, ps[n..], k + 1);
        ExplainsTail(k, ps[..n], found, meaning);
        LiftKeepsMeaning(pattern, ps[n..], k + 1, meaning);
        assert ps == ps[..n] + ps[n..];
        ExpandConcat(ps[..n], ps[n..], meaning);
        ExpandStep(Mark(k), rest, meaning);
        MarkKnown(k, |found| + 1, meaning, [ps[..n]] + found);
      } else {
        LiftKeepsMeaning(pattern, ps[1..], k, meaning);
        assert ps == [ps[0]] + ps[1..];
        ExpandStep(ps[0], ps[1..], meaning);
        ExpandStep(ps[0], Lift(pattern, ps[1..], k).0, meaning);
      }
    }
  }

  lemma MarkKnown(k: nat, n: nat, meaning: seq<seq<Symbol>>, tokens: seq<seq<Symbol>>)
    requires n == |tokens| && n > 0 && ExplainsFrom(k, tokens, meaning)
    ensures k < |meaning|
  {
  }

  lemma {:induction false} ExpandKnown(ps: seq<Symbol>, a: seq<seq<Symbol>>, b: seq<seq<Symbol>>)
    requires forall j: nat :: HasMark(ps, j) ==> j < |a|
    ensures Expand(ps, a + b) == Expand(ps, a)
  {
    if ps != [] {
      assert ps == [ps[0]] + ps[1..];
      assert forall j: nat :: HasMark(ps[1..], j) ==> HasMark(ps, j);
      if ps[0].Mark? { assert HasMark(ps, ps[0].k); }
      ExpandKnown(ps[1..], a, b);
    }
  }

  lemma {:induction false} ExpandPlain(ps: seq<Symbol>, meaning: seq<seq<Symbol>>)
    requires IsPlain(ps)
    ensures Expand(ps, meaning) == ps
  {
    if ps != [] {
      ExpandPlain(ps[1..], meaning);
    }
  }

  lemma {:induction false} UnmarkedIsPlain(ps: seq<Symbol>)
    ensures IsPlain(ps) <==> forall j: nat :: !HasMark(ps, j)
  {
    if i :| 0 <= i < |ps| && ps[i].Mark? {
      assert HasMark(ps, ps[i].k);
    }
  }

  // ----- The text with its tags lifted out -----

  function TagsOf(text: string): seq<seq<Symbol>> {
    Lift(Tag, Chars(text), 0).1
  }

  function TagSymbols(text: string): seq<Symbol> {
    Lift(Tag, Chars(text), 0).0
  }

  function BracesOf(text: string): seq<seq<Symbol>> {
    Lift(Brace, TagSymbols(text), |TagsOf(text)|).1
  }

  function ProtectedSymbols(text: string): seq<Symbol> {
    Lift(Brace, TagSymbols(text), |TagsOf(text)|).0
  }

  function TokensOf(text: string): seq<seq<Symbol>> {
    TagsOf(text) + BracesOf(text)
  }

  lemma {:induction false} RenderAllConcat(a: seq<seq<Symbol>>, b: seq<seq<Symbol>>)
    ensures RenderAll(a + b) == RenderAll(a) + RenderAll(b)
  {
  }

  lemma ProtectedRender(text: string)
    ensures Protected(text) == Stashed(Render(ProtectedSymbols(text)), RenderAll(TokensOf(text)))
  {
    hide Stash, Render, Lift;
    RenderChars(text);
    StashRender(Tag, Chars(text), []);
    StashRender(Brace, TagSymbols(text), RenderAll(TagsOf(text)));
    RenderAllConcat(TagsOf(text), BracesOf(text));
    assert [] + RenderAll(TagsOf(text)) == RenderAll(TagsOf(text));
  }

  lemma TagsArePlain(text: string)
    ensures forall t: nat :: t < |TagsOf(text)| ==> IsPlain(TagsOf(text)[t])
    ensures forall j: nat :: HasMark(TagSymbols(text), j) ==> j < |TagsOf(text)|
    ensures forall j: nat :: |TagsOf(text)| <= j < |TokensOf(text)| ==> HasMark(ProtectedSymbols(text), j)
    ensures forall j: nat :: HasMark(ProtectedSymbols(text), j) ==> j < |TokensOf(text)|
  {
    hide Lift, HasMark, IsPlain;
    assert IsPlain(Chars(text)) by { CharsArePlain(text); }
    UnmarkedIsPlain(Chars(text));
    LiftMarks(Tag, Chars(text), 0);
    LiftMarks(Brace, TagSymbols(text), |TagsOf(text)|);
    forall t: nat | t < |TagsOf(text)| ensures IsPlain(TagsOf(text)[t]) {
      UnmarkedIsPlain(TagsOf(text)[t]);
      forall j: nat ensures !HasMark(TagsOf(text)[t], j) {
        if HasMark(TagsOf(text)[t], j) { TokenMarks(Tag, Chars(text), 0, t, j); }
      }
    }
  }

  lemma CharsArePlain(s: string)
    ensures IsPlain(Chars(s))
  {
  }

  lemma BraceMarks(text: string, t: nat, j: nat)
    requires t < |BracesOf(text)| && HasMark(BracesOf(text)[t], j)
    ensures j < |TagsOf(text)|
  {
    hide Lift, HasMark, IsPlain;
    TagsArePlain(text);
    TokenMarks(Brace, TagSymbols(text), |TagsOf(text)|, t, j);
  }

  /** What each token finally stands for. */
  function Meanings(text: string): seq<seq<Symbol>> {
    TagsOf(text) + MeaningsOf(BracesOf(text), TagsOf(text))
  }

  lemma {:induction false} PlainMeanings(tokens: seq<seq<Symbol>>, meaning: seq<seq<Symbol>>)
    requires forall t: nat :: t < |tokens| ==> IsPlain(tokens[t])
    ensures MeaningsOf(tokens, meaning) == tokens
  {
    hide IsPlain, Expand;
    if tokens != [] {
      ExpandPlain(tokens[0], meaning);
      PlainMeanings(tokens[1..], meaning);
    }
  }

  lemma {:induction false} KnownMeanings(tokens: seq<seq<Symbol>>, a: seq<seq<Symbol>>, b: seq<seq<Symbol>>)
    requires forall t: nat, j: nat :: t < |tokens| && HasMark(tokens[t], j) ==> j < |a|
    ensures MeaningsOf(tokens, a + b) == MeaningsOf(tokens, a)
  {
    hide HasMark, Expand;
    if tokens != [] {
      ExpandKnown(tokens[0], a, b);
      assert forall t: nat :: t < |tokens[1..]| ==> tokens[1..][t] == tokens[t + 1];
      KnownMeanings(tokens[1..], a, b);
    }
  }

  lemma MeaningsExplain(text: string)
    ensures ExplainsFrom(0, TagsOf(text), Meanings(text))
              && ExplainsFrom(|TagsOf(text)|, BracesOf(text), Meanings(text))
    ensures Expand(ProtectedSymbols(text), Meanings(text)) == Chars(text)
  {
    var tags, braces, meaning := TagsOf(text), BracesOf(text), Meanings(text);
    hide Lift, HasMark, Expand, IsPlain, MeaningsOf, TagsOf, BracesOf;
    TagsArePlain(text);
    PlainMeanings(tags, meaning);
    forall t: nat, j: nat | t < |braces| && HasMark(braces[t], j) ensures j < |tags| { BraceMarks(text, t, j); }
    KnownMeanings(braces, tags, MeaningsOf(braces, tags));
    LiftedTexts(text, meaning);
    CharsArePlain(text);
    ExpandPlain(Chars(text), meaning);
  }

  lemma LiftedTexts(text: string, meaning: seq<seq<Symbol>>)
    requires ExplainsFrom(0, TagsOf(text), meaning) && ExplainsFrom(|TagsOf(text)|, BracesOf(text), meaning)
    ensures Expand(ProtectedSymbols(text), meaning) == Expand(Chars(text), meaning)
  {
    hide Lift, Expand, ExplainsFrom;
    LiftKeepsMeaning(Brace, TagSymbols(text), |TagsOf(text)|, meaning);
    LiftKeepsMeaning(Tag, Chars(text), 0, meaning);
  }

  lemma AllExplained(text: string)
    ensures Explains(Meanings(text), TokensOf(text))
  {
    var tags, braces, meaning := TagsOf(text), BracesOf(text), Meanings(text);
    hide Lift, Expand, TagsOf, BracesOf;
    MeaningsExplain(text);
    forall i: nat | i < |TokensOf(text)| ensures meaning[i] == Expand(TokensOf(text)[i], meaning) {
      if i < |tags| {
        MeaningAt(tags, meaning, i);
        assert meaning[0..|tags|][i] == meaning[i];
      } else {
        MeaningAt(braces, meaning, i - |tags|);
        assert meaning[|tags|..|tags| + |braces|][i - |tags|] == meaning[i];
      }
    }
  }

  /** The symbols the restored text consists of. */
  function RestoredSymbols(text: string): seq<Symbol> {
    SubstFrom(ProtectedSymbols(text), TokensOf(text), 0)
  }

  lemma RestoredRender(text: string)
    requires NoMarkerText(text)
    ensures Restored(Protected(text).text, Protected(text).tokens) == Render(RestoredSymbols(text))
    ensures Expand(RestoredSymbols(text), Meanings(text)) == Chars(text)
  {
    hide Lift, Render, Expand, Protected, IsFreeOf, Contains, Number;
    ProtectedRender(text);
    MeaningsExplain(text);
    AllExplained(text);
    forall k: nat | k < |TokensOf(text)| ensures IsFreeOf(Chars(text), k) { SpelledInChars(text, k); }
    RestoreRender(ProtectedSymbols(text), TokensOf(text), Meanings(text), 0);
  }

  /** A marker is left after restoring exactly when it was inside a stashed template expression. */
  lemma RestoredMarks(text: string, j: nat)
    ensures HasMark(RestoredSymbols(text), j) <==>
              exists t: nat :: t < |BracesOf(text)| && HasMark(BracesOf(text)[t], j)
  {
    hide Lift, HasMark, SubstFrom, IsPlain;
    TagsArePlain(text);
    var tags, braces, tokens := TagsOf(text), BracesOf(text), TokensOf(text);
    forall t: nat, m: nat | t < |tokens| && HasMark(tokens[t], m) ensures t >= |tags| && m < |tags| {
      if t < |tags| {
        UnmarkedIsPlain(tags[t]);
      } else {
        BraceMarks(text, t - |tags|, m);
      }
    }
    MarksLeft(ProtectedSymbols(text), tokens, 0, j);
    if t: nat :| t < |braces| && HasMark(braces[t], j) {
      assert tokens[|tags| + t] == braces[t] && HasMark(ProtectedSymbols(text), |tags| + t);
    }
    if t: nat :| t < |tokens| && HasMark(ProtectedSymbols(text), t) && HasMark(tokens[t], j) {
      assert tokens[t] == braces[t - |tags|];
    }
  }

  // ----- When restoring undoes protecting -----

  /** "{{" at `p` and "}}" at `q` with no "}" in between, but at least one lifted tag. */
  predicate Encloses(ps: seq<Symbol>, p: nat, q: nat) {
    && p + 2 <= q && q + 1 < |ps|
    && ps[p] == Ch('{') && ps[p + 1] == Ch('{') && ps[q] == Ch('}') && ps[q + 1] == Ch('}')
    && (forall i :: p + 2 <= i < q ==> ps[i] != Ch('}'))
    && exists i :: p + 2 <= i < q && ps[i].Mark?
  }

  ghost predicate HasEnclosed(ps: seq<Symbol>) {
    exists p: nat, q: nat :: Encloses(ps, p, q)
  }

  /** Some template expression encloses a tag. */
  ghost predicate NestsTag(text: string) {
    HasEnclosed(TagSymbols(text))
  }

  ghost predicate AnyMarked(tokens: seq<seq<Symbol>>) {
    exists t :: 0 <= t < |tokens| && !IsPlain(tokens[t])
  }

  lemma MatchShape(ps: seq<Symbol>)
    requires SymbolMatch(Brace, ps) > 0
    ensures var n := SymbolMatch(Brace, ps);
            && n >= 5 && ps[0] == Ch('{') && ps[1] == Ch('{') && ps[n - 2] == Ch('}') && ps[n - 1] == Ch('}')
            && forall i :: 2 <= i < n - 2 ==> ps[i] != Ch('}')
  {
    var rest := ps[2..];
    assert forall i :: 0 <= i < |rest| ==> rest[i] == ps[i + 2];
  }

  lemma MatchedMark(ps: seq<Symbol>)
    requires SymbolMatch(Brace, ps) > 0 && !IsPlain(ps[..SymbolMatch(Brace, ps)])
    ensures Encloses(ps, 0, SymbolMatch(Brace, ps) - 2)
  {
    MatchShape(ps);
    hide SymbolMatch;
    var n := SymbolMatch(Brace, ps);
    var i :| 0 <= i < n && !ps[..n][i].Ch?;
    assert ps[i].Mark?;
  }

  lemma EnclosedInMatch(ps: seq<Symbol>, p: nat, q: nat)
    requires SymbolMatch(Brace, ps) > 0 && Encloses(ps, p, q) && p < SymbolMatch(Brace, ps)
    ensures !IsPlain(ps[..SymbolMatch(Brace, ps)])
  {
    MatchShape(ps);
    hide SymbolMatch;
    var n := SymbolMatch(Brace, ps);
    var i :| p + 2 <= i < q && ps[i].Mark?;
    assert p + 2 <= n - 2;
    assert q == n - 2;
    assert ps[..n][i] == ps[i];
  }

  lemma EnclosedMatches(ps: seq<Symbol>, q: nat)
    requires Encloses(ps, 0, q)
    ensures SymbolMatch(Brace, ps) > 0
  {
    var rest := ps[2..];
    assert rest[q - 2] == ps[q];
    assert forall i :: 0 <= i < q - 2 ==> rest[i] == ps[i + 2];
    assert FirstCh(rest, '}') == q - 2;
  }

  lemma EnclosedShift(ps: seq<Symbol>, m: nat, p: nat, q: nat)
    requires m <= |ps|
    ensures Encloses(ps[m..], p, q) <==> Encloses(ps, p + m, q + m)
  {
    var rest := ps[m..];
    if p + 2 <= q && q + 1 < |rest| {
      assert forall i :: 0 <= i < |rest| ==> rest[i] == ps[i + m];
      assert forall i :: m <= i < |ps| ==> ps[i] == rest[i - m];
    }
  }

  lemma EnclosedBehind(ps: seq<Symbol>, m: nat)
    requires m <= |ps|
    ensures HasEnclosed(ps[m..]) <==> exists p: nat, q: nat :: p >= m && Encloses(ps, p, q)
  {
    hide Encloses;
    if p: nat, q: nat :| Encloses(ps[m..], p, q) {
      EnclosedShift(ps, m, p, q);
    }
    if p: nat, q: nat :| p >= m && Encloses(ps, p, q) {
      OrderedBounds(ps, p, q);
      EnclosedShift(ps, m, p - m, q - m);
    }
  }

  lemma OrderedBounds(ps: seq<Symbol>, p: nat, q: nat)
    requires Encloses(ps, p, q)
    ensures p + 2 <= q
  {
  }

  /** A stashed expression holds a marker exactly when some expression encloses a lifted tag. */
  lemma {:induction false} MarkedMeansEnclosed(ps: seq<Symbol>, k: nat)
    ensures AnyMarked(Lift(Brace, ps, k).1) <==> HasEnclosed(ps)
    decreases |ps|
  {
    if ps != [] {
      var n := SymbolMatch(Brace, ps);
      var m := if n > 0 then n else 1;
      MarkedMeansEnclosed(ps[m..], if n > 0 then k + 1 else k);
      EnclosedBehind(ps, m);
      AnyMarkedStep(ps[..n], Lift(Brace, ps[m..], k + 1).1);
      hide SymbolMatch, Encloses, IsPlain, AnyMarked;
      if n > 0 && !IsPlain(ps[..n]) {
        MatchedMark(ps);
      }
      if p: nat, q: nat :| p < m && Encloses(ps, p, q) {
        if n > 0 { EnclosedInMatch(ps, p, q); } else { EnclosedMatches(ps, q); }
      }
    }
  }

  lemma AnyMarkedStep(token: seq<Symbol>, rest: seq<seq<Symbol>>)
    ensures AnyMarked([token] + rest) <==> !IsPlain(token) || AnyMarked(rest)
  {
    hide IsPlain;
    var all := [token] + rest;
    assert all[0] == token && forall t :: 0 <= t < |rest| ==> all[t + 1] == rest[t];
  }

  lemma ShowMark(k: nat)
    ensures |Show(Mark(k))| >= 7 && Number(k) <= Show(Mark(k))[2..]
  {
    MarkerShape(k);
    NumberShape(k);
    assert Marker(k)[2..] == Number(k) + "__";
  }

  lemma {:induction false} MarkVisible(ps: seq<Symbol>, k: nat) returns (i: nat)
    requires HasMark(ps, k)
    ensures i <= |Render(ps)| && Number(k) <= Render(ps)[i..]
  {
    hide Render, Show, Number;
    var x, rest := ps[0], ps[1..];
    assert ps == [x] + rest;
    RenderStep(x, rest);
    if x == Mark(k) {
      ShowMark(k);
      i := 2;
      assert (Show(x) + Render(rest))[2..] == Show(x)[2..] + Render(rest);
    } else {
      var j := MarkVisible(rest, k);
      i := |Show(x)| + j;
      assert (Show(x) + Render(rest))[i..] == Render(rest)[j..];
    }
  }

  /**
   * The text spells no number of a marker it is given: no "PH0" if one token is lifted, nor "PH1" if two are, and so
   * on.
   */
  predicate NoMarkerText(text: string) {
    forall k: nat :: k < |TokensOf(text)| ==> !Contains(text, Number(k))
  }

  lemma SpelledInChars(text: string, k: nat)
    requires !Contains(text, Number(k))
    ensures IsFreeOf(Chars(text), k)
  {
    hide Number;
    var w := Number(k);
    forall i: nat ensures !IsSpelledAt(Chars(text), w, i) {
      if IsSpelledAt(Chars(text), w, i) {
        forall x | 0 <= x < |w| ensures text[i..i + |w|][x] == w[x] {
          assert Chars(text)[i + x] == Chars(text)[i..i + |w|][x] == Chars(w)[x];
        }
        ContainsAt(text, i, w);
      }
    }
  }

  /**
   * On every text that spells no number of its own markers, restoring undoes protecting if and only if no template
   * expression encloses a tag.
   */
  lemma RestoreInvertsProtect(text: string)
    requires NoMarkerText(text)
    ensures Restored(Protected(text).text, Protected(text).tokens) == text <==> !NestsTag(text)
  {
    hide Lift, Protected, Restored, SubstFrom, HasEnclosed, BracesOf, TagsOf, Render, Expand, Contains, Number;
    RestoredRender(text);
    BracesNest(text);
    var left := RestoredSymbols(text);
    UnmarkedIsPlain(left);
    if NestsTag(text) {
      var t :| 0 <= t < |BracesOf(text)| && !IsPlain(BracesOf(text)[t]);
      UnmarkedIsPlain(BracesOf(text)[t]);
      var j: nat :| HasMark(BracesOf(text)[t], j);
      BraceMarks(text, t, j);
      RestoredMarks(text, j);
      var i := MarkVisible(left, j);
      NumberInText(Render(left), i, Number(j));
    } else {
      forall j: nat ensures !HasMark(left, j) {
        forall t: nat | t < |BracesOf(text)| ensures !HasMark(BracesOf(text)[t], j) {
          UnmarkedIsPlain(BracesOf(text)[t]);
        }
        RestoredMarks(text, j);
      }
      ExpandPlain(left, Meanings(text));
      RenderChars(text);
    }
  }

  lemma NumberInText(s: string, i: nat, w: string)
    requires i <= |s| && w <= s[i..]
    ensures Contains(s, w)
  {
    assert s[i..i + |w|] == s[i..][..|w|] == w;
    ContainsAt(s, i, w);
  }

  lemma BracesNest(text: string)
    ensures AnyMarked(BracesOf(text)) <==> NestsTag(text)
  {
    hide Lift, HasEnclosed, AnyMarked;
    MarkedMeansEnclosed(TagSymbols(text), |TagsOf(text)|);
  }

  lemma PlainTokens(text: string)
    requires !NestsTag(text)
    ensures forall t: nat :: t < |TokensOf(text)| ==> IsPlain(TokensOf(text)[t])
  {
    hide Lift, IsPlain, TagsOf, BracesOf;
    TagsArePlain(text);
    BracesNest(text);
  }

  /**
   * Between protecting and restoring the words are translated. Whatever symbols come back, with markers moved or
   * repeated, each marker of the text becomes its token and the translated words stay, provided they spell no number
   * of a token.
   */
  lemma RestoreAfterTranslation(text: string, translated: seq<Symbol>)
    requires !NestsTag(text)
    requires forall j: nat :: HasMark(translated, j) ==> j < |TokensOf(text)|
    requires IsFreeFrom(Expand(translated, TokensOf(text)), 0, |TokensOf(text)|)
    ensures Restored(Render(translated), Protected(text).tokens) == Render(Expand(translated, TokensOf(text)))
  {
    hide Lift, Protected, SubstFrom, NestsTag, HasMark, IsPlain, Render, Expand, IsFreeFrom, TokensOf;
    var tokens := TokensOf(text);
    ProtectedRender(text);
    PlainTokens(text);
    forall t: nat | t < |tokens| ensures tokens[t] == Expand(tokens[t], tokens) { ExpandPlain(tokens[t], tokens); }
    RestoreRender(translated, tokens, tokens, 0);
    var left := SubstFrom(translated, tokens, 0);
    forall t: nat, j: nat | t < |tokens| ensures !HasMark(tokens[t], j) { UnmarkedIsPlain(tokens[t]); }
    forall j: nat ensures !HasMark(left, j) { MarksLeft(translated, tokens, 0, j); }
    UnmarkedIsPlain(left);
    ExpandPlain(left, tokens);
  }

  // ----- Texts that spell a marker -----

  predicate AvoidsChar(s: string, c: char) {
    forall i :: 0 <= i < |s| ==> s[i] != c
  }

  lemma {:induction false} StashAddsTokens(pattern: Pattern, s: string, tokens: seq<string>)
    ensures tokens <= Stash(pattern, s, tokens).tokens
    ensures Stash(pattern, s, tokens).tokens == tokens ==> Stash(pattern, s, tokens).text == s
    ensures forall i :: |tokens| <= i < |Stash(pattern, s, tokens).tokens| ==>
              Stash(pattern, s, tokens).tokens[i] != "" && Stash(pattern, s, tokens).tokens[i][0] in {'<', '{'}
    decreases |s|
  {
    if s != [] {
      var n := MatchLength(pattern, s);
      if n > 0 {
        assert s[0] in {'<', '{'};
        hide MatchLength;
        StashAddsTokens(pattern, s[n..], tokens + [s[..n]]);
      } else {
        hide MatchLength;
        StashAddsTokens(pattern, s[1..], tokens);
      }
    }
  }

  lemma {:induction false} ReplaceBehind(a: string, s: string, m: string, n: string)
    requires m != [] && m[0] == '_' && AvoidsChar(a, '_')
    ensures ReplaceAll(a + s, m, n) == a + ReplaceAll(s, m, n)
  {
    hide ReplaceAll;
    if a == "" {
      assert a + s == s && a + ReplaceAll(s, m, n) == ReplaceAll(s, m, n);
    } else {
      assert (a + s)[0] == a[0] && (a + s)[1..] == a[1..] + s;
      ReplaceSkip(a + s, m, n);
      ReplaceBehind(a[1..], s, m, n);
      assert [a[0]] + (a[1..] + ReplaceAll(s, m, n)) == a + ReplaceAll(s, m, n);
    }
  }

  lemma {:induction false} RestoreBehind(a: string, s: string, tokens: seq<string>, i: nat) returns (t: string)
    requires i <= |tokens| && AvoidsChar(a, '_')
    ensures RestoredFrom(a + s, tokens, i) == a + t
    decreases |tokens| - i
  {
    if i == |tokens| {
      t := s;
    } else {
      MarkerShape(i);
      hide Marker, ReplaceAll;
      ReplaceBehind(a, s, Marker(i), tokens[i]);
      t := RestoreBehind(a, ReplaceAll(s, Marker(i), tokens[i]), tokens, i + 1);
    }
  }

  lemma MarkerAvoids(k: nat)
    ensures AvoidsChar(Marker(k), '<') && AvoidsChar(Marker(k), '{')
  {
    MarkerShape(k);
  }

  lemma ProtectBehind(a: string, rest: string) returns (t: string)
    requires AvoidsChar(a, '<') && AvoidsChar(a, '{')
    ensures Protected(a + rest).text == a + t
  {
    hide Stash, MatchLength;
    var tags := Stash(Tag, rest, []);
    StashSkips(Tag, a, rest, []);
    StashSkips(Brace, a, tags.text, tags.tokens);
    t := Stash(Brace, tags.text, tags.tokens).text;
  }

  lemma ProtectedTokens(text: string)
    ensures var p := Protected(text);
            && (p.tokens == [] ==> p.text == text)
            && (p.tokens != [] ==> p.tokens[0] != "" && p.tokens[0][0] in {'<', '{'})
  {
    hide Stash;
    var tags := Stash(Tag, text, []);
    StashAddsTokens(Tag, text, []);
    StashAddsTokens(Brace, tags.text, tags.tokens);
  }

  /**
   * A text whose first underscore begins the spelled marker of 0, before any "<" or "{", survives the round trip
   * exactly when nothing in it is lifted: otherwise the first token takes the place of the spelled marker.
   */
  lemma MarkerTextBreaksRoundTrip(before: string, rest: string)
    requires AvoidsChar(before, '_') && AvoidsChar(before, '<') && AvoidsChar(before, '{')
    ensures var text := before + Marker(0) + rest;
            Restored(Protected(text).text, Protected(text).tokens) == text <==> Protected(text).tokens == []
  {
    var m := Marker(0);
    var text := before + m + rest;
    MarkerShape(0);
    MarkerAvoids(0);
    hide Marker, Protected, ReplaceAll;
    ProtectedTokens(text);
    var t := ProtectBehind(before + m, rest);
    var p := Protected(text);
    if p.tokens != [] {
      var first := p.tokens[0];
      AppendAssoc(before, m, t);
      ReplaceBehind(before, m + t, m, first);
      ReplaceFirst(m, t, first);
      var tail := first[1..] + ReplaceAll(t, m, first);
      assert before + (first + ReplaceAll(t, m, first)) == (before + [first[0]]) + tail;
      var u := RestoreBehind(before + [first[0]], tail, p.tokens, 1);
      assert Restored(p.text, p.tokens)[|before|] == first[0];
      assert text[|before|] == '_';
    }
  }

  lemma ReplaceFirst(m: string, t: string, n: string)
    requires m != []
    ensures ReplaceAll(m + t, m, n) == n + ReplaceAll(t, m, n)
  {
    assert (m + t)[|m|..] == t;
  }
}
