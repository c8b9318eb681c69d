/** Stashing tags and template expressions before translation: scripts/translate_locales.py. */
module Placeholders {
  import opened Sequences
  import opened Text

  // ----- The two patterns -----

  /** `Tag` is "<", one or more characters other than ">", ">"; `Brace` is "{{", one or more other than "}", "}}". */
  datatype Pattern = Tag | Brace

  function FirstIndex(s: string, c: char): (n: nat)
    ensures n <= |s|
  {
    if s == [] || s[0] == c then 0 else 1 + FirstIndex(s[1..], c)
  }

  /** Length of the match of a pattern at the start of `s`, 0 when there is none. */
  function MatchLength(pattern: Pattern, s: string): (n: nat)
    ensures n <= |s|
  {
    match pattern
    case Tag =>
      if s == [] || s[0] != '<' then 0
      else
        var inner := FirstIndex(s[1..], '>');
        if inner >= 1 && inner + 1 < |s| then inner + 2 else 0
    case Brace =>
      if |s| < 2 || s[0] != '{' || s[1] != '{' then 0
      else
        var inner := FirstIndex(s[2..], '}');
        if inner >= 1 && inner + 3 < |s| && s[inner + 3] == '}' then inner + 4 else 0
  }

  // ----- Protecting and restoring -----

  function Marker(k: nat): string {
    "__PH" + Digits(k) + "__"
  }

  datatype Stashed = Stashed(text: string, tokens: seq<string>)

  /** Every leftmost match, scanning on after each, becomes the marker of its token. */
  function Stash(pattern: Pattern, s: string, tokens: seq<string>): Stashed
    decreases |s|
  {
    if s == [] then Stashed("", tokens)
    else
      var n := MatchLength(pattern, s);
      if n > 0 then
        var r := Stash(pattern, s[n..], tokens + [s[..n]]);
        Stashed(Marker(|tokens|) + r.text, r.tokens)
      else
        var r := Stash(pattern, s[1..], tokens);
        Stashed([s[0]] + r.text, r.tokens)
  }

  function Protected(text: string): Stashed {
    var tags := Stash(Tag, text, []);
    Stash(Brace, tags.text, tags.tokens)
  }

  /** All non-overlapping occurrences, from the left. */
  function ReplaceAll(s: string, old1: string, new1: string): string
    requires old1 != []
  {
    if |s| < |old1| then s
    else if old1 <= s then new1 + ReplaceAll(s[|old1|..], old1, new1)
    else [s[0]] + ReplaceAll(s[1..], old1, new1)
  }

  function RestoredFrom(text: string, tokens: seq<string>, i: nat): string
    requires i <= |tokens|
    decreases |tokens| - i
  {
    if i == |tokens| then text else RestoredFrom(ReplaceAll(text, Marker(i), tokens[i]), tokens, i + 1)
  }

  function Restored(text: string, tokens: seq<string>): string {
    RestoredFrom(text, tokens, 0)
  }

  function After(out: string, rest: Stashed): Stashed {
    Stashed(out + rest.text, rest.tokens)
  }

  lemma StashStep(pattern: Pattern, out: string, s: string, tokens: seq<string>)
    requires s != []
    ensures var n := MatchLength(pattern, s);
            After(out, Stash(pattern, s, tokens)) ==
            if n > 0 then After(out + Marker(|tokens|), Stash(pattern, s[n..], tokens + [s[..n]]))
            else After(out + [s[0]], Stash(pattern, s[1..], tokens))
  {
    var n := MatchLength(pattern, s);
    if n > 0 {
      AppendAssoc(out, Marker(|tokens|), Stash(pattern, s[n..], tokens + [s[..n]]).text);
    } else {
      AppendAssoc(out, [s[0]], Stash(pattern, s[1..], tokens).text);
    }
  }

  lemma AfterText(out: string, text: string, tokens: seq<string>)
    ensures After(out, Stashed(text, tokens)) == Stashed(out + text, tokens)
  {
  }

  lemma AfterNothing(rest: Stashed)
    ensures After("", rest) == rest
  {
  }

  lemma StashNothing(pattern: Pattern, tokens: seq<string>)
    ensures Stash(pattern, "", tokens) == Stashed("", tokens)
  {
  }

  method Substitute(pattern: Pattern, text: string, tokens: seq<string>) returns (out: string, stashed: seq<string>)
    ensures Stashed(out, stashed) == Stash(pattern, text, tokens)
  {
    hide MatchLength, Marker, Stash, After;
    out, stashed := "", tokens;
    var at := 0;
    assert text[0..] == text;
    AfterNothing(Stash(pattern, text, tokens));
    while at < |text|
      invariant at <= |text|
      invariant After(out, Stash(pattern, text[at..], stashed)) == Stash(pattern, text, tokens)
      decreases |text| - at
    {
      var rest := text[at..];
      var n := MatchLength(pattern, rest);
      StashStep(pattern, out, rest, stashed);
      if n > 0 {
        assert rest[n..] == text[at + n..];
        stashed := stashed + [rest[..n]];
        out := out + Marker(|stashed| - 1);
        at := at + n;
      } else {
        assert rest[1..] == text[at + 1..];
        out := out + [rest[0]];
        at := at + 1;
      }
    }
    assert text[at..] == "";
    StashNothing(pattern, stashed);
    AfterText(out, "", stashed);
  }

  method Protect(text: string) returns (out: string, tokens: seq<string>)
    ensures Stashed(out, tokens) == Protected(text)
  {
    out, tokens := Substitute(Tag, text, []);
    out, tokens := Substitute(Brace, out, tokens);
  }

  method Restore(text: string, tokens: seq<string>) returns (r: string)
    ensures r == Restored(text, tokens)
  {
    r := text;
    for i := 0 to |tokens|
      invariant RestoredFrom(r, tokens, i) == Restored(text, tokens)
    {
      r := ReplaceAll(r, Marker(i), tokens[i]);
    }
  }

  // ----- What is lifted -----

  lemma {:induction false} FirstIndexExactly(s: string, c: char, n: nat)
    ensures FirstIndex(s, c) == n <==>
              n <= |s| && (n < |s| ==> s[n] == c) && forall i :: 0 <= i < n ==> s[i] != c
  {
    if s != [] && s[0] != c {
      if n > 0 {
        FirstIndexExactly(s[1..], c, n - 1);
        assert forall i :: 1 <= i < n && n <= |s| ==> s[i] == s[1..][i - 1];
        assert forall i :: 0 <= i < n - 1 && n <= |s| ==> s[1..][i] == s[i + 1];
      }
    }
  }

  /** A tag: "<", at least one character, none of them ">", and ">". */
  predicate IsTag(w: string) {
    |w| >= 3 && w[0] == '<' && w[|w| - 1] == '>' && forall i :: 1 <= i < |w| - 1 ==> w[i] != '>'
  }

  /** A template expression: "{{", at least one character, none of them "}", and "}}". */
  predicate IsBrace(w: string) {
    |w| >= 5 && w[0] == w[1] == '{' && w[|w| - 2] == w[|w| - 1] == '}' && forall i :: 2 <= i < |w| - 2 ==> w[i] != '}'
  }

  predicate IsLifted(pattern: Pattern, w: string) {
    match pattern
    case Tag => IsTag(w)
    case Brace => IsBrace(w)
  }

  /** A match at the start of a text is the one prefix of it that is a tag, or a template expression. */
  lemma MatchExactly(pattern: Pattern, s: string, n: nat)
    requires 0 < n <= |s|
    ensures MatchLength(pattern, s) == n <==> IsLifted(pattern, s[..n])
  {
    hide FirstIndex;
    match pattern
    case Tag =>
      if s[0] == '<' {
        var inner := FirstIndex(s[1..], '>');
        FirstIndexExactly(s[1..], '>', inner);
        if n >= 3 { FirstIndexExactly(s[1..], '>', n - 2); }
        assert forall i :: 1 <= i < n - 1 ==> s[..n][i] == s[1..][i - 1];
      }
    case Brace =>
      if |s| >= 2 && s[0] == s[1] == '{' {
        var inner := FirstIndex(s[2..], '}');
        FirstIndexExactly(s[2..], '}', inner);
        if n >= 5 { FirstIndexExactly(s[2..], '}', n - 4); }
        assert forall i :: 2 <= i < n - 2 ==> s[..n][i] == s[2..][i - 2];
      }
  }

  /** The first text, then each token with the text behind it. */
  function Woven(first: string, tokens: seq<string>, texts: seq<string>): string
    requires |tokens| == |texts|
    decreases |tokens|
  {
    if tokens == [] then first else first + tokens[0] + Woven(texts[0], tokens[1..], texts[1..])
  }

  function Markers(k: nat, n: nat): (r: seq<string>)
    ensures |r| == n
    decreases n
  {
    if n == 0 then [] else [Marker(k)] + Markers(k + 1, n - 1)
  }

  /** Nothing is lifted that begins within the first `n` characters. */
  ghost predicate NothingBegins(pattern: Pattern, s: string, n: nat) {
    n <= |s| && forall i, j :: 0 <= i < n && i < j <= |s| ==> !IsLifted(pattern, s[i..j])
  }

  /** Every token is lifted as a whole, and between them, from the left, nothing that could be lifted is left. */
  ghost predicate IsLifting(pattern: Pattern, first: string, tokens: seq<string>, texts: seq<string>)
    requires |tokens| == |texts|
    decreases |tokens|
  {
    NothingBegins(pattern, Woven(first, tokens, texts), |first|)
    && (tokens == [] || (IsLifted(pattern, tokens[0]) && IsLifting(pattern, texts[0], tokens[1..], texts[1..])))
  }

  lemma NoMatchBegins(pattern: Pattern, s: string)
    requires s != [] && MatchLength(pattern, s) == 0
    ensures NothingBegins(pattern, s, 1)
  {
    hide MatchLength, IsLifted;
    forall i, j | 0 <= i < 1 && i < j <= |s| ensures !IsLifted(pattern, s[i..j]) {
      MatchExactly(pattern, s, j);
      assert s[0..j] == s[..j];
    }
  }

  lemma OneMoreSkipped(pattern: Pattern, s: string, n: nat)
    requires s != [] && NothingBegins(pattern, s, 1) && NothingBegins(pattern, s[1..], n)
    ensures NothingBegins(pattern, s, n + 1)
  {
    hide IsLifted;
    var rest := s[1..];
    forall i, j | 0 <= i < n + 1 && i < j <= |s| ensures !IsLifted(pattern, s[i..j]) {
      if i > 0 {
        assert rest[i - 1..j - 1] == s[i..j];
      }
    }
  }

  lemma WovenInFront(c: char, first: string, tokens: seq<string>, texts: seq<string>)
    requires |tokens| == |texts|
    ensures Woven([c] + first, tokens, texts) == [c] + Woven(first, tokens, texts)
    ensures Woven([c] + first, tokens, texts)[1..] == Woven(first, tokens, texts)
  {
  }

  /**
   * Lifting takes a text apart, from the left, into the tokens and what stands between them, and puts the markers, in
   * order, where the tokens were.
   */
  lemma {:induction false} StashExactly(pattern: Pattern, s: string, tokens: seq<string>)
    returns (first: string, found: seq<string>, texts: seq<string>)
    ensures |found| == |texts| && Woven(first, found, texts) == s && IsLifting(pattern, first, found, texts)
    ensures Stash(pattern, s, tokens)
         == Stashed(Woven(first, Markers(|tokens|, |found|), texts), tokens + found)
    decreases |s|
  {
    if s == [] {
      first, found, texts := "", [], [];
    } else {
      var n := MatchLength(pattern, s);
      if n > 0 {
        first := "";
        var w := s[..n];
        var next, more, others := StashExactly(pattern, s[n..], tokens + [w]);
        found, texts := [w] + more, [next] + others;
        TokenInFront(pattern, s, n, next, more, others);
        MarkerInFront(|tokens|, next, more, others);
        hide Stash, MatchLength, Marker;
        AppendAssoc(tokens, [w], more);
        StashStepped(pattern, s, tokens);
      } else {
        NoMatchBegins(pattern, s);
        StashStepped(pattern, s, tokens);
        hide Stash, MatchLength, Marker, IsLifted, NothingBegins;
        var next: string;
        next, found, texts := StashExactly(pattern, s[1..], tokens);
        first := [s[0]] + next;
        WovenInFront(s[0], next, found, texts);
        WovenInFront(s[0], next, Markers(|tokens|, |found|), texts);
        assert Woven(first, found, texts) == s;
        OneMoreSkipped(pattern, s, |next|);
      }
    }
  }

  lemma StashStepped(pattern: Pattern, s: string, tokens: seq<string>)
    requires s != []
    ensures var n := MatchLength(pattern, s);
            Stash(pattern, s, tokens) ==
            if n > 0 then var r := Stash(pattern, s[n..], tokens + [s[..n]]);
                          Stashed(Marker(|tokens|) + r.text, r.tokens)
            else var r := Stash(pattern, s[1..], tokens); Stashed([s[0]] + r.text, r.tokens)
  {
  }

  lemma TokenInFront(pattern: Pattern, s: string, n: nat, next: string, more: seq<string>, others: seq<string>)
    requires 0 < n <= |s| && MatchLength(pattern, s) == n && |more| == |others|
    requires Woven(next, more, others) == s[n..] && IsLifting(pattern, next, more, others)
    ensures Woven("", [s[..n]] + more, [next] + others) == s
    ensures IsLifting(pattern, "", [s[..n]] + more, [next] + others)
  {
    MatchExactly(pattern, s, n);
    hide MatchLength, IsLifted;
    var tokens, texts := [s[..n]] + more, [next] + others;
    assert tokens[1..] == more && texts[1..] == others;
    assert "" + s[..n] + s[n..] == s;
  }

  lemma WovenStep(first: string, w: string, tokens: seq<string>, next: string, texts: seq<string>)
    requires |tokens| == |texts|
    ensures Woven(first, [w] + tokens, [next] + texts) == first + w + Woven(next, tokens, texts)
  {
    assert ([w] + tokens)[1..] == tokens && ([next] + texts)[1..] == texts;
  }

  lemma MarkerInFront(k: nat, next: string, more: seq<string>, others: seq<string>)
    requires |more| == |others|
    ensures Woven("", Markers(k, |more| + 1), [next] + others)
         == Marker(k) + Woven(next, Markers(k + 1, |more|), others)
  {
    hide Marker, Woven;
    WovenStep("", Marker(k), Markers(k + 1, |more|), next, others);
    assert "" + Marker(k) == Marker(k);
  }

  /** Protecting lifts first the tags of the text, and then the template expressions of what that leaves. */
  lemma ProtectedExactly(text: string)
    returns (first: string, tags: seq<string>, texts: seq<string>,
             first': string, braces: seq<string>, texts': seq<string>)
    ensures |tags| == |texts| && Woven(first, tags, texts) == text && IsLifting(Tag, first, tags, texts)
    ensures |braces| == |texts'| && IsLifting(Brace, first', braces, texts')
    ensures Woven(first', braces, texts') == Woven(first, Markers(0, |tags|), texts)
    ensures Protected(text) == Stashed(Woven(first', Markers(|tags|, |braces|), texts'), tags + braces)
  {
    hide Stash, IsLifting, Woven;
    first, tags, texts := StashExactly(Tag, text, []);
    assert [] + tags == tags;
    first', braces, texts' := StashExactly(Brace, Stash(Tag, text, []).text, tags);
  }
}
