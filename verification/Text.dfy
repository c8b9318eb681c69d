/** String operations shared by the modelled components. */
module Text {
  import opened Sequences

  datatype Option<+T> = None | Some(value: T)

  predicate OccursAt(s: string, t: string, i: int) {
    0 <= i <= |s| - |t| && s[i..i + |t|] == t
  }

  predicate Contains(s: string, t: string) {
    exists i :: 0 <= i <= |s| && OccursAt(s, t, i)
  }

  predicate StartsWith(s: string, prefix: string) {
    prefix <= s
  }

  /** The first `n` characters, or all of them when there are fewer. */
  function Prefix(s: string, n: nat): string {
    if n <= |s| then s[..n] else s
  }

  function Min(a: int, b: int): int {
    if a < b then a else b
  }

  function Max(a: int, b: int): int {
    if a < b then b else a
  }

  predicate IsSpace(c: char) {
    c == ' ' || '\t' <= c <= '\r'
  }

  function LeftStrip(s: string): string {
    if s != [] && IsSpace(s[0]) then LeftStrip(s[1..]) else s
  }

  function RightStrip(s: string): string {
    if s != [] && IsSpace(s[|s| - 1]) then RightStrip(s[..|s| - 1]) else s
  }

  function Strip(s: string): string {
    RightStrip(LeftStrip(s))
  }

  function Join(separator: string, parts: seq<string>): string {
    if parts == [] then ""
    else if |parts| == 1 then parts[0]
    else parts[0] + separator + Join(separator, parts[1..])
  }

  /** Decimal rendering of a counter. */
  function Digits(n: nat): string {
    if n < 10 then [('0' as int + n) as char] else Digits(n / 10) + [('0' as int + n % 10) as char]
  }

  predicate IsDigit(c: char) {
    '0' <= c <= '9'
  }

  lemma ContainsAt(s: string, i: nat, t: string)
    requires i + |t| <= |s| && s[i..i + |t|] == t
    ensures Contains(s, t)
  {
    assert OccursAt(s, t, i);
  }

  lemma ContainsInside(before: string, t: string, after: string)
    ensures Contains(before + t + after, t)
  {
    ContainsAt(before + t + after, |before|, t);
  }

  lemma ContainsTransitive(s: string, t: string, u: string)
    requires Contains(s, t) && Contains(t, u)
    ensures Contains(s, u)
  {
    var i :| 0 <= i <= |s| && OccursAt(s, t, i);
    var j :| 0 <= j <= |t| && OccursAt(t, u, j);
    assert forall k :: 0 <= k < |u| ==> s[i + j + k] == s[i..i + |t|][j + k] && u[k] == t[j..j + |u|][k];
    assert s[i + j..i + j + |u|] == u;
    ContainsAt(s, i + j, u);
  }

  lemma ContainsWrapped(before: string, s: string, after: string, t: string)
    requires Contains(s, t)
    ensures Contains(before + s + after, t)
  {
    ContainsInside(before, s, after);
    ContainsTransitive(before + s + after, s, t);
  }

  /** Text that neither begins nor ends with white space. */
  predicate IsTrimmed(t: string) {
    t != [] && !IsSpace(t[0]) && !IsSpace(t[|t| - 1])
  }

  lemma {:induction false} LeftStripKeeps(s: string, t: string)
    requires IsTrimmed(t) && Contains(s, t)
    ensures Contains(LeftStrip(s), t)
  {
    if s != [] && IsSpace(s[0]) {
      var i :| 0 <= i <= |s| && OccursAt(s, t, i);
      assert i != 0 by { assert s[i] == s[i..i + |t|][0]; }
      assert s[1..][i - 1..i - 1 + |t|] == t;
      ContainsAt(s[1..], i - 1, t);
      LeftStripKeeps(s[1..], t);
    }
  }

  lemma {:induction false} RightStripKeeps(s: string, t: string)
    requires IsTrimmed(t) && Contains(s, t)
    ensures Contains(RightStrip(s), t)
  {
    if s != [] && IsSpace(s[|s| - 1]) {
      var i :| 0 <= i <= |s| && OccursAt(s, t, i);
      assert i + |t| != |s| by { assert s[i + |t| - 1] == s[i..i + |t|][|t| - 1]; }
      assert s[..|s| - 1][i..i + |t|] == t;
      ContainsAt(s[..|s| - 1], i, t);
      RightStripKeeps(s[..|s| - 1], t);
    }
  }

  lemma StripKeeps(s: string, t: string)
    requires IsTrimmed(t) && Contains(s, t)
    ensures Contains(Strip(s), t)
  {
    LeftStripKeeps(s, t);
    RightStripKeeps(LeftStrip(s), t);
  }

  lemma StripTrimmed(t: string)
    requires IsTrimmed(t)
    ensures Strip(t) == t && RightStrip(t) == t
  {
  }

  lemma {:induction false} LeftStripIsSuffix(s: string) returns (n: nat)
    ensures n <= |s| && LeftStrip(s) == s[n..]
  {
    if s != [] && IsSpace(s[0]) {
      var k := LeftStripIsSuffix(s[1..]);
      n := k + 1;
    } else {
      n := 0;
    }
  }

  lemma {:induction false} RightStripIsPrefix(s: string) returns (n: nat)
    ensures n <= |s| && RightStrip(s) == s[..n]
  {
    if s != [] && IsSpace(s[|s| - 1]) {
      n := RightStripIsPrefix(s[..|s| - 1]);
    } else {
      n := |s|;
    }
  }

  /** Stripping invents no text. */
  lemma StripInvents(s: string, t: string)
    requires Contains(Strip(s), t)
    ensures Contains(s, t)
  {
    var n := LeftStripIsSuffix(s);
    var k := RightStripIsPrefix(LeftStrip(s));
    hide LeftStrip, RightStrip, Contains;
    var left := s[n..];
    assert s == s[..n] + left && left == left[..k] + left[k..];
    AppendAssoc(s[..n], left[..k], left[k..]);
    ContainsWrapped(s[..n], left[..k], left[k..], t);
  }

  lemma {:induction false} DigitsAreDigits(n: nat)
    ensures Digits(n) != [] && forall i :: 0 <= i < |Digits(n)| ==> IsDigit(Digits(n)[i])
  {
    if n >= 10 {
      DigitsAreDigits(n / 10);
    }
  }

  lemma {:induction false} DigitsInjective(m: nat, n: nat)
    requires Digits(m) == Digits(n)
    ensures m == n
  {
    DigitsAreDigits(m / 10);
    DigitsAreDigits(n / 10);
    var a, b := Digits(m), Digits(n);
    assert a[|a| - 1] as int == '0' as int + m % 10;
    assert b[|b| - 1] as int == '0' as int + n % 10;
    if m >= 10 && n >= 10 {
      assert a[..|a| - 1] == Digits(m / 10) && b[..|b| - 1] == Digits(n / 10);
      DigitsInjective(m / 10, n / 10);
    }
  }

  lemma {:induction false} JoinContains(separator: string, parts: seq<string>, i: nat, t: string)
    requires i < |parts| && Contains(parts[i], t)
    ensures Contains(Join(separator, parts), t)
  {
    if |parts| == 1 {
    } else if i == 0 {
      ContainsWrapped("", parts[0], separator + Join(separator, parts[1..]), t);
      assert "" + parts[0] + (separator + Join(separator, parts[1..])) == Join(separator, parts);
    } else {
      JoinContains(separator, parts[1..], i - 1, t);
      ContainsWrapped(parts[0] + separator, Join(separator, parts[1..]), "", t);
      assert parts[0] + separator + Join(separator, parts[1..]) + "" == Join(separator, parts);
    }
  }

  // ----- Stripping and counting, spelled out -----

  predicate IsBlank(c: char) {
    c == ' ' || c == '\t' || c == '\n' || c == '\U{0B}' || c == '\U{0C}' || c == '\r'
  }

  lemma {:induction false} LeftStripDrops(s: string)
    ensures |LeftStrip(s)| <= |s| && LeftStrip(s) == s[|s| - |LeftStrip(s)|..]
    ensures forall i :: 0 <= i < |s| - |LeftStrip(s)| ==> IsBlank(s[i])
    ensures LeftStrip(s) != "" ==> !IsBlank(LeftStrip(s)[0])
  {
    if s != [] && IsSpace(s[0]) {
      LeftStripDrops(s[1..]);
      assert forall i :: 1 <= i < |s| - |LeftStrip(s)| ==> s[i] == s[1..][i - 1];
    }
  }

  lemma {:induction false} RightStripDrops(s: string)
    ensures |RightStrip(s)| <= |s| && RightStrip(s) == s[..|RightStrip(s)|]
    ensures forall i :: |RightStrip(s)| <= i < |s| ==> IsBlank(s[i])
    ensures RightStrip(s) != "" ==> !IsBlank(RightStrip(s)[|RightStrip(s)| - 1])
  {
    if s != [] && IsSpace(s[|s| - 1]) {
      RightStripDrops(s[..|s| - 1]);
    }
  }

  /** Stripping drops white space from both ends and nothing else. */
  lemma StripExactly(s: string) returns (i: nat, j: nat)
    ensures i <= j <= |s| && Strip(s) == s[i..j]
    ensures forall k :: 0 <= k < |s| && !(i <= k < j) ==> IsBlank(s[k])
    ensures i < j ==> !IsBlank(s[i]) && !IsBlank(s[j - 1])
  {
    var left := LeftStrip(s);
    LeftStripDrops(s);
    RightStripDrops(left);
    hide LeftStrip, RightStrip, IsBlank;
    i := |s| - |left|;
    j := i + |RightStrip(left)|;
    assert forall k :: j <= k < |s| ==> s[k] == left[k - i];
    assert i < j ==> s[i] == left[0] == RightStrip(left)[0];
  }

  /** The number that a row of decimal digits stands for. */
  function ValueOf(digits: string): int {
    if digits == [] then 0
    else 10 * ValueOf(digits[..|digits| - 1]) + (digits[|digits| - 1] as int - '0' as int)
  }

  /** Counters are written in decimal, without leading zeros. */
  lemma {:induction false} DigitsExactly(n: nat)
    ensures ValueOf(Digits(n)) == n && (|Digits(n)| > 1 ==> Digits(n)[0] != '0')
  {
    if n >= 10 {
      DigitsExactly(n / 10);
      assert Digits(n)[..|Digits(n)| - 1] == Digits(n / 10);
    } else {
      assert Digits(n)[..0] == [];
    }
  }
}
