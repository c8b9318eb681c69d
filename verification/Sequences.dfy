/** Sequences: concatenation, slices and filtering. */
module Sequences {

  lemma AppendAssoc<T>(a: seq<T>, b: seq<T>, c: seq<T>)
    ensures (a + b) + c == a + (b + c)
  {
  }

  lemma TakeNext<T>(s: seq<T>, i: nat)
    requires i < |s|
    ensures s[..i + 1] == s[..i] + [s[i]]
  {
  }

  lemma SlicesAfterFirst<T>(x: T, rest: seq<T>, n: nat)
    requires n <= |rest|
    ensures ([x] + rest)[..n + 1] == [x] + rest[..n] && ([x] + rest)[n + 1..] == rest[n..]
  {
  }

  lemma TakeAll<T>(s: seq<T>)
    ensures s[..|s|] == s && s[0..] == s && s[..0] == []
  {
  }

  lemma SliceOfFront<T>(s: seq<T>, n: nat, i: nat, j: nat)
    requires i <= j <= n <= |s|
    ensures s[..n][i..j] == s[i..j]
  {
  }

  predicate NoDuplicates(list: seq<string>) {
    forall i, j :: 0 <= i < j < |list| ==> list[i] != list[j]
  }

  function Filter<T>(s: seq<T>, keep: T -> bool): (r: seq<T>)
    ensures |r| <= |s|
  {
    if s == [] then []
    else if keep(s[0]) then [s[0]] + Filter(s[1..], keep)
    else Filter(s[1..], keep)
  }

  lemma {:induction false} FilterMember<T>(s: seq<T>, keep: T -> bool, x: T)
    ensures x in Filter(s, keep) <==> x in s && keep(x)
  {
    if s != [] {
      FilterMember(s[1..], keep, x);
      assert s == [s[0]] + s[1..];
    }
  }

  lemma FilterStep<T>(x: T, rest: seq<T>, keep: T -> bool)
    ensures Filter([x] + rest, keep) == if keep(x) then [x] + Filter(rest, keep) else Filter(rest, keep)
  {
    assert ([x] + rest)[1..] == rest;
  }

  lemma FilterOne<T>(x: T, keep: T -> bool)
    ensures Filter([x], keep) == if keep(x) then [x] else []
  {
    assert [x][1..] == [];
  }

  lemma {:induction false} FilterConcat<T>(s: seq<T>, t: seq<T>, keep: T -> bool)
    ensures Filter(s + t, keep) == Filter(s, keep) + Filter(t, keep)
  {
    if s == [] {
      assert s + t == t;
    } else {
      hide Filter;
      var x, rest := s[0], s[1..];
      assert s == [x] + rest;
      AppendAssoc([x], rest, t);
      FilterStep(x, rest, keep);
      FilterStep(x, rest + t, keep);
      FilterConcat(rest, t, keep);
      AppendAssoc([x], Filter(rest, keep), Filter(t, keep));
    }
  }

  lemma FilterInsert<T>(s: seq<T>, at: nat, x: T, keep: T -> bool)
    requires at <= |s| && !keep(x)
    ensures Filter(s[..at] + [x] + s[at..], keep) == Filter(s, keep)
  {
    hide Filter;
    SplitAt(s, at);
    FilterConcat(s[..at], s[at..], keep);
    FilterConcat(s[..at] + [x], s[at..], keep);
    FilterConcat(s[..at], [x], keep);
    FilterOne(x, keep);
  }

  /** Filtering by a condition and by its opposite loses and doubles nothing. */
  lemma {:induction false} Partition<T>(s: seq<T>, keep: T -> bool, drop: T -> bool)
    requires forall x :: x in s ==> keep(x) == !drop(x)
    ensures multiset(s) == multiset(Filter(s, keep)) + multiset(Filter(s, drop))
  {
    if s != [] {
      assert s == [s[0]] + s[1..];
      Partition(s[1..], keep, drop);
    }
  }

  lemma {:induction false} FilterAgrees<T>(s: seq<T>, keep: T -> bool, keep': T -> bool)
    requires forall x :: x in s ==> keep(x) == keep'(x)
    ensures Filter(s, keep) == Filter(s, keep')
  {
    if s != [] {
      FilterAgrees(s[1..], keep, keep');
    }
  }

  lemma {:induction false} FilterAll<T>(s: seq<T>, keep: T -> bool)
    requires forall x :: x in s ==> keep(x)
    ensures Filter(s, keep) == s
  {
    if s != [] {
      FilterAll(s[1..], keep);
    }
  }

  lemma {:induction false} NoneLeft<T>(s: seq<T>, keep: T -> bool)
    requires forall x :: x in s ==> !keep(x)
    ensures Filter(s, keep) == []
  {
    if s != [] {
      NoneLeft(s[1..], keep);
    }
  }

  lemma SplitAt<T>(s: seq<T>, n: nat)
    requires n <= |s|
    ensures s == s[..n] + s[n..]
  {
  }

  /** A first element, what follows it up to `n`, and the rest. */
  lemma SplitAfterFirst<T>(s: seq<T>, n: nat)
    requires 1 <= n <= |s|
    ensures s == ([s[0]] + s[1..n]) + s[n..]
  {
  }

  lemma DropNext<T>(s: seq<T>, i: nat)
    requires i < |s|
    ensures s[i..] == [s[i]] + s[i + 1..]
  {
  }
}
