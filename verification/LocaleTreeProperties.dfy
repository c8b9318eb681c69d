/** When flattening and rebuilding a locale dictionary undo each other: scripts/translate_locales.py. */
module LocaleTreeProperties {
  import opened Text
  import opened LocaleTree

  // ----- Splitting and joining keys -----

  lemma {:induction false} JoinSplit(key: string)
    ensures Join(".", Split(key)) == key
  {
    if key != "" {
      var rest := Split(key[1..]);
      JoinSplit(key[1..]);
      if key[0] == '.' {
        assert ([""] + rest)[1..] == rest;
      } else if |rest| > 1 {
        assert ([[key[0]] + rest[0]] + rest[1..])[1..] == rest[1..];
      }
    }
  }

  lemma {:induction false} SplitPiece(s: string)
    requires DotFree(s)
    ensures Split(s) == [s]
  {
    if s != "" {
      assert s[0] in s && DotFree(s[1..]);
      SplitPiece(s[1..]);
      assert [s[0]] + s[1..] == s;
    }
  }

  /** The pieces of a key with one more character in front. */
  function Prepended(c: char, pieces: Path): Path
    requires pieces != []
  {
    if c == '.' then [""] + pieces else [[c] + pieces[0]] + pieces[1..]
  }

  lemma SplitStep(c: char, rest: string)
    ensures Split([c] + rest) == Prepended(c, Split(rest))
  {
    assert ([c] + rest)[1..] == rest;
  }

  lemma PrependedConcat(c: char, a: Path, b: Path)
    requires a != []
    ensures Prepended(c, a + b) == Prepended(c, a) + b
  {
  }

  lemma {:induction false} SplitDot(a: string, c: string)
    ensures Split(a + "." + c) == Split(a) + Split(c)
  {
    hide Split, Prepended;
    if a == "" {
      assert a + "." + c == ['.'] + c;
      SplitStep('.', c);
      PrependedDot(Split(c));
      SplitPiece(a);
    } else {
      var x, rest := a[0], a[1..];
      assert a == [x] + rest && a + "." + c == [x] + (rest + "." + c);
      SplitStep(x, rest);
      SplitStep(x, rest + "." + c);
      SplitDot(rest, c);
      PrependedConcat(x, Split(rest), Split(c));
    }
  }

  lemma PrependedDot(pieces: Path)
    requires pieces != []
    ensures Prepended('.', pieces) == [""] + pieces
  {
  }

  lemma {:induction false} SplitJoin(path: Path)
    requires path != [] && AllDotFree(path)
    ensures Split(Join(".", path)) == path
  {
    if |path| == 1 {
      SplitPiece(path[0]);
    } else {
      SplitJoin(path[1..]);
      SplitPiece(path[0]);
      SplitDot(path[0], Join(".", path[1..]));
    }
  }

  lemma SplitInjective(a: string, b: string)
    requires Split(a) == Split(b)
    ensures a == b
  {
    JoinSplit(a);
    JoinSplit(b);
  }

  lemma {:induction false} JoinAppend(a: Path, b: Path)
    requires a != [] && b != []
    ensures Join(".", a + b) == Join(".", a) + "." + Join(".", b)
  {
    if |a| > 1 {
      JoinAppend(a[1..], b);
      assert (a + b)[1..] == a[1..] + b;
    } else {
      assert (a + b)[1..] == b;
    }
  }

  /** Paths are nested exactly when one key is the other up to a dot. */
  lemma NestedKeys(a: string, b: string)
    ensures Split(a) < Split(b) <==> a + "." <= b
  {
    hide Split;
    if a + "." <= b {
      var c := b[|a| + 1..];
      assert b == a + "." + c;
      SplitDot(a, c);
    }
    if Split(a) < Split(b) {
      var rest := Split(b)[|Split(a)|..];
      assert Split(b) == Split(a) + rest;
      JoinAppend(Split(a), rest);
      JoinSplit(a);
      JoinSplit(b);
    }
  }

  // ----- Keys that flattening produces -----

  lemma {:induction false} FlatKeyJoins(prefix: string, path: Path)
    requires prefix != ""
    ensures FlatKey(prefix, path) == if path == [] then prefix else prefix + "." + Join(".", path)
    decreases |path|
  {
    if path != [] {
      FlatKeyJoins(prefix + "." + path[0], path[1..]);
    }
  }

  /** A path whose first key is not empty, or that has one key only, is filed under its dotted key. */
  lemma FlatKeyIsJoin(path: Path)
    requires path != [] && (|path| == 1 || path[0] != "")
    ensures FlatKey("", path) == Join(".", path)
  {
    if path[0] != "" {
      FlatKeyJoins(path[0], path[1..]);
      assert path == [path[0]] + path[1..];
    } else {
      assert FlatKey("", path) == FlatKey("", path[1..]);
    }
  }

  lemma {:induction false} FlatKeyUndotted(path: Path)
    requires AllDotFree(path)
    ensures !("." <= FlatKey("", path))
    decreases |path|
  {
    if path != [] {
      if path[0] == "" {
        assert FlatKey("", path) == FlatKey("", path[1..]);
        FlatKeyUndotted(path[1..]);
      } else {
        FlatKeyJoins(path[0], path[1..]);
        assert FlatKey("", path)[0] == path[0][0];
      }
    }
  }

  lemma SplitFront(key: string)
    ensures Split(key)[0] == "" && |Split(key)| > 1 <==> "." <= key
  {
  }

  lemma FlatKeyOfSplit(key: string)
    requires !("." <= key)
    ensures FlatKey("", Split(key)) == key
  {
    SplitFront(key);
    FlatKeyIsJoin(Split(key));
    JoinSplit(key);
  }

  // ----- One insertion -----

  /** Inserting sets one path, removes what was below it, and keeps every other text. */
  lemma {:induction false} InsertLeafAt(t: Tree, parts: Path, value: string, path: Path)
    requires parts != [] && Insert(t, parts, value).Some?
    ensures LeafAt(Insert(t, parts, value).value, path) ==
              if path == parts then Some(value) else if parts < path then None else LeafAt(t, path)
    decreases |parts|
  {
    if path != [] && path[0] == parts[0] {
      assert path == [path[0]] + path[1..] && parts == [parts[0]] + parts[1..];
      if |parts| > 1 {
        var child := if parts[0] in t.items then t.items[parts[0]] else Dict(map[]);
        InsertLeafAt(child, parts[1..], value, path[1..]);
      }
    }
  }

  /** A text is stored at a proper prefix of the path. */
  ghost predicate HasTextOnTheWay(t: Tree, path: Path) {
    exists p: Path :: p < path && LeafAt(t, p).Some?
  }

  /** An insertion fails exactly when a text is stored on the way. */
  lemma {:induction false} InsertFails(t: Tree, parts: Path, value: string)
    requires parts != []
    ensures Insert(t, parts, value).None? <==> HasTextOnTheWay(t, parts)
    decreases |parts|
  {
    if t.Leaf? {
      assert [] < parts && LeafAt(t, []).Some?;
    } else if |parts| == 1 {
      forall p: Path | p < parts ensures LeafAt(t, p).None? { assert p == []; }
    } else {
      var child := if parts[0] in t.items then t.items[parts[0]] else Dict(map[]);
      InsertFails(child, parts[1..], value);
      TextBelow(t, parts[0], parts[1..]);
      assert parts == [parts[0]] + parts[1..];
    }
  }

  lemma TextBelow(t: Tree, k: string, rest: Path)
    requires t.Dict?
    ensures var child := if k in t.items then t.items[k] else Dict(map[]);
            HasTextOnTheWay(t, [k] + rest) <==> HasTextOnTheWay(child, rest)
  {
    var child := if k in t.items then t.items[k] else Dict(map[]);
    var path := [k] + rest;
    if p: Path :| p < rest && LeafAt(child, p).Some? {
      var q := [k] + p;
      assert q[1..] == p;
      assert q < path && LeafAt(t, q).Some?;
    }
    if q: Path :| q < path && LeafAt(t, q).Some? {
      assert q[0] == k && q[1..] < rest;
      assert LeafAt(child, q[1..]).Some?;
    }
  }

  lemma LeavesApart(t: Tree, p: Path, q: Path)
    requires p < q && LeafAt(t, p).Some?
    ensures LeafAt(t, q).None?
    decreases |p|
  {
    if p != [] {
      LeavesApart(t.items[p[0]], p[1..], q[1..]);
    }
  }

  // ----- Rebuilding a whole flat dictionary -----

  predicate DistinctKeys(flat: Entries) {
    forall i, j :: 0 <= i < j < |flat| ==> flat[i].0 != flat[j].0
  }

  /** Entry `i` is filed on the way to entry `j`. */
  predicate Blocks(flat: Entries, i: int, j: int) {
    0 <= i < |flat| && 0 <= j < |flat| && flat[i].0 + "." <= flat[j].0
  }

  ghost predicate ConflictFree(flat: Entries) {
    forall i, j :: !Blocks(flat, i, j)
  }

  /** A text is stored at the path or above it. */
  ghost predicate Covered(t: Tree, path: Path) {
    exists p: Path :: p <= path && LeafAt(t, p).Some?
  }

  /** The path is that of one of the first `n` entries. */
  ghost predicate Filed(flat: Entries, n: nat, path: Path)
    requires n <= |flat|
  {
    exists i :: 0 <= i < n && Split(flat[i].0) == path
  }

  /**
   * After the first `n` entries: every entry has a text at its path or above it, and every text comes from an entry.
   */
  ghost predicate Built(t: Tree, flat: Entries, n: nat)
    requires n <= |flat|
  {
    && (forall i :: 0 <= i < n ==> Covered(t, Split(flat[i].0)))
    && (forall p :: LeafAt(t, p).Some? ==> Filed(flat, n, p))
  }

  lemma CoveredNext(t: Tree, parts: Path, value: string, next: Tree, path: Path)
    requires parts != [] && Insert(t, parts, value) == Some(next)
    requires Covered(t, path) || path == parts
    ensures Covered(next, path)
  {
    hide Insert, LeafAt;
    InsertLeafAt(t, parts, value, parts);
    if Covered(t, path) {
      var p: Path :| p <= path && LeafAt(t, p).Some?;
      InsertLeafAt(t, parts, value, p);
      assert if parts < p then parts <= path && LeafAt(next, parts).Some? else LeafAt(next, p).Some?;
    } else {
      assert parts <= path && LeafAt(next, parts).Some?;
    }
  }

  lemma BuiltNext(t: Tree, flat: Entries, n: nat, next: Tree)
    requires n < |flat| && Built(t, flat, n) && Insert(t, Split(flat[n].0), flat[n].1) == Some(next)
    ensures Built(next, flat, n + 1)
  {
    hide Insert, LeafAt, Split, Covered;
    var parts, value := Split(flat[n].0), flat[n].1;
    forall i | 0 <= i < n + 1 ensures Covered(next, Split(flat[i].0)) {
      CoveredNext(t, parts, value, next, Split(flat[i].0));
    }
    forall p | LeafAt(next, p).Some? ensures Filed(flat, n + 1, p) {
      InsertLeafAt(t, parts, value, p);
    }
  }

  /** Some entry before entry `j` is filed on the way to it. */
  ghost predicate IsBlocked(flat: Entries, j: nat) {
    exists i :: 0 <= i < j && Blocks(flat, i, j)
  }

  lemma BlockedInsert(t: Tree, flat: Entries, n: nat)
    requires n < |flat| && Built(t, flat, n)
    ensures Insert(t, Split(flat[n].0), flat[n].1).None? <==> IsBlocked(flat, n)
  {
    InsertFails(t, Split(flat[n].0), flat[n].1);
    hide Insert, LeafAt, Split;
    if IsBlocked(flat, n) {
      var i :| 0 <= i < n && Blocks(flat, i, n);
      NestedKeys(flat[i].0, flat[n].0);
      assert Covered(t, Split(flat[i].0));
      var p: Path :| p <= Split(flat[i].0) && LeafAt(t, p).Some?;
      assert p < Split(flat[n].0);
    }
    if HasTextOnTheWay(t, Split(flat[n].0)) {
      var p: Path :| p < Split(flat[n].0) && LeafAt(t, p).Some?;
      assert Filed(flat, n, p);
      var i :| 0 <= i < n && Split(flat[i].0) == p;
      NestedKeys(flat[i].0, flat[n].0);
      assert Blocks(flat, i, n);
    }
  }

  lemma {:induction false} UnflattenFailsFrom(t: Tree, flat: Entries, n: nat)
    requires n <= |flat| && Built(t, flat, n)
    requires forall j: nat :: j < n ==> !IsBlocked(flat, j)
    ensures InsertedAll(t, flat[n..]).None? <==> exists j: nat :: IsBlocked(flat, j)
    decreases |flat| - n
  {
    hide Built, IsBlocked, Insert, Split;
    if n < |flat| {
      assert flat[n..][0] == flat[n] && flat[n..][1..] == flat[n + 1..];
      BlockedInsert(t, flat, n);
      var next := Insert(t, Split(flat[n].0), flat[n].1);
      if next.Some? {
        BuiltNext(t, flat, n, next.value);
        UnflattenFailsFrom(next.value, flat, n + 1);
      }
    } else {
      forall j: nat | j >= n ensures !IsBlocked(flat, j) { BlockedInside(flat, j); }
    }
  }

  lemma BlockedInside(flat: Entries, j: nat)
    ensures IsBlocked(flat, j) ==> j < |flat|
  {
  }

  lemma NothingBuilt(flat: Entries)
    ensures Built(Dict(map[]), flat, 0)
  {
    assert forall p: Path :: LeafAt(Dict(map[]), p).None?;
  }

  /** Rebuilding fails exactly when some entry comes after one whose key, with a dot, begins its own key. */
  lemma UnflattenFails(flat: Entries)
    ensures Unflattened(flat).None? <==> exists j: nat :: IsBlocked(flat, j)
  {
    NothingBuilt(flat);
    assert flat[0..] == flat;
    UnflattenFailsFrom(Dict(map[]), flat, 0);
  }

  /** The texts of the result, for entries that are not filed on the way to one another. */
  lemma {:induction false} InsertedLeaves(t: Tree, flat: Entries, path: Path)
    requires DistinctKeys(flat) && ConflictFree(flat) && InsertedAll(t, flat).Some?
    ensures var r := InsertedAll(t, flat).value;
            && (forall i :: 0 <= i < |flat| && Split(flat[i].0) == path ==> LeafAt(r, path) == Some(flat[i].1))
            && ((forall i :: 0 <= i < |flat| ==> !(Split(flat[i].0) <= path)) ==> LeafAt(r, path) == LeafAt(t, path))
    decreases |flat|
  {
    if flat != [] {
      var parts, value, rest := Split(flat[0].0), flat[0].1, flat[1..];
      hide Split, LeafAt, Insert;
      TailApart(flat);
      InsertLeafAt(t, parts, value, path);
      var next := Insert(t, parts, value).value;
      InsertedLeaves(next, rest, path);
      assert forall i :: 0 < i < |flat| ==> flat[i] == rest[i - 1];
      assert forall i :: 0 <= i < |rest| ==> rest[i] == flat[i + 1];
      if path == parts {
        forall i | 0 <= i < |rest| ensures !(Split(rest[i].0) <= path) { FirstApart(flat, i + 1); }
      }
    }
  }

  lemma TailApart(flat: Entries)
    requires flat != [] && DistinctKeys(flat) && ConflictFree(flat)
    ensures DistinctKeys(flat[1..]) && ConflictFree(flat[1..])
  {
    forall i, j ensures !Blocks(flat[1..], i, j) {
      assert !Blocks(flat, i + 1, j + 1);
    }
  }

  lemma FirstApart(flat: Entries, i: nat)
    requires 0 < i < |flat| && DistinctKeys(flat) && ConflictFree(flat)
    ensures !(Split(flat[i].0) <= Split(flat[0].0))
  {
    hide Split;
    NestedKeys(flat[i].0, flat[0].0);
    assert !Blocks(flat, i, 0);
    if Split(flat[i].0) == Split(flat[0].0) { SplitInjective(flat[i].0, flat[0].0); }
  }

  // ----- Shape of rebuilt dictionaries -----

  predicate HasNoEmptyDict(t: Tree) {
    t.Dict? ==> forall k :: k in t.items ==> t.items[k] != Dict(map[]) && HasNoEmptyDict(t.items[k])
  }

  predicate HasDotFreeKeys(t: Tree) {
    t.Dict? ==> forall k :: k in t.items ==> DotFree(k) && HasDotFreeKeys(t.items[k])
  }

  lemma {:induction false} InsertShape(t: Tree, parts: Path, value: string)
    requires parts != [] && AllDotFree(parts) && Insert(t, parts, value).Some?
    requires HasNoEmptyDict(t) && HasDotFreeKeys(t)
    ensures var r := Insert(t, parts, value).value;
              r.Dict? && r.items != map[] && HasNoEmptyDict(r) && HasDotFreeKeys(r)
    decreases |parts|
  {
    if |parts| > 1 {
      var child := if parts[0] in t.items then t.items[parts[0]] else Dict(map[]);
      InsertShape(child, parts[1..], value);
    }
    assert parts[0] in Insert(t, parts, value).value.items;
  }

  lemma {:induction false} InsertedShape(t: Tree, flat: Entries)
    requires t.Dict? && HasNoEmptyDict(t) && HasDotFreeKeys(t) && InsertedAll(t, flat).Some?
    ensures var r := InsertedAll(t, flat).value; r.Dict? && HasNoEmptyDict(r) && HasDotFreeKeys(r)
    decreases |flat|
  {
    if flat != [] {
      hide Split, Insert, HasNoEmptyDict, HasDotFreeKeys;
      InsertShape(t, Split(flat[0].0), flat[0].1);
      InsertedShape(Insert(t, Split(flat[0].0), flat[0].1).value, flat[1..]);
    }
  }

  /** The empty key at the top holds a text, if anything. */
  predicate HasPlainTop(t: Tree) {
    t.Dict? && ("" in t.items ==> t.items[""].Leaf?)
  }

  lemma {:induction false} InsertedPlainTop(t: Tree, flat: Entries)
    requires HasPlainTop(t) && InsertedAll(t, flat).Some?
    requires forall i :: 0 <= i < |flat| ==> !("." <= flat[i].0)
    ensures HasPlainTop(InsertedAll(t, flat).value)
    decreases |flat|
  {
    if flat != [] {
      SplitFront(flat[0].0);
      hide Split;
      InsertedPlainTop(Insert(t, Split(flat[0].0), flat[0].1).value, flat[1..]);
    }
  }

  lemma {:induction false} SomeLeaf(t: Tree) returns (path: Path)
    requires t != Dict(map[]) && HasNoEmptyDict(t)
    ensures LeafAt(t, path).Some?
  {
    if t.Leaf? {
      path := [];
    } else {
      var k :| k in t.items;
      var p := SomeLeaf(t.items[k]);
      path := [k] + p;
      assert path[1..] == p;
    }
  }

  lemma LeafBelow(t: Tree, k: string, path: Path)
    requires t.Dict?
    ensures LeafAt(t, [k] + path) == if k in t.items then LeafAt(t.items[k], path) else None
  {
    assert ([k] + path)[1..] == path;
  }

  lemma ChildShape(t: Tree, k: string)
    requires HasNoEmptyDict(t) && t.Dict? && k in t.items
    ensures t.items[k] != Dict(map[]) && HasNoEmptyDict(t.items[k])
  {
  }

  lemma SameKeys(t: Tree, u: Tree)
    requires t.Dict? && u.Dict? && HasNoEmptyDict(t)
    requires forall path :: LeafAt(t, path) == LeafAt(u, path)
    ensures t.items.Keys <= u.items.Keys
  {
    hide LeafAt, HasNoEmptyDict;
    forall k | k in t.items ensures k in u.items {
      ChildShape(t, k);
      var p := SomeLeaf(t.items[k]);
      LeafBelow(t, k, p);
      LeafBelow(u, k, p);
    }
  }

  /** Dictionaries without empty sub-dictionaries are equal when they hold the same texts at the same paths. */
  lemma {:induction false} SameLeavesSameTree(t: Tree, u: Tree)
    requires HasNoEmptyDict(t) && HasNoEmptyDict(u) && (t.Dict? <==> u.Dict?)
    requires forall path :: LeafAt(t, path) == LeafAt(u, path)
    ensures t == u
  {
    if t.Leaf? {
      assert LeafAt(t, []) == LeafAt(u, []);
    } else {
      hide HasNoEmptyDict;
      SameKeys(t, u);
      SameKeys(u, t);
      forall k | k in t.items ensures t.items[k] == u.items[k] {
        ChildShape(t, k);
        ChildShape(u, k);
        var a, b := t.items[k], u.items[k];
        forall path ensures LeafAt(a, path) == LeafAt(b, path) {
          LeafBelow(t, k, path);
          LeafBelow(u, k, path);
        }
        assert LeafAt(a, []) == LeafAt(b, []);
        SameLeavesSameTree(a, b);
      }
    }
  }

  // ----- Flat, nested and flat again -----

  /** The entries are those of the flat dictionary, in some order. */
  ghost predicate Holds(flat: Entries, out: map<string, string>) {
    && (forall i :: 0 <= i < |flat| ==> flat[i].0 in out && out[flat[i].0] == flat[i].1)
    && (forall key :: key in out ==> exists i :: 0 <= i < |flat| && flat[i].0 == key)
  }

  predicate NoLeadingDot(flat: Entries) {
    forall i :: 0 <= i < |flat| ==> !("." <= flat[i].0)
  }

  lemma ConflictFreeRebuilds(flat: Entries)
    requires ConflictFree(flat)
    ensures Unflattened(flat).Some?
  {
    UnflattenFails(flat);
    forall j: nat ensures !IsBlocked(flat, j) {}
  }

  /** The texts of a rebuilt dictionary are at the paths of the entries, with their values. */
  lemma RebuiltLeaves(flat: Entries, t: Tree, path: Path)
    requires DistinctKeys(flat) && ConflictFree(flat) && Unflattened(flat) == Some(t)
    ensures forall i :: 0 <= i < |flat| && Split(flat[i].0) == path ==> LeafAt(t, path) == Some(flat[i].1)
    ensures LeafAt(t, path).Some? ==> Filed(flat, |flat|, path)
  {
    hide Split, LeafAt;
    InsertedLeaves(Dict(map[]), flat, path);
    RebuiltFiled(flat, t, path);
  }

  lemma {:induction false} InsertedFiled(t: Tree, flat: Entries, n: nat)
    requires n <= |flat| && Built(t, flat, n) && InsertedAll(t, flat[n..]).Some?
    ensures Built(InsertedAll(t, flat[n..]).value, flat, |flat|)
    decreases |flat| - n
  {
    hide Built, Insert, Split;
    if n < |flat| {
      assert flat[n..][0] == flat[n] && flat[n..][1..] == flat[n + 1..];
      var next := Insert(t, Split(flat[n].0), flat[n].1);
      BuiltNext(t, flat, n, next.value);
      InsertedFiled(next.value, flat, n + 1);
    }
  }

  lemma RebuiltFiled(flat: Entries, t: Tree, path: Path)
    requires Unflattened(flat) == Some(t)
    ensures LeafAt(t, path).Some? ==> Filed(flat, |flat|, path)
  {
    NothingBuilt(flat);
    assert flat[0..] == flat;
    InsertedFiled(Dict(map[]), flat, 0);
  }

  /** Keys of a flattened rebuilt dictionary never begin with a dot. */
  lemma RebuiltKeysUndotted(flat: Entries, t: Tree, out: map<string, string>, key: string)
    requires Unflattened(flat) == Some(t) && IsFlattening(t, "", out) && key in out
    ensures !("." <= key)
  {
    hide Split, LeafAt, FlatKey;
    var path :| LeafAt(t, path) == Some(out[key]) && FlatKey("", path) == key;
    RebuiltFiled(flat, t, path);
    FlatKeyUndotted(path);
  }

  /** An entry that comes back unchanged has a text at its own path. */
  lemma KeptEntryHasLeaf(flat: Entries, t: Tree, out: map<string, string>, i: nat)
    requires Unflattened(flat) == Some(t) && IsFlattening(t, "", out) && Holds(flat, out) && i < |flat|
    ensures LeafAt(t, Split(flat[i].0)).Some?
  {
    hide Split, LeafAt, FlatKey;
    var key := flat[i].0;
    var path :| LeafAt(t, path) == Some(out[key]) && FlatKey("", path) == key;
    RebuiltFiled(flat, t, path);
    var c :| 0 <= c < |flat| && Split(flat[c].0) == path;
    RebuiltKeysUndotted(flat, t, out, flat[c].0);
    FlatKeyOfSplit(flat[c].0);
  }

  lemma KeptMeansApart(flat: Entries, t: Tree, out: map<string, string>)
    requires Unflattened(flat) == Some(t) && IsFlattening(t, "", out) && Holds(flat, out)
    ensures ConflictFree(flat) && NoLeadingDot(flat)
  {
    hide Split, LeafAt, FlatKey, IsFlattening, Unflattened;
    forall i | 0 <= i < |flat| ensures !("." <= flat[i].0) { RebuiltKeysUndotted(flat, t, out, flat[i].0); }
    forall i, j ensures !Blocks(flat, i, j) {
      if Blocks(flat, i, j) {
        NestedKeys(flat[i].0, flat[j].0);
        KeptEntryHasLeaf(flat, t, out, i);
        KeptEntryHasLeaf(flat, t, out, j);
        LeavesApart(t, Split(flat[i].0), Split(flat[j].0));
      }
    }
  }

  lemma ApartMeansKept(flat: Entries, t: Tree, out: map<string, string>)
    requires DistinctKeys(flat) && ConflictFree(flat) && NoLeadingDot(flat)
    requires Unflattened(flat) == Some(t) && IsFlattening(t, "", out)
    ensures Holds(flat, out)
  {
    hide Split, LeafAt, FlatKey, Unflattened, ConflictFree;
    forall key | key in out ensures exists i :: 0 <= i < |flat| && flat[i].0 == key && out[key] == flat[i].1 {
      var path :| LeafAt(t, path) == Some(out[key]) && FlatKey("", path) == key;
      RebuiltLeaves(flat, t, path);
      var i :| 0 <= i < |flat| && Split(flat[i].0) == path;
      FlatKeyOfSplit(flat[i].0);
    }
    forall i | 0 <= i < |flat| ensures flat[i].0 in out {
      RebuiltLeaves(flat, t, Split(flat[i].0));
      FlatKeyOfSplit(flat[i].0);
      assert LeafAt(t, Split(flat[i].0)).Some?;
    }
  }

  /**
   * Flattening a rebuilt dictionary gives the flat one back if and only if no key begins with a dot and no key, with
   * a dot, begins another.
   */
  lemma FlattenUndoesUnflatten(flat: Entries, t: Tree, out: map<string, string>)
    requires DistinctKeys(flat) && Unflattened(flat) == Some(t) && IsFlattening(t, "", out)
    ensures Holds(flat, out) <==> ConflictFree(flat) && NoLeadingDot(flat)
  {
    if Holds(flat, out) { KeptMeansApart(flat, t, out); }
    if ConflictFree(flat) && NoLeadingDot(flat) { ApartMeansKept(flat, t, out); }
  }

  // ----- Nested, flat and nested again -----

  /** Keys without dots, no empty dictionary inside, and no dictionary under an empty key at the top. */
  predicate IsPrintable(t: Tree) {
    HasDotFreeKeys(t) && HasNoEmptyDict(t) && HasPlainTop(t)
  }

  lemma {:induction false} LeafPathDotFree(t: Tree, path: Path)
    requires HasDotFreeKeys(t) && LeafAt(t, path).Some?
    ensures AllDotFree(path)
    decreases |path|
  {
    if path != [] {
      LeafPathDotFree(t.items[path[0]], path[1..]);
      assert path == [path[0]] + path[1..];
    }
  }

  lemma PrintablePath(t: Tree, path: Path)
    requires IsPrintable(t) && LeafAt(t, path).Some?
    ensures path != [] && FlatKey("", path) == Join(".", path) && Split(FlatKey("", path)) == path
    ensures !("." <= FlatKey("", path))
  {
    LeafPathDotFree(t, path);
    assert |path| == 1 || path[0] != "";
    FlatKeyIsJoin(path);
    SplitJoin(path);
    FlatKeyUndotted(path);
  }

  /** In a printable dictionary the flat keys determine the paths. */
  lemma PrintableEntries(t: Tree, out: map<string, string>, key: string)
    requires IsPrintable(t) && IsFlattening(t, "", out)
    ensures key in out ==> LeafAt(t, Split(key)) == Some(out[key])
    ensures forall path :: LeafAt(t, path).Some? ==> Join(".", path) in out && Split(Join(".", path)) == path
  {
    hide Split, LeafAt, FlatKey, IsPrintable, Join;
    if key in out {
      var path :| LeafAt(t, path) == Some(out[key]) && FlatKey("", path) == key;
      PrintablePath(t, path);
    }
    forall path | LeafAt(t, path).Some? ensures Join(".", path) in out && Split(Join(".", path)) == path {
      PrintablePath(t, path);
    }
  }

  lemma PrintableApart(t: Tree, out: map<string, string>, flat: Entries)
    requires IsPrintable(t) && IsFlattening(t, "", out) && Holds(flat, out)
    ensures ConflictFree(flat)
  {
    hide Split, LeafAt, IsFlattening, IsPrintable, Join;
    forall i, j ensures !Blocks(flat, i, j) {
      if Blocks(flat, i, j) {
        NestedKeys(flat[i].0, flat[j].0);
        PrintableEntries(t, out, flat[i].0);
        PrintableEntries(t, out, flat[j].0);
        LeavesApart(t, Split(flat[i].0), Split(flat[j].0));
      }
    }
  }

  lemma PrintableRebuilds(t: Tree, out: map<string, string>, flat: Entries)
    requires IsPrintable(t) && IsFlattening(t, "", out) && Holds(flat, out) && DistinctKeys(flat)
    ensures Unflattened(flat) == Some(t)
  {
    PrintableApart(t, out, flat);
    ConflictFreeRebuilds(flat);
    var r := Unflattened(flat).value;
    InsertedShape(Dict(map[]), flat);
    hide Split, LeafAt, IsFlattening, Join, Unflattened, ConflictFree, InsertedAll;
    forall path ensures LeafAt(r, path) == LeafAt(t, path) {
      RebuiltLeaves(flat, r, path);
      var key := Join(".", path);
      PrintableEntries(t, out, key);
      if LeafAt(r, path).Some? {
        var i :| 0 <= i < |flat| && Split(flat[i].0) == path;
        PrintableEntries(t, out, flat[i].0);
      }
      if LeafAt(t, path).Some? {
        var i :| 0 <= i < |flat| && flat[i].0 == key;
        assert Split(flat[i].0) == path;
      }
    }
    SameLeavesSameTree(r, t);
  }

  lemma RebuiltIsPrintable(t: Tree, out: map<string, string>, flat: Entries)
    requires IsFlattening(t, "", out) && Holds(flat, out) && Unflattened(flat) == Some(t)
    ensures IsPrintable(t)
  {
    InsertedShape(Dict(map[]), flat);
    forall i | 0 <= i < |flat| ensures !("." <= flat[i].0) { RebuiltKeysUndotted(flat, t, out, flat[i].0); }
    InsertedPlainTop(Dict(map[]), flat);
  }

  /**
   * Rebuilding a flattened dictionary, whatever the order of the entries, gives the dictionary back if and only if
   * its keys have no dots, it holds no empty dictionary, and no dictionary is filed under an empty key at the top.
   */
  lemma UnflattenUndoesFlatten(t: Tree, out: map<string, string>, flat: Entries)
    requires t.Dict? && IsFlattening(t, "", out) && Holds(flat, out) && DistinctKeys(flat)
    ensures Unflattened(flat) == Some(t) <==> IsPrintable(t)
  {
    if Unflattened(flat) == Some(t) { RebuiltIsPrintable(t, out, flat); }
    if IsPrintable(t) { PrintableRebuilds(t, out, flat); }
  }

  // ----- Order -----

  lemma BlocksElsewhere(flat: Entries, other: Entries, out: map<string, string>, i: int, j: int)
      returns (a: int, b: int)
    requires Holds(flat, out) && Holds(other, out) && Blocks(other, i, j)
    ensures Blocks(flat, a, b)
  {
    a :| 0 <= a < |flat| && flat[a].0 == other[i].0;
    b :| 0 <= b < |flat| && flat[b].0 == other[j].0;
  }

  /** Rebuilding entries that are not filed on the way to one another does not depend on their order. */
  lemma OrderIrrelevant(flat: Entries, other: Entries, out: map<string, string>)
    requires Holds(flat, out) && Holds(other, out) && DistinctKeys(flat) && DistinctKeys(other) && ConflictFree(flat)
    ensures Unflattened(flat).Some? && Unflattened(other) == Unflattened(flat)
  {
    forall i, j ensures !Blocks(other, i, j) {
      if Blocks(other, i, j) {
        var a, b := BlocksElsewhere(flat, other, out, i, j);
      }
    }
    ConflictFreeRebuilds(flat);
    ConflictFreeRebuilds(other);
    InsertedShape(Dict(map[]), flat);
    InsertedShape(Dict(map[]), other);
    var r, q := Unflattened(flat).value, Unflattened(other).value;
    hide Split, LeafAt, Unflattened, ConflictFree, InsertedAll;
    forall path ensures LeafAt(r, path) == LeafAt(q, path) {
      RebuiltLeaves(flat, r, path);
      RebuiltLeaves(other, q, path);
      if LeafAt(r, path).Some? {
        var i :| 0 <= i < |flat| && Split(flat[i].0) == path;
        var j :| 0 <= j < |other| && other[j].0 == flat[i].0;
      }
      if LeafAt(q, path).Some? {
        var i :| 0 <= i < |other| && Split(other[i].0) == path;
        var j :| 0 <= j < |flat| && flat[j].0 == other[i].0;
      }
    }
    SameLeavesSameTree(r, q);
  }
}
