/** Flattening a nested locale dictionary and rebuilding it: scripts/translate_locales.py. */
module LocaleTree {
  import opened Text

  datatype Tree = Leaf(value: string) | Dict(items: map<string, Tree>)

  type Path = seq<string>

  /** The text at the end of a path of keys, if the path leads to one. */
  function LeafAt(t: Tree, path: Path): Option<string> {
    match t
    case Leaf(value) => if path == [] then Some(value) else None
    case Dict(items) => if path != [] && path[0] in items then LeafAt(items[path[0]], path[1..]) else None
  }

  // ----- Dotted keys -----

  predicate DotFree(s: string) {
    '.' !in s
  }

  predicate AllDotFree(path: Path) {
    forall i :: 0 <= i < |path| ==> DotFree(path[i])
  }

  function Split(key: string): (r: Path)
    ensures r != [] && AllDotFree(r)
  {
    if key == "" then [""]
    else if key[0] == '.' then [""] + Split(key[1..])
    else
      var rest := Split(key[1..]);
      [[key[0]] + rest[0]] + rest[1..]
  }

  function Extended(prefix: string, k: string): string {
    if prefix != "" then prefix + "." + k else k
  }

  /** The key under which flattening files the end of a path. */
  function FlatKey(prefix: string, path: Path): string
    decreases |path|
  {
    if path == [] then prefix else FlatKey(Extended(prefix, path[0]), path[1..])
  }

  // ----- Flattening -----

  /**
   * `out` is a result of flattening `t`: one entry per flat key of a path to a text. When several paths share a flat
   * key the one met last wins, which depends on the order of the dictionary.
   */
  ghost predicate IsFlattening(t: Tree, prefix: string, out: map<string, string>) {
    && (forall key :: key in out ==> exists path :: LeafAt(t, path) == Some(out[key]) && FlatKey(prefix, path) == key)
    && (forall path :: LeafAt(t, path).Some? ==> FlatKey(prefix, path) in out)
  }

  /** A path to this text under one of the keys `done` has this flat key. */
  ghost predicate HasPath(t: Tree, prefix: string, done: set<string>, key: string, value: string) {
    exists path ::
      path != [] && path[0] in done && LeafAt(t, path) == Some(value) && FlatKey(prefix, path) == key
  }

  /** The same for the part of a dictionary under the keys `done`. */
  ghost predicate IsPartFlattening(t: Tree, prefix: string, out: map<string, string>, done: set<string>) {
    && (forall key :: key in out ==> HasPath(t, prefix, done, key, out[key]))
    && (forall path :: path != [] && path[0] in done && LeafAt(t, path).Some? ==> FlatKey(prefix, path) in out)
  }

  lemma BelowKey(t: Tree, prefix: string, k: string, p: Path)
    requires t.Dict? && k in t.items
    ensures LeafAt(t, [k] + p) == LeafAt(t.items[k], p)
    ensures FlatKey(prefix, [k] + p) == FlatKey(Extended(prefix, k), p)
  {
    assert ([k] + p)[1..] == p;
  }

  lemma SubHasPath(t: Tree, prefix: string, done: set<string>, k: string, sub: map<string, string>, key: string)
    requires t.Dict? && k in t.items && k in done && IsFlattening(t.items[k], Extended(prefix, k), sub) && key in sub
    ensures HasPath(t, prefix, done, key, sub[key])
  {
    hide LeafAt, FlatKey, Extended;
    var p :| LeafAt(t.items[k], p) == Some(sub[key]) && FlatKey(Extended(prefix, k), p) == key;
    BelowKey(t, prefix, k, p);
    assert ([k] + p)[0] == k;
  }

  lemma PartAdded(t: Tree, prefix: string, out: map<string, string>, done: set<string>, k: string,
                  sub: map<string, string>)
    requires t.Dict? && k in t.items && IsPartFlattening(t, prefix, out, done)
    requires IsFlattening(t.items[k], Extended(prefix, k), sub)
    ensures IsPartFlattening(t, prefix, out + sub, done + {k})
  {
    hide LeafAt, FlatKey, Extended;
    forall key | key in out + sub ensures HasPath(t, prefix, done + {k}, key, (out + sub)[key]) {
      if key in sub {
        SubHasPath(t, prefix, done + {k}, k, sub, key);
      }
    }
    forall path | path != [] && path[0] in done + {k} && LeafAt(t, path).Some?
      ensures FlatKey(prefix, path) in out + sub
    {
      if path[0] == k {
        BelowKey(t, prefix, k, path[1..]);
        assert path == [k] + path[1..];
      }
    }
  }

  lemma LeafFlattening(value: string, key: string)
    ensures IsFlattening(Leaf(value), key, map[key := value])
  {
    assert LeafAt(Leaf(value), []) == Some(value) && FlatKey(key, []) == key;
  }

  lemma PartComplete(t: Tree, prefix: string, out: map<string, string>)
    requires t.Dict? && IsPartFlattening(t, prefix, out, t.items.Keys)
    ensures IsFlattening(t, prefix, out)
  {
    forall path | LeafAt(t, path).Some? ensures FlatKey(prefix, path) in out {
      assert path != [] && path[0] in t.items.Keys;
    }
  }

  /** Flattens in an arbitrary order of the keys. */
  method Flatten(t: Tree, prefix: string) returns (out: map<string, string>)
    requires t.Dict?
    ensures IsFlattening(t, prefix, out)
    decreases t
  {
    hide IsPartFlattening, IsFlattening, LeafAt;
    out := map[];
    var left := t.items.Keys;
    NothingFlattened(t, prefix);
    while left != {}
      invariant left <= t.items.Keys
      invariant IsPartFlattening(t, prefix, out, t.items.Keys - left)
      decreases left
    {
      var k :| k in left;
      var key := Extended(prefix, k);
      var v := t.items[k];
      var sub := map[key := ""];
      if v.Dict? {
        sub := Flatten(v, key);
      } else {
        sub := map[key := v.value];
        LeafFlattening(v.value, key);
      }
      PartAdded(t, prefix, out, t.items.Keys - left, k, sub);
      assert t.items.Keys - (left - {k}) == (t.items.Keys - left) + {k};
      out := out + sub;
      left := left - {k};
    }
    assert t.items.Keys - left == t.items.Keys;
    PartComplete(t, prefix, out);
  }

  lemma NothingFlattened(t: Tree, prefix: string)
    requires t.Dict?
    ensures IsPartFlattening(t, prefix, map[], t.items.Keys - t.items.Keys)
  {
  }

  // ----- Rebuilding -----

  /** Walks down creating dictionaries and stores the text; fails where a text is in the way. */
  function Insert(t: Tree, parts: Path, value: string): Option<Tree>
    requires parts != []
    decreases |parts|
  {
    if !t.Dict? then None
    else if |parts| == 1 then Some(Dict(t.items[parts[0] := Leaf(value)]))
    else
      var child := if parts[0] in t.items then t.items[parts[0]] else Dict(map[]);
      match Insert(child, parts[1..], value)
      case None => None
      case Some(c) => Some(Dict(t.items[parts[0] := c]))
  }

  /** A flat dictionary in iteration order. */
  type Entries = seq<(string, string)>

  function InsertedAll(t: Tree, flat: Entries): Option<Tree>
    decreases |flat|
  {
    if flat == [] then Some(t)
    else
      match Insert(t, Split(flat[0].0), flat[0].1)
      case None => None
      case Some(next) => InsertedAll(next, flat[1..])
  }

  function Unflattened(flat: Entries): Option<Tree> {
    InsertedAll(Dict(map[]), flat)
  }

  method Unflatten(flat: Entries) returns (r: Option<Tree>)
    ensures r == Unflattened(flat)
  {
    var root := Dict(map[]);
    assert flat[0..] == flat;
    for i := 0 to |flat|
      invariant InsertedAll(root, flat[i..]) == Unflattened(flat)
    {
      assert flat[i..][1..] == flat[i + 1..];
      var next := Insert(root, Split(flat[i].0), flat[i].1);
      if next.None? {
        return None;
      }
      root := next.value;
    }
    return Some(root);
  }
}
