/** The scan over recorded decisions as an abstract map with inheritance: desktop/electron/permission-manager.ts. */
module PermissionProperties {
  import opened Text
  import opened PermissionModel

  // ----- Keys -----

  /** Names none of which extends another by a colon; names without colons are such. */
  predicate AreApart(names: set<string>) {
    forall p, q :: p in names && q in names ==> !(p + ":" <= q)
  }

  lemma ShorterExtends(p: string, s: string, q: string, t: string)
    requires GrantKey(p, s) == GrantKey(q, t) && |p| < |q|
    ensures p + ":" <= q
  {
    var key := GrantKey(p, s);
    assert key[..|p| + 1] == p + ":" && key[..|q|] == q;
  }

  lemma ScopedKeyExtends(p: string, s: string)
    requires s != ""
    ensures p + ":" <= GrantKey(p, s)
  {
  }

  /** Keys determine name and scope, unless one name extends the other by a colon. */
  lemma KeyInjective(p: string, s: string, q: string, t: string)
    requires GrantKey(p, s) == GrantKey(q, t) && !(p + ":" <= q) && !(q + ":" <= p)
    ensures p == q && s == t
  {
    if |p| < |q| {
      ShorterExtends(p, s, q, t);
    } else if |q| < |p| {
      ShorterExtends(q, t, p, s);
    } else {
      var key := GrantKey(p, s);
      assert p == key[..|p|] == q;
      assert s != "" ==> key[|p| + 1..] == s;
      assert t != "" ==> key[|q| + 1..] == t;
    }
  }

  /** Two names can share a key exactly if one extends the other by a colon. */
  lemma KeysCollide(p: string, q: string)
    requires p != q
    ensures (exists s, t :: GrantKey(p, s) == GrantKey(q, t)) <==> p + ":" <= q || q + ":" <= p
  {
    if s, t :| GrantKey(p, s) == GrantKey(q, t) {
      if !(p + ":" <= q) && !(q + ":" <= p) {
        KeyInjective(p, s, q, t);
      }
    }
    if p + ":" <= q {
      assert GrantKey(p, Behind(p, q, "x")) == GrantKey(q, "x") by { SharedKey(p, q, "x"); }
    }
    if q + ":" <= p {
      assert GrantKey(p, "x") == GrantKey(q, Behind(q, p, "x")) by { SharedKey(q, p, "x"); }
    }
  }

  /** The scope under which `p` takes the key of `q` with scope `t`. */
  function Behind(p: string, q: string, t: string): (s: string)
    requires p + ":" <= q
    ensures s != ""
  {
    q[|p| + 1..] + ":" + t
  }

  lemma SharedKey(p: string, q: string, t: string)
    requires p + ":" <= q && t != ""
    ensures GrantKey(p, Behind(p, q, t)) == GrantKey(q, t)
  {
    assert q == p + ":" + q[|p| + 1..];
  }

  /** A name has the key of some scoped decision exactly if it holds a colon that is not its last character. */
  lemma ScopedKeys(q: string)
    ensures (exists p, s :: s != "" && GrantKey(p, s) == q) <==> exists i :: 0 <= i < |q| - 1 && q[i] == ':'
  {
    if p, s :| s != "" && GrantKey(p, s) == q {
      assert q[|p|] == ':';
    }
    if i :| 0 <= i < |q| - 1 && q[i] == ':' {
      assert GrantKey(q[..i], q[i + 1..]) == q;
    }
  }

  /** And then it is answered by that decision, which was made for another name. */
  lemma ColonConfusesNames(p: string, s: string, answer: bool, normalize: string -> string)
    requires s != ""
    ensures Resolved([], GrantKey(p, s), "", normalize) == Unknown
    ensures Resolved(After([], Require(p, s, answer), normalize), GrantKey(p, s), "", normalize)
              == Answer(answer || IsFilesystem(p))
  {
    var entries := [(GrantKey(p, s), Grant(p, answer || IsFilesystem(p), s))];
    assert After([], Require(p, s, answer), normalize) == entries;
    assert Lookup(entries, GrantKey(p, s)).Some?;
  }

  // ----- Consistency over every run -----

  /** Each decision is filed under the key of its permission and scope, and no key occurs twice. */
  predicate IsFiled(entries: Entries) {
    && (forall i :: 0 <= i < |entries| ==> entries[i].0 == GrantKey(entries[i].1.permission, entries[i].1.scope))
    && (forall i, j :: 0 <= i < j < |entries| ==> entries[i].0 != entries[j].0)
  }

  /** Two decisions about the same permission and the same normalised path. */
  predicate Clash(g: Grant, h: Grant, normalize: string -> string) {
    g.permission == h.permission && g.scope != "" && h.scope != "" && normalize(g.scope) == normalize(h.scope)
  }

  predicate IsConsistent(entries: Entries, normalize: string -> string) {
    && IsFiled(entries)
    && (forall i, j :: 0 <= i < j < |entries| ==> !Clash(entries[i].1, entries[j].1, normalize))
  }

  lemma {:induction false} LookupFinds(entries: Entries, key: string)
    ensures Lookup(entries, key).Some? ==> exists i ::
              0 <= i < |entries| && entries[i] == (key, Lookup(entries, key).value)
    ensures Lookup(entries, key).None? ==> forall i :: 0 <= i < |entries| ==> entries[i].0 != key
  {
    if entries != [] && entries[0].0 != key {
      LookupFinds(entries[1..], key);
      if Lookup(entries, key).Some? {
        var i :| 0 <= i < |entries[1..]| && entries[1..][i] == (key, Lookup(entries, key).value);
        assert entries[i + 1] == (key, Lookup(entries, key).value);
      }
    }
  }

  lemma {:induction false} PutAppends(entries: Entries, key: string, g: Grant)
    requires forall i :: 0 <= i < |entries| ==> entries[i].0 != key
    ensures Put(entries, key, g) == entries + [(key, g)]
  {
    if entries != [] {
      PutAppends(entries[1..], key, g);
    }
  }

  lemma {:induction false} PutOverwrites(entries: Entries, key: string, g: Grant) returns (i: nat)
    requires exists i :: 0 <= i < |entries| && entries[i].0 == key
    ensures i < |entries| && entries[i].0 == key && Put(entries, key, g) == entries[i := (key, g)]
  {
    if entries[0].0 == key {
      i := 0;
    } else {
      var j := PutOverwrites(entries[1..], key, g);
      i := j + 1;
    }
  }

  lemma {:induction false} FirstExactFinds(entries: Entries, permission: string, target: string,
                                           normalize: string -> string)
    ensures FirstExact(entries, permission, target, normalize).None? ==>
              forall i :: 0 <= i < |entries| && IsScopedFor(entries[i].1, permission) ==>
                  normalize(entries[i].1.scope) != target
    ensures FirstExact(entries, permission, target, normalize).Some? ==>
              exists i :: 0 <= i < |entries| && IsScopedFor(entries[i].1, permission)
                  && normalize(entries[i].1.scope) == target
                          && entries[i].1.granted == FirstExact(entries, permission, target, normalize).value
  {
    if entries != [] {
      FirstExactFinds(entries[1..], permission, target, normalize);
      assert forall i :: 0 < i < |entries| ==> entries[i] == entries[1..][i - 1];
      assert forall i :: 0 <= i < |entries[1..]| ==> entries[1..][i] == entries[i + 1];
    }
  }

  /** Filing a decision appends it, or overwrites the one entry under its key. */
  lemma PutFiles(entries: Entries, g: Grant) returns (at: nat)
    requires IsFiled(entries)
    ensures var key := GrantKey(g.permission, g.scope);
            var more := Put(entries, key, g);
            && IsFiled(more) && at < |more| && more[at] == (key, g)
            && |entries| <= |more| <= |entries| + 1
            && (forall i :: 0 <= i < |more| && i != at ==>
                i < |entries| && more[i] == entries[i] && entries[i].0 != key)
            && (at < |entries| ==> entries[at].0 == key && |more| == |entries|)
            && (at == |entries| ==> more == entries + [(key, g)])
  {
    var key := GrantKey(g.permission, g.scope);
    hide GrantKey;
    if exists i :: 0 <= i < |entries| && entries[i].0 == key {
      at := PutOverwrites(entries, key, g);
    } else {
      at := |entries|;
      PutAppends(entries, key, g);
    }
  }

  /** A decision that clashes with no recorded one keeps the store consistent. */
  lemma PutKeepsConsistent(entries: Entries, g: Grant, normalize: string -> string)
    requires IsConsistent(entries, normalize)
    requires forall i :: 0 <= i < |entries| ==> !Clash(entries[i].1, g, normalize)
    ensures IsConsistent(Put(entries, GrantKey(g.permission, g.scope), g), normalize)
  {
    hide GrantKey, IsFiled;
    var at := PutFiles(entries, g);
    var more := Put(entries, GrantKey(g.permission, g.scope), g);
    forall i, j | 0 <= i < j < |more| ensures !Clash(more[i].1, more[j].1, normalize) {
      assert i != at ==> !Clash(entries[i].1, g, normalize);
      assert j != at ==> !Clash(entries[j].1, g, normalize);
    }
  }

  /** A path that is still undecided has no entry under any spelling. */
  lemma UndecidedIsNew(entries: Entries, p: string, s: string, normalize: string -> string)
    requires Resolved(entries, p, s, normalize).Unknown?
    ensures forall i :: 0 <= i < |entries| ==> entries[i].0 != p
    ensures forall i :: 0 <= i < |entries| && s != "" ==>
              !(IsScopedFor(entries[i].1, p) && normalize(entries[i].1.scope) == normalize(s))
  {
    LookupFinds(entries, p);
    if s != "" {
      FirstExactFinds(entries, p, normalize(s), normalize);
    }
  }

  lemma RequireKeepsConsistent(entries: Entries, p: string, s: string, answer: bool, normalize: string -> string)
    requires IsConsistent(entries, normalize)
    ensures IsConsistent(After(entries, Require(p, s, answer), normalize), normalize)
  {
    if Resolved(entries, p, s, normalize).Unknown? {
      UndecidedIsNew(entries, p, s, normalize);
      PutKeepsConsistent(entries, Grant(p, answer || IsFilesystem(p), s), normalize);
    }
  }

  lemma {:induction false} ProfileKeepsConsistent(entries: Entries, grants: seq<(string, bool)>,
                                                  normalize: string -> string)
    requires IsConsistent(entries, normalize)
    ensures IsConsistent(PutAll(entries, grants), normalize)
    decreases |grants|
  {
    hide IsConsistent;
    if grants != [] {
      PutKeepsConsistent(entries, Grant(grants[0].0, grants[0].1, ""), normalize);
      ProfileKeepsConsistent(Put(entries, grants[0].0, Grant(grants[0].0, grants[0].1, "")), grants[1..], normalize);
    }
  }

  lemma StepKeepsConsistent(entries: Entries, op: Operation, normalize: string -> string)
    requires IsConsistent(entries, normalize)
    ensures IsConsistent(After(entries, op, normalize), normalize)
  {
    match op
    case Require(permission, scope, answer) => RequireKeepsConsistent(entries, permission, scope, answer, normalize);
    case Request(permission, answer) =>
      PutKeepsConsistent(entries, Grant(permission, answer || IsFilesystem(permission), ""), normalize);
    case ApplyProfile(grants) => ProfileKeepsConsistent(entries, grants, normalize);
    case Reset =>
  }

  /** Whatever is required, requested, applied or reset, no permission ever has two decisions for the same path. */
  lemma {:induction false} RunKeepsConsistent(entries: Entries, ops: seq<Operation>, normalize: string -> string)
    requires IsConsistent(entries, normalize)
    ensures IsConsistent(AfterAll(entries, ops, normalize), normalize)
    decreases |ops|
  {
    hide IsConsistent;
    if ops != [] {
      StepKeepsConsistent(entries, ops[0], normalize);
      RunKeepsConsistent(After(entries, ops[0], normalize), ops[1..], normalize);
    }
  }

  lemma {:induction false} ProfileIsFiled(entries: Entries, grants: seq<(string, bool)>)
    requires IsFiled(entries)
    ensures IsFiled(PutAll(entries, grants))
    decreases |grants|
  {
    if grants != [] {
      var g := Grant(grants[0].0, grants[0].1, "");
      var at := PutFiles(entries, g);
      hide IsFiled;
      ProfileIsFiled(Put(entries, grants[0].0, g), grants[1..]);
    }
  }

  lemma StepIsFiled(entries: Entries, op: Operation, normalize: string -> string)
    requires IsFiled(entries)
    ensures IsFiled(After(entries, op, normalize))
  {
    match op
    case Require(permission, scope, answer) =>
      var at := PutFiles(entries, Grant(permission, answer || IsFilesystem(permission), scope));
    case Request(permission, answer) =>
      var at := PutFiles(entries, Grant(permission, answer || IsFilesystem(permission), ""));
    case ApplyProfile(grants) => ProfileIsFiled(entries, grants);
    case Reset =>
  }

  lemma NothingIsFiled()
    ensures IsFiled([])
  {
  }

  /** Whatever the configuration file holds, what is loaded from it is filed properly. */
  lemma {:induction false} LoadedIsFiled(entries: Entries, saved: seq<Grant>)
    requires IsFiled(entries)
    ensures IsFiled(Loaded(entries, saved))
    decreases |saved|
  {
    if saved != [] {
      var at := PutFiles(entries, saved[0]);
      hide IsFiled;
      LoadedIsFiled(Put(entries, GrantKey(saved[0].permission, saved[0].scope), saved[0]), saved[1..]);
    }
  }

  // ----- The abstract map -----

  /** What is decided about exact paths, whatever the order of the decisions. */
  ghost predicate Decides(entries: Entries, permission: string, path: string, granted: bool,
                          normalize: string -> string) {
    exists i :: 0 <= i < |entries| && IsScopedFor(entries[i].1, permission) && normalize(entries[i].1.scope) == path
                && entries[i].1.granted == granted
  }

  ghost predicate DecidesName(entries: Entries, permission: string, granted: bool) {
    exists i :: 0 <= i < |entries| && entries[i].0 == permission && entries[i].1.granted == granted
  }

  ghost predicate HasGrantedAncestor(entries: Entries, permission: string, path: string, normalize: string -> string) {
    exists dir :: Decides(entries, permission, dir, true, normalize) && Covers(dir, path)
  }

  /** The answer of a map from names and paths to decisions, in which granted directories pass on to what they cover. */
  ghost function AbstractAnswer(entries: Entries, permission: string, scope: string,
                                normalize: string -> string): Access {
    if DecidesName(entries, permission, true) then Granted
    else if DecidesName(entries, permission, false) then Denied
    else if scope == "" then Unknown
    else if Decides(entries, permission, normalize(scope), true, normalize) then Granted
    else if Decides(entries, permission, normalize(scope), false, normalize) then Denied
    else if HasGrantedAncestor(entries, permission, normalize(scope), normalize) then Granted
    else Unknown
  }

  lemma DecidesOnce(entries: Entries, permission: string, path: string, normalize: string -> string)
    requires IsConsistent(entries, normalize)
    ensures !(Decides(entries, permission, path, true, normalize)
              && Decides(entries, permission, path, false, normalize))
    ensures !(DecidesName(entries, permission, true) && DecidesName(entries, permission, false))
  {
  }

  lemma InheritsMeansAncestor(entries: Entries, permission: string, path: string, normalize: string -> string)
    ensures Inherits(entries, permission, path, normalize) <==> HasGrantedAncestor(entries, permission, path, normalize)
  {
    if Inherits(entries, permission, path, normalize) {
      var i :| 0 <= i < |entries| && IsScopedFor(entries[i].1, permission) && entries[i].1.granted
               && Covers(normalize(entries[i].1.scope), path);
      assert Decides(entries, permission, normalize(entries[i].1.scope), true, normalize);
    }
  }

  /** The scan answers like the abstract map. */
  lemma ScanIsAbstractMap(entries: Entries, permission: string, scope: string, normalize: string -> string)
    requires IsConsistent(entries, normalize)
    ensures Resolved(entries, permission, scope, normalize) == AbstractAnswer(entries, permission, scope, normalize)
  {
    LookupFinds(entries, permission);
    FirstExactFinds(entries, permission, normalize(scope), normalize);
    InheritsMeansAncestor(entries, permission, normalize(scope), normalize);
    DecidesOnce(entries, permission, normalize(scope), normalize);
    hide IsConsistent, HasGrantedAncestor, Inherits, FirstExact, Lookup;
  }

  /** Answers do not depend on the order in which decisions were recorded. */
  lemma OrderIrrelevant(entries: Entries, other: Entries, permission: string, scope: string,
                        normalize: string -> string)
    requires IsConsistent(entries, normalize) && IsConsistent(other, normalize) && multiset(entries) == multiset(other)
    ensures Resolved(entries, permission, scope, normalize) == Resolved(other, permission, scope, normalize)
  {
    ScanIsAbstractMap(entries, permission, scope, normalize);
    ScanIsAbstractMap(other, permission, scope, normalize);
    SameElements(entries, other);
    SameDecisions(entries, other, permission, normalize);
    SameDecisions(other, entries, permission, normalize);
    hide IsConsistent, Decides, DecidesName;
  }

  lemma SameElements(entries: Entries, other: Entries)
    requires multiset(entries) == multiset(other)
    ensures forall e :: e in entries <==> e in other
  {
    forall e ensures e in entries <==> e in other {
      assert e in entries <==> e in multiset(entries);
    }
  }

  lemma SameDecisions(entries: Entries, other: Entries, permission: string, normalize: string -> string)
    requires forall e :: e in entries ==> e in other
    ensures forall path, granted :: Decides(entries, permission, path, granted, normalize) ==>
              Decides(other, permission, path, granted, normalize)
    ensures forall granted :: DecidesName(entries, permission, granted) ==> DecidesName(other, permission, granted)
  {
    forall path, granted | Decides(entries, permission, path, granted, normalize)
      ensures Decides(other, permission, path, granted, normalize)
    {
      var i :| 0 <= i < |entries| && IsScopedFor(entries[i].1, permission) && normalize(entries[i].1.scope) == path
               && entries[i].1.granted == granted;
      assert entries[i] in other;
    }
    forall granted | DecidesName(entries, permission, granted) ensures DecidesName(other, permission, granted) {
      var i :| 0 <= i < |entries| && entries[i].0 == permission && entries[i].1.granted == granted;
      assert entries[i] in other;
    }
  }

  // ----- Stability -----

  /** What one scoped decision adds under a key of its own. */
  lemma ScopedEntryAdds(entries: Entries, g: Grant, permission: string, normalize: string -> string)
    requires GrantKey(g.permission, g.scope) != permission && g.scope != ""
    ensures var more := entries + [(GrantKey(g.permission, g.scope), g)];
            && (forall granted :: DecidesName(more, permission, granted) <==> DecidesName(entries, permission, granted))
            && (forall path, granted :: Decides(more, permission, path, granted, normalize) <==>
                  Decides(entries, permission, path, granted, normalize)
                  || (g.permission == permission && normalize(g.scope) == path && g.granted == granted))
  {
    var key := GrantKey(g.permission, g.scope);
    var more := entries + [(key, g)];
    assert more[|entries|] == (key, g) && forall i :: 0 <= i < |entries| ==> more[i] == entries[i];
  }

  predicate NamedWithin(entries: Entries, names: set<string>) {
    forall i :: 0 <= i < |entries| ==> entries[i].1.permission in names
  }

  /** Among names that are apart an undecided path has no entry under its key either. */
  lemma UndecidedKeyIsNew(entries: Entries, p: string, s: string, names: set<string>, normalize: string -> string)
    requires IsFiled(entries) && NamedWithin(entries, names) && AreApart(names) && p in names && s != ""
    requires Resolved(entries, p, s, normalize).Unknown?
    ensures forall i :: 0 <= i < |entries| ==> entries[i].0 != GrantKey(p, s)
  {
    UndecidedIsNew(entries, p, s, normalize);
    hide Resolved, IsFiled;
    FiledKeys(entries);
    forall i | 0 <= i < |entries| ensures entries[i].0 != GrantKey(p, s) {
      if entries[i].0 == GrantKey(p, s) {
        KeyInjective(entries[i].1.permission, entries[i].1.scope, p, s);
      }
    }
  }

  lemma FiledKeys(entries: Entries)
    requires IsFiled(entries)
    ensures forall i :: 0 <= i < |entries| ==> entries[i].0 == GrantKey(entries[i].1.permission, entries[i].1.scope)
  {
  }

  /** A decided path keeps its answer when another scoped request is decided. */
  lemma StepKeepsAnswer(entries: Entries, p: string, s: string, answer: bool, permission: string, scope: string,
                        names: set<string>, normalize: string -> string)
    requires IsConsistent(entries, normalize) && NamedWithin(entries, names) && AreApart(names)
    requires p in names && permission in names && s != ""
    requires !Resolved(entries, permission, scope, normalize).Unknown?
    ensures Resolved(After(entries, Require(p, s, answer), normalize), permission, scope, normalize)
            == Resolved(entries, permission, scope, normalize)
    ensures NamedWithin(After(entries, Require(p, s, answer), normalize), names)
  {
    hide IsConsistent, Decides, DecidesName, Covers, IsFiled;
    if Resolved(entries, p, s, normalize).Unknown? {
      var g := Grant(p, answer || IsFilesystem(p), s);
      assert IsFiled(entries) by { ConsistentIsFiled(entries, normalize); }
      UndecidedKeyIsNew(entries, p, s, names, normalize);
      PutAppends(entries, GrantKey(p, s), g);
      ScopedKeyExtends(p, s);
      ScopedEntryAdds(entries, g, permission, normalize);
      ScanIsAbstractMap(entries, permission, scope, normalize);
      ScanIsAbstractMap(entries, p, s, normalize);
      RequireKeepsConsistent(entries, p, s, answer, normalize);
      ScanIsAbstractMap(entries + [(GrantKey(p, s), g)], permission, scope, normalize);
      DecidesOnce(entries, permission, normalize(scope), normalize);
    }
  }

  lemma ConsistentIsFiled(entries: Entries, normalize: string -> string)
    requires IsConsistent(entries, normalize)
    ensures IsFiled(entries)
  {
  }

  predicate IsScopedRequire(op: Operation, names: set<string>) {
    op.Require? && op.scope != "" && op.permission in names
  }

  predicate AllScoped(ops: seq<Operation>, names: set<string>) {
    forall i :: 0 <= i < |ops| ==> IsScopedRequire(ops[i], names)
  }

  /**
   * Once a path is granted or denied, it keeps that answer over any run of scoped requests with names that are apart.
   */
  lemma {:induction false} RunKeepsAnswer(entries: Entries, ops: seq<Operation>, permission: string, scope: string,
                                          names: set<string>, normalize: string -> string)
    requires IsConsistent(entries, normalize) && NamedWithin(entries, names) && AreApart(names)
    requires permission in names && AllScoped(ops, names)
    requires !Resolved(entries, permission, scope, normalize).Unknown?
    ensures Resolved(AfterAll(entries, ops, normalize), permission, scope, normalize)
            == Resolved(entries, permission, scope, normalize)
    decreases |ops|
  {
    hide IsConsistent, Resolved, AreApart, NamedWithin;
    if ops != [] {
      var op := ops[0];
      StepKeepsAnswer(entries, op.permission, op.scope, op.answer, permission, scope, names, normalize);
      RequireKeepsConsistent(entries, op.permission, op.scope, op.answer, normalize);
      hide After;
      RunKeepsAnswer(After(entries, op, normalize), ops[1..], permission, scope, names, normalize);
    }
  }

  lemma {:induction false} RunStaysNamed(entries: Entries, ops: seq<Operation>, names: set<string>,
                                         normalize: string -> string)
    requires IsFiled(entries) && NamedWithin(entries, names) && AllScoped(ops, names)
    ensures NamedWithin(AfterAll(entries, ops, normalize), names)
    decreases |ops|
  {
    if ops != [] {
      var op := ops[0];
      StepIsFiled(entries, op, normalize);
      var at := PutFiles(entries, Grant(op.permission, op.answer || IsFilesystem(op.permission), op.scope));
      hide Resolved, IsFiled, Put;
      RunStaysNamed(After(entries, op, normalize), ops[1..], names, normalize);
    }
  }

  /** A name that extends another by a colon loses its decision to the other. */
  lemma CollidingNamesForget(p: string, q: string, normalize: string -> string)
    requires p + ":" <= q
    ensures var first := After([], Require(q, "x", true), normalize);
            && Resolved(first, q, "x", normalize) == Granted
            && Resolved(After(first, Require(p, Behind(p, q, "x"), true), normalize), q, "x", normalize) == Unknown
  {
    var key, s := GrantKey(q, "x"), Behind(p, q, "x");
    SharedKey(p, q, "x");
    hide Behind;
    var g, h := Grant(q, true, "x"), Grant(p, true, s);
    assert After([], Require(q, "x", true), normalize) == [(key, g)];
    assert [(key, g)][1..] == [];
    OneUnrelated(key, g, p, s, normalize);
    assert After([(key, g)], Require(p, s, true), normalize) == [(key, h)] + [];
    OneUnrelated(key, h, q, "x", normalize);
  }

  lemma OneUnrelated(key: string, g: Grant, p: string, s: string, normalize: string -> string)
    requires key != p && g.permission != p && s != ""
    ensures Resolved([(key, g)], p, s, normalize) == Unknown
  {
    var entries := [(key, g)];
    assert entries[1..] == [];
    assert Lookup(entries, p) == None;
    assert FirstExact(entries, p, normalize(s), normalize) == None;
  }

  /**
   * And a requested name that is another's scoped key loses its decision to the scoped one: whatever the user answered
   * to the request, from the next scoped decision on the name is answered by that.
   */
  lemma RequestedNameOverwritten(p: string, s: string, first: bool, second: bool, t: string,
                                 normalize: string -> string)
    requires s != ""
    ensures var name := GrantKey(p, s);
            var requested := After([], Request(name, first), normalize);
            && Resolved(requested, name, t, normalize) == Answer(first || IsFilesystem(name))
            && Resolved(requested, p, s, normalize) == Unknown
            && Resolved(After(requested, Require(p, s, second), normalize), name, t, normalize)
               == Answer(second || IsFilesystem(p))
  {
    hide IsFilesystem;
    var name := GrantKey(p, s);
    var g, h := Grant(name, first || IsFilesystem(name), ""), Grant(p, second || IsFilesystem(p), s);
    ScopedKeyIsNotName(p, s);
    hide GrantKey;
    assert After([], Request(name, first), normalize) == [(name, g)];
    OneUnrelated(name, g, p, s, normalize);
    assert [(name, g)][1..] == [];
    assert After([(name, g)], Require(p, s, second), normalize) == [(name, h)] + [];
    assert Lookup([(name, h)], name) == Some(h);
  }

  /** No decided path, in any run of scoped requests with these names, ever gets another answer. */
  ghost predicate KeepsAnswers(names: set<string>, normalize: string -> string) {
    forall ops, more, permission, scope ::
      AllScoped(ops, names) && AllScoped(more, names) && permission in names
      && !Resolved(AfterAll([], ops, normalize), permission, scope, normalize).Unknown? ==>
        Resolved(AfterAll(AfterAll([], ops, normalize), more, normalize), permission, scope, normalize)
        == Resolved(AfterAll([], ops, normalize), permission, scope, normalize)
  }

  /** That holds exactly of names none of which extends another by a colon. */
  lemma AnswersKeptExactly(names: set<string>, normalize: string -> string)
    ensures KeepsAnswers(names, normalize) <==> AreApart(names)
  {
    if AreApart(names) {
      hide AreApart, Resolved;
      forall ops, more, permission, scope |
        AllScoped(ops, names) && AllScoped(more, names) && permission in names
        && !Resolved(AfterAll([], ops, normalize), permission, scope, normalize).Unknown?
        ensures Resolved(AfterAll(AfterAll([], ops, normalize), more, normalize), permission, scope, normalize)
             == Resolved(AfterAll([], ops, normalize), permission, scope, normalize)
      {
        NothingIsConsistent(normalize);
        NothingIsFiled();
        RunKeepsConsistent([], ops, normalize);
        RunStaysNamed([], ops, names, normalize);
        hide IsConsistent, NamedWithin, AllScoped, AfterAll, IsFiled;
        RunKeepsAnswer(AfterAll([], ops, normalize), more, permission, scope, names, normalize);
      }
    }
    if p, q :| p in names && q in names && p + ":" <= q {
      var ops, more := [Require(q, "x", true)], [Require(p, Behind(p, q, "x"), true)];
      CollidingNamesForget(p, q, normalize);
      hide Resolved, Behind, After;
      OneStep([], ops[0], normalize);
      OneStep(After([], ops[0], normalize), more[0], normalize);
      assert AllScoped(ops, names) && AllScoped(more, names);
    }
  }

  lemma OneStep(entries: Entries, op: Operation, normalize: string -> string)
    ensures AfterAll(entries, [op], normalize) == After(entries, op, normalize)
  {
    assert [op][1..] == [];
  }

  lemma ScopedKeyIsNotName(p: string, s: string)
    requires s != ""
    ensures GrantKey(p, s) != p
  {
  }

  /** What a new scoped decision leaves on record about its own permission. */
  lemma DecisionIsFiled(entries: Entries, g: Grant, normalize: string -> string)
    requires IsFiled(entries) && g.scope != "" && forall i :: 0 <= i < |entries| ==> entries[i].0 != g.permission
    ensures var more := Put(entries, GrantKey(g.permission, g.scope), g);
            && Decides(more, g.permission, normalize(g.scope), g.granted, normalize)
            && forall granted :: !DecidesName(more, g.permission, granted)
  {
    ScopedKeyIsNotName(g.permission, g.scope);
    hide GrantKey, IsFiled;
    var at := PutFiles(entries, g);
    hide Put;
    var more := Put(entries, GrantKey(g.permission, g.scope), g);
    assert more[at].1 == g;
    forall i | 0 <= i < |more| ensures more[i].0 != g.permission {
      assert i != at ==> more[i] == entries[i];
    }
  }

  lemma DecidedAnswer(entries: Entries, p: string, scope: string, granted: bool, normalize: string -> string)
    requires IsConsistent(entries, normalize) && scope != ""
               && Decides(entries, p, normalize(scope), granted, normalize)
    requires forall b :: !DecidesName(entries, p, b)
    ensures Resolved(entries, p, scope, normalize) == Answer(granted)
  {
    hide IsConsistent, Decides, DecidesName, HasGrantedAncestor, Resolved;
    ScanIsAbstractMap(entries, p, scope, normalize);
    DecidesOnce(entries, p, normalize(scope), normalize);
  }

  /** A decision, once made for a path, is what later requests for any spelling of the path get. */
  lemma DecisionIsRemembered(entries: Entries, p: string, s: string, answer: bool, other: string,
                             normalize: string -> string)
    requires IsConsistent(entries, normalize) && s != "" && other != "" && normalize(other) == normalize(s)
    requires Resolved(entries, p, s, normalize).Unknown?
    ensures Resolved(After(entries, Require(p, s, answer), normalize), p, other, normalize)
              == Answer(answer || p == "filesystem.read" || p == "filesystem.write")
  {
    hide IsConsistent, Decides, DecidesName, Put, IsFiled, GrantKey, Resolved;
    var g := Grant(p, answer || IsFilesystem(p), s);
    UndecidedIsNew(entries, p, s, normalize);
    ConsistentIsFiled(entries, normalize);
    RequireKeepsConsistent(entries, p, s, answer, normalize);
    DecisionIsFiled(entries, g, normalize);
    DecidedAnswer(Put(entries, GrantKey(p, s), g), p, other, g.granted, normalize);
  }

  // ----- Saving and loading -----

  lemma {:induction false} LoadedAppends(entries: Entries, rest: Entries)
    requires IsFiled(entries + rest)
    ensures Loaded(entries, Values(rest)) == entries + rest
    decreases |rest|
  {
    if rest == [] {
      assert entries + rest == entries;
    } else {
      var (key, g) := rest[0];
      var all := entries + rest;
      assert all[|entries|] == rest[0] && forall i :: 0 <= i < |entries| ==> all[i] == entries[i];
      hide GrantKey;
      PutAppends(entries, key, g);
      assert (entries + [rest[0]]) + rest[1..] == all;
      hide IsFiled, Put;
      LoadedAppends(entries + [rest[0]], rest[1..]);
    }
  }

  lemma NothingIsConsistent(normalize: string -> string)
    ensures IsConsistent([], normalize)
  {
  }

  /** Loading what was saved restores the store of every run, entry for entry and in order, and so every answer. */
  lemma LoadUndoesSave(ops: seq<Operation>, normalize: string -> string)
    ensures var entries := AfterAll([], ops, normalize); Loaded([], Values(entries)) == entries
  {
    hide IsConsistent, Loaded, AfterAll, IsFiled;
    NothingIsConsistent(normalize);
    RunKeepsConsistent([], ops, normalize);
    var entries := AfterAll([], ops, normalize);
    ConsistentIsFiled(entries, normalize);
    assert [] + entries == entries;
    LoadedAppends([], entries);
  }

  // ----- Single decisions -----

  /** A directory covers itself and what its path, with a slash, begins. */
  lemma CoversExactly(dir: string, target: string)
    ensures Covers(dir, target) <==> target == dir || exists rest :: target == dir + "/" + rest
  {
    if dir + "/" <= target {
      assert target == dir + "/" + target[|dir| + 1..];
    }
  }

  lemma {:induction false} LookupAfterPut(entries: Entries, key: string, g: Grant, other: string)
    ensures Lookup(Put(entries, key, g), other) == if other == key then Some(g) else Lookup(entries, other)
  {
    if entries != [] {
      var rest := entries[1..];
      LookupAfterPut(rest, key, g, other);
      assert ([entries[0]] + Put(rest, key, g))[1..] == Put(rest, key, g);
      assert ([(key, g)] + rest)[1..] == rest;
    } else {
      assert [(key, g)][1..] == [];
    }
  }

  /** A name that is requested or required without scope is decided for every scope; files are never refused. */
  lemma NameDecided(entries: Entries, p: string, answer: bool, scope: string, normalize: string -> string)
    requires Lookup(entries, p).None?
    ensures var decided := Answer(answer || p == "filesystem.read" || p == "filesystem.write");
            && Resolved(After(entries, Request(p, answer), normalize), p, scope, normalize) == decided
            && Resolved(After(entries, Require(p, "", answer), normalize), p, scope, normalize) == decided
  {
    LookupAfterPut(entries, p, Grant(p, answer || IsFilesystem(p), ""), p);
    hide Put;
  }

  /** A name that is decided keeps its decision, whoever asks again. */
  lemma NameKept(entries: Entries, p: string, answer: bool, scope: string, normalize: string -> string)
    requires Lookup(entries, p).Some?
    ensures After(entries, Request(p, answer), normalize) == entries
    ensures After(entries, Require(p, scope, answer), normalize) == entries
  {
    hide Put;
  }

  /** The last listing of a name in a profile. */
  predicate LastListed(grants: seq<(string, bool)>, n: int) {
    0 <= n < |grants| && forall k :: n < k < |grants| ==> 0 <= k && grants[k].0 != grants[n].0
  }

  lemma {:induction false} ProfileKeepsOthers(entries: Entries, grants: seq<(string, bool)>, p: string)
    requires forall k :: 0 <= k < |grants| ==> grants[k].0 != p
    ensures Lookup(PutAll(entries, grants), p) == Lookup(entries, p)
    decreases |grants|
  {
    if grants != [] {
      var g := Grant(grants[0].0, grants[0].1, "");
      LookupAfterPut(entries, grants[0].0, g, p);
      ProfileKeepsOthers(Put(entries, grants[0].0, g), grants[1..], p);
    }
  }

  /** A profile decides every name it lists, whatever was decided before; the last listing counts. */
  lemma {:induction false} ProfileDecides(entries: Entries, grants: seq<(string, bool)>, n: nat, scope: string,
                                          normalize: string -> string)
    requires LastListed(grants, n)
    ensures Resolved(After(entries, ApplyProfile(grants), normalize), grants[n].0, scope, normalize)
         == Answer(grants[n].1)
    decreases |grants|
  {
    var g := Grant(grants[0].0, grants[0].1, "");
    var rest := grants[1..];
    if n == 0 {
      LookupAfterPut(entries, g.permission, g, g.permission);
      ProfileKeepsOthers(Put(entries, g.permission, g), rest, g.permission);
    } else {
      assert LastListed(rest, n - 1);
      ProfileDecides(Put(entries, g.permission, g), rest, n - 1, scope, normalize);
    }
    hide Put;
  }
}
