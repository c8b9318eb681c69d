/** Recorded permissions, their keys and how they are resolved: desktop/electron/permission-manager.ts. */
module PermissionModel {
  import opened Text

  /** A recorded decision; an absent scope is "". */
  datatype Grant = Grant(permission: string, granted: bool, scope: string)

  datatype Access = Granted | Denied | Unknown

  /** An insertion-ordered map with string keys. */
  type Entries = seq<(string, Grant)>

  function Lookup(entries: Entries, key: string): Option<Grant> {
    if entries == [] then None
    else if entries[0].0 == key then Some(entries[0].1)
    else Lookup(entries[1..], key)
  }

  /** Overwrites in place, or appends. */
  function Put(entries: Entries, key: string, g: Grant): Entries {
    if entries == [] then [(key, g)]
    else if entries[0].0 == key then [(key, g)] + entries[1..]
    else [entries[0]] + Put(entries[1..], key, g)
  }

  function GrantKey(permission: string, scope: string): string {
    if scope != "" then permission + ":" + scope else permission
  }

  function Answer(granted: bool): Access {
    if granted then Granted else Denied
  }

  predicate Covers(dir: string, target: string) {
    target == dir || dir + "/" <= target
  }

  predicate IsScopedFor(g: Grant, permission: string) {
    g.permission == permission && g.scope != ""
  }

  /** The first decision for exactly this normalised path. */
  function FirstExact(entries: Entries, permission: string, target: string, normalize: string -> string): Option<bool> {
    if entries == [] then None
    else if IsScopedFor(entries[0].1, permission)
        && normalize(entries[0].1.scope) == target then Some(entries[0].1.granted)
    else FirstExact(entries[1..], permission, target, normalize)
  }

  predicate Inherits(entries: Entries, permission: string, target: string, normalize: string -> string) {
    exists i :: 0 <= i < |entries| && IsScopedFor(entries[i].1, permission) && entries[i].1.granted
                && Covers(normalize(entries[i].1.scope), target)
  }

  function Resolved(entries: Entries, permission: string, scope: string, normalize: string -> string): Access {
    match Lookup(entries, permission)
    case Some(g) => Answer(g.granted)
    case None =>
      if scope == "" then Unknown
      else
        match FirstExact(entries, permission, normalize(scope), normalize)
        case Some(granted) => Answer(granted)
        case None => if Inherits(entries, permission, normalize(scope), normalize) then Granted else Unknown
  }

  // ----- Operations on the store -----

  predicate IsFilesystem(permission: string) {
    permission == "filesystem.read" || permission == "filesystem.write"
  }

  /** `answer` is what the user answers should a dialog be shown. */
  datatype Operation =
    | Require(permission: string, scope: string, answer: bool)
    | Request(permission: string, answer: bool)
    | ApplyProfile(grants: seq<(string, bool)>)
    | Reset

  function PutAll(entries: Entries, grants: seq<(string, bool)>): Entries
    decreases |grants|
  {
    if grants == [] then entries
    else PutAll(Put(entries, grants[0].0, Grant(grants[0].0, grants[0].1, "")), grants[1..])
  }

  function After(entries: Entries, op: Operation, normalize: string -> string): Entries {
    match op
    case Require(permission, scope, answer) =>
      if Resolved(entries, permission, scope, normalize).Unknown? then
        Put(entries, GrantKey(permission, scope), Grant(permission, answer || IsFilesystem(permission), scope))
      else entries
    case Request(permission, answer) =>
      if Lookup(entries, permission).Some? then entries
      else Put(entries, permission, Grant(permission, answer || IsFilesystem(permission), ""))
    case ApplyProfile(grants) => PutAll(entries, grants)
    case Reset => []
  }

  function AfterAll(entries: Entries, ops: seq<Operation>, normalize: string -> string): Entries
    decreases |ops|
  {
    if ops == [] then entries else AfterAll(After(entries, ops[0], normalize), ops[1..], normalize)
  }

  function Values(entries: Entries): (r: seq<Grant>)
    ensures |r| == |entries|
  {
    if entries == [] then [] else [entries[0].1] + Values(entries[1..])
  }

  /** Reads saved decisions back, one by one. */
  function Loaded(entries: Entries, saved: seq<Grant>): Entries
    decreases |saved|
  {
    if saved == [] then entries
    else Loaded(Put(entries, GrantKey(saved[0].permission, saved[0].scope), saved[0]), saved[1..])
  }
}
