/** The scoped permission store of the desktop application: desktop/electron/permission-manager.ts. */
module Permissions {
  import opened Text
  import opened PermissionModel
  import opened PermissionProperties

  class PermissionManager {
    const normalize: string -> string
    var grants: Entries
    /** The contents of the configuration file; none when it is missing or unreadable. */
    var file: Option<seq<Grant>>

    /** Every decision is filed under the key of its permission and scope, and no key occurs twice. */
    ghost predicate Valid()
      reads this
    {
      IsFiled(grants)
    }

    constructor (normalize: string -> string, file: Option<seq<Grant>>)
      ensures Valid() && this.normalize == normalize && this.file == file
      ensures grants == if file.Some? then Loaded([], file.value) else []
    {
      this.normalize := normalize;
      this.file := file;
      this.grants := [];
      new;
      Load();
    }

    method Load()
      requires grants == []
      modifies this`grants
      ensures grants == if file.Some? then Loaded([], file.value) else []
      ensures Valid()
    {
      hide IsFiled;
      NothingIsFiled();
      if file.Some? {
        var saved := file.value;
        assert saved[0..] == saved;
        LoadedIsFiled([], saved);
        for i := 0 to |saved|
          invariant Loaded(grants, saved[i..]) == Loaded([], saved)
        {
          assert saved[i..][1..] == saved[i + 1..];
          grants := Put(grants, GrantKey(saved[i].permission, saved[i].scope), saved[i]);
        }
      }
    }

    /** Writing may fail silently; `written` says whether it succeeded. What was written, loading brings back. */
    method Save(written: bool)
      requires Valid()
      modifies this`file
      ensures written ==> file.Some? && Loaded([], file.value) == grants && file.value == Values(grants)
      ensures !written ==> file == old(file)
    {
      if written {
        file := Some(Values(grants));
        LoadedAppends([], grants);
        assert [] + grants == grants;
      }
    }

    method ResolveAccess(permission: string, scope: string) returns (access: Access)
      ensures access == Resolved(grants, permission, scope, normalize)
    {
      var base := Lookup(grants, permission);
      if base.Some? && base.value.granted {
        return Granted;
      }
      if base.Some? {
        return Denied;
      }
      if scope == "" {
        return Unknown;
      }
      var target := normalize(scope);
      assert grants[0..] == grants;
      for i := 0 to |grants|
        invariant FirstExact(grants[i..], permission, target, normalize)
                    == FirstExact(grants, permission, target, normalize)
      {
        assert grants[i..][1..] == grants[i + 1..];
        var g := grants[i].1;
        if IsScopedFor(g, permission) && normalize(g.scope) == target {
          return Answer(g.granted);
        }
      }
      for i := 0 to |grants|
        invariant forall j :: 0 <= j < i ==>
          !(IsScopedFor(grants[j].1, permission) && grants[j].1.granted && Covers(normalize(grants[j].1.scope), target))
      {
        var g := grants[i].1;
        if IsScopedFor(g, permission) && g.granted && Covers(normalize(g.scope), target) {
          return Granted;
        }
      }
      return Unknown;
    }

    /** Throws, here returns false, when access is denied. */
    method RequireAccess(permission: string, scope: string, answer: bool, written: bool) returns (allowed: bool)
      requires Valid()
      modifies this`grants, this`file
      ensures Valid()
      ensures grants == After(old(grants), Require(permission, scope, answer), normalize)
      ensures allowed <==> old(Resolved(grants, permission, scope, normalize)) == Granted
                           || (old(Resolved(grants, permission, scope, normalize)) == Unknown
                               && (answer || permission == "filesystem.read" || permission == "filesystem.write"))
    {
      hide IsFiled;
      StepIsFiled(grants, Require(permission, scope, answer), normalize);
      var access := ResolveAccess(permission, scope);
      if access == Granted {
        return true;
      }
      if access == Denied {
        return false;
      }
      var key := GrantKey(permission, scope);
      if IsFilesystem(permission) {
        grants := Put(grants, key, Grant(permission, true, scope));
        Save(written);
        return true;
      }
      grants := Put(grants, key, Grant(permission, answer, scope));
      Save(written);
      return answer;
    }

    method RequestAccess(permission: string, answer: bool, written: bool) returns (allowed: bool)
      requires Valid()
      modifies this`grants, this`file
      ensures Valid()
      ensures grants == After(old(grants), Request(permission, answer), normalize)
      ensures allowed ==
              match old(Lookup(grants, permission))
              case Some(g) => g.granted
              case None => answer || permission == "filesystem.read" || permission == "filesystem.write"
    {
      hide IsFiled;
      StepIsFiled(grants, Request(permission, answer), normalize);
      var g := Lookup(grants, permission);
      if g.Some? {
        return g.value.granted;
      }
      allowed := answer || IsFilesystem(permission);
      grants := Put(grants, permission, Grant(permission, allowed, ""));
      Save(written);
    }

    method ApplyProfileGrants(profile: seq<(string, bool)>, written: bool)
      requires Valid()
      modifies this`grants, this`file
      ensures Valid()
      ensures grants == After(old(grants), ApplyProfile(profile), normalize)
    {
      hide IsFiled;
      StepIsFiled(grants, ApplyProfile(profile), normalize);
      assert profile[0..] == profile;
      for i := 0 to |profile|
        invariant PutAll(grants, profile[i..]) == PutAll(old(grants), profile)
      {
        assert profile[i..][1..] == profile[i + 1..];
        grants := Put(grants, profile[i].0, Grant(profile[i].0, profile[i].1, ""));
      }
      Save(written);
    }

    method ResetAll(written: bool)
      modifies this`grants, this`file
      ensures Valid()
      ensures grants == After(old(grants), Reset, normalize)
      ensures forall permission, scope :: Resolved(grants, permission, scope, normalize) == Unknown
    {
      grants := [];
      Save(written);
    }
  }
}
