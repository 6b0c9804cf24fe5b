/** `ProfileRegistry`: resolves a preset name to a fresh profile, or to nothing. */
module Registry {
  import opened FileSystem
  import opened ProjectProfile

  /** JavaScript falsiness of a name that may be `undefined`: missing or empty. */
  predicate Falsy(name: Option<string>) {
    name.None? || name.value == ""
  }

  /** The kind of profile `getByName(name, …)` builds, `None` where it returns null. */
  function RegistryKind(name: Option<string>): (kind: Option<Kind>)
    ensures kind.Some? <==> name == Some("generic")
    ensures kind.Some? ==> kind.value == Generic
  {
    if Falsy(name) then None
    else if name.value == "generic" then Some(Generic)
    else None
  }

  /** No name, "flutter" included, makes the registry build a Flutter profile. */
  lemma NeverFlutter(name: Option<string>)
    ensures RegistryKind(name) != Some(Flutter)
    ensures RegistryKind(Some(FlutterProfile.Name)).None?
  {
  }

  /** `ProfileRegistry.getByName(name, projectRoot)` */
  method GetByName(name: Option<string>, projectRoot: string) returns (profile: Profile?)
    ensures profile == null <==> RegistryKind(name).None?
    ensures profile != null ==>
      && fresh(profile) && profile.kind == RegistryKind(name).value && profile.projectRoot == projectRoot
      && profile.cliIgnorePaths == [] && profile.cliIgnoreExtensions == []
  {
    if Falsy(name) {
      return null;
    }
    if name.value == "generic" {
      profile := new Profile(Generic, projectRoot);
      return;
    }
    return null;
  }

  /** `ProfileRegistry.fallback(projectRoot)` */
  method Fallback(projectRoot: string) returns (profile: Profile)
    ensures fresh(profile) && profile.kind == Generic && profile.projectRoot == projectRoot
    ensures profile.cliIgnorePaths == [] && profile.cliIgnoreExtensions == []
  {
    profile := new Profile(Generic, projectRoot);
  }
}
