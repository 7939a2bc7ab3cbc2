/** The entry point in main.go: collections come either from command-line tokens or from a
    configuration document fetched from a URL, and a global flag can force all of them to be
    locked in memory. */
module ConfigMain {
  import opened Results
  import opened GoStrings
  import opened CollectionSpec

  /** The parsed command-line flags. The source keeps them in a package-level variable; here
      they are a value handed to each step. */
  datatype SettingDefs = SettingDefs(
    port: int,
    debug: bool,
    mlock: bool,
    configJsonUrl: string,
    hdfsAddress: string,
    hdfsPathPrefix: string,
    hdfsCachePath: string)

  /** One collection to load: its name, where its file is, and whether to lock it in memory. */
  datatype CollectionConfig = CollectionConfig(name: string, path: string, mlock: bool)

  /** The ways startup ends the process before any collection is loaded. */
  datatype Fatal =
    | Usage                // neither collection tokens nor a config URL
    | MixedSources         // both collection tokens and a config URL
    | UrlLoadFailed        // fetching or decoding the config document failed
    | BadSpec(pair: string) // a token with neither `=` nor `@`

  /** The record the parse loop stores for an accepted token. */
  function ConfigOf(s: Spec): CollectionConfig {
    CollectionConfig(s.name, s.path, s.mlock)
  }

  /** The end of `readSettings`: with no positional arguments and no config URL the program
      prints its usage and exits; otherwise the positional arguments are passed on. */
  function ReadSettings(flags: SettingDefs, positional: seq<string>): (r: Result<seq<string>, Fatal>)
    ensures r.Err? <==> |positional| == 0 && flags.configJsonUrl == ""
    ensures r.Err? ==> r.error == Usage
    ensures r.Ok? ==> r.value == positional
  {
    if |positional| < 1 && flags.configJsonUrl == "" then Err(Usage) else Ok(positional)
  }

  /** The token loop of `getCollectionConfig`: a slice of `|args|` records filled by index,
      dying on the first token that has neither separator. */
  method ParseArgs(args: seq<string>) returns (r: Result<seq<CollectionConfig>, Fatal>)
    ensures r.Ok? <==> AllAccepted(args)
    ensures r.Ok? ==> |r.value| == |args|
    ensures r.Ok? ==> forall i :: 0 <= i < |args| ==> r.value[i] == ConfigOf(ParseToken(args[i]).value)
    ensures r.Err? ==> exists k :: FirstRejected(args, k) && r.error == BadSpec(args[k])
    ensures r.Err? ==> forall k :: FirstRejected(args, k) ==> r.error == BadSpec(args[k])
  {
    var configs := new CollectionConfig[|args|];
    for i := 0 to |args|
      invariant forall j :: 0 <= j < i ==> ParseToken(args[j]).Some?
      invariant forall j :: 0 <= j < i ==> configs[j] == ConfigOf(ParseToken(args[j]).value)
    {
      var pair := args[i];
      var parts := SplitN2(pair, LockedSep);
      var mlock := true;
      if |parts| != 2 {
        mlock := false;
        parts := SplitN2(pair, DiskSep);
      }
      if |parts| != 2 {
        assert ParseToken(pair).None?;
        assert FirstRejected(args, i);
        AcceptedOrFirstRejected(args);
        return Err(BadSpec(pair));
      }
      assert ParseToken(pair) == Some(Spec(parts[0], parts[1], mlock));
      configs[i] := CollectionConfig(parts[0], parts[1], mlock);
    }
    r := Ok(configs[..]);
  }

  /** The global lock override applied to a list of configs: every record locked, nothing else
      touched. */
  function LockAll(configs: seq<CollectionConfig>): seq<CollectionConfig> {
    if configs == [] then [] else [configs[0].(mlock := true)] + LockAll(configs[1..])
  }

  /** The override keeps length, order, names and paths, and locks every record. */
  lemma {:induction false} LockAllKeepsOrder(configs: seq<CollectionConfig>)
    ensures |LockAll(configs)| == |configs|
    ensures forall i :: 0 <= i < |configs| ==>
      LockAll(configs)[i].name == configs[i].name &&
      LockAll(configs)[i].path == configs[i].path &&
      LockAll(configs)[i].mlock
  {
    if configs != [] {
      LockAllKeepsOrder(configs[1..]);
    }
  }

  /** Applying the override twice is the same as applying it once. */
  lemma {:induction false} LockAllIdempotent(configs: seq<CollectionConfig>)
    ensures LockAll(LockAll(configs)) == LockAll(configs)
  {
    if configs != [] {
      LockAllIdempotent(configs[1..]);
      assert LockAll(configs)[1..] == LockAll(configs[1..]);
    }
  }

  /** A list that is already all locked is left as it is. */
  lemma {:induction false} LockAllOfLocked(configs: seq<CollectionConfig>)
    requires forall i :: 0 <= i < |configs| ==> configs[i].mlock
    ensures LockAll(configs) == configs
  {
    if configs != [] {
      LockAllOfLocked(configs[1..]);
    }
  }

  /** The override loop of `getCollectionConfig`, setting `Mlock` on each record in place. */
  method ForceLock(configs: array<CollectionConfig>)
    modifies configs
    ensures configs[..] == LockAll(old(configs[..]))
  {
    ghost var was := configs[..];
    for i := 0 to configs.Length
      invariant forall j :: 0 <= j < i ==> configs[j] == was[j].(mlock := true)
      invariant forall j :: i <= j < configs.Length ==> configs[j] == was[j]
    {
      configs[i] := configs[i].(mlock := true);
    }
    LockAllKeepsOrder(was);
  }

  /** `getCollectionConfig`. `fromUrl` is what `LoadFromUrl` yields for the configured URL
      (`None` when it reports an error). As in the source, the command-line branch parses into
      a list local to that branch, so on success the function hands back the outer list, which
      is still empty. */
  method GetCollectionConfig(settings: SettingDefs, args: seq<string>, fromUrl: Option<seq<CollectionConfig>>)
    returns (r: Result<seq<CollectionConfig>, Fatal>)
    ensures settings.configJsonUrl != "" && |args| > 0 ==> r == Err(MixedSources)
    ensures settings.configJsonUrl != "" && |args| == 0 ==>
      r == match fromUrl
           case None => Err(UrlLoadFailed)
           case Some(loaded) => Ok(if settings.mlock then LockAll(loaded) else loaded)
    ensures settings.configJsonUrl == "" ==> (r.Ok? <==> AllAccepted(args))
    ensures settings.configJsonUrl == "" && r.Ok? ==> r.value == []
    ensures settings.configJsonUrl == "" && r.Err? ==>
      exists k :: FirstRejected(args, k) && r.error == BadSpec(args[k])
  {
    var configs := new CollectionConfig[0];
    if settings.configJsonUrl != "" {
      if |args| > 0 {
        return Err(MixedSources);
      }
      match fromUrl {
        case None =>
          return Err(UrlLoadFailed);
        case Some(loaded) =>
          configs := new CollectionConfig[|loaded|](i requires 0 <= i < |loaded| => loaded[i]);
          assert configs[..] == loaded;
      }
    } else {
      var shadowing := ParseArgs(args);
      if shadowing.Err? {
        return Err(shadowing.error);
      }
    }
    if settings.mlock {
      ForceLock(configs);
    }
    r := Ok(configs[..]);
  }

  /** `main` up to the call of `LoadCollections`: the configs that call receives. */
  method Startup(flags: SettingDefs, positional: seq<string>, fromUrl: Option<seq<CollectionConfig>>)
    returns (r: Result<seq<CollectionConfig>, Fatal>)
    ensures |positional| == 0 && flags.configJsonUrl == "" ==> r == Err(Usage)
    ensures |positional| > 0 && flags.configJsonUrl != "" ==> r == Err(MixedSources)
    ensures r.Ok? && flags.configJsonUrl == "" ==> r.value == []
    ensures r.Ok? && flags.mlock ==> forall i :: 0 <= i < |r.value| ==> r.value[i].mlock
    ensures flags.configJsonUrl != "" && |positional| == 0 ==>
      r == match fromUrl
           case None => Err(UrlLoadFailed)
           case Some(loaded) => Ok(if flags.mlock then LockAll(loaded) else loaded)
    ensures flags.configJsonUrl == "" && |positional| > 0 ==> (r.Ok? <==> AllAccepted(positional))
    ensures flags.configJsonUrl == "" && |positional| > 0 && r.Err? ==>
      exists k :: FirstRejected(positional, k) && r.error == BadSpec(positional[k])
  {
    var args := ReadSettings(flags, positional);
    if args.Err? {
      return Err(args.error);
    }
    r := GetCollectionConfig(flags, args.value, fromUrl);
    if r.Ok? && flags.mlock && fromUrl.Some? {
      LockAllKeepsOrder(fromUrl.value);
    }
  }
}
