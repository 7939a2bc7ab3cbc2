/** The entry point in server.go: collections come only from command-line tokens, and the
    `mlock-all` flag is handed to the loader instead of rewriting the parsed records. */
module ServerMain {
  import opened Results
  import opened GoStrings
  import opened CollectionSpec

  /** The parsed command-line flags: the listen port and `mlock-all`. */
  datatype Settings = Settings(listen: int, mlock: bool)

  /** Stands for an opened file reader; the loader attaches it, the parser never does. */
  datatype Reader = Reader(handle: nat)

  /** One collection to load; `reader` is nil in every record the parser builds. */
  datatype Collection = Collection(name: string, path: string, mlock: bool, reader: Option<Reader>)

  /** The ways startup ends the process before any collection is loaded. */
  datatype Fatal =
    | Usage                // no positional arguments
    | BadSpec(pair: string) // a token with neither `=` nor `@`

  /** The arguments of the `LoadCollections` call that follows parsing. */
  datatype LoadRequest = LoadRequest(collections: seq<Collection>, mlockAll: bool)

  /** The record the parse loop stores for an accepted token. */
  function CollectionOf(s: Spec): Collection {
    Collection(s.name, s.path, s.mlock, None)
  }

  /** The token loop of `main`: one record per argument, stored at the argument's index,
      dying on the first token that has neither separator. */
  method ParseCollections(args: seq<string>) returns (r: Result<seq<Collection>, Fatal>)
    ensures r.Ok? <==> AllAccepted(args)
    ensures r.Ok? ==> |r.value| == |args|
    ensures r.Ok? ==> forall i :: 0 <= i < |args| ==> r.value[i] == CollectionOf(ParseToken(args[i]).value)
    ensures r.Err? ==> exists k :: FirstRejected(args, k) && r.error == BadSpec(args[k])
    ensures r.Err? ==> forall k :: FirstRejected(args, k) ==> r.error == BadSpec(args[k])
  {
    var collections := new Collection[|args|];
    for i := 0 to |args|
      invariant forall j :: 0 <= j < i ==> ParseToken(args[j]).Some?
      invariant forall j :: 0 <= j < i ==> collections[j] == CollectionOf(ParseToken(args[j]).value)
    {
      var pair := args[i];
      var parts := SplitN2(pair, LockedSep);
      var mlock := true;
      if |parts| != 2 {
        mlock := false;
        parts := SplitN2(pair, DiskSep);
      }
      if |parts| != 2 {
        assert ParseToken(pair).None?;
        assert FirstRejected(args, i);
        AcceptedOrFirstRejected(args);
        return Err(BadSpec(pair));
      }
      assert ParseToken(pair) == Some(Spec(parts[0], parts[1], mlock));
      collections[i] := Collection(parts[0], parts[1], mlock, None);
    }
    r := Ok(collections[..]);
  }

  /** `main` up to the call of `LoadCollections`: with no arguments the usage is printed and
      the process exits before any token is looked at; otherwise each token becomes a record
      whose lock bit reflects only its own separator, and `mlock-all` travels beside them. */
  method Startup(s: Settings, args: seq<string>) returns (r: Result<LoadRequest, Fatal>)
    ensures |args| == 0 ==> r == Err(Usage)
    ensures |args| > 0 ==> (r.Ok? <==> AllAccepted(args))
    ensures r.Err? && |args| > 0 ==> exists k :: FirstRejected(args, k) && r.error == BadSpec(args[k])
    ensures r.Ok? ==> r.value.mlockAll == s.mlock && |r.value.collections| == |args|
    ensures r.Ok? ==> forall i :: 0 <= i < |args| ==>
      var c := r.value.collections[i];
      c == CollectionOf(ParseToken(args[i]).value) &&
      c.reader == None && (c.mlock <==> LockedSep in args[i]) && Render(Spec(c.name, c.path, c.mlock)) == args[i]
  {
    if |args| < 1 {
      return Err(Usage);
    }
    var collections := ParseCollections(args);
    if collections.Err? {
      return Err(collections.error);
    }
    r := Ok(LoadRequest(collections.value, s.mlock));
  }
}
