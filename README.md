# Collection-spec parsing and configuration selection

This project models the startup logic of the two entry points of an HFile-serving daemon. That logic decides which collections (named, pre-built key/value files) are loaded and whether each one is locked into physical memory.

- `main.go` takes its collections either from command-line tokens or from a JSON configuration document fetched from a URL. The two sources are mutually exclusive. A global `mem` flag forces every collection to be locked.
- `server.go` takes its collections only from command-line tokens. Its `mlock-all` flag is passed to the loader, not applied to the parsed records.

A token `name=path` declares a collection locked in memory. A token `name@path` declares one served without locking. The token is split at its *first* `=`. Only when it has no `=` is it split at its first `@`. A token with neither separator is a fatal error.

Modules:

- `Results` (`results.dfy`): `Option` and `Result`. A fatal exit (`log.Fatal`, `os.Exit`) becomes an `Err` value carrying the reason.
- `GoStrings` (`go_strings.dfy`): `strings.Index` and `strings.SplitN(s, sep, 2)` for a one-character separator.
- `CollectionSpec` (`collection_spec.dfy`): the per-token rule. Both entry points contain the same copy of it, so it is proved once here. `Render` is its inverse, and the lemmas tie the two together.
- `ConfigMain` (`config_main.dfy`): `readSettings`'s argument check and `getCollectionConfig` from `main.go`. The token loop fills an array by index. The override loop sets the lock bit of each array element in place.
- `ServerMain` (`server_main.dfy`): the argument check and token loop of `main` in `server.go`.

Facts about the code that the model keeps as they are:

- A token holding both `=` and `@` is accepted as locked and split at its first `=` (main.go:82-87).
- No step removes duplicate names.
- In `getCollectionConfig`, the command-line branch parses into a new `configs` declared inside the `else` block (main.go:80). That variable shadows the outer local `configs` (main.go:68), which is the one the function returns at main.go:102. So, when every token parses, the function returns an empty list, and the override loop has nothing to lock. The model keeps this behaviour: `GetCollectionConfig` returns `Ok([])` in that case. The tokens still matter, because a bad token is still fatal.
- The usage text of `server.go` (server.go:28-31) gives `=` and `@` the opposite meanings from what the code does. The model follows what the code does.
- The program's message for a bad token (main.go:89, server.go:53) does not name the token. The model's `BadSpec(pair)` records which token the loop stopped at, so that the contracts can say where the process dies.
- `GoStrings.Index` models `strings.Index`. The core never calls it directly; it is a helper of `GoStrings.SplitN2` and has no row below.

Inputs the program gets from its environment are parameters of the model:

- the flags after `flag.Parse()` (a `SettingDefs` or `Settings` value);
- the positional arguments (`seq<string>`);
- what `LoadFromUrl` returned: `Some(configs)`, or `None` when it reported an error.

The source keeps `main.go`'s settings in a package-level variable. Here they are passed explicitly to each step.

## Model

| member | source | states |
|---|---|---|
| `GoStrings.SplitN2` | main.go:82 | Gives two parts exactly when the separator occurs. The first part has no separator, and first part + separator + second part is the input. Otherwise the result is the input alone. |
| `GoStrings.SplitN2Join` | main.go:82 | Splitting `left + sep + right` gives `[left, right]` whenever `left` has no `sep`, even when `right` has some. |
| `CollectionSpec.ParseToken` | main.go:82-91 | Rejects a token exactly when it has neither `=` nor `@` (the same rule is at server.go:46-53). An accepted token's spec renders back to the token and is canonical. It is locked exactly when the token has an `=`, so a token with both separators is locked. |
| `CollectionSpec.ParseRender` | main.go:82-91 | Parsing the rendering of any canonical spec gives that spec back. This is the round trip inverse to `ParseToken`'s own guarantee. |
| `CollectionSpec.LockedAtFirstEquals` | main.go:82-83 | A token whose first `=` is at position k gives name = the text before k, path = the text after k (which may hold `=` or `@`), locked. This applies whatever `@` the token holds. It follows the same rule as server.go:46-47. |
| `CollectionSpec.UnlockedAtFirstAt` | main.go:84-86 | A token with no `=` whose first `@` is at position k gives name = the text before k, path = the text after k, unlocked. It follows the same rule as server.go:48-50. |
| `CollectionSpec.AcceptedOrFirstRejected` | main.go:88-89 | Either every token is accepted, or there is exactly one first rejected token, which is where the loop dies. Both parse loops use it to show that their error records that one token. |
| `ConfigMain.ReadSettings` | main.go:58-64 | Exits with the usage error exactly when there are no positional arguments and no config URL. Otherwise it passes the positional arguments on unchanged. |
| `ConfigMain.ParseArgs` | main.go:80-92 | Succeeds exactly when every token is accepted. The result then has one record per argument, and record i comes from token i. On failure the error records the unique first rejected token. |
| `ConfigMain.LockAllKeepsOrder` | main.go:94-101 | The override keeps the length, order, names and paths, and locks every record. |
| `ConfigMain.LockAllIdempotent` | main.go:94-101 | Applying the override twice equals applying it once. |
| `ConfigMain.LockAllOfLocked` | main.go:94-101 | The override leaves a list that is already all locked unchanged. |
| `ConfigMain.ForceLock` | main.go:94-101 | After the in-place loop the array holds the override of its old contents. |
| `ConfigMain.GetCollectionConfig` | main.go:67-103 | A config URL together with any positional argument is always `MixedSources`. With a URL and no arguments the result is the fetched list, locked when the flag is set, or `UrlLoadFailed`. Without a URL it succeeds exactly when every token is accepted, and then returns the empty list (the shadowing quirk). Otherwise it fails on the first rejected token. |
| `ConfigMain.Startup` | main.go:105-111 | No arguments and no URL give `Usage` before any config is built. Arguments plus a URL give `MixedSources`. A URL with no arguments yields the fetched list, locked when the flag is set, or `UrlLoadFailed`. The command-line route succeeds exactly when every token is accepted and then yields an empty list; otherwise it fails on the first rejected token. With the flag set, every config handed to the loader is locked. |
| `ServerMain.ParseCollections` | server.go:44-56 | Succeeds exactly when every token is accepted. The result then has one record per argument, and record i comes from token i with a nil reader. On failure the error records the unique first rejected token. |
| `ServerMain.Startup` | server.go:39-58 | Zero arguments give `Usage` before any parsing. Otherwise it succeeds exactly when every token is accepted, and fails on the first rejected token. Record i is the parse of token i: split at the first separator, locked exactly when the token has `=`, with a nil reader, whatever `mlock-all` is. `mlock-all` is passed on to the loader unchanged. |

## Left out

- Flag registration, `flag.Parse` and the usage text: the parsed flags and positional arguments are inputs. `getCollectionConfig` loops over `flag.Args()`, which is the same list that `readSettings` returned, and the model uses that one list.
- Process termination (`os.Exit`, `log.Fatal`) and logging, including the debug message in the override loop (main.go:96-98): an exit becomes an `Err` value.
- `LoadFromUrl` (HTTP fetch and JSON decoding): its outcome is the parameter `fromUrl`. What it returns alongside an error is ignored, since the process exits.
- `hfile.LoadCollections` and `LoadCollections` (memory-mapping, `mlock`, the HDFS fetch and cache, the registry): their code is not part of this model. The model stops at the arguments passed to them.
- The HTTP handlers, `ListenAndServe`, `os.Hostname` and the concurrent serving path that follow loading.
- `GoStrings.SplitN2`: models the separator as one character and the string as a sequence of characters. Go's strings are byte strings, but both separators are ASCII, so the split positions agree.
- `ConfigMain.GetCollectionConfig`: the source returns a nil slice in the command-line branch and the model returns an empty sequence. Go makes no distinction between the two for `range` or `len`.
