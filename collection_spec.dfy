/** The per-token rule shared by both entry points: a command-line token `name=path` asks for
    a collection locked in memory, `name@path` for one served without locking. The two
    `main` functions carry identical copies of this rule; it is stated and proved once here. */
module CollectionSpec {
  import opened Results
  import opened GoStrings

  /** What one token declares: the collection's name, its file path and whether it is locked. */
  datatype Spec = Spec(name: string, path: string, mlock: bool)

  const LockedSep: char := '='
  const DiskSep: char := '@'

  /** The separator that declares a given residency. */
  function Separator(mlock: bool): char {
    if mlock then LockedSep else DiskSep
  }

  /** The token that declares `s`. */
  function Render(s: Spec): string {
    s.name + [Separator(s.mlock)] + s.path
  }

  /** The specs that some token declares: a locked name holds no `=`; an unlocked spec holds no
      `=` anywhere and no `@` in its name (otherwise the token would be read differently). */
  predicate Canonical(s: Spec) {
    LockedSep !in s.name && (!s.mlock ==> DiskSep !in s.name && LockedSep !in s.path)
  }

  /** One iteration of the parse loop: split at the first `=` and lock; failing that, split at
      the first `@` and do not lock; failing that, the token is rejected (a fatal error). */
  function ParseToken(pair: string): (r: Option<Spec>)
    ensures r.None? <==> LockedSep !in pair && DiskSep !in pair
    ensures r.Some? ==> Render(r.value) == pair && Canonical(r.value)
    ensures r.Some? ==> (r.value.mlock <==> LockedSep in pair)
  {
    var parts := SplitN2(pair, LockedSep);
    if |parts| == 2 then Some(Spec(parts[0], parts[1], true))
    else
      var parts' := SplitN2(pair, DiskSep);
      if |parts'| == 2 then Some(Spec(parts'[0], parts'[1], false))
      else None
  }

  /** Rendering a canonical spec and parsing the token gives the spec back. */
  lemma ParseRender(s: Spec)
    requires Canonical(s)
    ensures ParseToken(Render(s)) == Some(s)
  {
    if s.mlock {
      SplitN2Join(s.name, LockedSep, s.path);
    } else {
      SplitN2Join(s.name, DiskSep, s.path);
    }
  }

  /** A token with an `=` is locked and cut at its first `=`, whatever follows it (more `=`
      or `@` included); in particular a token holding both separators is never rejected.
      This is the contract of `ParseToken` read at a given position. */
  lemma LockedAtFirstEquals(pair: string, k: nat)
    requires k < |pair| && pair[k] == LockedSep && LockedSep !in pair[..k]
    ensures ParseToken(pair) == Some(Spec(pair[..k], pair[k + 1..], true))
  {
  }

  /** A token with no `=` but an `@` is unlocked and cut at its first `@`; again a reading of
      the contract of `ParseToken`. */
  lemma UnlockedAtFirstAt(pair: string, k: nat)
    requires LockedSep !in pair
    requires k < |pair| && pair[k] == DiskSep && DiskSep !in pair[..k]
    ensures ParseToken(pair) == Some(Spec(pair[..k], pair[k + 1..], false))
  {
  }

  /** Every token of `args` is accepted. */
  predicate AllAccepted(args: seq<string>) {
    forall i :: 0 <= i < |args| ==> ParseToken(args[i]).Some?
  }

  /** `k` is the position of the first rejected token of `args`: the one the loop dies on. */
  predicate FirstRejected(args: seq<string>, k: int) {
    0 <= k < |args| && ParseToken(args[k]).None? &&
    forall j :: 0 <= j < k ==> ParseToken(args[j]).Some?
  }

  /** Either every token is accepted or there is exactly one first rejected token. */
  lemma {:induction false} AcceptedOrFirstRejected(args: seq<string>)
    ensures AllAccepted(args) <==> !exists k :: FirstRejected(args, k)
    ensures forall k, k' :: FirstRejected(args, k) && FirstRejected(args, k') ==> k == k'
  {
    if args != [] {
      AcceptedOrFirstRejected(args[1..]);
      if ParseToken(args[0]).Some? {
        forall k | FirstRejected(args[1..], k) ensures FirstRejected(args, k + 1) {
        }
        forall k | FirstRejected(args, k) ensures FirstRejected(args[1..], k - 1) {
          assert k != 0;
        }
      } else {
        assert FirstRejected(args, 0);
      }
    }
  }
}
