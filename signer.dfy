/** The key-store signer `transfer` hands to its transaction helper: for a
    group of inputs locked by the key hashes `lockArgs`, choose the
    derivation path of the key that signs (the account's own key, or a
    derived key found in the path map), then sign the message with it. */
module Signer {
  import opened Types
  import opened Search

  /** A serialized recoverable secp256k1 signature. */
  type Signature = s: seq<Byte> | |s| == 65 witness seq(65, i => 0)

  /** The all-zero message, which the transaction helper signs only to
      size the witnesses. */
  const ZERO_DIGEST: H256 := seq(32, i => 0)

  /** The placeholder signature returned for the all-zero message. */
  const ZERO_SIGNATURE: Signature := seq(65, i => 0)

  /** The path of the first key hash of `lockArgs`, in iteration order,
      that the path map knows. */
  function FirstDerivedPath(lockArgs: seq<H160>, pathMap: map<H160, Path>): (r: Option<Path>)
    ensures r.None? <==> forall k :: k in lockArgs ==> k !in pathMap
    ensures r.Some? ==> exists i :: 0 <= i < |lockArgs| && lockArgs[i] in pathMap
                          && r.value == pathMap[lockArgs[i]]
                          && forall j :: 0 <= j < i ==> lockArgs[j] !in pathMap
    decreases |lockArgs|
  {
    if lockArgs == [] then None
    else if lockArgs[0] in pathMap then Some(pathMap[lockArgs[0]])
    else
      var r := FirstDerivedPath(lockArgs[1..], pathMap);
      if r.Some? then
        ghost var i :| 0 <= i < |lockArgs[1..]| && lockArgs[1..][i] in pathMap
                       && r.value == pathMap[lockArgs[1..][i]]
                       && forall j :: 0 <= j < i ==> lockArgs[1..][j] !in pathMap;
        assert lockArgs[i + 1] == lockArgs[1..][i];
        assert forall j :: 0 < j < i + 1 ==> lockArgs[j] == lockArgs[1..][j - 1];
        r
      else r
  }

  /** The path to sign with: the empty path (the account's own key) when
      the account is among the lock arguments, else the first derived
      path found, else none. */
  function ResolvePath(lockArgs: seq<H160>, account: H160, pathMap: map<H160, Path>): Option<Path>
  {
    if account in lockArgs then Some([]) else FirstDerivedPath(lockArgs, pathMap)
  }

  /** The key store's signing answer as the signer reports it. */
  function Signed(answer: Result<Signature, string>): Result<Option<Signature>, string>
  {
    match answer
    case Ok(signature) => Ok(Some(signature))
    case Err(e) => Err(e)
  }

  /** One call of the signer. `keyStore(account, path, message)` is the key
      store's `sign_recoverable_with_password` with the password already
      bound. */
  function Sign(lockArgs: seq<H160>, message: H256, account: H160, pathMap: map<H160, Path>,
                keyStore: (H160, Path, H256) -> Result<Signature, string>): (r: Result<Option<Signature>, string>)
    ensures (account !in lockArgs && forall k :: k in lockArgs ==> k !in pathMap) ==> r == Ok(None)
    ensures (account in lockArgs || exists k :: k in lockArgs && k in pathMap) && message == ZERO_DIGEST
            ==> r == Ok(Some(ZERO_SIGNATURE))
    ensures account in lockArgs && message != ZERO_DIGEST ==> r == Signed(keyStore(account, [], message))
    ensures account !in lockArgs && message != ZERO_DIGEST ==>
              forall i :: 0 <= i < |lockArgs| && lockArgs[i] in pathMap
                            && (forall j :: 0 <= j < i ==> lockArgs[j] !in pathMap)
                          ==> r == Signed(keyStore(account, pathMap[lockArgs[i]], message))
  {
    match ResolvePath(lockArgs, account, pathMap)
    case None => Ok(None)
    case Some(path) =>
      if message == ZERO_DIGEST then Ok(Some(ZERO_SIGNATURE))
      else Signed(keyStore(account, path, message))
  }

  /** The first derived path found is the path of the earliest lock
      argument the path map knows. */
  lemma {:induction false} FirstDerivedPathIsFirst(lockArgs: seq<H160>, pathMap: map<H160, Path>, i: nat)
    requires i < |lockArgs| && lockArgs[i] in pathMap
    requires forall j :: 0 <= j < i ==> lockArgs[j] !in pathMap
    ensures FirstDerivedPath(lockArgs, pathMap) == Some(pathMap[lockArgs[i]])
    decreases i
  {
    if i > 0 {
      var rest := lockArgs[1..];
      assert rest[i - 1] == lockArgs[i];
      forall j | 0 <= j < i - 1 ensures rest[j] !in pathMap {
        assert rest[j] == lockArgs[j + 1];
      }
      FirstDerivedPathIsFirst(rest, pathMap, i - 1);
    }
  }

  /** The lock arguments come from a hash set, whose iteration order is
      unspecified. The path chosen does not depend on that order as long
      as the known lock arguments all map to the same path (in particular
      when at most one of them is known). */
  lemma ResolvePathOrderFree(a: seq<H160>, b: seq<H160>, account: H160, pathMap: map<H160, Path>)
    requires forall k :: k in a <==> k in b
    requires forall x, y :: x in a && y in a && x in pathMap && y in pathMap ==> pathMap[x] == pathMap[y]
    ensures ResolvePath(a, account, pathMap) == ResolvePath(b, account, pathMap)
  {
    if account !in a {
      var ra := FirstDerivedPath(a, pathMap);
      var rb := FirstDerivedPath(b, pathMap);
      if ra.Some? {
        var i :| 0 <= i < |a| && a[i] in pathMap && ra.value == pathMap[a[i]];
        var j :| 0 <= j < |b| && b[j] in pathMap && rb.value == pathMap[b[j]];
        assert b[j] in a;
      }
    }
  }
}
