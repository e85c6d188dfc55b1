/** How `transfer` builds the set of lock hashes it funds from: the funding
    key's own lock, the locks of the HD keys derived from the account when a
    last change address is given, and, in front of them all, a time-locked
    multisig address whose single-key config must belong to one of those
    keys. */
module Search {
  import opened Types

  /** A derivation path in the account's key tree. */
  type Path = seq<nat>

  /** The key store's answer to a derivation request: (path, key hash)
      pairs of the receiving branch and of the change branch. */
  datatype DerivedKeySet = DerivedKeySet(external: seq<(Path, H160)>, change: seq<(Path, H160)>)

  /** A multisig lock config: the key hashes, how many of the first ones
      must sign, and how many signatures in all. */
  datatype MultisigConfig = MultisigConfig(sighashAddresses: seq<H160>, requireFirstN: nat, threshold: nat)

  /** The config a locked address built over one key has: threshold 1, first-n 0. */
  function SingleKeyConfig(key: H160): MultisigConfig
  {
    MultisigConfig([key], 0, 1)
  }

  /** The derived keys in the order `transfer` walks them: receiving, then change. */
  function DerivedPairs(keySet: DerivedKeySet): seq<(Path, H160)>
  {
    keySet.external + keySet.change
  }

  function KeyHashes(pairs: seq<(Path, H160)>): seq<H160>
  {
    seq(|pairs|, i requires 0 <= i < |pairs| => pairs[i].1)
  }

  /** The lock hash of a key's single-signature address. */
  function SighashLock(scriptHash: Payload -> H256, key: H160): H256
  {
    scriptHash(SighashPayload(key))
  }

  /** The lock hash of each derived key's single-signature address, in order. */
  function DerivedLockHashes(scriptHash: Payload -> H256, pairs: seq<(Path, H160)>): seq<H256>
  {
    seq(|pairs|, i requires 0 <= i < |pairs| => SighashLock(scriptHash, pairs[i].1))
  }

  /** `path_map` after inserting `pairs` in order: a later pair for the
      same key hash replaces an earlier one. */
  function InsertAll(m: map<H160, Path>, pairs: seq<(Path, H160)>): map<H160, Path>
    decreases |pairs|
  {
    if pairs == [] then m else InsertAll(m[pairs[0].1 := pairs[0].0], pairs[1..])
  }

  lemma KeyHashesCons(pairs: seq<(Path, H160)>)
    requires pairs != []
    ensures KeyHashes(pairs) == [pairs[0].1] + KeyHashes(pairs[1..])
  {
  }

  /** The path map knows exactly the key hashes it started with and those
      inserted. */
  lemma {:induction false} InsertAllKeys(m: map<H160, Path>, pairs: seq<(Path, H160)>)
    ensures forall k :: k in InsertAll(m, pairs) <==> k in m || k in KeyHashes(pairs)
    decreases |pairs|
  {
    if pairs != [] {
      InsertAllKeys(m[pairs[0].1 := pairs[0].0], pairs[1..]);
      KeyHashesCons(pairs);
    }
  }

  /** A key hash that is not inserted keeps its old path. */
  lemma {:induction false} InsertAllKeeps(m: map<H160, Path>, pairs: seq<(Path, H160)>, k: H160)
    requires k in m && k !in KeyHashes(pairs)
    ensures k in InsertAll(m, pairs) && InsertAll(m, pairs)[k] == m[k]
    decreases |pairs|
  {
    if pairs != [] {
      KeyHashesCons(pairs);
      InsertAllKeeps(m[pairs[0].1 := pairs[0].0], pairs[1..], k);
    }
  }

  /** An inserted key hash maps to the path of the last pair that names it. */
  lemma {:induction false} InsertAllLast(m: map<H160, Path>, pairs: seq<(Path, H160)>, i: nat)
    requires i < |pairs|
    requires forall j :: i < j < |pairs| ==> pairs[j].1 != pairs[i].1
    ensures pairs[i].1 in InsertAll(m, pairs) && InsertAll(m, pairs)[pairs[i].1] == pairs[i].0
    decreases |pairs|
  {
    var m' := m[pairs[0].1 := pairs[0].0];
    var rest := pairs[1..];
    if i > 0 {
      forall j | i - 1 < j < |rest| ensures rest[j].1 != rest[i - 1].1 {
        assert rest[j] == pairs[j + 1];
      }
      InsertAllLast(m', rest, i - 1);
    } else {
      assert pairs[0].1 !in KeyHashes(rest) by {
        forall j | 0 <= j < |rest| ensures KeyHashes(rest)[j] != pairs[0].1 {
          assert rest[j] == pairs[j + 1];
        }
      }
      InsertAllKeeps(m', rest, pairs[0].1);
    }
  }

  /** The first candidate key whose single-key multisig config hashes to
      `owner`, the first 20 argument bytes of the locked address. */
  function FirstOwner(candidates: seq<H160>, owner: seq<Byte>, hash160: MultisigConfig -> H160): (r: Option<H160>)
    ensures r.Some? ==> r.value in candidates && hash160(SingleKeyConfig(r.value)) == owner
    ensures r.None? <==> forall k :: k in candidates ==> hash160(SingleKeyConfig(k)) != owner
    decreases |candidates|
  {
    if candidates == [] then None
    else if hash160(SingleKeyConfig(candidates[0])) == owner then Some(candidates[0])
    else FirstOwner(candidates[1..], owner, hash160)
  }

  /** The owner found is the earliest matching candidate. */
  lemma {:induction false} FirstOwnerIsFirst(candidates: seq<H160>, owner: seq<Byte>,
                                              hash160: MultisigConfig -> H160, i: nat)
    requires i < |candidates| && hash160(SingleKeyConfig(candidates[i])) == owner
    requires forall j :: 0 <= j < i ==> hash160(SingleKeyConfig(candidates[j])) != owner
    ensures FirstOwner(candidates, owner, hash160) == Some(candidates[i])
    decreases i
  {
    if i > 0 {
      var rest := candidates[1..];
      forall j | 0 <= j < i - 1 ensures hash160(SingleKeyConfig(rest[j])) != owner {
        assert rest[j] == candidates[j + 1];
      }
      FirstOwnerIsFirst(rest, owner, hash160, i - 1);
    }
  }

  /** When distinct keys give distinct config hashes, at most one candidate
      can match, so the order in which candidates are tried (a hash map's
      key order in `transfer`) does not change the owner found. */
  lemma FirstOwnerOrderFree(a: seq<H160>, b: seq<H160>, owner: seq<Byte>, hash160: MultisigConfig -> H160)
    requires forall k :: k in a <==> k in b
    requires forall x: H160, y: H160 :: hash160(SingleKeyConfig(x)) == hash160(SingleKeyConfig(y)) ==> x == y
    ensures FirstOwner(a, owner, hash160) == FirstOwner(b, owner, hash160)
  {
    var ra := FirstOwner(a, owner, hash160);
    var rb := FirstOwner(b, owner, hash160);
    if ra.Some? && rb.Some? {
      assert hash160(SingleKeyConfig(ra.value)) == hash160(SingleKeyConfig(rb.value));
    }
  }

  /** The order in which `transfer` searches lock hashes: the locked
      address's lock (when given), the funding key's own lock, then the
      derived receiving and change keys' locks. */
  function SearchOrder(scriptHash: Payload -> H256, locked: Option<Payload>, fromLockArg: H160,
                       pairs: seq<(Path, H160)>): seq<H256>
  {
    (if locked.Some? then [scriptHash(locked.value)] else [])
    + [scriptHash(SighashPayload(fromLockArg))]
    + DerivedLockHashes(scriptHash, pairs)
  }

  /** Position by position: the locked lock hash first, the funding key's
      next, then one per derived key in derivation order. */
  lemma SearchOrderLayout(scriptHash: Payload -> H256, locked: Option<Payload>, fromLockArg: H160,
                          pairs: seq<(Path, H160)>)
    ensures var order := SearchOrder(scriptHash, locked, fromLockArg, pairs);
      var base := if locked.Some? then 1 else 0;
      && |order| == base + 1 + |pairs|
      && (locked.Some? ==> order[0] == scriptHash(locked.value))
      && order[base] == scriptHash(SighashPayload(fromLockArg))
      && forall i :: 0 <= i < |pairs| ==> order[base + 1 + i] == scriptHash(SighashPayload(pairs[i].1))
  {
  }

  /** The local state `transfer` builds while resolving its funding
      identities: `lock_hashes`, `path_map`, and the multisig configs
      registered on its transaction helper. */
  class SearchSet {
    const scriptHash: Payload -> H256
    var lockHashes: seq<H256>
    var pathMap: map<H160, Path>
    var multisigConfigs: seq<MultisigConfig>

    constructor (scriptHash: Payload -> H256, from: Payload)
      ensures this.scriptHash == scriptHash
      ensures lockHashes == [scriptHash(from)] && pathMap == map[] && multisigConfigs == []
    {
      this.scriptHash := scriptHash;
      lockHashes := [scriptHash(from)];
      pathMap := map[];
      multisigConfigs := [];
    }

    /** Record each derived key's path and append its lock hash, receiving
        keys first, then change keys. */
    method AddDerivedKeys(keySet: DerivedKeySet)
      modifies this
      ensures lockHashes == old(lockHashes) + DerivedLockHashes(scriptHash, DerivedPairs(keySet))
      ensures pathMap == InsertAll(old(pathMap), DerivedPairs(keySet))
      ensures multisigConfigs == old(multisigConfigs)
    {
      var pairs := keySet.external + keySet.change;
      var i := 0;
      while i < |pairs|
        invariant i <= |pairs|
        invariant lockHashes == old(lockHashes) + DerivedLockHashes(scriptHash, pairs[..i])
        invariant InsertAll(pathMap, pairs[i..]) == InsertAll(old(pathMap), pairs)
        invariant multisigConfigs == old(multisigConfigs)
      {
        var (path, hash160) := pairs[i];
        assert pairs[i..][1..] == pairs[i + 1..];
        pathMap := pathMap[hash160 := path];
        lockHashes := lockHashes + [scriptHash(SighashPayload(hash160))];
        assert DerivedLockHashes(scriptHash, pairs[..i + 1])
            == DerivedLockHashes(scriptHash, pairs[..i]) + [scriptHash(SighashPayload(hash160))];
        i := i + 1;
      }
      assert pairs[..i] == pairs;
    }

    /** Put the locked address's lock hash first, then try the funding key
        and the derived keys (`keyOrder`, the path map's keys) in turn and
        register the single-key config of the first whose config hash is
        the address's first 20 argument bytes. */
    method AddLockedSource(locked: Payload, fromLockArg: H160, keyOrder: seq<H160>,
                           hash160: MultisigConfig -> H160)
      requires |locked.args| >= 20
      requires forall k :: k in keyOrder <==> k in pathMap
      modifies this
      ensures lockHashes == [scriptHash(locked)] + old(lockHashes)
      ensures pathMap == old(pathMap)
      ensures var owner := FirstOwner([fromLockArg] + keyOrder, locked.args[..20], hash160);
        multisigConfigs == old(multisigConfigs) + if owner.Some? then [SingleKeyConfig(owner.value)] else []
    {
      lockHashes := [scriptHash(locked)] + lockHashes;
      var candidates := [fromLockArg] + keyOrder;
      var owner := locked.args[..20];
      var i := 0;
      while i < |candidates|
        invariant i <= |candidates|
        invariant FirstOwner(candidates[i..], owner, hash160) == FirstOwner(candidates, owner, hash160)
        invariant multisigConfigs == old(multisigConfigs)
        invariant lockHashes == [scriptHash(locked)] + old(lockHashes) && pathMap == old(pathMap)
      {
        var cfg := SingleKeyConfig(candidates[i]);
        if hash160(cfg) == owner {
          multisigConfigs := multisigConfigs + [cfg];
          return;
        }
        assert candidates[i..][1..] == candidates[i + 1..];
        i := i + 1;
      }
    }
  }
}
