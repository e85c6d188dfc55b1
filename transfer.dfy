/** `transfer`: validate the request, build the lock hashes to fund from
    (with the derived keys and the locked multisig source), gather inputs
    with the funding policy, balance the payment and build the outputs
    handed to the transaction helper. */
module Transfer {
  import opened Types
  import opened Cells
  import opened Validation
  import opened Funding
  import opened Balancing
  import opened Search

  /** A parsed transfer request. `fromLockArg` is the key hash of the
      funding key (the account, or the hash of the private key's public
      key); `lastChange` is the last change address, given when the wallet
      should behave as an HD wallet. */
  datatype TransferRequest = TransferRequest(
    fromLockArg: H160,
    fromLocked: Option<Payload>,
    to: Payload,
    toCapacity: U64,
    txFee: U64,
    toData: seq<Byte>,
    lastChange: Option<Payload>)

  /** What `transfer` consults but does not compute: lock script hashing,
      the multisig config hash, `check_capacity` on (capacity, data
      length), the key store's derivation of the key set from the account
      and the last change key hash, and the index's live cells per lock
      hash (mature flags already judged against the node's maximum mature
      block number). */
  datatype Environment = Environment(
    scriptHash: Payload -> H256,
    hash160: MultisigConfig -> H160,
    capacityOk: (nat, nat) -> bool,
    deriveKeys: (H160, seq<Byte>) -> Result<DerivedKeySet, string>,
    index: H256 -> seq<Cell>)

  /** Every way `transfer` can refuse a request once the addresses are
      parsed, in the order they are checked. */
  datatype TransferError =
    | InvalidLockedArgs(argsError: LockedArgsError)
    | InvalidToAddress
    | CapacityCheckFailed
    | KeyStoreFailure(message: string)
    | LockedAddressNotOwned
    | FundingRejected(balanceError: BalanceError)

  /** Where `transfer` funds from and how it signs: the lock hashes to
      search, the derived keys' paths, and the multisig configs registered
      on its transaction helper. */
  datatype FundingSources = FundingSources(
    lockHashes: seq<H256>,
    pathMap: map<H160, Path>,
    multisigConfigs: seq<MultisigConfig>)

  /** What `transfer` hands to the transaction helper and the signer. */
  datatype TransferPlan = TransferPlan(sources: FundingSources, inputs: seq<Cell>, outputs: seq<Output>)

  /** The checks made before any key or cell is looked at: the locked
      source's arguments, the destination's shape, then `check_capacity`.
      They pass exactly when each of the three holds. */
  function ValidateRequest(req: TransferRequest, env: Environment): (r: Outcome<TransferError>)
    ensures r.Pass? <==>
      && (req.fromLocked.Some? ==> |req.fromLocked.value.args| == 28 && req.fromLocked.value.args[27] == 0x20)
      && IsAcceptedDestination(req.to)
      && env.capacityOk(req.toCapacity, |req.toData|)
    ensures r.Fail? && !r.error.InvalidLockedArgs? ==>
      req.fromLocked.Some? ==> CheckLockedArgs(req.fromLocked.value.args).Pass?
    ensures r.Fail? && r.error.CapacityCheckFailed? ==> IsAcceptedDestination(req.to)
    ensures req.fromLocked.Some? && CheckLockedArgs(req.fromLocked.value.args).Fail? ==>
      r == Fail(InvalidLockedArgs(CheckLockedArgs(req.fromLocked.value.args).error))
    ensures ((req.fromLocked.Some? ==> CheckLockedArgs(req.fromLocked.value.args).Pass?)
             && !IsAcceptedDestination(req.to))
            ==> r == Fail(InvalidToAddress)
    ensures ((req.fromLocked.Some? ==> CheckLockedArgs(req.fromLocked.value.args).Pass?)
             && IsAcceptedDestination(req.to) && !env.capacityOk(req.toCapacity, |req.toData|))
            ==> r == Fail(CapacityCheckFailed)
  {
    LockedArgsAcceptedIff(if req.fromLocked.Some? then req.fromLocked.value.args else []);
    if req.fromLocked.Some? && CheckLockedArgs(req.fromLocked.value.args).Fail? then
      Fail(InvalidLockedArgs(CheckLockedArgs(req.fromLocked.value.args).error))
    else if !IsAcceptedDestination(req.to) then Fail(InvalidToAddress)
    else if !env.capacityOk(req.toCapacity, |req.toData|) then Fail(CapacityCheckFailed)
    else Pass
  }

  /** The derived (path, key hash) pairs the search walks: none without a
      last change address, else the key store's receiving then change
      keys, or its error. */
  function DerivedKeys(req: TransferRequest, env: Environment): Result<seq<(Path, H160)>, string>
  {
    if req.lastChange.None? then Ok([])
    else
      match env.deriveKeys(req.fromLockArg, req.lastChange.value.args)
      case Ok(keySet) => Ok(DerivedPairs(keySet))
      case Err(e) => Err(e)
  }

  /** The change goes to the last change address when one is given, else
      back to the funding key's own single-signature address. */
  function ChangeLock(req: TransferRequest): (r: Payload)
    ensures req.lastChange.Some? ==> r == req.lastChange.value
    ensures req.lastChange.None? ==> r.hashType == Type && r.codeHash == SIGHASH_TYPE_HASH
                                     && r.args == req.fromLockArg
  {
    if req.lastChange.Some? then req.lastChange.value else SighashPayload(req.fromLockArg)
  }

  /** Without a last change address the change lands on a lock `transfer`
      funds from: its lock hash is the funding key's entry of the search
      order, right after the locked source's when there is one. */
  lemma ChangeReturnsToFundingLock(req: TransferRequest, scriptHash: Payload -> H256,
                                   pairs: seq<(Path, H160)>)
    requires req.lastChange.None?
    ensures var order := SearchOrder(scriptHash, req.fromLocked, req.fromLockArg, pairs);
      var base := if req.fromLocked.Some? then 1 else 0;
      base < |order| && order[base] == scriptHash(ChangeLock(req))
  {
    SearchOrderLayout(scriptHash, req.fromLocked, req.fromLockArg, pairs);
  }

  /** The keys a locked source may belong to, in the order they are tried:
      the funding key, then the path map's keys (taken in derivation
      order). */
  function OwnerCandidates(req: TransferRequest, pairs: seq<(Path, H160)>): seq<H160>
  {
    [req.fromLockArg] + KeyHashes(pairs)
  }

  /** The request is accepted up to funding: it validates, the key set is
      derived, and a locked source, if any, belongs to a candidate key. */
  predicate Admissible(req: TransferRequest, env: Environment)
  {
    && ValidateRequest(req, env) == Pass
    && DerivedKeys(req, env).Ok?
    && (req.fromLocked.Some? ==>
          |req.fromLocked.value.args| >= 20
          && FirstOwner(OwnerCandidates(req, DerivedKeys(req, env).value),
                        req.fromLocked.value.args[..20], env.hash160).Some?)
  }

  /** For a validated request the locked source has 28 argument bytes, so
      admissibility is down to the key store and the owner search. */
  lemma AdmissibleWhenValid(req: TransferRequest, env: Environment)
    requires ValidateRequest(req, env) == Pass
    ensures req.fromLocked.Some? ==> |req.fromLocked.value.args| == 28
    ensures Admissible(req, env) <==>
              && DerivedKeys(req, env).Ok?
              && (req.fromLocked.Some? ==>
                    FirstOwner(OwnerCandidates(req, DerivedKeys(req, env).value),
                               req.fromLocked.value.args[..20], env.hash160).Some?)
  {
  }

  /** The funding sources of an admissible request: the lock hashes in
      search order, the path of every derived key, and the single-key
      config of the first candidate key owning the locked source. */
  function Sources(req: TransferRequest, env: Environment): FundingSources
    requires Admissible(req, env)
  {
    var pairs := DerivedKeys(req, env).value;
    FundingSources(
      SearchOrder(env.scriptHash, req.fromLocked, req.fromLockArg, pairs),
      InsertAll(map[], pairs),
      if req.fromLocked.None? then []
      else [SingleKeyConfig(FirstOwner(OwnerCandidates(req, pairs), req.fromLocked.value.args[..20], env.hash160).value)])
  }

  /** Building the funding sources of a validated request: the funding
      key's lock, the derived keys' locks and paths when a last change
      address is given (a key store failure ends the transfer), and the
      locked source in front, which must belong to a candidate key. */
  method ResolveSources(req: TransferRequest, env: Environment) returns (r: Result<FundingSources, TransferError>)
    requires ValidateRequest(req, env) == Pass
    ensures DerivedKeys(req, env).Err? ==> r == Err(KeyStoreFailure(DerivedKeys(req, env).error))
    ensures r == Err(LockedAddressNotOwned) <==>
              && DerivedKeys(req, env).Ok? && req.fromLocked.Some?
              && FirstOwner(OwnerCandidates(req, DerivedKeys(req, env).value),
                            req.fromLocked.value.args[..20], env.hash160).None?
    ensures r.Ok? <==> Admissible(req, env)
    ensures r.Ok? ==> r.value == Sources(req, env)
  {
    AdmissibleWhenValid(req, env);
    var search := new SearchSet(env.scriptHash, SighashPayload(req.fromLockArg));
    var pairs: seq<(Path, H160)> := [];
    if req.lastChange.Some? {
      var keySet := env.deriveKeys(req.fromLockArg, req.lastChange.value.args);
      if keySet.Err? {
        return Err(KeyStoreFailure(keySet.error));
      }
      search.AddDerivedKeys(keySet.value);
      pairs := DerivedPairs(keySet.value);
    }
    assert DerivedKeys(req, env) == Ok(pairs);
    assert search.lockHashes == [env.scriptHash(SighashPayload(req.fromLockArg))]
                              + DerivedLockHashes(env.scriptHash, pairs);
    assert search.pathMap == InsertAll(map[], pairs) && search.multisigConfigs == [];
    if req.fromLocked.Some? {
      var locked := req.fromLocked.value;
      InsertAllKeys(map[], pairs);
      search.AddLockedSource(locked, req.fromLockArg, KeyHashes(pairs), env.hash160);
      ghost var owner := FirstOwner(OwnerCandidates(req, pairs), locked.args[..20], env.hash160);
      if search.multisigConfigs == [] {
        assert owner.None?;
        return Err(LockedAddressNotOwned);
      }
      assert search.multisigConfigs == [SingleKeyConfig(owner.value)];
    }
    r := Ok(FundingSources(search.lockHashes, search.pathMap, search.multisigConfigs));
  }

  /** The lock hashes searched for an admissible request. */
  function SearchedLocks(req: TransferRequest, env: Environment): seq<H256>
    requires DerivedKeys(req, env).Ok?
  {
    SearchOrder(env.scriptHash, req.fromLocked, req.fromLockArg, DerivedKeys(req, env).value)
  }

  /** The inputs the funding policy gathers for an admissible request. */
  function Gathered(req: TransferRequest, env: Environment): seq<Cell>
    requires DerivedKeys(req, env).Ok?
  {
    Fund(req.toCapacity + req.txFee, [], Stream(env.index, SearchedLocks(req, env)))
  }

  /** `transfer` from parsed arguments to the plan handed to the
      transaction helper. It succeeds exactly when the request is
      admissible and the gathered capacity balances; errors come out in
      the order `transfer` checks them. On success the plan searches its
      sources in the order of `SearchOrder`, funds from the first plain
      mature cells found there, and its outputs conserve capacity with at
      most one CKB burned. */
  method Transfer(req: TransferRequest, env: Environment) returns (r: Result<TransferPlan, TransferError>)
    requires req.toCapacity + req.txFee <= U64_MAX
    ensures ValidateRequest(req, env).Fail? ==> r == Err(ValidateRequest(req, env).error)
    ensures ValidateRequest(req, env) == Pass && DerivedKeys(req, env).Err? ==>
              r == Err(KeyStoreFailure(DerivedKeys(req, env).error))
    ensures r == Err(LockedAddressNotOwned) <==>
              && ValidateRequest(req, env) == Pass && DerivedKeys(req, env).Ok? && req.fromLocked.Some?
              && FirstOwner(OwnerCandidates(req, DerivedKeys(req, env).value),
                            req.fromLocked.value.args[..20], env.hash160).None?
    ensures r.Ok? <==>
              Admissible(req, env) && Balance(Capacity(Gathered(req, env)), req.toCapacity, req.txFee).Ok?
    ensures Admissible(req, env) && Balance(Capacity(Gathered(req, env)), req.toCapacity, req.txFee).Err? ==>
              r == Err(FundingRejected(Balance(Capacity(Gathered(req, env)), req.toCapacity, req.txFee).error))
    ensures r.Ok? ==>
              && Admissible(req, env)
              && r.value.sources == Sources(req, env)
              && r.value.inputs == Gathered(req, env)
              && Balance(Capacity(r.value.inputs), req.toCapacity, req.txFee).Ok?
              && var rest := Balance(Capacity(r.value.inputs), req.toCapacity, req.txFee).value;
              && r.value.outputs == Outputs(req.to, req.toCapacity, req.toData, ChangeLock(req), rest)
              && Capacity(r.value.inputs) == OutputCapacity(r.value.outputs) + Burned(req.txFee, rest)
              && Capacity(r.value.inputs) - OutputCapacity(r.value.outputs) <= ONE_CKB
  {
    var validation := ValidateRequest(req, env);
    if validation.Fail? {
      return Err(validation.error);
    }
    var sources := ResolveSources(req, env);
    if sources.Err? {
      return Err(sources.error);
    }
    var selector := new FundingSelector(req.toCapacity, req.txFee);
    selector.ScanLocks(env.index, sources.value.lockHashes);
    var inputs := selector.infos;
    var balance := Balance(selector.fromCapacity, req.toCapacity, req.txFee);
    if balance.Err? {
      return Err(FundingRejected(balance.error));
    }
    var rest := balance.value;
    var outputs := Outputs(req.to, req.toCapacity, req.toData, ChangeLock(req), rest);
    OutputsBalance(selector.fromCapacity, req.toCapacity, req.txFee, req.to, req.toData, ChangeLock(req));
    r := Ok(TransferPlan(sources.value, inputs, outputs));
  }

  /** The inputs of an admissible request are the first plain, mature
      cells of its search order, taken in order, each found under one of
      its lock hashes, and no more than it needs to reach the payment plus
      fee; it falls short of the target only when it took every such cell. */
  lemma GatheredInputs(req: TransferRequest, env: Environment)
    requires Admissible(req, env)
    ensures var inputs := Gathered(req, env);
      var stream := Stream(env.index, Sources(req, env).lockHashes);
      && inputs <= Filter(Plain, stream)
      && (forall c :: c in inputs ==> Plain(c) && c in stream)
      && (Capacity(inputs) >= req.toCapacity + req.txFee || inputs == Filter(Plain, stream))
      && (inputs != [] ==> Capacity(inputs[..|inputs| - 1]) < req.toCapacity + req.txFee)
  {
    FundFromEmpty(req.toCapacity + req.txFee, Stream(env.index, Sources(req, env).lockHashes));
  }

  function PlainCell(capacity: U64): Cell
  {
    Cell(OutPoint(seq(32, i => 0), 0), capacity, 0, None, 0, true)
  }

  /** Three plain mature cells of 70, 80.6 and 1000 CKB fund a payment of
      150 CKB with a fee of 0.1 CKB: the policy takes the first two (150.6
      CKB reaches 150.1 CKB) and leaves the third; the change of 0.5 CKB is
      too small for a cell, so it is burned with the fee (0.6 CKB in all,
      under one CKB) and the transaction has the payment output alone. */
  lemma SmallChangeIsBurned(to: Payload, change: Payload)
    ensures var cells := [PlainCell(70 * ONE_CKB), PlainCell(8_060_000_000), PlainCell(1000 * ONE_CKB)];
      var inputs := Fund(150 * ONE_CKB + 10_000_000, [], cells);
      && inputs == cells[..2]
      && Balance(Capacity(inputs), 150 * ONE_CKB, 10_000_000) == Ok(50_000_000)
      && Outputs(to, 150 * ONE_CKB, [], change, 50_000_000) == [Output(150 * ONE_CKB, to, [])]
      && Burned(10_000_000, 50_000_000) == 60_000_000
  {
    var cells := [PlainCell(70 * ONE_CKB), PlainCell(8_060_000_000), PlainCell(1000 * ONE_CKB)];
    var target := 150 * ONE_CKB + 10_000_000;
    var a, b := cells[0], cells[1];
    assert Capacity([a]) == 70 * ONE_CKB by { CapacitySnoc([], a); }
    assert Capacity([a, b]) == 15_060_000_000 by { CapacitySnoc([a], b); assert [a] + [b] == [a, b]; }
    calc {
      Fund(target, [], cells);
      Fund(target, [a], cells[1..]);
      { assert [a] + [b] == [a, b]; }
      Fund(target, [a, b], cells[2..]);
      [a, b];
    }
  }
}
