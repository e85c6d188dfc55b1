# ckb-cli wallet core, modelled in Dafny

This project models the decision logic of the `wallet` subcommand of
ckb-cli, the command-line client of the Nervos CKB blockchain
(`src/subcommands/wallet/mod.rs`). It covers the three wallet operations
built on the index database's live-cell scan (`transfer`, `get_capacity`
and `get_live_cells`), plus the path choice of the key-store signer that
`transfer` signs with (`get_keystore_signer`, which does no scan):

- **`transfer`**:
  - validates a time-locked multisig funding address and the destination
    address;
  - builds the lock hashes to fund from, including HD-derived keys and a
    locked multisig source;
  - gathers plain, mature cells greedily until the payment plus fee is
    covered;
  - balances the payment, folding dust change into the fee;
  - builds the outputs.
- **`get_capacity`** sums the total, immature and Nervos DAO capacity over
  a set of lock hashes.
- **`get_live_cells`** lists the cells of one scan inside a window of
  position and block number, with an early-exit fast mode.
- **`get_keystore_signer`** chooses the derivation path that signs a
  group of inputs, and the placeholder signature for the all-zero message.

## How the model is built

**Index scan.** The index database's scan is modelled as a walk over a
`seq<Cell>` in order. At each cell it calls the policy with the cell's
position (from 0) and the cell. The policy returns `(stop, collect)`. The
scan keeps the cell when `collect` is true and ends when `stop` is true.

**Policies as classes.** Each scan policy (a closure over mutable
captured variables in ckb-cli) is a class:

- `Funding.FundingSelector`, `Aggregator.CapacityAggregator` and
  `Lister.WindowedLister` hold the captured variables as fields.
- Each has a `Terminate` method, which is the closure.
- Each has a scan method driven by `Terminate`.

Each class is proved against a pure reference definition:

- `Funding.Fund`: greedy funding over a cell stream;
- `Cells.Capacity` and `Cells.Filter`: the sums;
- `Lister.Window` and `Lister.Visited`: the listing.

The lemmas beside each definition state what ckb-cli promises.
`Cells.Stream` concatenates the scans of several lock hashes.

**Search-set construction.** `lock_hashes`, `path_map` and the
registered multisig configs are the fields of `Search.SearchSet`. Its
methods mirror the `push`/`insert` loop and the first-match loop with
`break`.

**Pure decisions are functions.** These are the since check, the
destination check, the balancing arithmetic and the signer's path
choice.

**Collaborators the module only calls are parameters:**

- lock-script hashing (`calc_script_hash`);
- `MultisigConfig::hash160`;
- `check_capacity`;
- the key store's derivation and signing;
- the index lookup per lock hash (`Transfer.Environment`, and the `index`
  arguments).

`is_mature` is a `mature` flag on each `Cell`, already judged against the
node's maximum mature block number.

**Since.** The 64-bit `since` of a locked address is decoded with the
bit layout of RFC 0017 ("Transaction valid since"), in module `Since`.

### Notes on the code's behaviour

- **`transfer` burns dust change rather than rejecting it.** Take cells
  of 70, 80.6 and 1000 CKB, a payment of 150 CKB and a fee of 0.1 CKB.
  `transfer` funds from the first two (150.6 CKB). The change of 0.5 CKB
  is below the 61 CKB a change cell needs, so `transfer` adds it to the
  fee (0.6 CKB burned) and builds no change output. It refuses only when
  fee plus change exceeds one CKB (`Transfer.SmallChangeIsBurned`).
- **In fast mode `get_live_cells` counts the boundary cell in its
  total.** Its `total_count` also counts the first out-of-window cell,
  the one that stops the scan, so it exceeds `current_count` by one
  whenever the scan stops early (`Lister.FastTotalCountsBoundary`).
  `get_live_cells` does not report the total in fast mode, so callers do
  not see this.
- **The signer of `transfer` takes the first match.** It signs with the
  first lock argument, in iteration order, that has a derived path; it
  does not require exactly one. `Signer.ResolvePathOrderFree` states
  when the order cannot matter.

## Model

| member | source | states |
|---|---|---|
| Since.ToLeBytes | src/subcommands/wallet/mod.rs:239-241 | the eight little-endian bytes of a since decode back to that since |
| Since.LeBytesRoundTrip | src/subcommands/wallet/mod.rs:239-241 | any eight bytes decoded as a little-endian u64 re-encode to the same bytes, so the decoding loses nothing |
| Since.FlagsInLastByte | src/subcommands/wallet/mod.rs:239-251 | validity of the flags, absoluteness and the epoch metric of a decoded since depend only on the last argument byte, with the bit tests given explicitly |
| Since.AbsoluteEpoch | src/subcommands/wallet/mod.rs:242-251 | an absolute epoch since built from any 56-bit value has valid flags, is absolute and extracts to the epoch metric with that value |
| Validation.CheckLockedArgs | src/subcommands/wallet/mod.rs:233-252 | a locked address passes if and only if it has 28 argument bytes whose since is absolute, has valid flags and is in the epoch metric; each failed check gives its own error, in order: the length error carrying the length, then the flags, absolute and epoch errors |
| Validation.LockedArgsByFlagByte | src/subcommands/wallet/mod.rs:236-251 | for 28 bytes, the outcome is decided by the flag byte in the order `transfer` checks: reserved or 11 metric bits give the flags error, then the relative bit gives the absolute error, then a non-epoch metric gives the epoch error |
| Validation.LockedArgsAcceptedIff | src/subcommands/wallet/mod.rs:236-251 | a locked address is accepted if and only if it has 28 argument bytes and its last byte is 0x20 |
| Validation.LockedArgsAccepted | src/subcommands/wallet/mod.rs:236-251 | every key hash followed by an absolute epoch since is accepted; the since read back is the one written and the first 20 bytes are the key hash |
| Validation.DestinationShapes | src/subcommands/wallet/mod.rs:254-265 | accepted destinations have type hash type and 20 or 28 argument bytes, 28 only for multisig; every single-signature address of a key hash, every plain multisig address and every 28-byte multisig address with any eight since bytes (relative, any metric, even invalid flags, as the destination's since is not checked) is accepted |
| Transfer.ValidateRequest | src/subcommands/wallet/mod.rs:233-266 | the request passes if and only if the locked source (if any) is 28 bytes ending in 0x20, the destination has an accepted shape and `check_capacity` holds; the first failed check decides the error: the locked-args error carrying its reason, then the destination error, then the capacity error |
| Transfer.ChangeLock | src/subcommands/wallet/mod.rs:282-304 | the change goes to the last change address when one is given, else to the funding key's own single-signature address (sighash code hash, type hash type, the funding key hash as arguments) |
| Transfer.ChangeReturnsToFundingLock | src/subcommands/wallet/mod.rs:277-304 | without a last change address, the change lock's hash is the funding key's entry of the search order, so change returns to a lock `transfer` funds from |
| Funding.FundConcat | src/subcommands/wallet/mod.rs:330-351 | two scans in a row with the policy state carried over gather the same as one scan of their concatenation, so the state persists across lock hashes |
| Funding.FundExtends | src/subcommands/wallet/mod.rs:338-341 | the policy only appends to the cells it holds |
| Funding.FundTakesPlainPrefix | src/subcommands/wallet/mod.rs:333-343 | what the policy adds is a prefix of the stream's plain cells, and it takes fewer than all of them only once the target is reached |
| Funding.FundIsMinimal | src/subcommands/wallet/mod.rs:333-341 | dropping the last cell gathered leaves the capacity below the target |
| Funding.FundFromEmpty | src/subcommands/wallet/mod.rs:330-351 | from an empty start the gathered cells are plain (no type script, no data, mature) cells of the stream, a prefix of its plain cells, reach the target unless every plain cell was taken, and are minimal |
| Funding.FundingSelector.constructor | src/subcommands/wallet/mod.rs:330-331 | the selector starts with no capacity and no cells, and its target is payment plus fee |
| Funding.FundingSelector.Terminate | src/subcommands/wallet/mod.rs:332-344 | one closure call never collects, keeps the gathered capacity equal to the sum of the gathered cells, gathers as the reference policy does, and says stop exactly when the target is reached |
| Funding.FundingSelector.ScanLock | src/subcommands/wallet/mod.rs:349-351 | a scan of one lock hash's cells leaves the gathered cells as the reference policy applied to them, and keeps nothing in the scan's own result |
| Funding.FundingSelector.ScanLocks | src/subcommands/wallet/mod.rs:349-351 | the loop over the lock hashes gathers what the reference policy gathers from the concatenated scans |
| Balancing.Balance | src/subcommands/wallet/mod.rs:362-375 | balancing succeeds if and only if payment plus fee is covered and the burned capacity (fee plus dust change) is at most one CKB; on success gathered = payment + fee + change; the fee error occurs exactly when the fee exceeds one CKB, the shortfall error exactly when the fee is allowed and the funds are short, and the folded-fee error exactly when payment and fee are covered but the change is below the minimum cell and fee plus change exceed one CKB |
| Balancing.OutputsBalance | src/subcommands/wallet/mod.rs:393-404 | the payment output carries the payment; a change output carrying exactly the change exists if and only if the change is at least the minimum cell; inputs = outputs + burned, and at most one CKB is burned |
| Search.InsertAllKeys | src/subcommands/wallet/mod.rs:296-300 | the path map holds exactly its previous keys and the inserted key hashes |
| Search.InsertAllKeeps | src/subcommands/wallet/mod.rs:296-300 | a key hash that is not inserted keeps its path |
| Search.InsertAllLast | src/subcommands/wallet/mod.rs:296-300 | an inserted key hash maps to the path of the last pair naming it |
| Search.FirstOwner | src/subcommands/wallet/mod.rs:311-321 | the owner found is a candidate whose single-key config hashes to the address's first 20 argument bytes; there is none exactly when no candidate matches |
| Search.FirstOwnerIsFirst | src/subcommands/wallet/mod.rs:311-321 | the owner found is the earliest matching candidate |
| Search.FirstOwnerOrderFree | src/subcommands/wallet/mod.rs:311 | when distinct keys give distinct config hashes, the order of the candidates (hash-map key order) does not change the owner |
| Search.SearchOrderLayout | src/subcommands/wallet/mod.rs:277-310 | the locked lock hash comes first when given, then the funding key's lock hash, then one lock hash per derived key in derivation order |
| Search.SearchSet.constructor | src/subcommands/wallet/mod.rs:277-281 | the search starts with the funding key's lock hash, an empty path map and no multisig config |
| Search.SearchSet.AddDerivedKeys | src/subcommands/wallet/mod.rs:296-300 | appends the derived receiving then change keys' lock hashes and records their paths, leaving the configs alone |
| Search.SearchSet.AddLockedSource | src/subcommands/wallet/mod.rs:306-321 | inserts the locked lock hash at the front and registers exactly the single-key config of the first owning candidate, or nothing when none owns it |
| Transfer.ResolveSources | src/subcommands/wallet/mod.rs:276-327 | a key store failure ends the transfer; the locked-source error occurs exactly when no candidate owns it; on success the sources are `Sources`: the lock hashes in the order of `SearchOrder`, the derived paths and the owner's config |
| Aggregator.CapacityAggregator.constructor | src/subcommands/wallet/mod.rs:428-430 | the total, immature and DAO sums all start at zero |
| Aggregator.CapacityAggregator.Terminate | src/subcommands/wallet/mod.rs:431-445 | one closure call never stops or collects, adds the cell to the total, to the immature sum when it is not mature and to the DAO sum when its type code hash is the DAO's |
| Aggregator.CapacityAggregator.ScanLock | src/subcommands/wallet/mod.rs:446-448 | one scan adds every cell's capacity to the total, the immature cells' to the immature sum and the DAO cells' to the DAO sum |
| Aggregator.CapacityAggregator.ScanLocks | src/subcommands/wallet/mod.rs:446-448 | the loop over the lock hashes sums over their concatenated scans |
| Aggregator.GetCapacity | src/subcommands/wallet/mod.rs:425-450 | the three sums are the capacities of all, immature and DAO cells; total = immature + mature, and immature and DAO never exceed the total (so `total - dao` at line 606 cannot underflow) |
| Lister.WindowBounds | src/subcommands/wallet/mod.rs:472-481 | the listed cells number at most `limit` and at most the scan's cells, have block number at most `to_number`, come from the scan and sum to no more than it |
| Lister.WindowPrefix | src/subcommands/wallet/mod.rs:472-481 | listing a prefix of a scan lists a prefix of the full listing |
| Lister.FastListing | src/subcommands/wallet/mod.rs:472-481 | in fast mode the listing is exactly the cells before the first out-of-window cell, a prefix of the full listing |
| Lister.FastTotalCountsBoundary | src/subcommands/wallet/mod.rs:472-481 | a fast scan that stops early counts one cell more in its totals than it lists (the boundary cell, visited but outside the window); a fast scan that runs to the end counts exactly the cells it lists |
| Lister.FastIsFullWhenOrdered | src/subcommands/wallet/mod.rs:472-481 | on a block-ordered scan fast mode lists the same cells as a full scan |
| Lister.ListingBounds | src/subcommands/wallet/mod.rs:472-481 | in either mode the listing has at most `limit` cells, none past `to_number`, all from the scan; outside fast mode it is no larger than the scan in count and capacity; in fast mode it has exactly as many cells as precede the boundary |
| Lister.WindowedLister.constructor | src/subcommands/wallet/mod.rs:468-471 | the four counters start at zero |
| Lister.WindowedLister.Terminate | src/subcommands/wallet/mod.rs:472-481 | collects if and only if position < limit and number <= to_number; stops if and only if in fast mode and the cell is outside; totals count every cell, current sums only collected ones |
| Lister.WindowedLister.Scan | src/subcommands/wallet/mod.rs:483 | the scan keeps the window of the visited cells (all, or up to and including the first outside cell in fast mode); totals cover every visited cell and current sums the kept ones |
| Lister.GetLiveCells | src/subcommands/wallet/mod.rs:453-514 | lists the window's cells with their maturity; count and capacity match the list; at most `limit`, none past `to_number`, all from the scan; the total is reported if and only if not in fast mode, and then covers every cell and bounds the current sums; in fast mode the list is the cells before the boundary |
| Signer.FirstDerivedPath | src/subcommands/wallet/mod.rs:739-742 | the path found is that of a lock argument the path map knows with no known argument before it; none exactly when no lock argument is known |
| Signer.FirstDerivedPathIsFirst | src/subcommands/wallet/mod.rs:739-742 | the path found is that of the earliest known lock argument |
| Signer.ResolvePathOrderFree | src/subcommands/wallet/mod.rs:736-742 | the hash-set order of the lock arguments does not change the path when the known arguments share one path |
| Signer.Sign | src/subcommands/wallet/mod.rs:729-752 | without the account or any known lock argument the answer is `Ok(None)`, even for the zero message; with a path, the zero message gets 65 zero bytes; otherwise the key store signs with the empty path (account present) or the first derived path, and its answer or error is passed on |
| Transfer.Transfer | src/subcommands/wallet/mod.rs:233-404 | errors come out in the order `transfer` checks; it succeeds if and only if the request is admissible and the gathered capacity balances; then the sources are `Sources`, the inputs are the reference funding of the searched lock hashes, the outputs are the payment plus a change output only when large enough, and inputs = outputs + burned with at most one CKB burned |
| Transfer.GatheredInputs | src/subcommands/wallet/mod.rs:330-351 | the inputs are plain, mature cells found under the searched lock hashes, a prefix of the plain cells in search order, reach the target unless every plain cell was taken, and are minimal |
| Transfer.SmallChangeIsBurned | src/subcommands/wallet/mod.rs:330-404 | cells of 70, 80.6 and 1000 CKB fund a 150 CKB payment plus a 0.1 CKB fee with the first two; the 0.5 CKB change is burned with the fee (0.6 CKB) and the only output is the payment |

## Left out

- RPC and node access (`genesis_info`, `get_network_type`, `get_max_mature_number`, `send_transaction`, and the hash check after sending) are I/O. The maximum mature block number enters only through each cell's `mature` flag.
- Index database internals (`with_index_db`, the `get_live_cells_by_*` scans, `get_top_n`, `get_metrics`) are in another crate. The scan is modelled as a walk over a sequence with the position as `idx`; an index that fails to open ("Index database may not ready") is not modelled.
- `is_mature` and `check_capacity` are in `utils/other.rs`, which is not part of this model. They are a flag on each cell and the `capacityOk` parameter.
- Hashing and cryptography (`calc_script_hash`, `MultisigConfig::hash160`, key derivation, `derived_key_set_with_password`, `sign_recoverable_with_password`) are function parameters. `Search.FirstOwnerOrderFree` assumes the config hash is injective on single-key configs.
- Transaction assembly (`TxHelper::add_input`, `sign_inputs`, `add_signature`, `build_tx`) is in another crate. The model stops at the plan of inputs, outputs, multisig configs and path map handed to it.
- The private-key signer (`get_privkey_signer`) signs without any path choice. It is not modelled; only the key-store signer is.
- Command-line parsing, address parsing, password reading and the rendering in `process` are presentation and I/O. Requests start from parsed values, with the funding key given by its key hash. This includes the `get-capacity` handler's own derivation of lock hashes.
- Two arguments of the key-store derivation are not modelled: `transfer` also passes the key store the number of receiving addresses to derive (`derive_receiving_address_length`, 1000 by default, lines 201-204 and 291) and `DERIVE_CHANGE_ADDRESS_MAX_LEN` (line 293). Both are folded into the uninterpreted `deriveKeys`, which takes only the funding key hash and the last change arguments; no contract depends on them.
- Transfer.Transfer: a last change address whose arguments are not 20 bytes makes `transfer` panic when it converts them to a key hash (line 285). The model passes the arguments to the key store as they are.
- Transfer.Transfer, Balancing.Balance: `transfer` adds `to_capacity + tx_fee` in u64. The model requires that sum to fit in u64 rather than modelling the overflow.
- Aggregator.GetCapacity, Funding.FundingSelector.Terminate, Lister.WindowedLister.Terminate: the running sums are u64 (and u32 for the lister's counts) in ckb-cli. The model sums in unbounded integers, so it does not capture overflow on sums beyond the type's range.
- Search.SearchSet.AddLockedSource, Transfer.ResolveSources: `transfer` tries `path_map.keys()` in hash-map order. The model tries derived keys in derivation order, where a key that is derived twice appears twice. `Search.FirstOwnerOrderFree` shows that, for an injective config hash, the order cannot change the result.
- The signer's `HashSet` of lock arguments is modelled as a sequence in iteration order. `Signer.ResolvePathOrderFree` states when that order cannot matter.
