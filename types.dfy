/** Vocabulary shared by the wallet core: bytes and fixed-size hashes, the
    u64 range of capacities, the chain constants the wallet relies on, lock
    script payloads, and the Option/Outcome/Result wrappers that stand for
    Rust's `Option` and `Result`. */
module Types {

  type Byte = bv8

  /** A 20-byte hash: a public-key hash (blake160) or a multisig config hash. */
  type H160 = s: seq<Byte> | |s| == 20 witness seq(20, i => 0)

  /** A 32-byte hash: a script hash, a type-script code hash or a digest. */
  type H256 = s: seq<Byte> | |s| == 32 witness seq(32, i => 0)

  const U64_MAX: nat := 0xffff_ffff_ffff_ffff

  /** Capacities are u64 amounts of shannons. */
  type U64 = x: nat | x <= U64_MAX

  /** One CKB in shannons. */
  const ONE_CKB: nat := 100_000_000

  /** The smallest capacity a secp256k1 single-signature cell can hold (61 CKB). */
  const MIN_SECP_CELL_CAPACITY: nat := 61 * ONE_CKB

  /** Type hash of the secp256k1/blake160 single-signature lock. */
  const SIGHASH_TYPE_HASH: H256 :=
    [0x9b, 0xd7, 0xe0, 0x6f, 0x3e, 0xcf, 0x4b, 0xe0, 0xf2, 0xfc, 0xd2, 0x18, 0x8b, 0x23, 0xf1, 0xb9,
     0xfc, 0xc8, 0x8e, 0x5d, 0x4b, 0x65, 0xa8, 0x63, 0x7b, 0x17, 0x72, 0x3b, 0xbd, 0xa3, 0xcc, 0xe8]

  /** Type hash of the secp256k1/blake160 multisig lock. */
  const MULTISIG_TYPE_HASH: H256 :=
    [0x5c, 0x50, 0x69, 0xeb, 0x08, 0x57, 0xef, 0xc6, 0x5e, 0x1b, 0xca, 0x0c, 0x07, 0xdf, 0x34, 0xc3,
     0x16, 0x63, 0xb3, 0x62, 0x2f, 0xd3, 0x87, 0x6c, 0x87, 0x63, 0x20, 0xfc, 0x96, 0x34, 0xe2, 0xa8]

  /** Type hash of the Nervos DAO type script. */
  const DAO_TYPE_HASH: H256 :=
    [0x82, 0xd7, 0x6d, 0x1b, 0x75, 0xfe, 0x2f, 0xd9, 0xa2, 0x7d, 0xfb, 0xaa, 0x65, 0xa0, 0x39, 0x22,
     0x1a, 0x38, 0x0d, 0x76, 0xc9, 0x26, 0xf3, 0x78, 0xd3, 0xf8, 0x1c, 0xf3, 0xe7, 0xe1, 0x3f, 0x2e]

  datatype ScriptHashType = Data | Type

  /** The lock script an address stands for (`AddressPayload`), in its full
      form: hash type, code hash and argument bytes. */
  datatype Payload = Payload(hashType: ScriptHashType, codeHash: H256, args: seq<Byte>)

  /** `AddressPayload::from_pubkey_hash`: the single-signature lock of a key hash. */
  function SighashPayload(hash: H160): Payload
  {
    Payload(Type, SIGHASH_TYPE_HASH, hash)
  }

  datatype Option<+T> = None | Some(value: T)

  /** `Result<(), E>`: a check that passes or fails with a reason. */
  datatype Outcome<+E> = Pass | Fail(error: E)

  datatype Result<+T, +E> = Ok(value: T) | Err(error: E)
}
