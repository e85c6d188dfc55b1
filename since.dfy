/** The 64-bit `since` time-lock value as RFC 0017 ("Transaction valid
    since") lays it out:
      bit 63       1 = relative to the input's own block, 0 = absolute
      bits 62-61   metric: 00 block number, 01 epoch number with fraction,
                   10 timestamp, 11 not allowed
      bits 60-56   reserved, must be zero
      bits 55-0    the value in that metric
    It is carried as eight little-endian bytes at the end of a locked
    multisig address's arguments. */
module Since {
  import opened Types

  const LOCK_TYPE_FLAG: bv64 := 0x8000_0000_0000_0000
  const METRIC_TYPE_FLAG_MASK: bv64 := 0x6000_0000_0000_0000
  const REMAIN_FLAGS_BITS: bv64 := 0x1f00_0000_0000_0000
  const VALUE_MASK: bv64 := 0x00ff_ffff_ffff_ffff
  const LOCK_BY_BLOCK_NUMBER_MASK: bv64 := 0x0000_0000_0000_0000
  const LOCK_BY_EPOCH_MASK: bv64 := 0x2000_0000_0000_0000
  const LOCK_BY_TIMESTAMP_MASK: bv64 := 0x4000_0000_0000_0000

  datatype SinceType = BlockNumber | EpochNumberWithFraction | Timestamp

  predicate IsAbsolute(since: bv64)
  {
    since & LOCK_TYPE_FLAG == 0
  }

  /** The reserved bits are clear and the metric is not the forbidden 11. */
  predicate FlagsIsValid(since: bv64)
  {
    since & REMAIN_FLAGS_BITS == 0 && since & METRIC_TYPE_FLAG_MASK != METRIC_TYPE_FLAG_MASK
  }

  /** The metric and the 56-bit value, or None for the forbidden metric. */
  function ExtractMetric(since: bv64): Option<(SinceType, bv64)>
  {
    var value := since & VALUE_MASK;
    var metric := since & METRIC_TYPE_FLAG_MASK;
    if metric == LOCK_BY_BLOCK_NUMBER_MASK then Some((BlockNumber, value))
    else if metric == LOCK_BY_EPOCH_MASK then Some((EpochNumberWithFraction, value))
    else if metric == LOCK_BY_TIMESTAMP_MASK then Some((Timestamp, value))
    else None
  }

  /** `u64::from_le_bytes`. */
  function FromLeBytes(b: seq<Byte>): bv64
    requires |b| == 8
  {
    Le(b[0], b[1], b[2], b[3], b[4], b[5], b[6], b[7])
  }

  /** The u64 whose little-endian bytes are b0 (least significant) to b7. */
  function Le(b0: Byte, b1: Byte, b2: Byte, b3: Byte, b4: Byte, b5: Byte, b6: Byte, b7: Byte): bv64
  {
    (b0 as bv64)
    | ((b1 as bv64) << 8)
    | ((b2 as bv64) << 16)
    | ((b3 as bv64) << 24)
    | ((b4 as bv64) << 32)
    | ((b5 as bv64) << 40)
    | ((b6 as bv64) << 48)
    | ((b7 as bv64) << 56)
  }

  /** `u64::to_le_bytes`, the inverse of FromLeBytes. */
  function ToLeBytes(v: bv64): (b: seq<Byte>)
    ensures |b| == 8 && FromLeBytes(b) == v
  {
    var b := [(v & 0xff) as bv8,
              ((v >> 8) & 0xff) as bv8,
              ((v >> 16) & 0xff) as bv8,
              ((v >> 24) & 0xff) as bv8,
              ((v >> 32) & 0xff) as bv8,
              ((v >> 40) & 0xff) as bv8,
              ((v >> 48) & 0xff) as bv8,
              (v >> 56) as bv8];
    LeOfBytes(v);
    b
  }

  lemma LeOfBytes(v: bv64)
    ensures Le((v & 0xff) as bv8, ((v >> 8) & 0xff) as bv8, ((v >> 16) & 0xff) as bv8,
               ((v >> 24) & 0xff) as bv8, ((v >> 32) & 0xff) as bv8, ((v >> 40) & 0xff) as bv8,
               ((v >> 48) & 0xff) as bv8, (v >> 56) as bv8) == v
  {
  }

  lemma LeBytesRoundTrip(b: seq<Byte>)
    requires |b| == 8
    ensures ToLeBytes(FromLeBytes(b)) == b
  {
    BytesOfLe(b[0], b[1], b[2], b[3], b[4], b[5], b[6], b[7]);
  }

  /** Byte k of a little-endian value is the k-th byte it was read from. */
  lemma BytesOfLe(b0: Byte, b1: Byte, b2: Byte, b3: Byte, b4: Byte, b5: Byte, b6: Byte, b7: Byte)
    ensures var v := Le(b0, b1, b2, b3, b4, b5, b6, b7);
      && (v & 0xff) as bv8 == b0
      && ((v >> 8) & 0xff) as bv8 == b1
      && ((v >> 16) & 0xff) as bv8 == b2
      && ((v >> 24) & 0xff) as bv8 == b3
      && ((v >> 32) & 0xff) as bv8 == b4
      && ((v >> 40) & 0xff) as bv8 == b5
      && ((v >> 48) & 0xff) as bv8 == b6
      && (v >> 56) as bv8 == b7
  {
  }

  /** All the flags of a little-endian since live in its last byte, so the
      three checks read that byte alone. */
  lemma FlagsInLastByte(b: seq<Byte>)
    requires |b| == 8
    ensures var since := FromLeBytes(b);
      && (FlagsIsValid(since) <==> b[7] & 0x1f == 0 && b[7] & 0x60 != 0x60)
      && (IsAbsolute(since) <==> b[7] & 0x80 == 0)
      && (ExtractMetric(since).Some? && ExtractMetric(since).value.0 == EpochNumberWithFraction
          <==> b[7] & 0x60 == 0x20)
  {
    LeFlags(b[0], b[1], b[2], b[3], b[4], b[5], b[6], b[7]);
  }

  lemma LeFlags(b0: Byte, b1: Byte, b2: Byte, b3: Byte, b4: Byte, b5: Byte, b6: Byte, b7: Byte)
    ensures var since := Le(b0, b1, b2, b3, b4, b5, b6, b7);
      && since & METRIC_TYPE_FLAG_MASK == ((b7 & 0x60) as bv64) << 56
      && since & REMAIN_FLAGS_BITS == ((b7 & 0x1f) as bv64) << 56
      && since & LOCK_TYPE_FLAG == ((b7 & 0x80) as bv64) << 56
  {
  }

  /** An absolute since in epoch-with-fraction form, for a value of at most 56 bits. */
  function AbsoluteEpoch(value: bv64): (since: bv64)
    requires value <= VALUE_MASK
    ensures IsAbsolute(since) && FlagsIsValid(since)
    ensures ExtractMetric(since) == Some((EpochNumberWithFraction, value))
  {
    LOCK_BY_EPOCH_MASK | value
  }
}
