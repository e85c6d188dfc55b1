/** The request checks `transfer` makes before it touches the index: the
    arguments of a time-locked (multisig) funding address, and the shape of
    the destination address. */
module Validation {
  import opened Types
  import opened Since

  /** Why a locked funding address is refused, one reason per message
      ("invalid <len>", "invalid since flags", "only support absolute since
      value", "only support epoch since value"). */
  datatype LockedArgsError = InvalidLength(len: nat) | InvalidSinceFlags | NotAbsolute | NotEpoch

  /** The since a well-formed locked address carries: the u64 read
      little-endian from its argument bytes 20 to 28. */
  function LockedSince(args: seq<Byte>): bv64
    requires |args| == 28
  {
    FromLeBytes(args[20..])
  }

  /** The checks `transfer` makes on a locked address's arguments, in
      order: 28 bytes (20-byte key hash, 8-byte since), valid flags,
      absolute, epoch metric. */
  function CheckLockedArgs(args: seq<Byte>): (r: Outcome<LockedArgsError>)
    ensures |args| != 28 ==> r == Fail(InvalidLength(|args|))
    ensures |args| == 28 && !FlagsIsValid(LockedSince(args)) ==> r == Fail(InvalidSinceFlags)
    ensures |args| == 28 && FlagsIsValid(LockedSince(args)) && !IsAbsolute(LockedSince(args))
            ==> r == Fail(NotAbsolute)
    ensures (|args| == 28 && FlagsIsValid(LockedSince(args)) && IsAbsolute(LockedSince(args))
             && forall value :: ExtractMetric(LockedSince(args)) != Some((EpochNumberWithFraction, value)))
            ==> r == Fail(NotEpoch)
    ensures r.Pass? <==> |args| == 28 && IsAbsolute(LockedSince(args)) && FlagsIsValid(LockedSince(args))
                         && exists value :: ExtractMetric(LockedSince(args)) == Some((EpochNumberWithFraction, value))
  {
    if |args| != 28 then Fail(InvalidLength(|args|))
    else
      var since := LockedSince(args);
      if !FlagsIsValid(since) then Fail(InvalidSinceFlags)
      else if !IsAbsolute(since) then Fail(NotAbsolute)
      else if ExtractMetric(since).None? || ExtractMetric(since).value.0 != EpochNumberWithFraction then
        Fail(NotEpoch)
      else Pass
  }

  /** The same checks read off the flag byte, the last byte of the
      arguments: RFC 0017 puts every flag of the since in its most
      significant byte. */
  lemma LockedArgsByFlagByte(args: seq<Byte>)
    requires |args| == 28
    ensures var flags := args[27];
      CheckLockedArgs(args)
      == if flags & 0x1f != 0 || flags & 0x60 == 0x60 then Fail(InvalidSinceFlags)
         else if flags & 0x80 != 0 then Fail(NotAbsolute)
         else if flags & 0x60 != 0x20 then Fail(NotEpoch)
         else Pass
  {
    var b := args[20..];
    var since := LockedSince(args);
    FlagsInLastByte(b);
    assert b[7] == args[27];
    var valid := FlagsIsValid(since);
    var absolute := IsAbsolute(since);
    var epoch := ExtractMetric(since).Some? && ExtractMetric(since).value.0 == EpochNumberWithFraction;
    assert valid <==> args[27] & 0x1f == 0 && args[27] & 0x60 != 0x60;
    assert absolute <==> args[27] & 0x80 == 0;
    assert epoch <==> args[27] & 0x60 == 0x20;
    assert CheckLockedArgs(args)
        == if !valid then Fail(InvalidSinceFlags)
           else if !absolute then Fail(NotAbsolute)
           else if !epoch then Fail(NotEpoch)
           else Pass;
  }

  /** A locked address is accepted exactly when it has 28 argument bytes and
      its flag byte is 0x20 (absolute, epoch with fraction, no reserved bit). */
  lemma LockedArgsAcceptedIff(args: seq<Byte>)
    ensures CheckLockedArgs(args).Pass? <==> |args| == 28 && args[27] == 0x20
  {
    if |args| == 28 {
      LockedArgsByFlagByte(args);
      var flags := args[27];
      assert (flags & 0x1f == 0 && flags & 0xe0 == 0x20) <==> flags == 0x20;
    }
  }

  /** The arguments of a locked address: a key hash followed by an absolute
      epoch since in little-endian order. */
  function LockedArgs(hash: H160, epoch: bv64): seq<Byte>
    requires epoch <= VALUE_MASK
  {
    hash + ToLeBytes(AbsoluteEpoch(epoch))
  }

  /** Every address built as a key hash plus an absolute epoch since is
      accepted, and the since read back is the one written. */
  lemma LockedArgsAccepted(hash: H160, epoch: bv64)
    requires epoch <= VALUE_MASK
    ensures CheckLockedArgs(LockedArgs(hash, epoch)) == Pass
    ensures LockedSince(LockedArgs(hash, epoch)) == AbsoluteEpoch(epoch)
    ensures LockedArgs(hash, epoch)[..20] == hash
  {
    var args := LockedArgs(hash, epoch);
    assert args[20..] == ToLeBytes(AbsoluteEpoch(epoch));
  }

  /** The destination shapes `transfer` accepts: a single-signature lock
      with a 20-byte key hash, or a multisig lock with 20 bytes (config
      hash) or 28 bytes (config hash and since). */
  predicate IsAcceptedDestination(p: Payload)
  {
    || (p.hashType == Type && p.codeHash == SIGHASH_TYPE_HASH && |p.args| == 20)
    || (p.hashType == Type && p.codeHash == MULTISIG_TYPE_HASH && (|p.args| == 20 || |p.args| == 28))
  }

  /** What an accepted destination looks like, and which addresses the
      wallet can always pay: every single-signature address of a key hash
      and every multisig address, plain or time-locked with any eight since
      bytes (the destination's since is not checked, whatever its lock
      type, metric or flags). */
  lemma DestinationShapes(p: Payload, hash: H160, since8: seq<Byte>)
    requires |since8| == 8
    ensures IsAcceptedDestination(p) ==> p.hashType == Type && |p.args| in {20, 28}
    ensures IsAcceptedDestination(p) && |p.args| == 28 ==> p.codeHash == MULTISIG_TYPE_HASH
    ensures IsAcceptedDestination(SighashPayload(hash))
    ensures IsAcceptedDestination(Payload(Type, MULTISIG_TYPE_HASH, hash))
    ensures IsAcceptedDestination(Payload(Type, MULTISIG_TYPE_HASH, hash + since8))
  {
    assert SIGHASH_TYPE_HASH[0] != MULTISIG_TYPE_HASH[0];
  }
}
