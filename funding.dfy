/** The funding policy of `transfer`: a greedy accumulator over the mature,
    plain cells of the funding lock hashes, in scan order. Its state (the
    capacity gathered and the cells gathered) lives across the scans of all
    lock hashes. */
module Funding {
  import opened Types
  import opened Cells

  /** The cells gathered once the policy, already holding `acc`, has been
      shown the cells `s`: while the gathered capacity is below `target`,
      each plain cell is taken; from then on nothing is. */
  function Fund(target: nat, acc: seq<Cell>, s: seq<Cell>): seq<Cell>
    decreases |s|
  {
    if s == [] || Capacity(acc) >= target then acc
    else Fund(target, if Plain(s[0]) then acc + [s[0]] else acc, s[1..])
  }

  /** Once the target is reached nothing more is gathered, whatever follows. */
  lemma FundSaturated(target: nat, acc: seq<Cell>, s: seq<Cell>)
    requires Capacity(acc) >= target
    ensures Fund(target, acc, s) == acc
  {
  }

  /** Showing the policy two streams one after the other is showing it their
      concatenation: the state carries over from one lock hash's scan to the
      next. */
  lemma {:induction false} FundConcat(target: nat, acc: seq<Cell>, a: seq<Cell>, b: seq<Cell>)
    ensures Fund(target, Fund(target, acc, a), b) == Fund(target, acc, a + b)
    decreases |a|
  {
    if a == [] {
      assert a + b == b;
    } else if Capacity(acc) >= target {
      FundSaturated(target, acc, b);
      FundSaturated(target, acc, a + b);
    } else {
      assert (a + b)[0] == a[0] && (a + b)[1..] == a[1..] + b;
      FundConcat(target, if Plain(a[0]) then acc + [a[0]] else acc, a[1..], b);
    }
  }

  /** The policy only ever adds to what it holds. */
  lemma {:induction false} FundExtends(target: nat, acc: seq<Cell>, s: seq<Cell>)
    ensures var r := Fund(target, acc, s);
      |acc| <= |r| && r[..|acc|] == acc
    decreases |s|
  {
    if s != [] && Capacity(acc) < target {
      var acc' := if Plain(s[0]) then acc + [s[0]] else acc;
      FundExtends(target, acc', s[1..]);
      var r := Fund(target, acc', s[1..]);
      assert r[..|acc|] == r[..|acc'|][..|acc|];
    }
  }

  /** What the policy adds is a prefix of the stream's plain cells, and it
      stops short of the end of them only once the target is reached. */
  lemma {:induction false} FundTakesPlainPrefix(target: nat, acc: seq<Cell>, s: seq<Cell>)
    ensures var r := Fund(target, acc, s);
      && |acc| <= |r|
      && r[|acc|..] <= Filter(Plain, s)
      && (Capacity(r) >= target || r[|acc|..] == Filter(Plain, s))
    decreases |s|
  {
    var r := Fund(target, acc, s);
    FundExtends(target, acc, s);
    if s == [] || Capacity(acc) >= target {
      assert r == acc && r[|acc|..] == [];
    } else {
      var c := s[0];
      var acc' := if Plain(c) then acc + [c] else acc;
      var head := if Plain(c) then [c] else [];
      FundTakesPlainPrefix(target, acc', s[1..]);
      FundExtends(target, acc', s[1..]);
      assert Filter(Plain, s) == head + Filter(Plain, s[1..]) by {
        FilterCons(Plain, c, s[1..]);
        assert s == [c] + s[1..];
      }
      assert r[|acc|..] == head + r[|acc'|..] by {
        assert r == r[..|acc'|] + r[|acc'|..];
        assert r[..|acc'|] == acc + head;
      }
      PrefixPrepend(head, r[|acc'|..], Filter(Plain, s[1..]));
    }
  }

  lemma PrefixPrepend(head: seq<Cell>, x: seq<Cell>, y: seq<Cell>)
    requires x <= y
    ensures head + x <= head + y
  {
    assert (head + y)[..|head + x|] == head + x;
  }

  /** Dropping the last cell the policy added leaves the capacity below the
      target: the policy never takes a cell it did not need. */
  lemma {:induction false} FundIsMinimal(target: nat, acc: seq<Cell>, s: seq<Cell>)
    ensures var r := Fund(target, acc, s);
      |r| > |acc| ==> Capacity(r[..|r| - 1]) < target
    decreases |s|
  {
    if s != [] && Capacity(acc) < target {
      var c := s[0];
      var acc' := if Plain(c) then acc + [c] else acc;
      var r := Fund(target, acc', s[1..]);
      FundIsMinimal(target, acc', s[1..]);
      FundExtends(target, acc', s[1..]);
      if |r| == |acc'| && Plain(c) {
        assert r == acc';
        assert r[..|r| - 1] == acc;
      }
    }
  }

  /** The funding policy's reference behaviour from an empty start: every
      gathered cell is plain (no type script, no data, mature), the gathered
      cells are the first plain cells of the stream in order, and the
      selection is minimal. */
  lemma FundFromEmpty(target: nat, s: seq<Cell>)
    ensures var r := Fund(target, [], s);
      && r <= Filter(Plain, s)
      && (forall c :: c in r ==> Plain(c) && c in s)
      && (Capacity(r) >= target || r == Filter(Plain, s))
      && (r != [] ==> Capacity(r[..|r| - 1]) < target)
  {
    var r := Fund(target, [], s);
    FundTakesPlainPrefix(target, [], s);
    FundIsMinimal(target, [], s);
    assert r[0..] == r;
    FilterSound(Plain, s);
    assert forall c :: c in r ==> c in Filter(Plain, s);
  }

  /** The `terminator` closure of `transfer` with the two variables it
      captures, `from_capacity` and `infos`. */
  class FundingSelector {
    /** `to_capacity + tx_fee` */
    const target: nat
    var fromCapacity: nat
    var infos: seq<Cell>

    ghost predicate Valid()
      reads this
    {
      fromCapacity == Capacity(infos)
    }

    constructor (toCapacity: nat, txFee: nat)
      ensures Valid() && target == toCapacity + txFee && infos == []
    {
      target := toCapacity + txFee;
      fromCapacity := 0;
      infos := [];
    }

    /** One call of the closure: it never asks the scan to keep the cell
        (`infos` is built on the side), and asks it to stop exactly when the
        gathered capacity has reached the target. */
    method Terminate(idx: nat, info: Cell) returns (stop: bool, collect: bool)
      requires Valid()
      modifies this
      ensures Valid() && !collect
      ensures infos == Fund(target, old(infos), [info])
      ensures stop <==> fromCapacity >= target
    {
      if fromCapacity >= target {
        stop, collect := true, false;
      } else if info.typeHashes.None? && info.dataBytes == 0 && info.mature {
        CapacitySnoc(infos, info);
        fromCapacity := fromCapacity + info.capacity;
        infos := infos + [info];
        stop, collect := fromCapacity >= target, false;
      } else {
        stop, collect := false, false;
      }
    }

    /** One scan of the index by lock hash driven by this policy: cells are
        visited in order with their position as `idx`, kept when the policy
        says collect, and the scan ends when it says stop. */
    method ScanLock(cells: seq<Cell>) returns (collected: seq<Cell>)
      requires Valid()
      modifies this
      ensures Valid() && collected == []
      ensures infos == Fund(target, old(infos), cells)
    {
      collected := [];
      var idx := 0;
      while idx < |cells|
        invariant idx <= |cells|
        invariant Valid() && collected == []
        invariant Fund(target, infos, cells[idx..]) == Fund(target, old(infos), cells)
      {
        ghost var before := infos;
        var cell := cells[idx];
        var stop, collect := Terminate(idx, cell);
        if collect {
          collected := collected + [cell];
        }
        assert cells[idx..] == [cells[idx]] + cells[idx + 1..];
        FundConcat(target, before, [cells[idx]], cells[idx + 1..]);
        if stop {
          FundSaturated(target, infos, cells[idx + 1..]);
          return;
        }
        idx := idx + 1;
      }
    }

    /** The loop of `transfer` over its lock hashes, one scan each, with
        the policy's state carried from one scan to the next. */
    method ScanLocks(index: H256 -> seq<Cell>, lockHashes: seq<H256>)
      requires Valid()
      modifies this
      ensures Valid()
      ensures infos == Fund(target, old(infos), Stream(index, lockHashes))
    {
      var i := 0;
      while i < |lockHashes|
        invariant i <= |lockHashes|
        invariant Valid()
        invariant infos == Fund(target, old(infos), Stream(index, lockHashes[..i]))
      {
        var cells := index(lockHashes[i]);
        ghost var prefix := Stream(index, lockHashes[..i]);
        var _ := ScanLock(cells);
        FundConcat(target, old(infos), prefix, cells);
        assert lockHashes[..i + 1] == lockHashes[..i] + [lockHashes[i]];
        StreamSnoc(index, lockHashes[..i], lockHashes[i]);
        i := i + 1;
      }
      assert lockHashes[..i] == lockHashes;
    }
  }
}
