/** The policy of `get_capacity`: it visits every live cell of every lock
    hash it is given and sums the capacities, all of them, the immature
    ones, and those locked in the Nervos DAO. */
module Aggregator {
  import opened Types
  import opened Cells

  predicate Immature(c: Cell)
  {
    !c.mature
  }

  predicate Mature(c: Cell)
  {
    c.mature
  }

  /** A cell whose type script is the Nervos DAO's, judged by its code hash. */
  predicate IsDao(c: Cell)
  {
    c.typeHashes.Some? && c.typeHashes.value.0 == DAO_TYPE_HASH
  }

  /** The `terminator` closure of `get_capacity` with the three sums it
      captures. */
  class CapacityAggregator {
    var total: nat
    var immature: nat
    var dao: nat

    constructor ()
      ensures total == 0 && immature == 0 && dao == 0
    {
      total, immature, dao := 0, 0, 0;
    }

    /** One call of the closure: it adds the cell to every sum it belongs
        to, and never stops the scan nor keeps the cell. */
    method Terminate(idx: nat, info: Cell) returns (stop: bool, collect: bool)
      modifies this
      ensures !stop && !collect
      ensures total == old(total) + info.capacity
      ensures immature == old(immature) + if Immature(info) then info.capacity else 0
      ensures dao == old(dao) + if IsDao(info) then info.capacity else 0
    {
      if !info.mature {
        immature := immature + info.capacity;
      }
      if info.typeHashes.Some? && info.typeHashes.value.0 == DAO_TYPE_HASH {
        dao := dao + info.capacity;
      }
      total := total + info.capacity;
      stop, collect := false, false;
    }

    /** One scan of the index by lock hash driven by this policy: every cell
        is visited, so each sum grows by the matching cells of the scan. */
    method ScanLock(cells: seq<Cell>) returns (collected: seq<Cell>)
      modifies this
      ensures collected == []
      ensures total == old(total) + Capacity(cells)
      ensures immature == old(immature) + Capacity(Filter(Immature, cells))
      ensures dao == old(dao) + Capacity(Filter(IsDao, cells))
    {
      collected := [];
      var idx := 0;
      while idx < |cells|
        invariant idx <= |cells| && collected == []
        invariant total == old(total) + Capacity(cells[..idx])
        invariant immature == old(immature) + Capacity(Filter(Immature, cells[..idx]))
        invariant dao == old(dao) + Capacity(Filter(IsDao, cells[..idx]))
      {
        var cell := cells[idx];
        var stop, collect := Terminate(idx, cell);
        assert cells[..idx + 1] == cells[..idx] + [cell];
        CapacitySnoc(cells[..idx], cell);
        FilterSnoc(Immature, cells[..idx], cell);
        FilterSnoc(IsDao, cells[..idx], cell);
        CapacityAppend(Filter(Immature, cells[..idx]), if Immature(cell) then [cell] else []);
        CapacityAppend(Filter(IsDao, cells[..idx]), if IsDao(cell) then [cell] else []);
        assert Capacity([cell]) == cell.capacity by { CapacitySnoc([], cell); }
        if collect {
          collected := collected + [cell];
        }
        if stop {
          return;
        }
        idx := idx + 1;
      }
      assert cells[..idx] == cells;
    }

    /** The loop of `get_capacity` over its lock hashes, one scan each. */
    method ScanLocks(index: H256 -> seq<Cell>, lockHashes: seq<H256>)
      modifies this
      ensures total == old(total) + Capacity(Stream(index, lockHashes))
      ensures immature == old(immature) + Capacity(Filter(Immature, Stream(index, lockHashes)))
      ensures dao == old(dao) + Capacity(Filter(IsDao, Stream(index, lockHashes)))
    {
      var i := 0;
      while i < |lockHashes|
        invariant i <= |lockHashes|
        invariant total == old(total) + Capacity(Stream(index, lockHashes[..i]))
        invariant immature == old(immature) + Capacity(Filter(Immature, Stream(index, lockHashes[..i])))
        invariant dao == old(dao) + Capacity(Filter(IsDao, Stream(index, lockHashes[..i])))
      {
        var cells := index(lockHashes[i]);
        var _ := ScanLock(cells);
        var prefix := Stream(index, lockHashes[..i]);
        assert lockHashes[..i + 1] == lockHashes[..i] + [lockHashes[i]];
        StreamSnoc(index, lockHashes[..i], lockHashes[i]);
        CapacityAppend(prefix, cells);
        FilterAppend(Immature, prefix, cells);
        FilterAppend(IsDao, prefix, cells);
        CapacityAppend(Filter(Immature, prefix), Filter(Immature, cells));
        CapacityAppend(Filter(IsDao, prefix), Filter(IsDao, cells));
        i := i + 1;
      }
      assert lockHashes[..i] == lockHashes;
    }
  }

  /** `get_capacity`: the three sums over the live cells of the given lock
      hashes. The immature and the mature capacity make up the total, and
      neither the immature nor the DAO capacity can exceed it. */
  method GetCapacity(index: H256 -> seq<Cell>, lockHashes: seq<H256>)
    returns (total: nat, immature: nat, dao: nat)
    ensures total == Capacity(Stream(index, lockHashes))
    ensures immature == Capacity(Filter(Immature, Stream(index, lockHashes)))
    ensures dao == Capacity(Filter(IsDao, Stream(index, lockHashes)))
    ensures total == immature + Capacity(Filter(Mature, Stream(index, lockHashes)))
    ensures immature <= total && dao <= total
  {
    var aggregator := new CapacityAggregator();
    aggregator.ScanLocks(index, lockHashes);
    total, immature, dao := aggregator.total, aggregator.immature, aggregator.dao;
    var cells := Stream(index, lockHashes);
    FilterPartition(Immature, Mature, cells);
    FilterPartition(IsDao, c => !IsDao(c), cells);
  }
}
