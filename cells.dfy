/** Live cells as the index reports them, and the folds over a scanned
    stream of cells that the scan policies accumulate. */
module Cells {
  import opened Types

  datatype OutPoint = OutPoint(txHash: H256, index: nat)

  /** One live cell (`LiveCellInfo`). `typeHashes` is the (code hash, script
      hash) pair of its type script, if any; `number` is the block that created
      it; `mature` is the verdict of `is_mature` against the current maximum
      mature block number, which the node supplies. */
  datatype Cell = Cell(
    outPoint: OutPoint,
    capacity: U64,
    dataBytes: nat,
    typeHashes: Option<(H256, H256)>,
    number: nat,
    mature: bool)

  /** A cell the wallet may spend as a plain funding input: no type script,
      no data, and mature. */
  predicate Plain(c: Cell)
  {
    c.typeHashes.None? && c.dataBytes == 0 && c.mature
  }

  /** Sum of the capacities of `s`. */
  function Capacity(s: seq<Cell>): nat
  {
    if s == [] then 0 else Capacity(s[..|s| - 1]) + s[|s| - 1].capacity
  }

  lemma {:induction false} CapacityAppend(a: seq<Cell>, b: seq<Cell>)
    ensures Capacity(a + b) == Capacity(a) + Capacity(b)
  {
    if b == [] {
      assert a + b == a;
    } else {
      assert (a + b)[..|a + b| - 1] == a + b[..|b| - 1];
      CapacityAppend(a, b[..|b| - 1]);
    }
  }

  lemma CapacitySnoc(s: seq<Cell>, c: Cell)
    ensures Capacity(s + [c]) == Capacity(s) + c.capacity
  {
    assert (s + [c])[..|s|] == s;
  }

  /** The cells of `s` that satisfy `p`, in order. */
  function Filter(p: Cell -> bool, s: seq<Cell>): seq<Cell>
  {
    if s == [] then [] else (if p(s[0]) then [s[0]] else []) + Filter(p, s[1..])
  }

  lemma {:induction false} FilterAppend(p: Cell -> bool, a: seq<Cell>, b: seq<Cell>)
    ensures Filter(p, a + b) == Filter(p, a) + Filter(p, b)
  {
    if a == [] {
      assert a + b == b;
    } else {
      var head := if p(a[0]) then [a[0]] else [];
      assert (a + b)[0] == a[0] && (a + b)[1..] == a[1..] + b;
      FilterAppend(p, a[1..], b);
      calc {
        Filter(p, a + b);
        head + Filter(p, a[1..] + b);
        head + (Filter(p, a[1..]) + Filter(p, b));
        (head + Filter(p, a[1..])) + Filter(p, b);
        Filter(p, a) + Filter(p, b);
      }
    }
  }

  lemma FilterSnoc(p: Cell -> bool, s: seq<Cell>, c: Cell)
    ensures Filter(p, s + [c]) == Filter(p, s) + (if p(c) then [c] else [])
  {
    FilterAppend(p, s, [c]);
  }

  lemma FilterCons(p: Cell -> bool, c: Cell, s: seq<Cell>)
    ensures Filter(p, [c] + s) == (if p(c) then [c] else []) + Filter(p, s)
  {
    assert ([c] + s)[1..] == s;
  }

  /** Every cell a filter keeps satisfies the filter and comes from the input. */
  lemma {:induction false} FilterSound(p: Cell -> bool, s: seq<Cell>)
    ensures forall c :: c in Filter(p, s) ==> p(c) && c in s
  {
    if s != [] {
      FilterSound(p, s[1..]);
    }
  }

  /** Splitting a stream by a predicate and its complement splits its capacity. */
  lemma {:induction false} FilterPartition(p: Cell -> bool, q: Cell -> bool, s: seq<Cell>)
    requires forall c :: q(c) == !p(c)
    ensures Capacity(Filter(p, s)) + Capacity(Filter(q, s)) == Capacity(s)
    ensures Capacity(Filter(p, s)) <= Capacity(s)
  {
    if s != [] {
      FilterPartition(p, q, s[1..]);
      CapacityAppend(if p(s[0]) then [s[0]] else [], Filter(p, s[1..]));
      CapacityAppend(if q(s[0]) then [s[0]] else [], Filter(q, s[1..]));
      CapacityAppend([s[0]], s[1..]);
      assert s == [s[0]] + s[1..];
      assert Capacity([s[0]]) == s[0].capacity by { assert [s[0]][..0] == []; }
    }
  }

  /** The cells the index yields for each lock hash in `hashes`, one scan
      after the other, as one stream. */
  function Stream(index: H256 -> seq<Cell>, hashes: seq<H256>): seq<Cell>
  {
    if hashes == [] then []
    else Stream(index, hashes[..|hashes| - 1]) + index(hashes[|hashes| - 1])
  }

  lemma StreamSnoc(index: H256 -> seq<Cell>, hashes: seq<H256>, h: H256)
    ensures Stream(index, hashes + [h]) == Stream(index, hashes) + index(h)
  {
    assert (hashes + [h])[..|hashes|] == hashes;
  }
}
