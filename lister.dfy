/** The policy of `get_live_cells`: list the live cells of one scan that
    fall in a window (position below `limit`, block number at most
    `toNumber`), count and sum both the listed cells and every visited
    cell, and in fast mode stop the scan at the first cell outside the
    window. */
module Lister {
  import opened Types
  import opened Cells

  /** The window test of the closure for the cell at position `idx`. */
  predicate InWindow(limit: nat, toNumber: nat, idx: nat, c: Cell)
  {
    idx < limit && c.number <= toNumber
  }

  /** The cells of a scan that lie in the window, in scan order. */
  function Window(limit: nat, toNumber: nat, s: seq<Cell>): seq<Cell>
  {
    if s == [] then []
    else Window(limit, toNumber, s[..|s| - 1])
         + if InWindow(limit, toNumber, |s| - 1, s[|s| - 1]) then [s[|s| - 1]] else []
  }

  lemma WindowSnoc(limit: nat, toNumber: nat, s: seq<Cell>, k: nat)
    requires k < |s|
    ensures Window(limit, toNumber, s[..k + 1])
         == Window(limit, toNumber, s[..k]) + if InWindow(limit, toNumber, k, s[k]) then [s[k]] else []
  {
    assert s[..k + 1][..k] == s[..k];
  }

  /** One more visited cell extends the window and the visited capacity. */
  lemma ScanStep(limit: nat, toNumber: nat, cells: seq<Cell>, k: nat)
    requires k < |cells|
    ensures Window(limit, toNumber, cells[..k + 1])
         == Window(limit, toNumber, cells[..k]) + if InWindow(limit, toNumber, k, cells[k]) then [cells[k]] else []
    ensures Capacity(cells[..k + 1]) == Capacity(cells[..k]) + cells[k].capacity
  {
    WindowSnoc(limit, toNumber, cells, k);
    assert cells[..k + 1] == cells[..k] + [cells[k]];
    CapacitySnoc(cells[..k], cells[k]);
  }

  /** Position of the first cell outside the window at or after `from`,
      or the length of the scan when there is none. */
  function BoundaryFrom(limit: nat, toNumber: nat, cells: seq<Cell>, from: nat): (b: nat)
    requires from <= |cells|
    ensures from <= b <= |cells|
    ensures forall i :: from <= i < b ==> InWindow(limit, toNumber, i, cells[i])
    ensures b < |cells| ==> !InWindow(limit, toNumber, b, cells[b])
    decreases |cells| - from
  {
    if from == |cells| then from
    else if !InWindow(limit, toNumber, from, cells[from]) then from
    else BoundaryFrom(limit, toNumber, cells, from + 1)
  }

  function Boundary(limit: nat, toNumber: nat, cells: seq<Cell>): (b: nat)
    ensures b <= |cells|
  {
    BoundaryFrom(limit, toNumber, cells, 0)
  }

  /** The cells a scan visits: all of them, except in fast mode, where the
      scan ends with the first cell outside the window. */
  function Visited(limit: nat, toNumber: nat, fastMode: bool, cells: seq<Cell>): seq<Cell>
  {
    var b := Boundary(limit, toNumber, cells);
    if fastMode && b < |cells| then cells[..b + 1] else cells
  }

  /** A cell in the window, not past the boundary, is before it. */
  lemma InsideBeforeBoundary(limit: nat, toNumber: nat, cells: seq<Cell>, k: nat)
    requires k < |cells| && k <= Boundary(limit, toNumber, cells)
    requires InWindow(limit, toNumber, k, cells[k])
    ensures k < Boundary(limit, toNumber, cells)
  {
  }

  /** A fast scan that stops at position `k`, not past the boundary,
      stops at the boundary and has visited the cells up to it. */
  lemma VisitedUpToStop(limit: nat, toNumber: nat, cells: seq<Cell>, k: nat)
    requires k < |cells| && k <= Boundary(limit, toNumber, cells)
    requires !InWindow(limit, toNumber, k, cells[k])
    ensures Visited(limit, toNumber, true, cells) == cells[..k + 1]
  {
  }

  /** A scan that runs to the end, in fast mode never passing the
      boundary, has visited every cell. */
  lemma VisitedWhole(limit: nat, toNumber: nat, fastMode: bool, cells: seq<Cell>)
    requires fastMode ==> |cells| <= Boundary(limit, toNumber, cells)
    ensures Visited(limit, toNumber, fastMode, cells) == cells[..|cells|]
  {
    assert cells[..|cells|] == cells;
  }

  /** The listed cells are in the window: fewer than `limit`, none past
      `toNumber`, each taken from the scan, and together no more than the
      scan's count and capacity. */
  lemma {:induction false} WindowBounds(limit: nat, toNumber: nat, s: seq<Cell>)
    ensures var w := Window(limit, toNumber, s);
      && |w| <= |s| && |w| <= limit
      && Capacity(w) <= Capacity(s)
      && forall c :: c in w ==> c.number <= toNumber && c in s
  {
    if s != [] {
      var init := s[..|s| - 1];
      var last := s[|s| - 1];
      WindowBounds(limit, toNumber, init);
      var w' := Window(limit, toNumber, init);
      assert s == init + [last];
      CapacitySnoc(init, last);
      if InWindow(limit, toNumber, |s| - 1, last) {
        assert Window(limit, toNumber, s) == w' + [last];
        CapacitySnoc(w', last);
      } else {
        assert Window(limit, toNumber, s) == w';
      }
      assert forall c :: c in init ==> c in s;
    }
  }

  /** Listing a prefix of a scan lists a prefix of what the whole scan lists. */
  lemma {:induction false} WindowPrefix(limit: nat, toNumber: nat, s: seq<Cell>, k: nat)
    requires k <= |s|
    ensures Window(limit, toNumber, s[..k]) <= Window(limit, toNumber, s)
    decreases |s| - k
  {
    if k < |s| {
      WindowPrefix(limit, toNumber, s, k + 1);
      WindowSnoc(limit, toNumber, s, k);
    } else {
      assert s[..k] == s;
    }
  }

  /** A scan that lies wholly in the window is listed whole. */
  lemma {:induction false} WindowOfInside(limit: nat, toNumber: nat, t: seq<Cell>)
    requires forall i :: 0 <= i < |t| ==> InWindow(limit, toNumber, i, t[i])
    ensures Window(limit, toNumber, t) == t
  {
    if t != [] {
      var init := t[..|t| - 1];
      assert forall i :: 0 <= i < |init| ==> init[i] == t[i];
      WindowOfInside(limit, toNumber, init);
      assert InWindow(limit, toNumber, |t| - 1, t[|t| - 1]);
      assert init + [t[|t| - 1]] == t;
    }
  }

  /** Cells from position `k` on that are all outside the window add
      nothing to the listing. */
  lemma {:induction false} WindowOfOutside(limit: nat, toNumber: nat, s: seq<Cell>, k: nat)
    requires k <= |s|
    requires forall i :: k <= i < |s| ==> !InWindow(limit, toNumber, i, s[i])
    ensures Window(limit, toNumber, s) == Window(limit, toNumber, s[..k])
    decreases |s| - k
  {
    if k < |s| {
      assert forall i :: k + 1 <= i < |s[..|s| - 1]| ==> s[..|s| - 1][i] == s[i];
      WindowOfOutside(limit, toNumber, s[..|s| - 1], k);
      assert s[..|s| - 1][..k] == s[..k];
    } else {
      assert s[..k] == s;
    }
  }

  /** Fast mode lists exactly the cells before the first out-of-window
      cell, and these begin the full listing of the scan. */
  lemma FastListing(limit: nat, toNumber: nat, cells: seq<Cell>)
    ensures var b := Boundary(limit, toNumber, cells);
      && Window(limit, toNumber, Visited(limit, toNumber, true, cells)) == cells[..b]
      && Window(limit, toNumber, cells[..b]) == cells[..b]
      && cells[..b] <= Window(limit, toNumber, cells)
  {
    var b := Boundary(limit, toNumber, cells);
    assert forall i :: 0 <= i < b ==> cells[..b][i] == cells[i];
    WindowOfInside(limit, toNumber, cells[..b]);
    WindowPrefix(limit, toNumber, cells, b);
    if b < |cells| {
      WindowSnoc(limit, toNumber, cells, b);
    } else {
      assert cells[..b] == cells;
    }
  }

  /** A fast scan that stops early has counted one cell more in its totals
      than it lists: the boundary cell, visited but outside the window. A
      fast scan that runs to the end lists every cell it counts. */
  lemma FastTotalCountsBoundary(limit: nat, toNumber: nat, cells: seq<Cell>)
    ensures var visited := Visited(limit, toNumber, true, cells);
      |visited| == |Window(limit, toNumber, visited)|
                   + if Boundary(limit, toNumber, cells) < |cells| then 1 else 0
  {
    FastListing(limit, toNumber, cells);
  }

  predicate BlockOrdered(cells: seq<Cell>)
  {
    forall i, j :: 0 <= i <= j < |cells| ==> cells[i].number <= cells[j].number
  }

  /** When the scan yields cells in block order, as the index does for a
      lock hash, fast mode loses nothing: once one cell is past the window
      every later one is too. */
  lemma FastIsFullWhenOrdered(limit: nat, toNumber: nat, cells: seq<Cell>)
    requires BlockOrdered(cells)
    ensures Window(limit, toNumber, Visited(limit, toNumber, true, cells)) == Window(limit, toNumber, cells)
  {
    var b := Boundary(limit, toNumber, cells);
    FastListing(limit, toNumber, cells);
    if b < |cells| {
      forall i | b <= i < |cells| ensures !InWindow(limit, toNumber, i, cells[i]) {
        assert cells[b].number <= cells[i].number;
      }
      WindowOfOutside(limit, toNumber, cells, b);
    }
  }

  /** The `terminator` closure of `get_live_cells` with the four counters
      it captures. */
  class WindowedLister {
    const limit: nat
    const toNumber: nat
    const fastMode: bool
    var totalCount: nat
    var totalCapacity: nat
    var currentCount: nat
    var currentCapacity: nat

    constructor (toNumber: nat, limit: nat, fastMode: bool)
      ensures this.toNumber == toNumber && this.limit == limit && this.fastMode == fastMode
      ensures totalCount == 0 && totalCapacity == 0 && currentCount == 0 && currentCapacity == 0
    {
      this.toNumber, this.limit, this.fastMode := toNumber, limit, fastMode;
      totalCount, totalCapacity, currentCount, currentCapacity := 0, 0, 0, 0;
    }

    /** One call of the closure: every visited cell is counted in the
        totals; the cell is kept, and counted in the current sums, exactly
        when it is in the window; the scan is told to stop only in fast
        mode, at a cell outside the window. */
    method Terminate(idx: nat, info: Cell) returns (stop: bool, collect: bool)
      modifies this
      ensures collect <==> InWindow(limit, toNumber, idx, info)
      ensures stop <==> fastMode && !InWindow(limit, toNumber, idx, info)
      ensures totalCount == old(totalCount) + 1 && totalCapacity == old(totalCapacity) + info.capacity
      ensures currentCount == old(currentCount) + if collect then 1 else 0
      ensures currentCapacity == old(currentCapacity) + if collect then info.capacity else 0
    {
      var outside := idx >= limit || info.number > toNumber;
      var pushInfo := !outside;
      totalCount := totalCount + 1;
      totalCapacity := totalCapacity + info.capacity;
      if pushInfo {
        currentCount := currentCount + 1;
        currentCapacity := currentCapacity + info.capacity;
      }
      stop, collect := fastMode && outside, pushInfo;
    }

    /** The caller's scan driven by this policy: cells are visited in order
        with their position as `idx`, kept when the policy says collect, and
        the scan ends when it says stop. What it keeps is the window of the
        visited cells; the totals cover every visited cell. */
    method Scan(cells: seq<Cell>) returns (infos: seq<Cell>)
      modifies this
      ensures infos == Window(limit, toNumber, Visited(limit, toNumber, fastMode, cells))
      ensures totalCount == old(totalCount) + |Visited(limit, toNumber, fastMode, cells)|
      ensures totalCapacity == old(totalCapacity) + Capacity(Visited(limit, toNumber, fastMode, cells))
      ensures currentCount == old(currentCount) + |infos|
      ensures currentCapacity == old(currentCapacity) + Capacity(infos)
    {
      var b := Boundary(limit, toNumber, cells);
      infos := [];
      var idx := 0;
      while idx < |cells|
        invariant idx <= |cells|
        invariant fastMode ==> idx <= b
        invariant infos == Window(limit, toNumber, cells[..idx])
        invariant totalCount == old(totalCount) + idx
        invariant totalCapacity == old(totalCapacity) + Capacity(cells[..idx])
        invariant currentCount == old(currentCount) + |infos|
        invariant currentCapacity == old(currentCapacity) + Capacity(infos)
      {
        var cell := cells[idx];
        var stop, collect := Terminate(idx, cell);
        ScanStep(limit, toNumber, cells, idx);
        if collect {
          CapacitySnoc(infos, cell);
          infos := infos + [cell];
        }
        if stop {
          VisitedUpToStop(limit, toNumber, cells, idx);
          return;
        }
        if fastMode {
          InsideBeforeBoundary(limit, toNumber, cells, idx);
        }
        idx := idx + 1;
      }
      VisitedWhole(limit, toNumber, fastMode, cells);
    }
  }

  /** What a scan lists, in either mode: at most `limit` cells, none past
      `toNumber`, all from the scan; outside fast mode no more cells and
      capacity than the whole scan; in fast mode exactly the cells before
      the first out-of-window cell. */
  lemma ListingBounds(limit: nat, toNumber: nat, fastMode: bool, cells: seq<Cell>)
    ensures var w := Window(limit, toNumber, Visited(limit, toNumber, fastMode, cells));
      && |w| <= limit
      && (forall i :: 0 <= i < |w| ==> w[i].number <= toNumber && w[i] in cells)
      && (!fastMode ==> |w| <= |cells| && Capacity(w) <= Capacity(cells))
      && (fastMode ==> |w| == Boundary(limit, toNumber, cells))
  {
    var visited := Visited(limit, toNumber, fastMode, cells);
    WindowBounds(limit, toNumber, visited);
    assert forall c :: c in visited ==> c in cells;
    if fastMode {
      FastListing(limit, toNumber, cells);
    }
  }

  /** A listed cell with its maturity verdict (`LiveCell`). */
  datatype LiveCell = LiveCell(info: Cell, mature: bool)

  /** What `get_live_cells` reports: the listed cells and their count and
      capacity (`LiveCells`). */
  datatype LiveCells = LiveCells(liveCells: seq<LiveCell>, currentCount: nat, currentCapacity: nat)

  /** `get_live_cells`: run the caller's scan (`cells`, in the order it
      yields them) with the windowed policy, mark each listed cell with its
      maturity, and report the totals only outside fast mode. */
  method GetLiveCells(cells: seq<Cell>, toNumber: nat, limit: nat, fastMode: bool)
    returns (listed: LiveCells, total: Option<(nat, nat)>)
    ensures var w := Window(limit, toNumber, Visited(limit, toNumber, fastMode, cells));
      && |listed.liveCells| == |w| == listed.currentCount
      && (forall i :: 0 <= i < |w| ==> listed.liveCells[i] == LiveCell(w[i], w[i].mature))
      && listed.currentCapacity == Capacity(w)
    ensures listed.currentCount <= limit
    ensures forall i :: 0 <= i < |listed.liveCells| ==>
      listed.liveCells[i].info.number <= toNumber && listed.liveCells[i].info in cells
    ensures total.None? <==> fastMode
    ensures !fastMode ==> total == Some((|cells|, Capacity(cells)))
    ensures !fastMode ==> listed.currentCount <= total.value.0 && listed.currentCapacity <= total.value.1
    ensures fastMode ==> |listed.liveCells| == Boundary(limit, toNumber, cells)
  {
    var lister := new WindowedLister(toNumber, limit, fastMode);
    var infos := lister.Scan(cells);
    var liveCells := seq(|infos|, i requires 0 <= i < |infos| => LiveCell(infos[i], infos[i].mature));
    listed := LiveCells(liveCells, lister.currentCount, lister.currentCapacity);
    total := if fastMode then None else Some((lister.totalCount, lister.totalCapacity));
    ListingBounds(limit, toNumber, fastMode, cells);
  }
}
