// What ScanMatcher::registerScan does to the grid: for every beam of the
// range, the last cell of the line from the laser cell to the endpoint cell
// is written as an obstacle at the endpoint, and then every other cell of the
// line is written as free, beam after beam, so that later writes win.

module Registration {
  import opened Common
  import opened MatchScore

  /** Occupancy{0.0, 1.0, 0.0, 0.0} */
  const FreeValue := Occupancy(0.0, 1.0, 0.0, 0.0)

  /** Occupancy{1.0, 1.0, spx, spy} */
  function HitValue(sp: Point2D): Occupancy
  {
    Occupancy(1.0, 1.0, sp.x, sp.y)
  }

  /** Writes the free value into the cells of `ps`, in order. */
  function MarkFree(cells: map<Cell, Occupancy>, ps: seq<Cell>): map<Cell, Occupancy>
    decreases |ps|
  {
    if ps == [] then cells else MarkFree(cells, ps[..|ps| - 1])[ps[|ps| - 1] := FreeValue]
  }

  /** The listed cells become free; every other cell keeps its entry. */
  lemma {:induction false} MarkFreeAt(cells: map<Cell, Occupancy>, ps: seq<Cell>, c: Cell)
    ensures var r := MarkFree(cells, ps);
      && (c in ps ==> c in r && r[c] == FreeValue)
      && (c !in ps ==> (c in r <==> c in cells) && (c in cells ==> r[c] == cells[c]))
    decreases |ps|
  {
    if ps != [] {
      MarkFreeAt(cells, ps[..|ps| - 1], c);
      assert ps == ps[..|ps| - 1] + [ps[|ps| - 1]];
    }
  }

  /** One beam's line: everything but its last cell. */
  function FreePart(ln: seq<Cell>): seq<Cell>
    requires |ln| > 0
  {
    ln[..|ln| - 1]
  }

  /** The obstacle value written at the last cell of the line, then the free
      value at the other cells. */
  function WriteBeam(cells: map<Cell, Occupancy>, ln: seq<Cell>, sp: Point2D): map<Cell, Occupancy>
    requires |ln| > 0
  {
    MarkFree(cells[ln[|ln| - 1] := HitValue(sp)], FreePart(ln))
  }

  /** What one beam leaves in a cell of its line: free when the cell occurs
      before the end of the line (the free writes come last), the obstacle
      at the endpoint otherwise. */
  function BeamValue(ln: seq<Cell>, sp: Point2D, c: Cell): Occupancy
    requires |ln| > 0
  {
    if c in FreePart(ln) then FreeValue else HitValue(sp)
  }

  /** A beam writes exactly the cells of its line, each with its beam value. */
  lemma WriteBeamAt(cells: map<Cell, Occupancy>, ln: seq<Cell>, sp: Point2D, c: Cell)
    requires |ln| > 0
    ensures var r := WriteBeam(cells, ln, sp);
      && (c in ln ==> c in r && r[c] == BeamValue(ln, sp, c))
      && (c !in ln ==> (c in r <==> c in cells) && (c in cells ==> r[c] == cells[c]))
  {
    MarkFreeAt(cells[ln[|ln| - 1] := HitValue(sp)], FreePart(ln), c);
    assert ln == FreePart(ln) + [ln[|ln| - 1]];
  }

  /** The inputs of one registration: world_to_cell, the line rasteriser,
      the laser pose, the beams, the margin and the floating-point library. */
  datatype Sweep = Sweep(toCell: (real, real) -> Cell, line: LineFn, lp: RobotPose,
                         scan: seq<Beam>, margin: nat, m: Elementary)

  /** Beam j's endpoint. */
  function SweepPoint(sw: Sweep, j: int): Point2D
    requires 0 <= j < |sw.scan|
  {
    BeamEndpoint(sw.lp, sw.scan[j], sw.m)
  }

  /** Beam j's line, from the laser cell to the endpoint cell. */
  function SweepLine(sw: Sweep, j: int): (ln: seq<Cell>)
    requires 0 <= j < |sw.scan|
    ensures |ln| > 0
    ensures var sp := SweepPoint(sw, j); ln[|ln| - 1] == sw.toCell(sp.x, sp.y)
  {
    var sp := SweepPoint(sw, j);
    sw.line(sw.toCell(sw.lp.x, sw.lp.y), sw.toCell(sp.x, sp.y))
  }

  /** The grid after beams margin .. hi-1 have been written. */
  function Registered(cells: map<Cell, Occupancy>, sw: Sweep, hi: int): map<Cell, Occupancy>
    requires sw.margin <= hi <= |sw.scan|
    decreases hi
  {
    if hi == sw.margin then cells
    else WriteBeam(Registered(cells, sw, hi - 1), SweepLine(sw, hi - 1), SweepPoint(sw, hi - 1))
  }

  /** A cell on no beam's line keeps its entry, or stays unwritten. */
  lemma {:induction false} RegisteredUntouched(cells: map<Cell, Occupancy>, sw: Sweep, hi: int, c: Cell)
    requires sw.margin <= hi <= |sw.scan|
    requires forall j :: sw.margin <= j < hi ==> c !in SweepLine(sw, j)
    ensures var r := Registered(cells, sw, hi);
      (c in r <==> c in cells) && (c in cells ==> r[c] == cells[c])
    decreases hi
  {
    if hi > sw.margin {
      RegisteredUntouched(cells, sw, hi - 1, c);
      WriteBeamAt(Registered(cells, sw, hi - 1), SweepLine(sw, hi - 1), SweepPoint(sw, hi - 1), c);
    }
  }

  /** A cell holds what the last beam whose line crosses it left there. */
  lemma {:induction false} RegisteredLastWriter(cells: map<Cell, Occupancy>, sw: Sweep, hi: int, j: int, c: Cell)
    requires sw.margin <= j < hi <= |sw.scan|
    requires c in SweepLine(sw, j)
    requires forall k :: j < k < hi ==> c !in SweepLine(sw, k)
    ensures var r := Registered(cells, sw, hi);
      c in r && r[c] == BeamValue(SweepLine(sw, j), SweepPoint(sw, j), c)
    decreases hi
  {
    if hi - 1 == j {
      WriteBeamAt(Registered(cells, sw, j), SweepLine(sw, j), SweepPoint(sw, j), c);
    } else {
      RegisteredLastWriter(cells, sw, hi - 1, j, c);
      WriteBeamAt(Registered(cells, sw, hi - 1), SweepLine(sw, hi - 1), SweepPoint(sw, hi - 1), c);
    }
  }

  /** Registration only adds entries: every cell written before stays written. */
  lemma {:induction false} RegisteredGrows(cells: map<Cell, Occupancy>, sw: Sweep, hi: int)
    requires sw.margin <= hi <= |sw.scan|
    ensures cells.Keys <= Registered(cells, sw, hi).Keys
    decreases hi
  {
    if hi > sw.margin {
      RegisteredGrows(cells, sw, hi - 1);
      var prev := Registered(cells, sw, hi - 1);
      forall c | c in prev
        ensures c in Registered(cells, sw, hi)
      {
        WriteBeamAt(prev, SweepLine(sw, hi - 1), SweepPoint(sw, hi - 1), c);
      }
    }
  }
}
